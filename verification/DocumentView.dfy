/** The document list of the web client: a reducer over starts and late, repeated or reordered responses. */
module DocumentView {
  import opened Outcomes

  datatype Item = Item(id: string, title: string)

  /** A failed request: a problem response with its status, or anything else. */
  datatype Cause = Problem(status: int) | Other

  predicate IsAccessFailure(cause: Cause)
  {
    cause.Problem? && cause.status in {401, 403, 404}
  }

  predicate IsTransientFailure(cause: Cause)
  {
    cause.Other? || cause.status == 429 || 500 <= cause.status
  }

  datatype State = State(scope: string, request: nat, documents: Option<seq<Item>>, error: Option<Cause>,
                         updating: bool, denied: bool)

  function EmptyState(scope: string): State
  {
    State(scope, 0, if scope == "" then Some([]) else None, None, false, false)
  }

  datatype Action =
    | Start(scope: string, request: nat)
    | Loaded(scope: string, request: nat, documents: seq<Item>)
    | Failed(scope: string, request: nat, cause: Cause)
    | Removed(scope: string, request: nat, id: string)

  function Without(items: seq<Item>, ids: set<string>): seq<Item>
  {
    if items == [] then []
    else (if items[0].id in ids then [] else [items[0]]) + Without(items[1..], ids)
  }

  function Reduce(state: State, action: Action): State
  {
    if action.Start? then
      if action.request < state.request then state
      else (if state.scope == action.scope then state else EmptyState(action.scope)).(request := action.request, updating := true)
    else if state.scope != action.scope || state.request != action.request then state
    else
      match action
      case Loaded(_, _, documents) => state.(documents := Some(documents), error := None, updating := false, denied := false)
      case Removed(_, _, id) =>
        state.(documents := if state.documents.Some? then Some(Without(state.documents.value, {id})) else None)
      case Failed(_, _, cause) =>
        state.(documents := if IsTransientFailure(cause) then state.documents else None, error := Some(cause),
               updating := false, denied := state.denied || IsAccessFailure(cause))
  }

  function Reach(scope: string, trace: seq<Action>): State
  {
    if trace == [] then EmptyState(scope) else Reduce(Reach(scope, trace[..|trace| - 1]), trace[|trace| - 1])
  }

  // ---- Histories whose starts increase ----

  /** The last start of a history, or the mount of the view as start number 0. */
  function LastStart(scope: string, trace: seq<Action>): (start: Action)
    ensures start.Start?
  {
    if trace == [] then Start(scope, 0)
    else if trace[|trace| - 1].Start? then trace[|trace| - 1]
    else LastStart(scope, trace[..|trace| - 1])
  }

  ghost predicate StartsIncrease(scope: string, trace: seq<Action>)
  {
    forall k :: 0 <= k < |trace| && trace[k].Start? ==> LastStart(scope, trace[..k]).request < trace[k].request
  }

  lemma StartsIncreasePrefix(scope: string, trace: seq<Action>, k: nat)
    requires StartsIncrease(scope, trace) && k <= |trace|
    ensures StartsIncrease(scope, trace[..k])
  {
    forall i | 0 <= i < k && trace[..k][i].Start?
      ensures LastStart(scope, trace[..k][..i]).request < trace[..k][i].request
    {
      assert trace[..k][..i] == trace[..i];
    }
  }

  /** The state belongs to the last start. */
  lemma {:induction false} StateFollowsLastStart(scope: string, trace: seq<Action>)
    requires StartsIncrease(scope, trace)
    ensures var state, start := Reach(scope, trace), LastStart(scope, trace);
      state.scope == start.scope && state.request == start.request
    decreases |trace|
  {
    if trace != [] {
      var n := |trace| - 1;
      StartsIncreasePrefix(scope, trace, n);
      StateFollowsLastStart(scope, trace[..n]);
    }
  }

  /** A response is stale when the last start before it was another one: its request was superseded, or it
      belongs to another scope. */
  predicate Stale(scope: string, trace: seq<Action>, k: nat)
    requires k < |trace|
  {
    var start := LastStart(scope, trace[..k]);
    !trace[k].Start? && (trace[k].scope != start.scope || trace[k].request != start.request)
  }

  /** What is left of a history after some of its actions are dropped. */
  function Kept(trace: seq<Action>, keep: seq<bool>): seq<Action>
    requires |keep| == |trace|
  {
    if trace == [] then []
    else
      var n := |trace| - 1;
      Kept(trace[..n], keep[..n]) + if keep[n] then [trace[n]] else []
  }

  /** Stale-response erasure: dropping any of the stale responses of a history, or all of them, leaves the
      final state unchanged. */
  lemma {:induction false} StaleResponsesErase(scope: string, trace: seq<Action>, keep: seq<bool>)
    requires StartsIncrease(scope, trace) && |keep| == |trace|
    requires forall k :: 0 <= k < |trace| && !keep[k] ==> Stale(scope, trace, k)
    ensures Reach(scope, Kept(trace, keep)) == Reach(scope, trace)
    decreases |trace|
  {
    if trace != [] {
      var n := |trace| - 1;
      var front, kept := trace[..n], keep[..n];
      StartsIncreasePrefix(scope, trace, n);
      forall k | 0 <= k < n && !kept[k] ensures Stale(scope, front, k) {
        assert Stale(scope, trace, k) && front[..k] == trace[..k];
      }
      StaleResponsesErase(scope, front, kept);
      if keep[n] {
        assert Kept(trace, keep)[..|Kept(trace, keep)| - 1] == Kept(front, kept);
      } else {
        assert Stale(scope, trace, n);
        StateFollowsLastStart(scope, front);
        assert Kept(trace, keep) == Kept(front, kept);
      }
    }
  }

  // ---- What is shown ----

  /** An action that settles the list on its own: a change of scope, a load, or a failure that is not transient. */
  predicate Settles(scope: string, trace: seq<Action>, k: nat)
    requires k < |trace|
  {
    match trace[k]
    case Start(s, _) => s != LastStart(scope, trace[..k]).scope
    case Loaded(_, _, _) => !Stale(scope, trace, k)
    case Failed(_, _, cause) => !Stale(scope, trace, k) && !IsTransientFailure(cause)
    case Removed(_, _, _) => false
  }

  /** The list that a settling action leaves. */
  function Settled(action: Action): Option<seq<Item>>
  {
    match action
    case Start(s, _) => EmptyState(s).documents
    case Loaded(_, _, documents) => Some(documents)
    case _ => None
  }

  /** The identifiers removed by current responses from position `k` on. */
  function RemovedFrom(scope: string, trace: seq<Action>, k: nat): set<string>
  {
    set i | k <= i < |trace| && trace[i].Removed? && !Stale(scope, trace, i) :: trace[i].id
  }

  /** What the list must be: the last settled list minus what was removed since. */
  ghost predicate ShownIs(scope: string, trace: seq<Action>, documents: Option<seq<Item>>)
  {
    || (exists k :: LastSettled(scope, trace, k) && documents == Minus(Settled(trace[k]), RemovedFrom(scope, trace, k + 1)))
    || (NoneSettled(scope, trace) && documents == Minus(EmptyState(scope).documents, RemovedFrom(scope, trace, 0)))
  }

  ghost predicate LastSettled(scope: string, trace: seq<Action>, k: int): (r: bool)
    ensures r ==> 0 <= k < |trace|
  {
    0 <= k < |trace| && Settles(scope, trace, k) && forall i :: k < i < |trace| ==> !Settles(scope, trace, i)
  }

  ghost predicate NoneSettled(scope: string, trace: seq<Action>)
  {
    forall i :: 0 <= i < |trace| ==> !Settles(scope, trace, i)
  }

  function Minus(documents: Option<seq<Item>>, ids: set<string>): Option<seq<Item>>
  {
    match documents
    case None => None
    case Some(items) => Some(Without(items, ids))
  }

  lemma {:induction false} WithoutNone(items: seq<Item>)
    ensures Without(items, {}) == items
  {
    if items != [] {
      WithoutNone(items[1..]);
    }
  }

  lemma {:induction false} WithoutTwice(items: seq<Item>, a: set<string>, b: set<string>)
    ensures Without(Without(items, a), b) == Without(items, a + b)
  {
    if items != [] {
      WithoutTwice(items[1..], a, b);
      var rest := Without(items[1..], a);
      if items[0].id in a {
        assert Without(items, a) == rest;
      } else {
        assert Without(items, a) == [items[0]] + rest && ([items[0]] + rest)[1..] == rest;
      }
    }
  }

  function RemovedLast(scope: string, trace: seq<Action>): set<string>
    requires trace != []
  {
    var n := |trace| - 1;
    if trace[n].Removed? && !Stale(scope, trace, n) then {trace[n].id} else {}
  }

  lemma LocalFacts(scope: string, trace: seq<Action>, n: nat)
    requires trace != [] && n == |trace| - 1
    ensures forall k :: 0 <= k < n ==> Stale(scope, trace, k) == Stale(scope, trace[..n], k)
    ensures forall k :: 0 <= k < n ==> Settles(scope, trace, k) == Settles(scope, trace[..n], k)
    ensures forall k :: 0 <= k <= n ==>
              RemovedFrom(scope, trace, k) == RemovedFrom(scope, trace[..n], k) + RemovedLast(scope, trace)
  {
    forall k | 0 <= k < n
      ensures Stale(scope, trace, k) == Stale(scope, trace[..n], k) && Settles(scope, trace, k) == Settles(scope, trace[..n], k)
    {
      assert trace[..n][..k] == trace[..k];
    }
  }

  /** The list after every history is the last settled list of the current scope minus the identifiers removed
      since; before any, it is that of the freshly mounted view. */
  lemma {:induction false} DocumentsExplained(scope: string, trace: seq<Action>)
    requires StartsIncrease(scope, trace)
    ensures ShownIs(scope, trace, Reach(scope, trace).documents)
    decreases |trace|
  {
    if trace == [] {
      assert RemovedFrom(scope, trace, 0) == {};
      if scope == "" {
        WithoutNone([]);
      }
    } else {
      var n := |trace| - 1;
      var front, action := trace[..n], trace[n];
      StartsIncreasePrefix(scope, trace, n);
      StateFollowsLastStart(scope, front);
      DocumentsExplained(scope, front);
      LocalFacts(scope, trace, n);
      if Settles(scope, trace, n) {
        SettledNow(scope, trace);
      } else {
        CarriedOver(scope, trace);
      }
    }
  }

  lemma SettledNow(scope: string, trace: seq<Action>)
    requires trace != [] && StartsIncrease(scope, trace) && Settles(scope, trace, |trace| - 1)
    requires var front := Reach(scope, trace[..|trace| - 1]); var start := LastStart(scope, trace[..|trace| - 1]);
      front.scope == start.scope && front.request == start.request
    ensures ShownIs(scope, trace, Reach(scope, trace).documents)
  {
    var n := |trace| - 1;
    assert RemovedFrom(scope, trace, n + 1) == {};
    var settled := Settled(trace[n]);
    if settled.Some? {
      WithoutNone(settled.value);
    }
    assert LastSettled(scope, trace, n);
  }

  lemma CarriedOver(scope: string, trace: seq<Action>)
    requires trace != [] && StartsIncrease(scope, trace) && !Settles(scope, trace, |trace| - 1)
    requires var front := Reach(scope, trace[..|trace| - 1]); var start := LastStart(scope, trace[..|trace| - 1]);
      front.scope == start.scope && front.request == start.request
    requires ShownIs(scope, trace[..|trace| - 1], Reach(scope, trace[..|trace| - 1]).documents)
    ensures ShownIs(scope, trace, Reach(scope, trace).documents)
  {
    var front, removed := trace[..|trace| - 1], RemovedLast(scope, trace);
    OnlyRemovals(scope, trace);
    hide Reach, Settles, Stale, Minus, Reduce, RemovedFrom, RemovedLast, LastSettled, NoneSettled, StartsIncrease;
    var before := Reach(scope, front).documents;
    if k :| LastSettled(scope, front, k) && before == Minus(Settled(front[k]), RemovedFrom(scope, front, k + 1)) {
      MinusTwice(Settled(front[k]), RemovedFrom(scope, front, k + 1), removed);
      StillLast(scope, trace, k);
    } else {
      MinusTwice(EmptyState(scope).documents, RemovedFrom(scope, front, 0), removed);
      StillNone(scope, trace);
    }
  }

  lemma StillLast(scope: string, trace: seq<Action>, k: int)
    requires trace != [] && !Settles(scope, trace, |trace| - 1) && LastSettled(scope, trace[..|trace| - 1], k)
    ensures LastSettled(scope, trace, k) && trace[..|trace| - 1][k] == trace[k]
    ensures RemovedFrom(scope, trace, k + 1)
            == RemovedFrom(scope, trace[..|trace| - 1], k + 1) + RemovedLast(scope, trace)
  {
    LocalFacts(scope, trace, |trace| - 1);
  }

  lemma StillNone(scope: string, trace: seq<Action>)
    requires trace != [] && !Settles(scope, trace, |trace| - 1) && NoneSettled(scope, trace[..|trace| - 1])
    ensures NoneSettled(scope, trace)
    ensures RemovedFrom(scope, trace, 0) == RemovedFrom(scope, trace[..|trace| - 1], 0) + RemovedLast(scope, trace)
  {
    LocalFacts(scope, trace, |trace| - 1);
  }

  /** An action that does not settle the list only takes out what it removes. */
  lemma OnlyRemovals(scope: string, trace: seq<Action>)
    requires trace != [] && StartsIncrease(scope, trace) && !Settles(scope, trace, |trace| - 1)
    requires var front := Reach(scope, trace[..|trace| - 1]); var start := LastStart(scope, trace[..|trace| - 1]);
      front.scope == start.scope && front.request == start.request
    ensures Reach(scope, trace).documents
            == Minus(Reach(scope, trace[..|trace| - 1]).documents, RemovedLast(scope, trace))
  {
    var before := Reach(scope, trace[..|trace| - 1]).documents;
    if before.Some? {
      WithoutNone(before.value);
    }
  }

  lemma MinusTwice(documents: Option<seq<Item>>, a: set<string>, b: set<string>)
    ensures Minus(Minus(documents, a), b) == Minus(documents, a + b)
  {
    if documents.Some? {
      WithoutTwice(documents.value, a, b);
    }
  }

  /** That determines the list. */
  lemma ShownOnce(scope: string, trace: seq<Action>, documents: Option<seq<Item>>)
    requires StartsIncrease(scope, trace)
    ensures ShownIs(scope, trace, documents) <==> documents == Reach(scope, trace).documents
  {
    DocumentsExplained(scope, trace);
    hide Reach, Minus, RemovedFrom, Settles;
    var reached := Reach(scope, trace).documents;
    if ShownIs(scope, trace, documents) {
      if k :| LastSettled(scope, trace, k) && documents == Minus(Settled(trace[k]), RemovedFrom(scope, trace, k + 1)) {
        if l :| LastSettled(scope, trace, l) && reached == Minus(Settled(trace[l]), RemovedFrom(scope, trace, l + 1)) {
          assert k == l;
        }
      }
    }
  }

  /** While access is denied nothing is shown, whatever arrives. */
  lemma {:induction false} DeniedShowsNothing(scope: string, trace: seq<Action>)
    ensures Reach(scope, trace).denied ==> Reach(scope, trace).documents.None?
    decreases |trace|
  {
    if trace != [] {
      DeniedShowsNothing(scope, trace[..|trace| - 1]);
    }
  }

  // ---- The projection ----

  /** What the view shows for the selected project while its effect may not have started yet. */
  function Visible(state: State, project: string): State
  {
    if state.scope == project then state else EmptyState(project)
  }

  /** The visible list of a project holds only documents that a current response of that very project loaded
      since it was last entered, and none that was removed since. */
  lemma VisibleBelongs(scope: string, trace: seq<Action>, project: string, item: Item)
    requires StartsIncrease(scope, trace)
    requires var shown := Visible(Reach(scope, trace), project).documents; shown.Some? && item in shown.value
    ensures exists k ::
              && LastSettled(scope, trace, k) && trace[k].Loaded? && trace[k].scope == project
              && item in trace[k].documents && item.id !in RemovedFrom(scope, trace, k + 1)
  {
    DocumentsExplained(scope, trace);
    StateFollowsLastStart(scope, trace);
    assert project == Reach(scope, trace).scope;
    var documents := Reach(scope, trace).documents;
    if k :| LastSettled(scope, trace, k) && documents == Minus(Settled(trace[k]), RemovedFrom(scope, trace, k + 1)) {
      WithoutMember(Settled(trace[k]).value, RemovedFrom(scope, trace, k + 1), item);
      ScopeSince(scope, trace, k);
    } else {
      WithoutMember(EmptyState(scope).documents.value, RemovedFrom(scope, trace, 0), item);
    }
  }

  lemma {:induction false} WithoutMember(items: seq<Item>, ids: set<string>, item: Item)
    ensures item in Without(items, ids) <==> item in items && item.id !in ids
  {
    if items != [] {
      WithoutMember(items[1..], ids, item);
      assert items == [items[0]] + items[1..];
    }
  }

  /** Without a settling action there is no change of scope. */
  lemma {:induction false} ScopeSince(scope: string, trace: seq<Action>, k: nat)
    requires LastSettled(scope, trace, k) && trace[k].Loaded?
    ensures LastStart(scope, trace).scope == trace[k].scope
    decreases |trace|
  {
    var n := |trace| - 1;
    if k < n {
      LocalFacts(scope, trace, n);
      assert !Settles(scope, trace, n);
      ScopeSince(scope, trace[..n], k);
      assert trace[..n][k] == trace[k];
    }
  }
}
