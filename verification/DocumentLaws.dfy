/** When the view is denied, updating or in error, told from the history alone. */
module DocumentLaws {
  import opened Outcomes
  import opened DocumentView

  /** A response to the request that was started last, for its scope. */
  predicate Current(scope: string, trace: seq<Action>, k: nat)
    requires k < |trace|
  {
    var start := LastStart(scope, trace[..k]);
    !trace[k].Start? && trace[k].scope == start.scope && trace[k].request == start.request
  }

  predicate Denies(scope: string, trace: seq<Action>, k: nat)
    requires k < |trace|
  {
    && Current(scope, trace, k) && trace[k].Failed? && trace[k].cause.Problem?
    && (trace[k].cause.status == 401 || trace[k].cause.status == 403 || trace[k].cause.status == 404)
  }

  /** A start for another scope, or a current load. */
  predicate Renews(scope: string, trace: seq<Action>, k: nat)
    requires k < |trace|
  {
    if trace[k].Start? then trace[k].scope != LastStart(scope, trace[..k]).scope
    else Current(scope, trace, k) && trace[k].Loaded?
  }

  predicate Fails(scope: string, trace: seq<Action>, k: nat)
    requires k < |trace|
  {
    Current(scope, trace, k) && trace[k].Failed?
  }

  predicate Answers(scope: string, trace: seq<Action>, k: nat)
    requires k < |trace|
  {
    Current(scope, trace, k) && (trace[k].Loaded? || trace[k].Failed?)
  }

  /** Something happened at a position, and nothing of another kind after it. */
  ghost predicate Since(p: nat -> bool, q: nat -> bool, n: nat)
  {
    exists k: nat :: k < n && p(k) && forall i: nat :: k < i < n ==> !q(i)
  }

  lemma SinceStep(p: nat -> bool, q: nat -> bool, n: nat)
    ensures Since(p, q, n + 1) <==> p(n) || (Since(p, q, n) && !q(n))
  {
    if Since(p, q, n + 1) {
      var k: nat :| k < n + 1 && p(k) && forall i: nat :: k < i < n + 1 ==> !q(i);
    }
    if p(n) {
      assert forall i: nat :: n < i < n + 1 ==> !q(i);
    }
    if Since(p, q, n) && !q(n) {
      var k: nat :| k < n && p(k) && forall i: nat :: k < i < n ==> !q(i);
      assert forall i: nat :: k < i < n + 1 ==> !q(i);
    }
  }

  lemma SinceSame(p: nat -> bool, q: nat -> bool, p': nat -> bool, q': nat -> bool, n: nat)
    requires forall k: nat :: k < n ==> p(k) == p'(k) && q(k) == q'(k)
    ensures Since(p, q, n) <==> Since(p', q', n)
  {
    if Since(p, q, n) {
      var k: nat :| k < n && p(k) && forall i: nat :: k < i < n ==> !q(i);
      assert p'(k);
    }
    if Since(p', q', n) {
      var k: nat :| k < n && p'(k) && forall i: nat :: k < i < n ==> !q'(i);
      assert p(k);
    }
  }

  ghost function Denials(scope: string, trace: seq<Action>): nat -> bool
  {
    (k: nat) => k < |trace| && Denies(scope, trace, k)
  }

  ghost function Renewals(scope: string, trace: seq<Action>): nat -> bool
  {
    (k: nat) => k < |trace| && Renews(scope, trace, k)
  }

  ghost function Starts(trace: seq<Action>): nat -> bool
  {
    (k: nat) => k < |trace| && trace[k].Start?
  }

  ghost function StartsAndAnswers(scope: string, trace: seq<Action>): nat -> bool
  {
    (k: nat) => k < |trace| && (trace[k].Start? || Answers(scope, trace, k))
  }

  ghost function FailuresOf(scope: string, trace: seq<Action>, cause: Cause): nat -> bool
  {
    (k: nat) => k < |trace| && Fails(scope, trace, k) && trace[k].cause == cause
  }

  ghost function RenewalsAndFailures(scope: string, trace: seq<Action>): nat -> bool
  {
    (k: nat) => k < |trace| && (Renews(scope, trace, k) || Fails(scope, trace, k))
  }

  lemma FrontFacts(scope: string, trace: seq<Action>, k: nat)
    requires k < |trace| - 1
    ensures var front := trace[..|trace| - 1];
      && front[k] == trace[k] && Current(scope, front, k) == Current(scope, trace, k)
      && Renews(scope, front, k) == Renews(scope, trace, k)
  {
    assert trace[..|trace| - 1][..k] == trace[..k];
  }

  lemma Fronts(scope: string, trace: seq<Action>)
    requires trace != []
    ensures var front := trace[..|trace| - 1];
      forall k :: 0 <= k < |front| ==>
        && front[k] == trace[k] && Denies(scope, front, k) == Denies(scope, trace, k)
        && Renews(scope, front, k) == Renews(scope, trace, k) && Fails(scope, front, k) == Fails(scope, trace, k)
        && Answers(scope, front, k) == Answers(scope, trace, k)
  {
    var front := trace[..|trace| - 1];
    forall k | 0 <= k < |front|
      ensures && front[k] == trace[k] && Denies(scope, front, k) == Denies(scope, trace, k)
              && Renews(scope, front, k) == Renews(scope, trace, k) && Fails(scope, front, k) == Fails(scope, trace, k)
              && Answers(scope, front, k) == Answers(scope, trace, k)
    {
      FrontFacts(scope, trace, k);
    }
  }

  /** One more action. */
  lemma LastStep(scope: string, trace: seq<Action>)
    requires trace != [] && StartsIncrease(scope, trace)
    ensures var n := |trace| - 1;
      var before, after := Reach(scope, trace[..n]), Reach(scope, trace);
      && after.denied == (Denies(scope, trace, n) || (before.denied && !Renews(scope, trace, n)))
      && after.updating == (trace[n].Start? || (before.updating && !Answers(scope, trace, n)))
      && after.error == (if Fails(scope, trace, n) then Some(trace[n].cause)
                         else if Renews(scope, trace, n) then None else before.error)
  {
    var n := |trace| - 1;
    StartsIncreasePrefix(scope, trace, n);
    StateFollowsLastStart(scope, trace[..n]);
  }

  /** Access is denied exactly when a current failure with status 401, 403 or 404 was not followed by a current load
      or a change of scope. */
  lemma {:induction false} DeniedExactly(scope: string, trace: seq<Action>)
    requires StartsIncrease(scope, trace)
    ensures Reach(scope, trace).denied <==> Since(Denials(scope, trace), Renewals(scope, trace), |trace|)
    decreases |trace|
  {
    hide Since;
    if trace == [] {
      NeverSince(Denials(scope, trace), Renewals(scope, trace));
    } else {
      var n := |trace| - 1;
      var front := trace[..n];
      StartsIncreasePrefix(scope, trace, n);
      DeniedExactly(scope, front);
      LastStep(scope, trace);
      Fronts(scope, trace);
      hide Reach, Denies, Renews, StartsIncrease;
      SinceStep(Denials(scope, trace), Renewals(scope, trace), n);
      SinceSame(Denials(scope, front), Renewals(scope, front), Denials(scope, trace), Renewals(scope, trace), n);
    }
  }

  lemma NeverSince(p: nat -> bool, q: nat -> bool)
    ensures !Since(p, q, 0)
  {
  }

  /** The view is updating exactly when its last start, which is not the mount, has no current load or failure yet. */
  lemma {:induction false} UpdatingExactly(scope: string, trace: seq<Action>)
    requires StartsIncrease(scope, trace)
    ensures Reach(scope, trace).updating <==> Since(Starts(trace), StartsAndAnswers(scope, trace), |trace|)
    decreases |trace|
  {
    hide Since;
    if trace == [] {
      NeverSince(Starts(trace), StartsAndAnswers(scope, trace));
    } else {
      var n := |trace| - 1;
      var front := trace[..n];
      StartsIncreasePrefix(scope, trace, n);
      UpdatingExactly(scope, front);
      LastStep(scope, trace);
      Fronts(scope, trace);
      hide Reach, Answers, StartsIncrease;
      SinceStep(Starts(trace), StartsAndAnswers(scope, trace), n);
      SinceSame(Starts(front), StartsAndAnswers(scope, front), Starts(trace), StartsAndAnswers(scope, trace), n);
    }
  }

  /** The error shown is that of the last current failure since the last current load or change of scope. */
  lemma {:induction false} ErrorExactly(scope: string, trace: seq<Action>, cause: Cause)
    requires StartsIncrease(scope, trace)
    ensures Reach(scope, trace).error == Some(cause)
            <==> Since(FailuresOf(scope, trace, cause), RenewalsAndFailures(scope, trace), |trace|)
    decreases |trace|
  {
    hide Since;
    if trace == [] {
      NeverSince(FailuresOf(scope, trace, cause), RenewalsAndFailures(scope, trace));
    } else {
      var n := |trace| - 1;
      var front := trace[..n];
      StartsIncreasePrefix(scope, trace, n);
      ErrorExactly(scope, front, cause);
      LastStep(scope, trace);
      Fronts(scope, trace);
      hide Reach, Fails, Renews, StartsIncrease;
      SinceStep(FailuresOf(scope, trace, cause), RenewalsAndFailures(scope, trace), n);
      SinceSame(FailuresOf(scope, front, cause), RenewalsAndFailures(scope, front),
                FailuresOf(scope, trace, cause), RenewalsAndFailures(scope, trace), n);
    }
  }

  /** A current failure keeps the list exactly when it is no problem response, or one with status 429 or from 500 on;
      otherwise the list is gone. */
  lemma FailureKeepsList(scope: string, trace: seq<Action>, cause: Cause)
    requires StartsIncrease(scope, trace)
    ensures var start := LastStart(scope, trace);
      var after := Reach(scope, trace + [Failed(start.scope, start.request, cause)]);
      after.documents == match cause
        case Other => Reach(scope, trace).documents
        case Problem(status) => if status == 429 || status >= 500 then Reach(scope, trace).documents else None
  {
    StateFollowsLastStart(scope, trace);
    var failed := Failed(LastStart(scope, trace).scope, LastStart(scope, trace).request, cause);
    assert (trace + [failed])[..|trace|] == trace;
  }

  // ---- What a change of scope and a removal do ----

  /** A removal takes out the items of the removed identifiers and keeps the others as they stand: one more item at
      the end of the list stays there exactly when its identifier is not removed. */
  lemma {:induction false} RemovalKeepsOthers(items: seq<Item>, item: Item, ids: set<string>)
    ensures Without(items + [item], ids) == Without(items, ids) + if item.id in ids then [] else [item]
    ensures Without([], ids) == []
    decreases |items|
  {
    FirstItem(items + [item], ids);
    if items == [] {
      assert items + [item] == [item] && [item][1..] == [];
    } else {
      FirstItem(items, ids);
      hide Without;
      var first, rest := items[0], items[1..];
      RemovalKeepsOthers(rest, item, ids);
      assert (items + [item])[0] == first && (items + [item])[1..] == rest + [item];
      Associates(if first.id in ids then [] else [first], Without(rest, ids), if item.id in ids then [] else [item]);
    }
  }

  lemma Associates(a: seq<Item>, b: seq<Item>, c: seq<Item>)
    ensures a + (b + c) == a + b + c
  {
  }

  lemma FirstItem(items: seq<Item>, ids: set<string>)
    requires items != []
    ensures Without(items, ids) == (if items[0].id in ids then [] else [items[0]]) + Without(items[1..], ids)
  {
  }

  /** Selecting another scope forgets everything; nothing is known of it yet, unless no project is selected at all,
      which has no documents.  Starting again in the same scope keeps what is shown. */
  lemma StartsMean(scope: string, trace: seq<Action>, to: string, request: nat)
    requires StartsIncrease(scope, trace) && LastStart(scope, trace).request < request
    ensures var before, after := Reach(scope, trace), Reach(scope, trace + [Start(to, request)]);
      && after.scope == to && after.request == request && after.updating
      && (to == LastStart(scope, trace).scope ==>
            (after.documents, after.error, after.denied) == (before.documents, before.error, before.denied))
      && (to != LastStart(scope, trace).scope ==>
            after.error.None? && !after.denied && after.documents == (if to == "" then Some([]) else None))
    ensures var first := Reach(scope, []);
      first.documents == (if scope == "" then Some([]) else None) && first.error.None? && !first.denied && !first.updating
  {
    StateFollowsLastStart(scope, trace);
    assert (trace + [Start(to, request)])[..|trace|] == trace;
  }

  /** A start that comes after a newer one changes nothing. */
  lemma OldStartIgnored(scope: string, trace: seq<Action>, to: string, request: nat)
    requires StartsIncrease(scope, trace) && request < LastStart(scope, trace).request
    ensures Reach(scope, trace + [Start(to, request)]) == Reach(scope, trace)
  {
    StateFollowsLastStart(scope, trace);
    assert (trace + [Start(to, request)])[..|trace|] == trace;
  }
}
