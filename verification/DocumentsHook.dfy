/** The hook that drives the document reducer: it numbers requests, aborts the pending one at every start and
    drops what comes back after an abort. */
module DocumentsHook {
  import opened Outcomes
  import opened DocumentView

  /** Starts carry the numbers 1, 2, 3, ..., and a response carries the number of a start before it. */
  ghost predicate Numbered(trace: seq<Action>, generation: nat)
  {
    && (forall k :: 0 <= k < |trace| ==> 1 <= trace[k].request <= generation)
    && (forall i, k :: 0 <= i < k < |trace| && trace[k].Start? ==> trace[i].request < trace[k].request)
  }

  lemma {:induction false} LastStartBelow(scope: string, trace: seq<Action>, bound: nat)
    requires 0 < bound && forall k :: 0 <= k < |trace| ==> trace[k].request < bound
    ensures LastStart(scope, trace).request < bound
    decreases |trace|
  {
    if trace != [] && !trace[|trace| - 1].Start? {
      LastStartBelow(scope, trace[..|trace| - 1], bound);
    }
  }

  lemma NumberedIncrease(scope: string, trace: seq<Action>, generation: nat)
    requires Numbered(trace, generation)
    ensures StartsIncrease(scope, trace)
  {
    forall k | 0 <= k < |trace| && trace[k].Start?
      ensures LastStart(scope, trace[..k]).request < trace[k].request
    {
      LastStartBelow(scope, trace[..k], trace[k].request);
    }
  }

  /** No dispatched response belongs to a superseded request. */
  ghost predicate NoneSuperseded(scope: string, trace: seq<Action>)
  {
    forall k :: 0 <= k < |trace| && !trace[k].Start? ==> trace[k].request == LastStart(scope, trace[..k]).request
  }

  lemma SupersededSnoc(scope: string, trace: seq<Action>, action: Action)
    requires NoneSuperseded(scope, trace)
    requires action.Start? || action.request == LastStart(scope, trace).request
    ensures NoneSuperseded(scope, trace + [action])
  {
    var longer := trace + [action];
    forall k | 0 <= k < |longer| && !longer[k].Start?
      ensures longer[k].request == LastStart(scope, longer[..k]).request
    {
      assert longer[..k] == trace[..k];
      if k == |trace| {
        assert trace[..k] == trace;
      }
    }
  }

  lemma NumberedSnoc(trace: seq<Action>, generation: nat, scope: string)
    requires Numbered(trace, generation)
    ensures Numbered(trace + [Start(scope, generation + 1)], generation + 1)
  {
    var longer := trace + [Start(scope, generation + 1)];
    assert forall k :: 0 <= k < |trace| ==> longer[k] == trace[k];
  }

  lemma LastStartSnoc(scope: string, trace: seq<Action>, start: Action)
    requires start.Start?
    ensures LastStart(scope, trace + [start]) == start
  {
  }

  class UseDocuments {
    const mounted: string
    var state: State
    var generation: nat
    var pending: Option<nat>
    var aborted: set<nat>
    /** Everything dispatched so far. */
    ghost var trace: seq<Action>

    ghost predicate Valid()
      reads this
    {
      && state == Reach(mounted, trace)
      && Numbered(trace, generation)
      && NoneSuperseded(mounted, trace)
      && (pending.Some? ==> 1 <= pending.value <= generation && LastStart(mounted, trace).request == pending.value)
      && (forall r :: 1 <= r <= generation && pending != Some(r) ==> r in aborted)
    }

    constructor (project: string)
      ensures Valid() && mounted == project && trace == [] && generation == 0
    {
      mounted, state, generation, pending, aborted, trace := project, EmptyState(project), 0, None, {}, [];
    }

    method Dispatch(action: Action)
      modifies this`state, this`trace
      requires state == Reach(mounted, trace)
      ensures state == Reach(mounted, trace) && trace == old(trace) + [action]
    {
      state := Reduce(state, action);
      trace := trace + [action];
      assert trace[..|trace| - 1] == old(trace);
    }

    /** Begins a request for a project: the pending one is aborted, the new one gets the next number. */
    method Begin(project: string) returns (request: nat)
      requires Valid()
      modifies this
      ensures Valid() && request == old(generation) + 1 == generation && pending == Some(request)
      ensures trace == old(trace) + [Start(project, request)]
    {
      hide Numbered, NoneSuperseded, LastStart, Reach, Reduce;
      if pending.Some? {
        aborted := aborted + {pending.value};
      }
      generation := generation + 1;
      request := generation;
      pending := Some(request);
      SupersededSnoc(mounted, trace, Start(project, request));
      NumberedSnoc(trace, generation - 1, project);
      LastStartSnoc(mounted, trace, Start(project, request));
      Dispatch(Start(project, request));
    }

    /** A response or a failure of a request arrives; after an abort it is dropped. */
    method Arrive(action: Action)
      requires Valid() && !action.Start? && 1 <= action.request <= generation
      modifies this`state, this`trace
      ensures Valid()
      ensures trace == if action.request in aborted then old(trace) else old(trace) + [action]
    {
      if action.request !in aborted {
        SupersededSnoc(mounted, trace, action);
        Dispatch(action);
      }
    }

    /** The view unmounts or changes project. */
    method Cleanup()
      requires Valid()
      modifies this`aborted
      ensures Valid()
      ensures forall r :: 1 <= r <= generation ==> r in aborted
    {
      if pending.Some? {
        aborted := aborted + {pending.value};
      }
    }

    /** Begins to delete a document, unless nothing is selected, access is denied or a request is under way. */
    method BeginRemove(project: string) returns (request: Option<nat>)
      requires Valid()
      modifies this
      ensures Valid()
      ensures request.Some? <==> project != "" && !old(state.denied) && !old(state.updating)
      ensures request.None? ==> trace == old(trace)
      ensures request.Some? ==> trace == old(trace) + [Start(project, request.value)] && pending == request
    {
      if project == "" || state.denied || state.updating {
        return None;
      }
      var r := Begin(project);
      return Some(r);
    }
  }

  /** Whatever the hook has gone through: its history has increasing starts and no superseded response, the list
      it holds is explained by it, and the view of a project shows only documents of that project. */
  lemma HookExplained(u: UseDocuments, project: string, item: Item)
    requires u.Valid()
    ensures StartsIncrease(u.mounted, u.trace) && NoneSuperseded(u.mounted, u.trace)
    ensures ShownIs(u.mounted, u.trace, u.state.documents)
    ensures var shown := Visible(u.state, project).documents;
      shown.Some? && item in shown.value ==>
        exists k :: LastSettled(u.mounted, u.trace, k) && u.trace[k].Loaded? && u.trace[k].scope == project
                    && item in u.trace[k].documents
  {
    NumberedIncrease(u.mounted, u.trace, u.generation);
    DocumentsExplained(u.mounted, u.trace);
    var shown := Visible(u.state, project).documents;
    if shown.Some? && item in shown.value {
      VisibleBelongs(u.mounted, u.trace, project, item);
    }
  }
}
