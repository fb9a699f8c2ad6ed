/** The proposal endpoints as methods over the store, for a request whose handler is not interrupted; each
    one is the run of pipeline steps that its handler takes, whether its write succeeds or raises. */
module ProposalApi {
  import opened Basics
  import opened ProposalStore
  import opened ApprovalPipeline

  /** How the awaited `mcp_call` ended. */
  datatype Outcome = Result(value: Json) | Exception(message: string)

  /** `Raises`: the write raised, and the handler with it. */
  datatype Response = NotFound | ReplyApplied(value: Json) | ReplyFailed(message: string) | ReplyRejected | Raises(message: string)

  function RaisedBy(o: Outcome): Option<string> {
    if o.Exception? then Some(o.message) else None
  }

  // ---- A handler as pipeline steps ----

  function WriteSteps(h: nat, fault: Fault): seq<Event> {
    match fault
    case NoFault => [OfHandler(h, RowCommitted), OfHandler(h, Counted)]
    case BeforeCommit(_) => [OfHandler(h, WriteFailed)]
    case AfterCommit(_) => [OfHandler(h, RowCommitted), OfHandler(h, WriteFailed)]
  }

  function CallSteps(h: nat, id: RowId, o: Outcome): seq<Event> {
    [OfHandler(h, RowRead(id, true)), OfHandler(h, CallIssued), OfHandler(h, CallEnded(RaisedBy(o)))]
  }

  function Put(w: World, h: nat, k: Handler, tb: Table): World {
    w.(handlers := w.handlers[h := k], table := tb)
  }

  function Writing(w: World, id: RowId, o: Outcome): Handler
    requires IsPending(w.table, id)
  {
    Handler(w.table.rows[id], true, if o.Exception? then Raised(o.message) else Returned, None, false, false)
  }

  /** The world once the call of an approve handler is over. */
  function CallOver(w: World, h: nat, id: RowId, o: Outcome): World
    requires IsPending(w.table, id)
  {
    var k := Writing(w, id, o);
    Put(w, h, k, w.table).(calls := w.calls + multiset{CallOf(h, k)})
  }

  /** The world after a handler's write. */
  function Written(w: World, h: nat, fault: Fault): World
    requires h in w.handlers
  {
    var k := w.handlers[h];
    var verdict, error := Verdict(k), VerdictError(k);
    match fault
    case NoFault => Put(w, h, k.(wrote := Some(verdict), counted := true, closed := true), Count(Commit(w.table, k.seen.id, verdict, error), verdict))
    case BeforeCommit(_) => Put(w, h, k.(closed := true), w.table)
    case AfterCommit(_) => Put(w, h, k.(wrote := Some(verdict), closed := true), Commit(w.table, k.seen.id, verdict, error))
  }

  lemma TwoSteps(w: World, a: Event, b: Event)
    requires Enabled(w, a) && Enabled(Apply(w, a), b)
    ensures Runs(w, [a, b], Apply(Apply(w, a), b))
  {
    hide Apply, Enabled;
    RunsOne(w, a);
    RunsSnoc(w, [a], Apply(w, a), b);
    assert [a] + [b] == [a, b];
  }

  /** The world while the call of an approve handler is in flight. */
  function Calling(w: World, h: nat, id: RowId): World
    requires IsPending(w.table, id)
  {
    var k := Handler(w.table.rows[id], true, InFlight, None, false, false);
    Put(w, h, k, w.table).(calls := w.calls + multiset{CallOf(h, k)})
  }

  lemma ReadAndCall(w: World, h: nat, id: RowId)
    requires h !in w.handlers && IsPending(w.table, id)
    ensures Runs(w, [OfHandler(h, RowRead(id, true)), OfHandler(h, CallIssued)], Calling(w, h, id))
  {
    var read, call := OfHandler(h, RowRead(id, true)), OfHandler(h, CallIssued);
    TwoSteps(w, read, call);
    hide Runs;
    assert Apply(Apply(w, read), call).handlers == Calling(w, h, id).handlers;
  }

  lemma CallEnds(w: World, h: nat, id: RowId, o: Outcome)
    requires h !in w.handlers && IsPending(w.table, id)
    ensures var end := OfHandler(h, CallEnded(RaisedBy(o)));
      Enabled(Calling(w, h, id), end) && Apply(Calling(w, h, id), end) == CallOver(w, h, id, o)
  {
    var end := OfHandler(h, CallEnded(RaisedBy(o)));
    assert Apply(Calling(w, h, id), end).handlers == CallOver(w, h, id, o).handlers;
  }

  lemma CallRuns(w: World, h: nat, id: RowId, o: Outcome)
    requires h !in w.handlers && IsPending(w.table, id)
    ensures Runs(w, CallSteps(h, id, o), CallOver(w, h, id, o))
  {
    var read, call, end := OfHandler(h, RowRead(id, true)), OfHandler(h, CallIssued), OfHandler(h, CallEnded(RaisedBy(o)));
    ReadAndCall(w, h, id);
    CallEnds(w, h, id, o);
    hide Runs, Enabled, Apply, Calling, CallOver;
    RunsSnoc(w, [read, call], Calling(w, h, id), end);
    assert [read, call] + [end] == CallSteps(h, id, o);
  }

  lemma WriteRuns(w: World, h: nat, fault: Fault)
    requires Open(w, h) && w.handlers[h].wrote.None? && ReadyToWrite(w.handlers[h])
    ensures Runs(w, WriteSteps(h, fault), Written(w, h, fault))
  {
    hide Runs, Verdict, VerdictError, Commit, Count;
    var commit, count, fail := OfHandler(h, RowCommitted), OfHandler(h, Counted), OfHandler(h, WriteFailed);
    match fault {
      case NoFault =>
        TwoSteps(w, commit, count);
        assert Apply(Apply(w, commit), count).handlers == Written(w, h, fault).handlers;
      case BeforeCommit(_) =>
        RunsOne(w, fail);
        assert Apply(w, fail).handlers == Written(w, h, fault).handlers;
      case AfterCommit(_) =>
        TwoSteps(w, commit, fail);
        assert Apply(Apply(w, commit), fail).handlers == Written(w, h, fault).handlers;
    }
  }

  /** Read, call, answer and write lead from the world before an approve to the one after it. */
  lemma ApproveRuns(w: World, h: nat, id: RowId, o: Outcome, fault: Fault)
    requires h !in w.handlers && IsPending(w.table, id)
    ensures Runs(w, CallSteps(h, id, o) + WriteSteps(h, fault), Written(CallOver(w, h, id, o), h, fault))
  {
    CallRuns(w, h, id, o);
    WriteRuns(CallOver(w, h, id, o), h, fault);
    var over := CallOver(w, h, id, o);
    hide Runs, Written, CallSteps, WriteSteps, CallOver;
    RunsAppend(w, CallSteps(h, id, o), over, WriteSteps(h, fault), Written(over, h, fault));
  }

  lemma ApprovedTable(w: World, h: nat, id: RowId, o: Outcome, fault: Fault)
    requires IsPending(w.table, id) && w.table.rows[id].id == id
    ensures var status, error := if o.Exception? then Failed else Applied, if o.Exception? then Some(o.message) else None;
      Written(CallOver(w, h, id, o), h, fault).table == match fault
        case NoFault => SetStatus(w.table, id, status, error)
        case BeforeCommit(_) => w.table
        case AfterCommit(_) => Commit(w.table, id, status, error)
  {
    hide Commit, Count;
  }

  /** The world once a reject handler has read its row. */
  function Rejecting(w: World, h: nat, id: RowId): World
    requires IsPending(w.table, id)
  {
    Put(w, h, Handler(w.table.rows[id], false, NotCalled, None, false, false), w.table)
  }

  lemma RejectRuns(w: World, h: nat, id: RowId, fault: Fault)
    requires h !in w.handlers && IsPending(w.table, id)
    ensures Runs(w, [OfHandler(h, RowRead(id, false))] + WriteSteps(h, fault), Written(Rejecting(w, h, id), h, fault))
  {
    var read := OfHandler(h, RowRead(id, false));
    RunsOne(w, read);
    assert Apply(w, read) == Rejecting(w, h, id);
    WriteRuns(Rejecting(w, h, id), h, fault);
    hide Runs, Written, WriteSteps, Rejecting;
    RunsAppend(w, [read], Rejecting(w, h, id), WriteSteps(h, fault), Written(Rejecting(w, h, id), h, fault));
  }

  class ProposalApi {
    const store: SqliteProposalStore
    var mcpCalls: seq<(string, Json)>

    constructor (store: SqliteProposalStore)
      ensures this.store == store && mcpCalls == []
    {
      this.store, mcpCalls := store, [];
    }

    /** `apply_proposal`: the recorded action with the recorded arguments. */
    method CallRecorded(record: Record)
      modifies this
      ensures mcpCalls == old(mcpCalls) + [(record.proposed.action, record.proposed.arguments)]
    {
      mcpCalls := mcpCalls + [(record.proposed.action, record.proposed.arguments)];
    }

    /** A missing or decided row is answered 404 and nothing happens.  A pending one is called exactly
        once and then written, as the pipeline's steps do; a write that raises is the handler's answer. */
    method Approve(id: RowId, o: Outcome, fault: Fault, ghost w: World, ghost h: nat) returns (response: Response)
      requires store.Ok() && store.View() == w.table && h !in w.handlers
      modifies this, store
      ensures store.Ok()
      ensures !IsPending(old(store.View()), id) ==>
        response == NotFound && store.View() == old(store.View()) && mcpCalls == old(mcpCalls)
      ensures IsPending(old(store.View()), id) && fault.NoFault? ==>
        response == if o.Exception? then ReplyFailed(o.message) else ReplyApplied(o.value)
      ensures IsPending(old(store.View()), id) && !fault.NoFault? ==> response == Raises(fault.message)
      ensures IsPending(old(store.View()), id) ==>
        var row := old(store.rows[id]);
        id in store.rows && store.rows[id] ==
          if fault.BeforeCommit? then row
          else if o.Exception? then row.(status := Failed, error := Some(o.message)) else row.(status := Applied, error := None)
      ensures IsPending(old(store.View()), id) ==>
        mcpCalls == old(mcpCalls) + [(old(store.rows[id]).proposed.action, old(store.rows[id]).proposed.arguments)]
      ensures IsPending(old(store.View()), id) ==>
        var w' := Written(CallOver(w, h, id, o), h, fault);
        Runs(w, CallSteps(h, id, o) + WriteSteps(h, fault), w') && store.View() == w'.table
    {
      var record := store.Get(id);
      if record.None? || record.value.status != Pending {
        return NotFound;
      }
      ApproveRuns(w, h, id, o, fault);
      ApprovedTable(w, h, id, o, fault);
      hide Runs, Written, CallOver, CallSteps, WriteSteps;
      CallRecorded(record.value);
      var raised;
      if o.Exception? {
        raised := store.UpdateStatus(id, Failed, Some(o.message), fault);
      } else {
        raised := store.UpdateStatus(id, Applied, None, fault);
      }
      if raised.Some? {
        return Raises(raised.value);
      }
      return if o.Exception? then ReplyFailed(o.message) else ReplyApplied(o.value);
    }

    /** Rejecting never calls the server. */
    method Reject(id: RowId, fault: Fault, ghost w: World, ghost h: nat) returns (response: Response)
      requires store.Ok() && store.View() == w.table && h !in w.handlers
      modifies store
      ensures store.Ok()
      ensures !IsPending(old(store.View()), id) ==> response == NotFound && store.View() == old(store.View())
      ensures IsPending(old(store.View()), id) ==> response == if fault.NoFault? then ReplyRejected else Raises(fault.message)
      ensures IsPending(old(store.View()), id) ==>
        var row := old(store.rows[id]);
        id in store.rows && store.rows[id] == if fault.BeforeCommit? then row else row.(status := Rejected, error := None)
      ensures IsPending(old(store.View()), id) ==>
        var w' := Written(Rejecting(w, h, id), h, fault);
        && Runs(w, [OfHandler(h, RowRead(id, false))] + WriteSteps(h, fault), w')
        && store.View() == w'.table && w'.calls == w.calls
    {
      var record := store.Get(id);
      if record.None? || record.value.status != Pending {
        return NotFound;
      }
      RejectRuns(w, h, id, fault);
      hide Runs;
      var raised := store.UpdateStatus(id, Rejected, None, fault);
      if raised.Some? {
        return Raises(raised.value);
      }
      return ReplyRejected;
    }
  }

  /** `stats`: one query per agent, each awaited; tables[i] is the table when the i-th query is answered. */
  method Stats(agents: seq<string>, tables: seq<Table>) returns (proposals: map<string, nat>)
    requires |tables| == |agents| && forall i, j :: 0 <= i < j < |agents| ==> agents[i] != agents[j]
    requires forall i :: 0 <= i < |tables| ==> Sound(tables[i])
    ensures proposals.Keys == set a | a in agents
    ensures forall i :: 0 <= i < |agents| ==> proposals[agents[i]] == |PendingIds(tables[i], agents[i])|
  {
    hide Sound, Pendings, PendingIds;
    proposals := map[];
    for i := 0 to |agents|
      invariant forall a :: a in proposals <==> a in agents[..i]
      invariant forall j :: 0 <= j < i ==> agents[j] in proposals && proposals[agents[j]] == |PendingIds(tables[j], agents[j])|
    {
      var pending := Pendings(tables[i], Some(agents[i]));
      PendingsCount(tables[i], agents[i]);
      proposals := proposals[agents[i] := |pending|];
      assert agents[..i + 1] == agents[..i] + [agents[i]];
    }
    assert agents[..|agents|] == agents;
  }
}
