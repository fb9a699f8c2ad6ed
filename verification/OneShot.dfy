/** Proposals are one-shot when the handlers of one proposal do not overlap and what they have to write is
    committed. */
module OneShot {
  import opened Basics
  import opened ProposalStore
  import opened ApprovalPipeline
  import Timestamps

  /** A handler reads a row only while no other handler of that row is under way, and no handler ends
      before its commit.  Runs, other rows, calls, and ends after the commit interleave freely. */
  predicate Exclusive(w: World, e: Event) {
    match e
    case OfHandler(_, RowRead(id, _)) => forall h :: h in w.handlers && w.handlers[h].seen.id == id ==> w.handlers[h].closed
    case OfHandler(h, WriteFailed) => h in w.handlers && w.handlers[h].wrote.Some?
    case OfHandler(h, Cancelled) => h in w.handlers && w.handlers[h].wrote.Some?
    case _ => true
  }

  ghost predicate ExclusiveRuns(w: World, es: seq<Event>, w': World)
    decreases |es|
  {
    if es == [] then w' == w
    else Enabled(w, es[0]) && Exclusive(w, es[0]) && ExclusiveRuns(Apply(w, es[0]), es[1..], w')
  }

  /** No row was ever found pending twice, and who found it decided it or is still under way. */
  ghost predicate OnePerRow(w: World) {
    && (forall h, h' :: h in w.handlers && h' in w.handlers && w.handlers[h].seen.id == w.handlers[h'].seen.id ==> h == h')
    && (forall h :: h in w.handlers && w.handlers[h].closed ==> w.handlers[h].wrote.Some?)
  }

  /** A pending row that may be read has had no handler yet. */
  lemma UnreadRow(w: World, id: RowId, h: nat)
    requires Inv(w) && OnePerRow(w) && IsPending(w.table, id) && h in w.handlers
    requires w.handlers[h].seen.id == id ==> w.handlers[h].closed
    ensures w.handlers[h].seen.id != id
  {
    assert HandlerFits(w, h);
    hide Inv;
  }

  lemma OnePerRowMove(w: World, h: nat, move: HandlerStep)
    requires Inv(w) && OnePerRow(w) && HandlerEnabled(w, h, move) && Exclusive(w, OfHandler(h, move))
    ensures OnePerRow(HandlerApply(w, h, move))
  {
    if move.RowRead? && IsPending(w.table, move.id) {
      assert RowFits(w, move.id);
      forall d | d in w.handlers ensures w.handlers[d].seen.id != move.id {
        UnreadRow(w, move.id, d);
      }
    }
    hide Inv, Verdict, ReadyToWrite, TableAfterMove, RowFits;
  }

  lemma OnePerRowStep(w: World, e: Event)
    requires Inv(w) && OnePerRow(w) && Enabled(w, e) && Exclusive(w, e)
    ensures OnePerRow(Apply(w, e))
  {
    match e
    case OfRun(run, step) =>
      hide Inv, RunEnabled, RunAfter, TableAfterRun;
    case OfHandler(h, move) =>
      hide Inv, HandlerEnabled, HandlerApply;
      OnePerRowMove(w, h, move);
    case CacheExpired =>
  }

  lemma {:induction false} OnePerRowRuns(w: World, es: seq<Event>, w': World)
    requires Inv(w) && OnePerRow(w) && ExclusiveRuns(w, es, w')
    ensures Inv(w') && OnePerRow(w')
    decreases |es|
  {
    hide Inv, OnePerRow, Exclusive, Enabled, Apply;
    if es != [] {
      InvStep(w, es[0]);
      OnePerRowStep(w, es[0]);
      OnePerRowRuns(Apply(w, es[0]), es[1..], w');
    }
  }

  /** c is a call by a handler of this row. */
  predicate IsCallFor(w: World, id: RowId, c: Call) {
    c.ByHandler? && c.handler in w.handlers && w.handlers[c.handler].seen.id == id
  }

  ghost predicate NeverCalled(w: World, id: RowId) {
    forall c :: IsCallFor(w, id, c) ==> w.calls[c] == 0
  }

  /** Among all calls made for this row there is one, made once: handler h's, with the row's action and
      arguments. */
  ghost predicate CalledOnceBy(w: World, id: RowId, h: nat)
    requires id in w.table.rows
  {
    var it := ByHandler(h, w.table.rows[id].proposed.action, w.table.rows[id].proposed.arguments);
    IsCallFor(w, id, it) && forall c :: IsCallFor(w, id, c) ==> w.calls[c] == if c == it then 1 else 0
  }

  /** The life of one row and of the calls made for it. */
  ghost predicate DecidedOnce(w: World, id: RowId) {
    id in w.table.rows &&
    match w.table.rows[id].status
    case Pending => NeverCalled(w, id) || exists h :: CalledOnceBy(w, id, h) && Open(w, h)
    case Applied => exists h :: CalledOnceBy(w, id, h) && w.handlers[h].call == Returned
    case Failed => exists h :: CalledOnceBy(w, id, h) && w.handlers[h].call.Raised?
    case Rejected => NeverCalled(w, id)
  }

  /** The calls for a row are those of its one handler. */
  lemma CallsOfOneHandler(w: World, id: RowId, h: nat)
    requires Inv(w) && OnePerRow(w) && id in w.table.rows && h in w.handlers && w.handlers[h].seen.id == id
    ensures if w.handlers[h].call == NotCalled then NeverCalled(w, id) else CalledOnceBy(w, id, h)
  {
    assert HandlerFits(w, h);
    forall c | IsCallFor(w, id, c) ensures c.handler == h && w.calls[c] == Made(w, h, c) {
      assert CallFits(w, c);
    }
    hide Inv, OnePerRow, HandlerFits;
  }

  lemma NoHandlerNoCall(w: World, id: RowId)
    requires forall h :: h in w.handlers ==> w.handlers[h].seen.id != id
    ensures NeverCalled(w, id)
  {
  }

  /** Every sequence of requests whose handlers on one proposal do not overlap, and whose writes are
      committed, takes each row from pending to one of applied, failed and rejected and leaves it there; the
      server is called exactly once for an applied row, and the call returned, exactly once for a failed
      row, and it raised, never for a rejected row, and for a pending row only while its handler is under
      way. */
  lemma OneShot(es: seq<Event>, w: World, id: RowId)
    requires ExclusiveRuns(INIT, es, w) && id in w.table.rows
    ensures DecidedOnce(w, id)
  {
    OnePerRowRuns(INIT, es, w);
    assert RowFits(w, id);
    hide ExclusiveRuns, CalledOnceBy, NeverCalled;
    if h :| h in w.handlers && w.handlers[h].seen.id == id {
      assert HandlerFits(w, h);
      CallsOfOneHandler(w, id, h);
      hide Inv;
    } else {
      NoHandlerNoCall(w, id);
      hide Inv;
    }
  }

  lemma DecidedByItsHandler(w: World, id: RowId, h: nat)
    requires Inv(w) && OnePerRow(w) && id in w.table.rows && w.table.rows[id].status != Pending
    requires h in w.handlers && w.handlers[h].seen.id == id
    ensures w.handlers[h].wrote.Some?
  {
    assert RowFits(w, id);
    hide Inv;
  }

  /** A decided row is left as it is by every exclusive step. */
  lemma DecidedIsFinal(w: World, e: Event, id: RowId)
    requires Inv(w) && OnePerRow(w) && Enabled(w, e) && Exclusive(w, e)
    requires id in w.table.rows && w.table.rows[id].status != Pending
    ensures id in Apply(w, e).table.rows && Apply(w, e).table.rows[id] == w.table.rows[id]
  {
    RowsStayDecided(w, e, id);
    if e.OfHandler? && e.h in w.handlers && w.handlers[e.h].seen.id == id {
      DecidedByItsHandler(w, id, e.h);
    }
    hide Inv, OnePerRow, Apply, RowFits, ReadyToWrite;
  }

  /** Once decided, a row never changes again, in no continuation of an exclusive run. */
  lemma {:induction false} DecidedForGood(w: World, es: seq<Event>, w': World, id: RowId)
    requires Inv(w) && OnePerRow(w) && ExclusiveRuns(w, es, w')
    requires id in w.table.rows && w.table.rows[id].status != Pending
    ensures id in w'.table.rows && w'.table.rows[id] == w.table.rows[id]
    decreases |es|
  {
    hide Inv, OnePerRow, Exclusive, Enabled, Apply;
    if es != [] {
      DecidedIsFinal(w, es[0], id);
      InvStep(w, es[0]);
      OnePerRowStep(w, es[0]);
      DecidedForGood(Apply(w, es[0]), es[1..], w', id);
    }
  }

  // ---- Such runs exist, for every outcome ----

  ghost predicate ExclusivelyReachable(w: World) {
    exists es :: ExclusiveRuns(INIT, es, w)
  }

  lemma {:induction false} ExclusiveSnoc(v: World, es: seq<Event>, w: World, e: Event)
    requires ExclusiveRuns(v, es, w) && Enabled(w, e) && Exclusive(w, e)
    ensures ExclusiveRuns(v, es + [e], Apply(w, e))
    decreases |es|
  {
    hide Enabled, Exclusive, Apply;
    if es == [] {
      assert ([] + [e])[1..] == [];
    } else {
      ExclusiveSnoc(Apply(v, es[0]), es[1..], w, e);
      assert (es + [e])[1..] == es[1..] + [e];
    }
  }

  lemma ExclusiveStep(w: World, e: Event)
    requires ExclusivelyReachable(w) && Enabled(w, e) && Exclusive(w, e)
    ensures ExclusivelyReachable(Apply(w, e))
  {
    hide Enabled, Exclusive, Apply;
    var es :| ExclusiveRuns(INIT, es, w);
    ExclusiveSnoc(INIT, es, w, e);
  }

  lemma RunTakes(w: World, step: RunStep) returns (w': World)
    requires ExclusivelyReachable(w) && RunEnabled(w, 0, step)
    ensures ExclusivelyReachable(w') && w' == RunApply(w, 0, step)
  {
    hide ExclusivelyReachable, RunApply, RunEnabled;
    ExclusiveStep(w, OfRun(0, step));
    w' := RunApply(w, 0, step);
  }

  lemma RunBegins(def: AgentDef) returns (w: World)
    requires def.write <= def.allow && !NeedsGuidance(def)
    ensures ExclusivelyReachable(w) && w.runs == map[0 := Run(def, Active, [], 0)]
    ensures w.table == EMPTY_TABLE && w.handlers == map[]
  {
    assert ExclusiveRuns(INIT, [], INIT);
    hide ExclusivelyReachable, NeedsGuidance;
    w := RunTakes(INIT, Started(def));
    w := RunTakes(w, PromptReady);
  }

  lemma RunProposes(w: World, def: AgentDef, p: ProposedAction) returns (w': World)
    requires ExclusivelyReachable(w) && w.runs == map[0 := Run(def, Active, [], 0)] && def.autonomy == Proposal
    requires w.table == EMPTY_TABLE && w.handlers == map[]
    ensures ExclusivelyReachable(w') && w'.runs == map[0 := Run(def, Persisting, [p], 0)]
    ensures w'.table == EMPTY_TABLE && w'.handlers == map[]
  {
    hide ExclusivelyReachable, NeedsGuidance;
    w' := RunTakes(w, ActionProposed(p));
    assert w'.runs[0].proposals == [p];
    assert w'.runs == map[0 := Run(def, Active, [p], 0)];
    w' := RunTakes(w', Stopped(true));
  }

  lemma ProposesOne(def: AgentDef, p: ProposedAction, now: Timestamps.Stamp) returns (w: World)
    requires def.autonomy == Proposal && def.write <= def.allow && !NeedsGuidance(def)
    ensures ExclusivelyReachable(w) && w.handlers == map[] && IsPending(w.table, 0) && w.table.rows[0].id == 0
  {
    hide ExclusivelyReachable, NeedsGuidance;
    w := RunBegins(def);
    w := RunProposes(w, def, p);
    w := RunTakes(w, RowAdded(0, now));
  }

  lemma HandlerTakes(w: World, k: Handler, move: HandlerStep) returns (w': World)
    requires ExclusivelyReachable(w) && w.handlers == map[0 := k] && !k.closed && CanMove(k, move)
    requires move.CallIssued? || move.CallEnded? || move.RowCommitted? || move.Counted?
    ensures ExclusivelyReachable(w') && w'.handlers == map[0 := HandlerAfter(k, move)]
    ensures w'.table == TableAfterMove(w.table, k, move)
  {
    hide ExclusivelyReachable, CanMove, HandlerAfter, TableAfterMove;
    ExclusiveStep(w, OfHandler(0, move));
    w' := HandlerApply(w, 0, move);
  }

  lemma HandlerReads(w: World, approving: bool) returns (w': World)
    requires ExclusivelyReachable(w) && w.handlers == map[] && IsPending(w.table, 0)
    ensures ExclusivelyReachable(w') && w'.table == w.table
    ensures w'.handlers == map[0 := Handler(w.table.rows[0], approving, NotCalled, None, false, false)]
  {
    hide ExclusivelyReachable;
    ExclusiveStep(w, OfHandler(0, RowRead(0, approving)));
    w' := HandlerApply(w, 0, RowRead(0, approving));
  }

  /** Exclusive runs take a row to each of its ends: applied or failed by an approve, rejected by a reject. */
  lemma EveryEndReached(def: AgentDef, p: ProposedAction, now: Timestamps.Stamp, approving: bool, raised: Option<string>) returns (w: World)
    requires def.autonomy == Proposal && def.write <= def.allow && !NeedsGuidance(def)
    ensures ExclusivelyReachable(w) && 0 in w.table.rows
    ensures w.table.rows[0].status == if !approving then Rejected else if raised.Some? then Failed else Applied
  {
    w := ProposesOne(def, p, now);
    hide ExclusivelyReachable, NeedsGuidance;
    var row := w.table.rows[0];
    w := HandlerReads(w, approving);
    var k := Handler(row, approving, NotCalled, None, false, false);
    if approving {
      w := HandlerTakes(w, k, CallIssued);
      w := HandlerTakes(w, k.(call := InFlight), CallEnded(raised));
      k := HandlerAfter(k.(call := InFlight), CallEnded(raised));
    }
    w := HandlerTakes(w, k, RowCommitted);
  }
}
