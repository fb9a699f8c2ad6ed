/** Without assumptions on how handlers overlap and end: exactly when a proposal can still be called, and
    exactly when it can be called twice. */
module CallBound {
  import opened Basics
  import opened ProposalStore
  import opened ApprovalPipeline
  import opened Sizes
  import Timestamps

  /** An approve handler that read the row and has its call still before it. */
  ghost function Waiting(w: World, id: RowId): set<nat> {
    set h | h in w.handlers && w.handlers[h].seen.id == id && IsWaiting(w.handlers[h])
  }

  predicate IsWaiting(k: Handler) {
    !k.closed && k.approving && k.call == NotCalled
  }

  ghost function Potential(w: World, id: RowId): set<nat> {
    Callers(w, id) + Waiting(w, id)
  }

  /** From here, some interleaving adds a call for the row. */
  ghost predicate CallableAgain(w: World, id: RowId) {
    exists es, w' :: Runs(w, es, w') && Callers(w', id) != Callers(w, id)
  }

  /** From here, some interleaving has two handlers call for the row. */
  ghost predicate CallableTwice(w: World, id: RowId) {
    exists es, w' :: Runs(w, es, w') && |Callers(w', id)| >= 2
  }

  // ---- A decided row gets no new callers ----

  predicate IsCaller(k: Handler, id: RowId) {
    k.seen.id == id && k.call != NotCalled
  }

  predicate IsPotential(k: Handler, id: RowId) {
    k.seen.id == id && (k.call != NotCalled || IsWaiting(k))
  }

  /** A move never undoes a call and never makes a caller of a handler that was past calling. */
  lemma MoveForward(k: Handler, move: HandlerStep, id: RowId)
    requires CanMove(k, move) && !k.closed
    ensures IsCaller(k, id) ==> IsCaller(HandlerAfter(k, move), id)
    ensures IsPotential(HandlerAfter(k, move), id) ==> IsPotential(k, id)
  {
    hide Verdict, ReadyToWrite;
  }

  lemma DecidedRowMove(w: World, h: nat, move: HandlerStep, id: RowId)
    requires HandlerEnabled(w, h, move) && !(move.RowRead? && move.id == id && IsPending(w.table, id))
    requires move.RowRead? ==> RowFits(w, move.id)
    ensures var w' := HandlerApply(w, h, move);
      Callers(w, id) <= Callers(w', id) && Potential(w', id) <= Potential(w, id)
  {
    var w' := HandlerApply(w, h, move);
    if h in w.handlers {
      MoveForward(w.handlers[h], move, id);
    }
    hide TableAfterMove, Verdict, ReadyToWrite, Born, HandlerAfter, CanMove;
    assert forall d :: d in Callers(w, id) <==> d in w.handlers && IsCaller(w.handlers[d], id);
    assert forall d :: d in Callers(w', id) <==> d in w'.handlers && IsCaller(w'.handlers[d], id);
    assert forall d :: d in Potential(w, id) <==> d in w.handlers && IsPotential(w.handlers[d], id);
    assert forall d :: d in Potential(w', id) <==> d in w'.handlers && IsPotential(w'.handlers[d], id);
    hide Callers, Potential, Waiting;
  }

  lemma DecidedRowStep(w: World, e: Event, id: RowId)
    requires Inv(w) && Enabled(w, e) && id in w.table.rows && w.table.rows[id].status != Pending
    ensures Callers(w, id) <= Callers(Apply(w, e), id) && Potential(Apply(w, e), id) <= Potential(w, id)
  {
    match e
    case OfRun(run, step) =>
      assert Apply(w, e).handlers == w.handlers;
      hide Inv, RunEnabled, RunApply;
    case OfHandler(h, move) =>
      assert move.RowRead? ==> RowFits(w, move.id);
      hide Inv, HandlerApply, HandlerEnabled, RowFits, Potential, Callers;
      DecidedRowMove(w, h, move, id);
    case CacheExpired =>
  }

  lemma {:induction false} DecidedRowRuns(w: World, es: seq<Event>, w': World, id: RowId)
    requires Inv(w) && Runs(w, es, w') && id in w.table.rows && w.table.rows[id].status != Pending
    ensures Callers(w, id) <= Callers(w', id) <= Potential(w, id)
    decreases |es|
  {
    hide Inv, Enabled, Apply, Callers, Waiting;
    if es != [] {
      DecidedRowStep(w, es[0], id);
      RowsStayDecided(w, es[0], id);
      InvStep(w, es[0]);
      DecidedRowRuns(Apply(w, es[0]), es[1..], w', id);
    }
  }

  // ---- A pending row gets as many as one likes ----

  lemma FreshHandler(handlers: map<nat, Handler>) returns (h: nat)
    ensures h !in handlers
  {
    h := Above(handlers.Keys);
  }

  lemma {:induction false} Above(hs: set<nat>) returns (b: nat)
    ensures forall h :: h in hs ==> h < b
    decreases |hs|
  {
    b := 0;
    if h :| h in hs {
      var rest := Above(hs - {h});
      b := if rest > h then rest else h + 1;
      forall x | x in hs ensures x < b { assert x == h || x in hs - {h}; }
    }
  }

  lemma ReadsRow(w: World, h: nat, id: RowId)
    requires IsPending(w.table, id) && h !in w.handlers
    ensures var e := OfHandler(h, RowRead(id, true));
      && Enabled(w, e) && Apply(w, e).table == w.table
      && Apply(w, e).handlers == w.handlers[h := Handler(w.table.rows[id], true, NotCalled, None, false, false)]
  {
  }

  lemma OneMoreWaits(w: World, w': World, h: nat, k: Handler)
    requires h !in w.handlers && w'.handlers == w.handlers[h := k] && IsWaiting(k)
    ensures Callers(w', k.seen.id) == Callers(w, k.seen.id)
    ensures |Waiting(w', k.seen.id)| == |Waiting(w, k.seen.id)| + 1
  {
    assert Waiting(w', k.seen.id) == Waiting(w, k.seen.id) + {h};
  }

  /** A pending row can be read once more. */
  lemma ReadsAgain(w: World, id: RowId) returns (e: Event)
    requires IsPending(w.table, id) && w.table.rows[id].id == id
    ensures Enabled(w, e) && Apply(w, e).table == w.table
    ensures |Waiting(Apply(w, e), id)| == |Waiting(w, id)| + 1 && Callers(Apply(w, e), id) == Callers(w, id)
  {
    hide Enabled, Apply, Waiting, Callers;
    var h := FreshHandler(w.handlers);
    e := OfHandler(h, RowRead(id, true));
    ReadsRow(w, h, id);
    OneMoreWaits(w, Apply(w, e), h, Handler(w.table.rows[id], true, NotCalled, None, false, false));
  }

  lemma CallsNow(w: World, id: RowId, h: nat)
    requires h in Waiting(w, id)
    ensures Enabled(w, OfHandler(h, CallIssued))
    ensures var w' := Apply(w, OfHandler(h, CallIssued));
      && w'.table == w.table
      && Callers(w', id) == Callers(w, id) + {h} && h !in Callers(w, id)
      && Waiting(w', id) == Waiting(w, id) - {h}
  {
  }

  lemma RunsCons(w: World, e: Event, es: seq<Event>, w': World)
    requires Enabled(w, e) && Runs(Apply(w, e), es, w')
    ensures Runs(w, [e] + es, w')
  {
    hide Enabled, Apply;
    assert ([e] + es)[1..] == es;
  }

  /** Everybody who can still call does. */
  lemma {:induction false} AllCall(w: World, id: RowId) returns (es: seq<Event>, w': World)
    ensures Runs(w, es, w') && Callers(w', id) == Potential(w, id)
    decreases |Waiting(w, id)|
  {
    if h :| h in Waiting(w, id) {
      CallsNow(w, id, h);
      hide Enabled, Apply, Waiting, Callers;
      var rest;
      rest, w' := AllCall(Apply(w, OfHandler(h, CallIssued)), id);
      RunsCons(w, OfHandler(h, CallIssued), rest, w');
      es := [OfHandler(h, CallIssued)] + rest;
    } else {
      es, w' := [], w;
    }
  }

  lemma AddsACaller(w: World, id: RowId)
    requires Waiting(w, id) != {}
    ensures CallableAgain(w, id)
  {
    var es, w' := AllCall(w, id);
    var h :| h in Waiting(w, id);
    CallsNow(w, id, h);
    hide Waiting, Callers;
  }

  lemma ReadFirst(w: World, e: Event, id: RowId)
    requires Enabled(w, e) && Callers(Apply(w, e), id) == Callers(w, id)
    ensures CallableAgain(Apply(w, e), id) ==> CallableAgain(w, id)
    ensures CallableTwice(Apply(w, e), id) ==> CallableTwice(w, id)
  {
    hide Enabled, Apply, Callers;
    if CallableAgain(Apply(w, e), id) {
      var es, w' :| Runs(Apply(w, e), es, w') && Callers(w', id) != Callers(Apply(w, e), id);
      RunsCons(w, e, es, w');
    }
    if CallableTwice(Apply(w, e), id) {
      var es, w' :| Runs(Apply(w, e), es, w') && |Callers(w', id)| >= 2;
      RunsCons(w, e, es, w');
    }
  }

  // ---- The exact conditions ----

  /** The server can be called for a proposal from here on if and only if its row is pending, or an approve
      handler that found it so is open and has not called yet. */
  lemma CallableAgainIff(w: World, id: RowId)
    requires Reachable(w) && id in w.table.rows
    ensures CallableAgain(w, id) <==> w.table.rows[id].status == Pending || Waiting(w, id) != {}
  {
    ReachableInv(w);
    assert RowFits(w, id);
    hide Reachable, Inv, RowFits;
    if w.table.rows[id].status == Pending {
      var e := ReadsAgain(w, id);
      AddsACaller(Apply(w, e), id);
      ReadFirst(w, e, id);
    } else if Waiting(w, id) != {} {
      AddsACaller(w, id);
    } else {
      forall es, w' | Runs(w, es, w') ensures Callers(w', id) == Callers(w, id) {
        DecidedRowRuns(w, es, w', id);
      }
    }
  }

  lemma PotentialSize(w: World, id: RowId)
    ensures |Potential(w, id)| == |Callers(w, id)| + |Waiting(w, id)|
  {
    assert Callers(w, id) !! Waiting(w, id);
  }

  lemma CallsTwice(w: World, id: RowId)
    requires |Callers(w, id)| + |Waiting(w, id)| >= 2
    ensures CallableTwice(w, id)
  {
    PotentialSize(w, id);
    var es, w' := AllCall(w, id);
    hide Potential, Callers, Waiting;
  }

  /** Two handlers can come to call for one proposal if and only if its row is pending, or the handlers that
      called and those that still wait to are two already: once a row is decided, at most those that had
      found it pending before call. */
  lemma CallableTwiceIff(w: World, id: RowId)
    requires Reachable(w) && id in w.table.rows
    ensures CallableTwice(w, id) <==>
      w.table.rows[id].status == Pending || |Callers(w, id)| + |Waiting(w, id)| >= 2
  {
    ReachableInv(w);
    assert RowFits(w, id);
    hide Reachable, Inv, RowFits;
    if w.table.rows[id].status == Pending {
      PendingCallsTwice(w, id);
    } else if |Callers(w, id)| + |Waiting(w, id)| >= 2 {
      CallsTwice(w, id);
    } else {
      PotentialSize(w, id);
      forall es, w' | Runs(w, es, w') ensures |Callers(w', id)| < 2 {
        DecidedRowRuns(w, es, w', id);
        SubsetSize(Callers(w', id), Potential(w, id));
      }
    }
  }

  lemma PendingCallsTwice(w: World, id: RowId)
    requires IsPending(w.table, id) && w.table.rows[id].id == id
    ensures CallableTwice(w, id)
  {
    hide Runs, Callers, Waiting;
    var d := ReadsAgain(w, id);
    var w1 := Apply(w, d);
    var e := ReadsAgain(w1, id);
    CallsTwice(Apply(w1, e), id);
    hide Enabled, Apply, CallableTwice, CallableAgain;
    ReadFirst(w1, e, id);
    ReadFirst(w, d, id);
  }

  // ---- What goes wrong ----

  /** Handlers 0 and 1, as far as they have read. */
  function Cast(k0: Option<Handler>, k1: Option<Handler>): map<nat, Handler> {
    (if k0.Some? then map[0 := k0.value] else map[]) + (if k1.Some? then map[1 := k1.value] else map[])
  }

  /** A reachable world whose row 0 is this one, with these handlers. */
  ghost predicate Scene(w: World, row: Record, k0: Option<Handler>, k1: Option<Handler>) {
    && Reachable(w) && w.handlers == Cast(k0, k1)
    && 0 in w.table.rows && w.table.rows[0] == row && row.id == 0
  }

  function Reader(row: Record, approving: bool): Handler {
    Handler(row, approving, NotCalled, None, false, false)
  }

  lemma FirstReads(w: World, row: Record, approving: bool) returns (w': World)
    requires Scene(w, row, None, None) && row.status == Pending
    ensures Scene(w', row, Some(Reader(row, approving)), None) && w'.table == w.table
  {
    hide Reachable;
    Extends(w, OfHandler(0, RowRead(0, approving)));
    w' := HandlerApply(w, 0, RowRead(0, approving));
  }

  lemma SecondReads(w: World, row: Record, k0: Handler) returns (w': World)
    requires Scene(w, row, Some(k0), None) && row.status == Pending
    ensures Scene(w', row, Some(k0), Some(Reader(row, true))) && w'.table == w.table
  {
    hide Reachable;
    Extends(w, OfHandler(1, RowRead(0, true)));
    w' := HandlerApply(w, 1, RowRead(0, true));
  }

  /** A move before the commit leaves the table alone. */
  lemma FirstMoves(w: World, row: Record, k0: Handler, k1: Option<Handler>, move: HandlerStep) returns (w': World)
    requires Scene(w, row, Some(k0), k1) && !k0.closed && CanMove(k0, move)
    requires !move.RowRead? && !move.RowCommitted? && !move.Counted?
    ensures Scene(w', row, Some(HandlerAfter(k0, move)), k1) && w'.table == w.table
  {
    hide Reachable, CanMove, HandlerAfter;
    Extends(w, OfHandler(0, move));
    w' := HandlerApply(w, 0, move);
  }

  lemma SecondCalls(w: World, row: Record, k0: Handler, k1: Handler) returns (w': World)
    requires Scene(w, row, Some(k0), Some(k1)) && !k1.closed && k1.approving && k1.call == NotCalled
    ensures Scene(w', row, Some(k0), Some(k1.(call := InFlight)))
  {
    hide Reachable;
    Extends(w, OfHandler(1, CallIssued));
    w' := HandlerApply(w, 1, CallIssued);
  }

  /** A pending row that no handler has read. */
  lemma PendingScene(def: AgentDef, p: ProposedAction, now: Timestamps.Stamp) returns (w: World, row: Record)
    requires def.autonomy == Proposal && def.write <= def.allow
    ensures Scene(w, row, None, None) && row.status == Pending
    ensures w.table == Table(map[0 := row], [0], multiset{})
  {
    hide Reachable;
    w := BecomesActive(def);
    w := RunStepReaches(w, 0, ActionProposed(p));
    w := RunStepReaches(w, 0, Stopped(true));
    w := RunStepReaches(w, 0, RowAdded(0, now));
    row := w.table.rows[0];
  }

  lemma EndsWithTwoCallers(w: World, row: Record, k0: Handler, k1: Handler)
    requires Scene(w, row, Some(k0), Some(k1))
    requires k0.seen.id == 0 && k1.seen.id == 0 && k0.call != NotCalled && k1.call != NotCalled
    ensures Reachable(w) && Callers(w, 0) == {0, 1} && 0 in w.handlers && w.handlers[0] == k0 && row.id == 0
  {
    hide Reachable;
  }

  lemma SceneRow(w: World, row: Record, k0: Option<Handler>, k1: Option<Handler>)
    requires Scene(w, row, k0, k1)
    ensures row.id == 0
  {
  }

  /** Two approve handlers that both read before either writes both call the server; the reads and writes
      are separate statements, so nothing stops the second. */
  lemma OverlapCallsTwice(def: AgentDef, p: ProposedAction, now: Timestamps.Stamp) returns (w: World)
    requires def.autonomy == Proposal && def.write <= def.allow
    ensures Reachable(w) && Callers(w, 0) == {0, 1}
  {
    var row;
    w, row := PendingScene(def, p, now);
    SceneRow(w, row, None, None);
    hide Scene, Cast, Callers, Reachable;
    var k := Reader(row, true);
    w := FirstReads(w, row, true);
    w := SecondReads(w, row, k);
    w := FirstMoves(w, row, k, Some(k), CallIssued);
    w := SecondCalls(w, row, k.(call := InFlight), k);
    EndsWithTwoCallers(w, row, k.(call := InFlight), k.(call := InFlight));
  }

  /** A handler whose call returned and whose write then raised before its commit. */
  function Cut(row: Record): Handler {
    Reader(row, true).(call := Returned, closed := true)
  }

  lemma LosesItsWrite(w: World, row: Record) returns (w': World)
    requires Scene(w, row, Some(Reader(row, true)), None)
    ensures Scene(w', row, Some(Cut(row)), None)
  {
    hide Scene;
    var k := Reader(row, true);
    w' := FirstMoves(w, row, k, None, CallIssued);
    w' := FirstMoves(w', row, k.(call := InFlight), None, CallEnded(None));
    w' := FirstMoves(w', row, k.(call := Returned), None, WriteFailed);
  }

  /** So do two that do not overlap, when the first one's write is lost: its call returned, the row stays
      pending, and the next approve calls again. */
  lemma LostWriteCallsTwice(def: AgentDef, p: ProposedAction, now: Timestamps.Stamp) returns (w: World)
    requires def.autonomy == Proposal && def.write <= def.allow
    ensures Reachable(w) && Callers(w, 0) == {0, 1}
    ensures 0 in w.handlers && w.handlers[0].closed && w.handlers[0].call == Returned
  {
    var row;
    w, row := PendingScene(def, p, now);
    SceneRow(w, row, None, None);
    hide Scene, Callers, Reachable;
    w := FirstReads(w, row, true);
    w := LosesItsWrite(w, row);
    w := SecondReads(w, row, Cut(row));
    w := SecondCalls(w, row, Cut(row), Reader(row, true));
    EndsWithTwoCallers(w, row, Cut(row), Reader(row, true).(call := InFlight));
  }

  /** A handler cut between its commit and its increment leaves a decided row that AGENT_PROPOSALS misses. */
  lemma CutLeavesUncounted(def: AgentDef, p: ProposedAction, now: Timestamps.Stamp) returns (w: World)
    requires def.autonomy == Proposal && def.write <= def.allow
    ensures Reachable(w) && (forall h :: h in w.handlers ==> w.handlers[h].closed)
    ensures RowsWith(w.table.rows, Rejected) == {0} && w.table.counted == multiset{}
  {
    var row;
    w, row := PendingScene(def, p, now);
    w := FirstReads(w, row, false);
    w := CommitsAndIsCut(w, row);
  }

  lemma CommitsAndIsCut(w: World, row: Record) returns (w': World)
    requires Scene(w, row, Some(Reader(row, false)), None) && w.table == Table(map[0 := row], [0], multiset{})
    ensures Reachable(w') && (forall h :: h in w'.handlers ==> w'.handlers[h].closed)
    ensures RowsWith(w'.table.rows, Rejected) == {0} && w'.table.counted == multiset{}
  {
    hide Reachable;
    Extends(w, OfHandler(0, RowCommitted));
    var w1 := HandlerApply(w, 0, RowCommitted);
    assert w1.table.rows == map[0 := row.(status := Rejected, error := None)];
    Extends(w1, OfHandler(0, Cancelled));
    w' := HandlerApply(w1, 0, Cancelled);
  }
}
