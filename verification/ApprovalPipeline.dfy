/** From a run's proposals to the MCP server: any number of runs and of approve and reject handlers of one
    process, each cut at its awaits, over one proposals table and one guidance cache.  A handler's read, its
    MCP call, the commit of its write and the counter increment that follows are separate steps that
    interleave with everybody else's. */
module ApprovalPipeline {
  import opened Basics
  import opened ProposalStore
  import Placeholders
  import opened Sizes
  import Timestamps

  datatype Autonomy = Proposal | Autonomous
  datatype AgentDef = AgentDef(
    agentId: string, autonomy: Autonomy, allow: set<string>, write: set<string>, systemPrompt: string)

  /** `visible_tool_names`, which the filtered toolset admits. */
  function Visible(def: AgentDef): set<string> {
    if def.autonomy == Autonomous then def.allow else def.allow - def.write
  }

  /** Whether resolving the prompt asks for guidance. */
  predicate NeedsGuidance(def: AgentDef) {
    Placeholders.ReferencedKeys(def.systemPrompt) != {}
  }

  /** The tool the guidance provider calls, on a server of its own that no filter wraps. */
  const GUIDANCE_TOOL := "get_store_guidance"

  datatype ProposedAction = ProposedAction(action: string, arguments: Json, rationale: string)

  /** A run's uuid4; only its identity matters. */
  type RunId = nat

  datatype RunPhase = Resolving | Connecting | Fetching | Active | Persisting | Ended
  datatype Run = Run(def: AgentDef, phase: RunPhase, proposals: seq<ProposedAction>, next: nat)

  datatype CallState = NotCalled | InFlight | Returned | Raised(error: string)

  /** A handler that found its row pending: what it read, how far its call got, what it committed, and
      whether it counted that. */
  datatype Handler = Handler(
    seen: Record, approving: bool, call: CallState, wrote: Option<Status>, counted: bool, closed: bool)

  /** A tool call to the MCP server: by a run's agent, by the guidance provider for a run, or by a handler. */
  datatype Call =
    | ByRun(run: RunId, name: string, arguments: Json)
    | ByGuidance(run: RunId)
    | ByHandler(handler: nat, action: string, arguments: Json)

  /** `cached`: the guidance cache has a value younger than its ttl. */
  datatype World = World(
    runs: map<RunId, Run>, cached: bool, table: Table, handlers: map<nat, Handler>, calls: multiset<Call>)

  const INIT := World(map[], false, EMPTY_TABLE, map[], multiset{})

  datatype RunStep =
    | Started(def: AgentDef)
    | PromptReady                      // nothing to fetch, or the cache is fresh
    | CacheMissed
    | GuidanceCalled
    | GuidanceAnswered
    | GuidanceFailed                   // connecting, the call or the coercion raised
    | ToolCalled(name: string, arguments: Json)
    | ActionProposed(proposal: ProposedAction)
    | Stopped(sink: bool)              // ok, limit, timeout or error; sink: a proposal sink is configured
    | Abandoned                        // cancelled, or raised where `run` does not catch
    | RowAdded(id: RowId, now: Timestamps.Stamp)
    | AddFailed

  datatype HandlerStep =
    | RowRead(id: RowId, approving: bool)
    | CallIssued
    | CallEnded(raised: Option<string>)
    | RowCommitted
    | Counted
    | WriteFailed                      // before its commit, or after it, while the connection closes
    | Cancelled

  datatype Event = OfRun(run: RunId, step: RunStep) | OfHandler(h: nat, move: HandlerStep) | CacheExpired

  // ---- The steps of a run ----

  predicate InPhase(w: World, run: RunId, phase: RunPhase) {
    run in w.runs && w.runs[run].phase == phase
  }

  predicate RunEnabled(w: World, run: RunId, step: RunStep) {
    match step
    case Started(def) => run !in w.runs && def.write <= def.allow
    case PromptReady => InPhase(w, run, Resolving) && (w.cached || !NeedsGuidance(w.runs[run].def))
    case CacheMissed => InPhase(w, run, Resolving) && !w.cached && NeedsGuidance(w.runs[run].def)
    case GuidanceCalled => InPhase(w, run, Connecting)
    case GuidanceAnswered => InPhase(w, run, Fetching)
    case GuidanceFailed => InPhase(w, run, Connecting) || InPhase(w, run, Fetching)
    case ToolCalled(name, _) => InPhase(w, run, Active) && name in Visible(w.runs[run].def)
    case ActionProposed(_) => InPhase(w, run, Active) && w.runs[run].def.autonomy == Proposal
    case Stopped(_) => InPhase(w, run, Active)
    case Abandoned => run in w.runs
    case RowAdded(id, _) =>
      InPhase(w, run, Persisting) && w.runs[run].next < |w.runs[run].proposals| && id !in w.table.rows
    case AddFailed => InPhase(w, run, Persisting) && w.runs[run].next < |w.runs[run].proposals|
  }

  function RunAfter(w: World, run: RunId, step: RunStep): Run
    requires RunEnabled(w, run, step)
  {
    if step.Started? then Run(step.def, Resolving, [], 0) else
    var r := w.runs[run];
    match step
    case PromptReady => r.(phase := Active)
    case CacheMissed => r.(phase := Connecting)
    case GuidanceCalled => r.(phase := Fetching)
    case GuidanceAnswered => r.(phase := Active)
    case GuidanceFailed => r.(phase := Ended)
    case ActionProposed(p) => r.(proposals := r.proposals + [p])
    case Stopped(sink) => r.(phase := if r.def.autonomy == Proposal && sink then Persisting else Ended)
    case Abandoned => r.(phase := Ended)
    case RowAdded(_, _) => r.(next := r.next + 1)
    case AddFailed => r.(next := r.next + 1)
    case _ => r
  }

  function RowFor(r: Run, run: RunId, id: RowId, now: Timestamps.Stamp): Record
    requires r.next < |r.proposals|
  {
    var p := r.proposals[r.next];
    Record(id, ProposalStore.Proposed(r.def.agentId, run, p.action, p.arguments, p.rationale, now), Pending, None)
  }

  function RunCalls(run: RunId, step: RunStep): multiset<Call> {
    match step
    case ToolCalled(name, arguments) => multiset{ByRun(run, name, arguments)}
    case GuidanceCalled => multiset{ByGuidance(run)}
    case _ => multiset{}
  }

  function TableAfterRun(w: World, run: RunId, step: RunStep): Table
    requires RunEnabled(w, run, step)
  {
    if step.RowAdded? then Insert(w.table, RowFor(w.runs[run], run, step.id, step.now)) else w.table
  }

  function RunApply(w: World, run: RunId, step: RunStep): World
    requires RunEnabled(w, run, step)
  {
    w.(runs := w.runs[run := RunAfter(w, run, step)],
       cached := w.cached || step.GuidanceAnswered?,
       table := TableAfterRun(w, run, step),
       calls := w.calls + RunCalls(run, step))
  }

  // ---- The steps of a handler ----

  predicate Open(w: World, h: nat) {
    h in w.handlers && !w.handlers[h].closed
  }

  /** An approve handler writes once its call is over; a reject handler writes at once. */
  predicate ReadyToWrite(k: Handler) {
    k.approving ==> k.call.Returned? || k.call.Raised?
  }

  function Verdict(k: Handler): Status {
    if !k.approving then Rejected else if k.call.Raised? then Failed else Applied
  }

  function VerdictError(k: Handler): Option<string> {
    if k.approving && k.call.Raised? then Some(k.call.error) else None
  }

  predicate CanMove(k: Handler, move: HandlerStep) {
    match move
    case RowRead(_, _) => false
    case CallIssued => k.approving && k.call == NotCalled
    case CallEnded(_) => k.call == InFlight
    case RowCommitted => k.wrote.None? && ReadyToWrite(k)
    case Counted => k.wrote.Some?
    case WriteFailed => ReadyToWrite(k)
    case Cancelled => true
  }

  predicate HandlerEnabled(w: World, h: nat, move: HandlerStep) {
    if move.RowRead? then h !in w.handlers else Open(w, h) && CanMove(w.handlers[h], move)
  }

  predicate IsPending(tb: Table, id: RowId) {
    id in tb.rows && tb.rows[id].status == Pending
  }

  function HandlerAfter(k: Handler, move: HandlerStep): Handler {
    match move
    case RowRead(_, _) => k
    case CallIssued => k.(call := InFlight)
    case CallEnded(raised) => k.(call := if raised.Some? then Raised(raised.value) else Returned)
    case RowCommitted => k.(wrote := Some(Verdict(k)))
    case Counted => k.(counted := true, closed := true)
    case WriteFailed => k.(closed := true)
    case Cancelled => k.(closed := true)
  }

  function CallOf(h: nat, k: Handler): Call {
    ByHandler(h, k.seen.proposed.action, k.seen.proposed.arguments)
  }

  function TableAfterMove(tb: Table, k: Handler, move: HandlerStep): Table
    requires move.Counted? ==> k.wrote.Some?
  {
    match move
    case RowCommitted => Commit(tb, k.seen.id, Verdict(k), VerdictError(k))
    case Counted => Count(tb, k.wrote.value)
    case _ => tb
  }

  /** A handler that finds no pending row answers 404 and takes no further step. */
  function HandlerApply(w: World, h: nat, move: HandlerStep): World
    requires HandlerEnabled(w, h, move)
  {
    if move.RowRead? then
      if IsPending(w.table, move.id)
      then w.(handlers := w.handlers[h := Handler(w.table.rows[move.id], move.approving, NotCalled, None, false, false)])
      else w
    else
      var k := w.handlers[h];
      w.(handlers := w.handlers[h := HandlerAfter(k, move)],
         calls := if move.CallIssued? then w.calls + multiset{CallOf(h, k)} else w.calls,
         table := TableAfterMove(w.table, k, move))
  }

  // ---- Runs of the whole system ----

  predicate Enabled(w: World, e: Event) {
    match e
    case OfRun(run, step) => RunEnabled(w, run, step)
    case OfHandler(h, move) => HandlerEnabled(w, h, move)
    case CacheExpired => true
  }

  function Apply(w: World, e: Event): World
    requires Enabled(w, e)
  {
    match e
    case OfRun(run, step) => RunApply(w, run, step)
    case OfHandler(h, move) => HandlerApply(w, h, move)
    case CacheExpired => w.(cached := false)
  }

  ghost predicate Runs(w: World, es: seq<Event>, w': World)
    decreases |es|
  {
    if es == [] then w' == w else Enabled(w, es[0]) && Runs(Apply(w, es[0]), es[1..], w')
  }

  ghost predicate Reachable(w: World) {
    exists es :: Runs(INIT, es, w)
  }

  lemma {:induction false} RunsAppend(w: World, es: seq<Event>, w1: World, fs: seq<Event>, w2: World)
    requires Runs(w, es, w1) && Runs(w1, fs, w2)
    ensures Runs(w, es + fs, w2)
    decreases |es|
  {
    hide Apply, Enabled;
    if es == [] {
      assert es + fs == fs;
    } else {
      RunsAppend(Apply(w, es[0]), es[1..], w1, fs, w2);
      assert (es + fs)[1..] == es[1..] + fs;
    }
  }

  lemma RunsOne(w: World, e: Event)
    requires Enabled(w, e)
    ensures Runs(w, [e], Apply(w, e))
  {
    hide Apply, Enabled;
    assert [e][1..] == [] && Runs(Apply(w, e), [], Apply(w, e));
  }

  lemma RunsSnoc(w: World, es: seq<Event>, w1: World, e: Event)
    requires Runs(w, es, w1) && Enabled(w1, e)
    ensures Runs(w, es + [e], Apply(w1, e))
  {
    hide Apply, Enabled;
    RunsOne(w1, e);
    RunsAppend(w, es, w1, [e], Apply(w1, e));
  }

  lemma Extends(w: World, e: Event)
    requires Reachable(w) && Enabled(w, e)
    ensures Reachable(Apply(w, e))
  {
    hide Apply, Enabled;
    var es :| Runs(INIT, es, w);
    RunsSnoc(INIT, es, w, e);
  }

  // ---- What every interleaving keeps ----

  /** The row is one of its run's proposals, under that run's and its agent's id. */
  ghost predicate Born(w: World, r: Proposed) {
    && r.runId in w.runs && w.runs[r.runId].def.agentId == r.agentId && w.runs[r.runId].def.autonomy == Proposal
    && ProposedAction(r.action, r.arguments, r.rationale) in w.runs[r.runId].proposals
  }

  predicate RunsKept(w: World) {
    forall run :: run in w.runs && w.runs[run].def.autonomy == Autonomous ==> w.runs[run].proposals == []
  }

  /** Handler k's commit is what the row says: the status, and the error its call raised, if it failed. */
  predicate Decided(k: Handler, row: Record) {
    && k.seen.id == row.id && k.wrote == Some(row.status)
    && row.error == if row.status == Failed && k.call.Raised? then Some(k.call.error) else None
  }

  ghost predicate RowFits(w: World, id: RowId) {
    id in w.table.rows ==>
      && w.table.rows[id].id == id && Born(w, w.table.rows[id].proposed)
      && (w.table.rows[id].status == Pending ==> w.table.rows[id].error == None)
      && (w.table.rows[id].status != Pending ==>
            exists h :: h in w.handlers && Decided(w.handlers[h], w.table.rows[id]))
  }

  /** A handler read its row pending, the row is still the same proposal, and what the handler wrote is
      what its own call said. */
  predicate HandlerFits(w: World, h: nat) {
    h in w.handlers ==>
      var k := w.handlers[h];
      && k.seen.status == Pending
      && k.seen.id in w.table.rows && w.table.rows[k.seen.id].proposed == k.seen.proposed
      && (!k.approving ==> k.call == NotCalled)
      && (k.wrote.Some? ==>
            ReadyToWrite(k) && k.wrote.value == Verdict(k) && w.table.rows[k.seen.id].status != Pending)
      && (k.counted ==> k.wrote.Some? && k.closed)
  }

  /** How often a handler has made the call c. */
  function Made(w: World, h: nat, c: Call): nat {
    if h in w.handlers && w.handlers[h].call != NotCalled && c == CallOf(h, w.handlers[h]) then 1 else 0
  }

  predicate CallFits(w: World, c: Call) {
    match c
    case ByRun(run, name, _) => c in w.calls ==> run in w.runs && name in Visible(w.runs[run].def)
    case ByGuidance(run) => c in w.calls ==> run in w.runs && NeedsGuidance(w.runs[run].def)
    case ByHandler(h, _, _) => w.calls[c] == Made(w, h, c)
  }

  /** A run that fetches guidance needs it. */
  predicate FetchFits(w: World, run: RunId) {
    InPhase(w, run, Connecting) || InPhase(w, run, Fetching) ==> NeedsGuidance(w.runs[run].def)
  }

  ghost predicate Inv(w: World) {
    && RunsKept(w)
    && (forall run :: FetchFits(w, run))
    && (forall id :: RowFits(w, id))
    && (forall h :: HandlerFits(w, h))
    && (forall c :: CallFits(w, c))
  }

  // ---- Steps of runs keep it ----

  lemma RunKeepsDefs(w: World, run: RunId, step: RunStep)
    requires RunEnabled(w, run, step)
    ensures var w' := RunApply(w, run, step);
      && w.runs.Keys <= w'.runs.Keys && w'.handlers == w.handlers
      && (forall r :: r in w.runs ==> w'.runs[r].def == w.runs[r].def && w.runs[r].proposals <= w'.runs[r].proposals)
      && (forall r :: r in w.runs && r != run ==> w'.runs[r] == w.runs[r])
  {
    hide Visible, NeedsGuidance, RowFor;
  }

  lemma RunStepKeepsRuns(w: World, run: RunId, step: RunStep)
    requires RunsKept(w) && (forall r :: FetchFits(w, r)) && RunEnabled(w, run, step)
    ensures RunsKept(RunApply(w, run, step)) && forall r :: FetchFits(RunApply(w, run, step), r)
  {
    hide Visible, NeedsGuidance, RowFor;
    var w' := RunApply(w, run, step);
    forall r ensures FetchFits(w', r) {
      assert FetchFits(w, r);
    }
  }

  /** Proposals only grow, so what was proposed stays proposed. */
  lemma BornStays(w: World, run: RunId, step: RunStep, r: Proposed)
    requires Born(w, r) && RunEnabled(w, run, step)
    ensures Born(RunApply(w, run, step), r)
  {
    RunKeepsDefs(w, run, step);
    hide RunApply, RunEnabled;
    var before, after := w.runs[r.runId].proposals, RunApply(w, run, step).runs[r.runId].proposals;
    assert before == after[..|before|];
  }

  lemma AddedBorn(w: World, run: RunId, id: RowId, now: Timestamps.Stamp)
    requires RunsKept(w) && RunEnabled(w, run, RowAdded(id, now))
    ensures Born(RunApply(w, run, RowAdded(id, now)), RowFor(w.runs[run], run, id, now).proposed)
  {
    var r := w.runs[run];
    assert r.proposals[r.next] in r.proposals;
  }

  /** Rows come from RowAdded steps alone, and runs never touch an old one. */
  lemma RowsUnderRun(w: World, run: RunId, step: RunStep, id: RowId)
    requires RunEnabled(w, run, step) && id in RunApply(w, run, step).table.rows
    ensures var rows' := RunApply(w, run, step).table.rows;
      if id in w.table.rows then rows'[id] == w.table.rows[id]
      else step.RowAdded? && step.id == id && rows'[id] == RowFor(w.runs[run], run, id, step.now)
  {
    hide Visible, NeedsGuidance, RunAfter;
  }

  lemma RunStepKeepsRow(w: World, run: RunId, step: RunStep, id: RowId)
    requires RunsKept(w) && RowFits(w, id) && RunEnabled(w, run, step)
    ensures RowFits(RunApply(w, run, step), id)
  {
    var w' := RunApply(w, run, step);
    RunKeepsDefs(w, run, step);
    if id in w'.table.rows {
      RowsUnderRun(w, run, step, id);
      if id in w.table.rows {
        BornStays(w, run, step, w.table.rows[id].proposed);
      } else {
        AddedBorn(w, run, id, step.now);
        assert RowFor(w.runs[run], run, id, step.now).id == id;
      }
    }
    hide RunApply, RunEnabled, Born;
  }

  lemma RunStepKeepsHandler(w: World, run: RunId, step: RunStep, h: nat)
    requires HandlerFits(w, h) && RunEnabled(w, run, step)
    ensures HandlerFits(RunApply(w, run, step), h)
  {
    hide Visible, NeedsGuidance, RunAfter, Verdict, ReadyToWrite;
    if h in w.handlers {
      assert RunApply(w, run, step).table.rows[w.handlers[h].seen.id] == w.table.rows[w.handlers[h].seen.id];
    }
  }

  lemma RunStepKeepsCall(w: World, run: RunId, step: RunStep, c: Call)
    requires CallFits(w, c) && FetchFits(w, run) && RunEnabled(w, run, step)
    ensures CallFits(RunApply(w, run, step), c)
  {
    RunKeepsDefs(w, run, step);
    hide Visible, NeedsGuidance, RunAfter, TableAfterRun;
  }

  // ---- Steps of handlers keep it ----

  function RowAfterMove(w: World, h: nat, move: HandlerStep, id: RowId, row: Record): Record
    requires HandlerEnabled(w, h, move)
  {
    if move.RowCommitted? && w.handlers[h].seen.id == id
    then row.(status := Verdict(w.handlers[h]), error := VerdictError(w.handlers[h]))
    else row
  }

  /** What a move does to the table: it can change status and error of the row its handler read, with the
      handler's own verdict, and nothing else. */
  lemma RowsUnderMove(w: World, h: nat, move: HandlerStep, id: RowId)
    requires HandlerEnabled(w, h, move)
    ensures var rows, rows' := w.table.rows, HandlerApply(w, h, move).table.rows;
      && (id in rows' <==> id in rows)
      && (id in rows ==> rows'[id] == RowAfterMove(w, h, move, id, rows[id]))
  {
    hide Verdict, VerdictError, ReadyToWrite;
  }

  lemma MoveKeepsRow(w: World, h: nat, move: HandlerStep, id: RowId)
    requires RowFits(w, id) && HandlerFits(w, h) && HandlerEnabled(w, h, move)
    ensures RowFits(HandlerApply(w, h, move), id)
  {
    var w' := HandlerApply(w, h, move);
    assert w'.runs == w.runs;
    RowsUnderMove(w, h, move, id);
    if id in w.table.rows {
      assert Born(w, w.table.rows[id].proposed) ==> Born(w', w'.table.rows[id].proposed);
      if move.RowCommitted? && w.handlers[h].seen.id == id {
        assert Decided(w'.handlers[h], w'.table.rows[id]);
      } else if w.table.rows[id].status != Pending {
        var d :| d in w.handlers && Decided(w.handlers[d], w.table.rows[id]);
        DecidedKept(w, h, move, d, w.table.rows[id]);
      }
    }
    hide HandlerApply, HandlerEnabled, HandlerFits, Born, Decided;
  }

  lemma DecidedKept(w: World, h: nat, move: HandlerStep, d: nat, row: Record)
    requires HandlerFits(w, h) && HandlerEnabled(w, h, move) && d in w.handlers && Decided(w.handlers[d], row)
    ensures d in HandlerApply(w, h, move).handlers && Decided(HandlerApply(w, h, move).handlers[d], row)
  {
    hide Verdict, VerdictError, TableAfterMove;
  }

  lemma MoveKeepsHandler(w: World, h: nat, move: HandlerStep, d: nat)
    requires HandlerFits(w, h) && HandlerFits(w, d) && HandlerEnabled(w, h, move)
    requires move.RowRead? ==> RowFits(w, move.id)
    ensures HandlerFits(HandlerApply(w, h, move), d)
  {
    if d in w.handlers {
      RowsUnderMove(w, h, move, w.handlers[d].seen.id);
    }
    if move.RowRead? {
      RowsUnderMove(w, h, move, move.id);
    }
    hide TableAfterMove, VerdictError, Born, Decided;
  }

  lemma MoveKeepsCall(w: World, h: nat, move: HandlerStep, c: Call)
    requires CallFits(w, c) && HandlerEnabled(w, h, move)
    ensures CallFits(HandlerApply(w, h, move), c)
  {
    hide TableAfterMove, Verdict, VerdictError, ReadyToWrite, Visible, NeedsGuidance;
  }

  // ---- Every step keeps it ----

  lemma RunStepKeeps(w: World, run: RunId, step: RunStep)
    requires Inv(w) && RunEnabled(w, run, step)
    ensures Inv(RunApply(w, run, step))
  {
    var w' := RunApply(w, run, step);
    RunStepKeepsRuns(w, run, step);
    hide RunApply, RunEnabled, RowFits, HandlerFits, CallFits, RunsKept, FetchFits;
    forall id ensures RowFits(w', id) { RunStepKeepsRow(w, run, step, id); }
    forall h ensures HandlerFits(w', h) { RunStepKeepsHandler(w, run, step, h); }
    forall c ensures CallFits(w', c) { RunStepKeepsCall(w, run, step, c); }
  }

  lemma MoveKeeps(w: World, h: nat, move: HandlerStep)
    requires Inv(w) && HandlerEnabled(w, h, move)
    ensures Inv(HandlerApply(w, h, move))
  {
    var w' := HandlerApply(w, h, move);
    assert w'.runs == w.runs;
    assert HandlerFits(w, h);
    forall run ensures FetchFits(w', run) { assert FetchFits(w, run); }
    hide HandlerApply, HandlerEnabled, RowFits, HandlerFits, CallFits, FetchFits;
    forall id ensures RowFits(w', id) { MoveKeepsRow(w, h, move, id); }
    forall d ensures HandlerFits(w', d) { MoveKeepsHandler(w, h, move, d); }
    forall c ensures CallFits(w', c) { MoveKeepsCall(w, h, move, c); }
  }

  lemma InvStep(w: World, e: Event)
    requires Inv(w) && Enabled(w, e)
    ensures Inv(Apply(w, e))
  {
    match e
    case OfRun(run, step) =>
      hide Inv, RunApply, RunEnabled;
      RunStepKeeps(w, run, step);
    case OfHandler(h, move) =>
      hide Inv, HandlerApply, HandlerEnabled;
      MoveKeeps(w, h, move);
    case CacheExpired =>
      StaleKeeps(w);
  }

  lemma StaleKeeps(w: World)
    requires Inv(w)
    ensures Inv(w.(cached := false))
  {
    var w' := w.(cached := false);
    hide Visible, NeedsGuidance, Verdict, ReadyToWrite;
    forall run ensures FetchFits(w', run) { assert FetchFits(w, run); }
    forall id ensures RowFits(w', id) { assert RowFits(w, id); }
    forall h ensures HandlerFits(w', h) { assert HandlerFits(w, h); }
    forall c ensures CallFits(w', c) { assert CallFits(w, c); }
  }

  lemma {:induction false} InvRuns(w: World, es: seq<Event>, w': World)
    requires Inv(w) && Runs(w, es, w')
    ensures Inv(w')
    decreases |es|
  {
    hide Inv, Enabled, Apply;
    if es != [] {
      InvStep(w, es[0]);
      InvRuns(Apply(w, es[0]), es[1..], w');
    }
  }

  lemma ReachableInv(w: World)
    requires Reachable(w)
    ensures Inv(w)
  {
    var es :| Runs(INIT, es, w);
    InvRuns(INIT, es, w);
  }

  // ---- The human-approval guarantee ----

  /** A call of a run's agent: an allowed tool, and in proposal mode not a write tool. */
  predicate HarmlessRunCall(w: World, run: RunId, name: string) {
    && run in w.runs && name in w.runs[run].def.allow
    && (w.runs[run].def.autonomy == Proposal ==> name !in w.runs[run].def.write)
  }

  /** An approved call: exactly what a row said that this approve handler read as pending, that is still
      the same proposal, and that a proposal-mode run proposed under its own and its agent's id. */
  ghost predicate ApprovedCall(w: World, h: nat, action: string, arguments: Json) {
    && h in w.handlers && w.handlers[h].approving
    && var seen := w.handlers[h].seen;
       seen.status == Pending && seen.proposed.action == action && seen.proposed.arguments == arguments &&
       Born(w, seen.proposed) && seen.id in w.table.rows && w.table.rows[seen.id].proposed == seen.proposed
  }

  /** Over every interleaving, every tool call to the MCP server is harmless, approved, or a fetch of the
      guidance that the run's own prompt asks for. */
  lemma OnlyApprovedWrites(w: World, c: Call)
    requires Reachable(w) && c in w.calls
    ensures match c
      case ByRun(run, name, _) => HarmlessRunCall(w, run, name)
      case ByGuidance(run) => run in w.runs && NeedsGuidance(w.runs[run].def)
      case ByHandler(h, action, arguments) => ApprovedCall(w, h, action, arguments)
  {
    ReachableInv(w);
    assert CallFits(w, c);
    if c.ByHandler? {
      assert HandlerFits(w, c.handler);
      assert RowFits(w, w.handlers[c.handler].seen.id);
    }
    hide NeedsGuidance;
  }

  // ---- Which tools a run can name ----

  /** The run a call is made in, and the tool it names. */
  predicate InRun(c: Call, run: RunId) {
    match c
    case ByRun(r, _, _) => r == run
    case ByGuidance(r) => r == run
    case ByHandler(_, _, _) => false
  }

  function ToolName(c: Call): string {
    match c
    case ByRun(_, name, _) => name
    case ByGuidance(_) => GUIDANCE_TOOL
    case ByHandler(_, action, _) => action
  }

  ghost predicate Names(w: World, run: RunId, c: Call, def: AgentDef, name: string) {
    Reachable(w) && run in w.runs && w.runs[run].def == def && c in w.calls && InRun(c, run) && ToolName(c) == name
  }

  /** Some run of this agent, in some interleaving, calls this tool. */
  ghost predicate MayCall(def: AgentDef, name: string) {
    exists w, run, c :: Names(w, run, c, def, name)
  }

  /** The tools that runs of an agent can call are exactly the allowed ones, in proposal mode without the
      write tools, and the guidance tool, listed or not, if the prompt references a placeholder. */
  lemma ToolsOfRun(def: AgentDef, name: string)
    requires def.write <= def.allow
    ensures MayCall(def, name) <==>
      || (name in def.allow && (def.autonomy == Proposal ==> name !in def.write))
      || (name == "get_store_guidance" && Placeholders.ReferencedKeys(def.systemPrompt) != {})
  {
    RunToolsVisible(def, name);
    hide MayCall, Placeholders.ReferencedKeys;
  }

  lemma RunToolsVisible(def: AgentDef, name: string)
    requires def.write <= def.allow
    ensures MayCall(def, name) <==> name in Visible(def) || (name == GUIDANCE_TOOL && NeedsGuidance(def))
  {
    forall w, run, c | Names(w, run, c, def, name)
      ensures name in Visible(def) || (name == GUIDANCE_TOOL && NeedsGuidance(def))
    {
      ReachableInv(w);
      assert CallFits(w, c);
    }
    hide Names, Visible, NeedsGuidance;
    if name == GUIDANCE_TOOL && NeedsGuidance(def) {
      var w := FetchesGuidance(def);
      assert Names(w, 0, ByGuidance(0), def, name);
    }
    if name in Visible(def) {
      var w := CallsTool(def, name);
      assert Names(w, 0, ByRun(0, name, Null), def, name);
    }
  }

  /** A proposal-mode run can call a tool of its `write` list if and only if that list has the guidance tool
      and the prompt has a placeholder. */
  lemma WriteToolCalledIff(def: AgentDef)
    requires def.write <= def.allow && def.autonomy == Proposal
    ensures (exists name :: name in def.write && MayCall(def, name)) <==> GUIDANCE_TOOL in def.write && NeedsGuidance(def)
  {
    hide MayCall, NeedsGuidance;
    forall name | name in def.write
      ensures MayCall(def, name) <==> name == GUIDANCE_TOOL && NeedsGuidance(def)
    {
      RunToolsVisible(def, name);
    }
  }

  /** A run can call a tool that its agent does not allow if and only if the guidance tool is not allowed
      and the prompt has a placeholder. */
  lemma UnlistedToolCalledIff(def: AgentDef)
    requires def.write <= def.allow
    ensures (exists name :: name !in def.allow && MayCall(def, name)) <==> GUIDANCE_TOOL !in def.allow && NeedsGuidance(def)
  {
    hide MayCall, NeedsGuidance;
    forall name | name !in def.allow
      ensures MayCall(def, name) <==> name == GUIDANCE_TOOL && NeedsGuidance(def)
    {
      RunToolsVisible(def, name);
    }
  }

  /** A shipped agent: its prompt begins with a placeholder, and its `allow` list has no guidance tool. */
  function EventDeduplicator(body: string): AgentDef {
    AgentDef("event-deduplicator", Proposal,
      {"get_timeline", "get_agenda", "get_document", "hybrid_search", "merge_events", "delete_event", "update_event"},
      {"merge_events", "delete_event", "update_event"},
      "{{saga.store_description}}" + body)
  }

  lemma StoreDescriptionReferenced(body: string)
    ensures Placeholders.ReferencedKeys("{{saga.store_description}}" + body) != {}
  {
    var p := Placeholders.Placeholder("", "store_description", "");
    StoreDescriptionPrinted();
    hide Placeholders.ReferencedKeys, Placeholders.Print, Placeholders.ValidPlaceholder;
    Placeholders.FirstIsReferenced(p, body);
  }

  lemma StoreDescriptionPrinted()
    ensures var p := Placeholders.Placeholder("", "store_description", "");
      Placeholders.ValidPlaceholder(p) && Placeholders.Print(p) == "{{saga.store_description}}"
  {
    StoreDescriptionValid();
    hide Placeholders.ValidPlaceholder;
    assert "{{" + "" + "saga." == "{{saga.";
    assert "{{saga." + "store_description" + "" == "{{saga.store_description";
  }

  lemma StoreDescriptionValid()
    ensures Placeholders.ValidPlaceholder(Placeholders.Placeholder("", "store_description", ""))
  {
  }

  /** So its runs can call a tool that it does not allow. */
  lemma DeduplicatorCallsUnlistedTool(body: string)
    ensures GUIDANCE_TOOL !in EventDeduplicator(body).allow && MayCall(EventDeduplicator(body), GUIDANCE_TOOL)
  {
    StoreDescriptionReferenced(body);
    assert NeedsGuidance(EventDeduplicator(body));
    hide NeedsGuidance, MayCall, Placeholders.ReferencedKeys;
    RunToolsVisible(EventDeduplicator(body), GUIDANCE_TOOL);
  }

  lemma InitReachable()
    ensures Reachable(INIT)
  {
    assert Runs(INIT, [], INIT);
  }

  /** The world after a run's step, for building interleavings. */
  lemma RunStepReaches(w: World, run: RunId, step: RunStep) returns (w': World)
    requires Reachable(w) && RunEnabled(w, run, step)
    ensures Reachable(w') && w' == RunApply(w, run, step)
  {
    hide Reachable, RunApply, RunEnabled;
    Extends(w, OfRun(run, step));
    w' := RunApply(w, run, step);
  }

  lemma FetchesGuidance(def: AgentDef) returns (w: World)
    requires def.write <= def.allow && NeedsGuidance(def)
    ensures Reachable(w) && w.runs == map[0 := Run(def, Fetching, [], 0)] && w.calls == multiset{ByGuidance(0)}
    ensures w.table == EMPTY_TABLE && w.handlers == map[]
  {
    InitReachable();
    hide Reachable, NeedsGuidance;
    w := RunStepReaches(INIT, 0, Started(def));
    w := RunStepReaches(w, 0, CacheMissed);
    w := RunStepReaches(w, 0, GuidanceCalled);
  }

  /** Every agent's run can get as far as its first tool call. */
  lemma BecomesActive(def: AgentDef) returns (w: World)
    requires def.write <= def.allow
    ensures Reachable(w) && w.runs == map[0 := Run(def, Active, [], 0)]
    ensures w.table == EMPTY_TABLE && w.handlers == map[]
  {
    hide Reachable, NeedsGuidance;
    if NeedsGuidance(def) {
      w := FetchesGuidance(def);
      w := RunStepReaches(w, 0, GuidanceAnswered);
    } else {
      InitReachable();
      w := RunStepReaches(INIT, 0, Started(def));
      w := RunStepReaches(w, 0, PromptReady);
    }
  }

  lemma CallsTool(def: AgentDef, name: string) returns (w: World)
    requires def.write <= def.allow && name in Visible(def)
    ensures Reachable(w) && 0 in w.runs && w.runs[0].def == def && ByRun(0, name, Null) in w.calls
  {
    hide Reachable;
    w := BecomesActive(def);
    w := RunStepReaches(w, 0, ToolCalled(name, Null));
  }

  // ---- When a run may act ----

  /** The agent of the run is not running: it has stopped, or never started. */
  predicate Quiet(w: World, run: RunId) {
    InPhase(w, run, Persisting) || InPhase(w, run, Ended)
  }

  ghost predicate SameDeeds(w: World, w': World, run: RunId) {
    && run in w.runs && run in w'.runs && w'.runs[run].proposals == w.runs[run].proposals
    && (forall c :: InRun(c, run) ==> w'.calls[c] == w.calls[c])
  }

  /** Another run's step leaves this one alone. */
  lemma OtherRunStep(w: World, r: RunId, step: RunStep, run: RunId)
    requires RunEnabled(w, r, step) && r != run && run in w.runs
    ensures var w' := RunApply(w, r, step);
      run in w'.runs && w'.runs[run] == w.runs[run] && SameDeeds(w, w', run)
  {
    hide RunEnabled, RunAfter, TableAfterRun;
  }

  lemma MoveLeavesRuns(w: World, h: nat, move: HandlerStep, run: RunId)
    requires HandlerEnabled(w, h, move) && run in w.runs
    ensures HandlerApply(w, h, move).runs == w.runs && SameDeeds(w, HandlerApply(w, h, move), run)
  {
    hide CanMove, HandlerAfter, TableAfterMove;
  }

  lemma OwnQuietStep(w: World, step: RunStep, run: RunId)
    requires Quiet(w, run) && RunEnabled(w, run, step)
    ensures Quiet(RunApply(w, run, step), run) && SameDeeds(w, RunApply(w, run, step), run)
  {
    hide Visible, NeedsGuidance, TableAfterRun;
  }

  lemma QuietStep(w: World, e: Event, run: RunId)
    requires Quiet(w, run) && Enabled(w, e)
    ensures Quiet(Apply(w, e), run) && SameDeeds(w, Apply(w, e), run)
  {
    hide RunApply, RunEnabled, HandlerEnabled, HandlerApply;
    match e
    case OfRun(r, step) =>
      if r == run {
        OwnQuietStep(w, step, run);
      } else {
        OtherRunStep(w, r, step, run);
      }
    case OfHandler(h, move) => MoveLeavesRuns(w, h, move, run);
    case CacheExpired =>
  }

  lemma {:induction false} QuietRuns(w: World, es: seq<Event>, w': World, run: RunId)
    requires Quiet(w, run) && Runs(w, es, w')
    ensures Quiet(w', run) && SameDeeds(w, w', run)
    decreases |es|
  {
    hide Enabled, Apply;
    if es != [] {
      QuietStep(w, es[0], run);
      QuietRuns(Apply(w, es[0]), es[1..], w', run);
    }
  }

  /** A run that stopped, was abandoned, or could not get its guidance calls no tool and proposes nothing
      from then on, in any continuation. */
  lemma OverMeansOver(w: World, run: RunId, step: RunStep, es: seq<Event>, w': World)
    requires step.Stopped? || step.Abandoned? || step.GuidanceFailed?
    requires Enabled(w, OfRun(run, step)) && Runs(Apply(w, OfRun(run, step)), es, w')
    ensures SameDeeds(w, w', run)
  {
    var over := RunApply(w, run, step);
    assert Quiet(over, run) && SameDeeds(w, over, run);
    hide Quiet, RunApply, RunEnabled;
    QuietRuns(over, es, w', run);
  }

  /** The rows of a run. */
  function RowsOfRun(tb: Table, run: RunId): set<RowId> {
    set id | id in tb.rows && tb.rows[id].proposed.runId == run
  }

  lemma EndedStep(w: World, e: Event, run: RunId)
    requires InPhase(w, run, Ended) && Inv(w) && Enabled(w, e)
    ensures InPhase(Apply(w, e), run, Ended) && RowsOfRun(Apply(w, e).table, run) == RowsOfRun(w.table, run)
  {
    hide Inv;
    match e
    case OfRun(r, step) =>
      hide NeedsGuidance, Visible;
      assert step.RowAdded? ==> RowFor(w.runs[r], r, step.id, step.now).proposed.runId == r;
    case OfHandler(h, move) =>
      forall id | id in w.table.rows ensures id in Apply(w, e).table.rows && Apply(w, e).table.rows[id].proposed == w.table.rows[id].proposed {
        RowsUnderMove(w, h, move, id);
      }
      forall id | id in Apply(w, e).table.rows ensures id in w.table.rows {
        RowsUnderMove(w, h, move, id);
      }
      hide CanMove, HandlerAfter, TableAfterMove;
    case CacheExpired =>
  }

  lemma {:induction false} EndedRuns(w: World, es: seq<Event>, w': World, run: RunId)
    requires InPhase(w, run, Ended) && Inv(w) && Runs(w, es, w')
    ensures RowsOfRun(w'.table, run) == RowsOfRun(w.table, run)
    decreases |es|
  {
    hide Inv, Enabled, Apply, RowsOfRun;
    if es != [] {
      EndedStep(w, es[0], run);
      InvStep(w, es[0]);
      EndedRuns(Apply(w, es[0]), es[1..], w', run);
    }
  }

  /** A run that was abandoned, could not get its guidance, or stopped without a proposal sink or in autonomous
      mode has no row added from then on, in any continuation. */
  lemma NoRowsWithoutSink(w: World, run: RunId, step: RunStep, es: seq<Event>, w': World)
    requires Inv(w) && Enabled(w, OfRun(run, step)) && Runs(Apply(w, OfRun(run, step)), es, w')
    requires step.Abandoned? || step.GuidanceFailed? || (step.Stopped? && (!step.sink || w.runs[run].def.autonomy == Autonomous))
    ensures RowsOfRun(w'.table, run) == RowsOfRun(w.table, run)
  {
    var over := RunApply(w, run, step);
    assert InPhase(over, run, Ended) && over.table == w.table;
    InvStep(w, OfRun(run, step));
    hide Inv, RunApply, RunEnabled, RowsOfRun;
    EndedRuns(over, es, w', run);
  }

  /** Some run has called for guidance. */
  ghost predicate Fetched(w: World) {
    exists r :: ByGuidance(r) in w.calls
  }

  /** Guidance is, or was, under way for this run. */
  predicate HadGuidance(r: Run) {
    r.phase == Fetching || ((r.phase == Active || r.phase == Persisting) && NeedsGuidance(r.def))
  }

  ghost predicate Guided(w: World) {
    w.cached || (exists run :: run in w.runs && HadGuidance(w.runs[run])) ==> Fetched(w)
  }

  lemma CallsStay(w: World, e: Event)
    requires Enabled(w, e)
    ensures w.calls <= Apply(w, e).calls
  {
    hide RunAfter, TableAfterRun, HandlerAfter, TableAfterMove, CanMove, RunEnabled;
  }

  /** Before any call for guidance, no step but such a call leads to a run that had guidance. */
  lemma UnguidedStep(w: World, e: Event)
    requires Guided(w) && !Fetched(w) && Enabled(w, e) && !(e.OfRun? && e.step.GuidanceCalled?)
    ensures var w' := Apply(w, e); !w'.cached && forall run :: run in w'.runs ==> !HadGuidance(w'.runs[run])
  {
    hide NeedsGuidance, Visible, TableAfterRun, TableAfterMove, Fetched;
  }

  lemma GuidedStep(w: World, e: Event)
    requires Guided(w) && Enabled(w, e)
    ensures Guided(Apply(w, e))
  {
    CallsStay(w, e);
    if Fetched(w) {
      var r :| ByGuidance(r) in w.calls;
      assert ByGuidance(r) in Apply(w, e).calls;
    } else if e.OfRun? && e.step.GuidanceCalled? {
      assert ByGuidance(e.run) in Apply(w, e).calls;
    } else {
      UnguidedStep(w, e);
    }
    hide Enabled, Apply, HadGuidance;
  }

  lemma {:induction false} GuidedRuns(w: World, es: seq<Event>, w': World)
    requires Guided(w) && Runs(w, es, w')
    ensures Guided(w')
    decreases |es|
  {
    hide Enabled, Apply, Guided;
    if es != [] {
      GuidedStep(w, es[0]);
      GuidedRuns(Apply(w, es[0]), es[1..], w');
    }
  }

  /** A run whose prompt references a placeholder does not get as far as its agent before guidance was
      called for, by it or by an earlier run. */
  lemma NoAgentBeforeGuidance(w: World, run: RunId)
    requires Reachable(w) && run in w.runs && (w.runs[run].phase == Active || w.runs[run].phase == Persisting)
    requires Placeholders.ReferencedKeys(w.runs[run].def.systemPrompt) != {}
    ensures exists r :: ByGuidance(r) in w.calls
  {
    var es :| Runs(INIT, es, w);
    GuidedRuns(INIT, es, w);
    assert HadGuidance(w.runs[run]);
    hide Placeholders.ReferencedKeys;
  }

  // ---- Rows under overlapping handlers ----

  /** No step changes a column other than status and error, removes a row, or takes a decided row back
      to pending. */
  lemma RowsStayDecided(w: World, e: Event, id: RowId)
    requires Inv(w) && Enabled(w, e) && id in w.table.rows
    ensures var w' := Apply(w, e);
      && id in w'.table.rows && w'.table.rows[id].proposed == w.table.rows[id].proposed
      && (w.table.rows[id].status != Pending ==> w'.table.rows[id].status != Pending)
      && (w'.table.rows[id] != w.table.rows[id] ==>
            e.OfHandler? && e.move.RowCommitted? && w.handlers[e.h].seen.id == id)
  {
    match e
    case OfRun(run, step) =>
      hide Inv, RunEnabled, RunAfter, RowFor;
      if step.RowAdded? {
        assert RunEnabled(w, run, step);
        RowsUnderRun(w, run, step, id);
      }
    case OfHandler(h, move) =>
      RowsUnderMove(w, h, move, id);
      hide Inv, HandlerApply, VerdictError;
    case CacheExpired =>
  }

  /** However handlers interleave from here on: the row stays, it stays the same proposal, and once decided
      it never returns to pending. */
  lemma {:induction false} RowsStayDecidedForever(w: World, es: seq<Event>, w': World, id: RowId)
    requires Inv(w) && Runs(w, es, w') && id in w.table.rows
    ensures id in w'.table.rows && w'.table.rows[id].proposed == w.table.rows[id].proposed
    ensures w.table.rows[id].status != Pending ==> w'.table.rows[id].status != Pending
    decreases |es|
  {
    hide Inv, Enabled, Apply;
    if es != [] {
      RowsStayDecided(w, es[0], id);
      InvStep(w, es[0]);
      RowsStayDecidedForever(Apply(w, es[0]), es[1..], w', id);
    }
  }

  /** What a handler that decided the row like this must have done itself. */
  predicate Justifies(k: Handler, row: Record) {
    match row.status
    case Pending => false
    case Applied => k.approving && k.call == Returned && row.error == None
    case Failed => k.approving && k.call.Raised? && row.error == Some(k.call.error)
    case Rejected => !k.approving && k.call == NotCalled && row.error == None
  }

  /** Whatever overlapped, an applied row had a call that returned, a failed row a call that raised the error
      it carries, and a rejected row a reject handler. */
  lemma DecidedBySomeHandler(w: World, id: RowId) returns (h: nat)
    requires Reachable(w) && id in w.table.rows && w.table.rows[id].status != Pending
    ensures h in w.handlers && w.handlers[h].seen.id == id && w.handlers[h].wrote == Some(w.table.rows[id].status)
    ensures Justifies(w.handlers[h], w.table.rows[id])
  {
    ReachableInv(w);
    assert RowFits(w, id);
    h :| h in w.handlers && Decided(w.handlers[h], w.table.rows[id]);
    assert HandlerFits(w, h);
  }

  ghost function Callers(w: World, id: RowId): set<nat> {
    set h | h in w.handlers && w.handlers[h].seen.id == id && w.handlers[h].call != NotCalled
  }

  ghost function Approvers(w: World, id: RowId): set<nat> {
    set h | h in w.handlers && w.handlers[h].seen.id == id && w.handlers[h].approving
  }

  /** Every approve handler that read the row pending calls the server at most once, and nobody else does:
      the calls for a row never outnumber those handlers. */
  lemma CallsWithinReaders(w: World, id: RowId)
    requires Reachable(w)
    ensures Callers(w, id) <= Approvers(w, id)
    ensures forall h, action, arguments :: ByHandler(h, action, arguments) in w.calls ==>
      w.calls[ByHandler(h, action, arguments)] == 1 && h in w.handlers && h in Callers(w, w.handlers[h].seen.id)
  {
    ReachableInv(w);
    forall h | h in Callers(w, id) ensures h in Approvers(w, id) {
      assert HandlerFits(w, h);
    }
    forall h, action, arguments | ByHandler(h, action, arguments) in w.calls
      ensures w.calls[ByHandler(h, action, arguments)] == 1 && h in w.handlers && w.handlers[h].call != NotCalled
    {
      assert CallFits(w, ByHandler(h, action, arguments));
    }
  }

  // ---- The AGENT_PROPOSALS counter ----

  ghost function RowsWith(rows: map<RowId, Record>, status: Status): set<RowId> {
    set id | id in rows && rows[id].status == status
  }

  ghost function Writers(handlers: map<nat, Handler>, status: Status): set<nat> {
    set h | h in handlers && handlers[h].wrote == Some(status)
  }

  /** The handlers that committed a status and have not counted it: between the two statements, or cut there. */
  ghost function Uncounted(handlers: map<nat, Handler>, status: Status): set<nat> {
    set h | h in handlers && handlers[h].wrote == Some(status) && !handlers[h].counted
  }

  ghost predicate CounterFits(w: World, status: Status) {
    && w.table.counted[status] + |Uncounted(w.handlers, status)| == |Writers(w.handlers, status)|
    && (status != Pending ==> |RowsWith(w.table.rows, status)| <= |Writers(w.handlers, status)|)
  }

  lemma CounterStep(w: World, e: Event, status: Status)
    requires Inv(w) && Enabled(w, e) && CounterFits(w, status)
    ensures CounterFits(Apply(w, e), status)
  {
    match e
    case OfRun(run, step) =>
      hide Inv, Writers, Uncounted;
      CounterUnderRun(w, run, step, status);
    case OfHandler(h, move) =>
      assert HandlerFits(w, h);
      hide Inv, HandlerEnabled, HandlerApply, CounterFits;
      CounterUnderMove(w, h, move, status);
    case CacheExpired =>
  }

  lemma CounterUnderRun(w: World, run: RunId, step: RunStep, status: Status)
    requires RunEnabled(w, run, step)
    ensures var w' := RunApply(w, run, step);
      && w'.handlers == w.handlers && w'.table.counted == w.table.counted
      && (status != Pending ==> RowsWith(w'.table.rows, status) == RowsWith(w.table.rows, status))
  {
    hide RunAfter, Visible, NeedsGuidance;
  }

  function Wrote(handlers: map<nat, Handler>, h: nat, status: Status): int {
    Bit(h in handlers && handlers[h].wrote == Some(status))
  }

  function Owes(handlers: map<nat, Handler>, h: nat, status: Status): int {
    Bit(h in handlers && handlers[h].wrote == Some(status) && !handlers[h].counted)
  }

  lemma WritersUpdate(handlers: map<nat, Handler>, h: nat, k: Handler, status: Status)
    ensures var after := handlers[h := k];
      && |Writers(after, status)| - Wrote(after, h, status) == |Writers(handlers, status)| - Wrote(handlers, h, status)
      && |Uncounted(after, status)| - Owes(after, h, status) == |Uncounted(handlers, status)| - Owes(handlers, h, status)
  {
    var after := handlers[h := k];
    SameApartFrom(Writers(handlers, status), Writers(after, status), h);
    SameApartFrom(Uncounted(handlers, status), Uncounted(after, status), h);
  }

  lemma CounterUnderMove(w: World, h: nat, move: HandlerStep, status: Status)
    requires HandlerFits(w, h) && HandlerEnabled(w, h, move) && CounterFits(w, status)
    ensures CounterFits(HandlerApply(w, h, move), status)
  {
    var w' := HandlerApply(w, h, move);
    if w' != w {
      MovedHandler(w, h, move, status);
      WritersUpdate(w.handlers, h, w'.handlers[h], status);
      RowsUnderCommit(w, h, move, status);
    }
    hide HandlerApply, HandlerEnabled, HandlerFits, Writers, Uncounted, RowsWith, Wrote, Owes;
  }

  /** What a move adds to the counter, it no longer owes. */
  lemma MovedHandler(w: World, h: nat, move: HandlerStep, status: Status)
    requires HandlerFits(w, h) && HandlerEnabled(w, h, move) && HandlerApply(w, h, move) != w
    ensures var w' := HandlerApply(w, h, move);
      && h in w'.handlers && w'.handlers == w.handlers[h := w'.handlers[h]]
      && w'.table.counted[status] + Owes(w'.handlers, h, status) - Wrote(w'.handlers, h, status) ==
        w.table.counted[status] + Owes(w.handlers, h, status) - Wrote(w.handlers, h, status)
  {
    hide Verdict, VerdictError, ReadyToWrite;
  }

  lemma RowsUnderCommit(w: World, h: nat, move: HandlerStep, status: Status)
    requires HandlerFits(w, h) && HandlerEnabled(w, h, move)
    ensures var w' := HandlerApply(w, h, move);
      |RowsWith(w'.table.rows, status)| - Wrote(w'.handlers, h, status) <= |RowsWith(w.table.rows, status)| - Wrote(w.handlers, h, status)
  {
    if move.RowCommitted? {
      var k := w.handlers[h];
      RowsAfterWrite(w.table.rows, k.seen.id, w.table.rows[k.seen.id].(status := Verdict(k), error := VerdictError(k)), status);
    }
    hide RowsWith, Verdict, VerdictError, ReadyToWrite;
  }

  lemma RowsAfterWrite(rows: map<RowId, Record>, id: RowId, row: Record, status: Status)
    requires id in rows
    ensures |RowsWith(rows[id := row], status)| <= |RowsWith(rows, status)| + if row.status == status then 1 else 0
  {
    var before := RowsWith(rows, status);
    if row.status == status {
      assert RowsWith(rows[id := row], status) == before + {id};
    } else {
      assert RowsWith(rows[id := row], status) == before - {id};
      SubsetSize(before - {id}, before);
    }
  }

  lemma {:induction false} CounterRuns(w: World, es: seq<Event>, w': World, status: Status)
    requires Inv(w) && CounterFits(w, status) && Runs(w, es, w')
    ensures CounterFits(w', status)
    decreases |es|
  {
    hide Inv, CounterFits, Enabled, Apply;
    if es != [] {
      InvStep(w, es[0]);
      CounterStep(w, es[0], status);
      CounterRuns(Apply(w, es[0]), es[1..], w', status);
    }
  }

  /** In every reachable state AGENT_PROPOSALS{state} and the handlers that committed that state without
      counting it make up all handlers that committed it, and those cover the rows now in it. */
  lemma DecisionsCounted(w: World, status: Status)
    requires Reachable(w)
    ensures w.table.counted[status] + |Uncounted(w.handlers, status)| == |Writers(w.handlers, status)|
    ensures status != Pending ==> |RowsWith(w.table.rows, status)| <= |Writers(w.handlers, status)|
  {
    var es :| Runs(INIT, es, w);
    CounterFitsAtFirst(status);
    InitFits();
    hide Runs, Inv, Writers, Uncounted, RowsWith;
    CounterRuns(INIT, es, w, status);
  }

  lemma CounterFitsAtFirst(status: Status)
    ensures CounterFits(INIT, status)
  {
    assert Writers(INIT.handlers, status) == {} && RowsWith(INIT.table.rows, status) == {};
    assert Uncounted(INIT.handlers, status) == {};
  }

  lemma InitFits()
    ensures Inv(INIT)
  {
  }

  /** The counter is the number of decisions if and only if no handler was cut, or is still, between the
      commit and the increment; then it covers the rows as well. */
  lemma CounterExactIff(w: World, status: Status)
    requires Reachable(w)
    ensures w.table.counted[status] == |Writers(w.handlers, status)| <==>
      forall h :: h in w.handlers && w.handlers[h].wrote == Some(status) ==> w.handlers[h].counted
    ensures status != Pending && w.table.counted[status] == |Writers(w.handlers, status)| ==>
      |RowsWith(w.table.rows, status)| <= w.table.counted[status]
  {
    DecisionsCounted(w, status);
    hide Reachable;
    if forall h :: h in w.handlers && w.handlers[h].wrote == Some(status) ==> w.handlers[h].counted {
      assert Uncounted(w.handlers, status) == {};
    } else {
      var h :| h in w.handlers && w.handlers[h].wrote == Some(status) && !w.handlers[h].counted;
      assert h in Uncounted(w.handlers, status);
    }
  }
}
