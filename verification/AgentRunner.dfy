/** `AgentRunner.run` around the awaited agent: outcome classification, the persistence loop, the report. */
module AgentRunner {
  import opened Basics
  import opened ProposalStore
  import opened ApprovalPipeline
  import Timestamps

  datatype RunStatus = OK | LimitExceeded | Timeout | Error

  /** A message part; reading an `Unreadable` one raises. */
  datatype Part = ToolCall(name: string) | OtherPart | Unreadable

  /** How the awaited agent ended: a result, the usage limit, the timeout, or any other exception. */
  datatype Outcome =
    | Finished(output: string, messages: seq<seq<Part>>)
    | LimitHit(message: string)
    | TimedOut
    | Crashed(message: string)

  datatype RunReport = RunReport(
    runId: RunId, agentId: string, status: RunStatus, summary: string, toolCalls: nat,
    proposals: seq<ProposedAction>, error: Option<string>)

  // ---- Counting tool calls ----

  predicate CountsAsCall(p: Part) {
    p.ToolCall? && p.name != "propose"
  }

  function CallsIn(parts: seq<Part>): nat {
    if parts == [] then 0 else CallsIn(parts[..|parts| - 1]) + if CountsAsCall(parts[|parts| - 1]) then 1 else 0
  }

  function Flatten(messages: seq<seq<Part>>): seq<Part> {
    if messages == [] then [] else Flatten(messages[..|messages| - 1]) + messages[|messages| - 1]
  }

  /** read is what can be read of all: everything, or everything before the first part that raises. */
  ghost predicate Readable(all: seq<Part>, read: seq<Part>) {
    read <= all && Unreadable !in read && (|read| < |all| ==> all[|read|] == Unreadable)
  }

  function ReadablePart(all: seq<Part>): (read: seq<Part>)
    ensures Readable(all, read)
  {
    if all == [] || all[0] == Unreadable then [] else [all[0]] + ReadablePart(all[1..])
  }

  lemma ReadableLongest(all: seq<Part>, read: seq<Part>, other: seq<Part>)
    requires Readable(all, read) && other <= all && Unreadable !in other
    ensures other <= read
  {
  }

  lemma ReadableUnique(all: seq<Part>, read: seq<Part>)
    requires Readable(all, read)
    ensures read == ReadablePart(all)
  {
    ReadableLongest(all, read, ReadablePart(all));
    ReadableLongest(all, ReadablePart(all), read);
  }

  lemma {:induction false} CallsInConcat(a: seq<Part>, b: seq<Part>)
    ensures CallsIn(a + b) == CallsIn(a) + CallsIn(b)
    decreases |b|
  {
    if b == [] {
      assert a + b == a;
    } else {
      CallsInConcat(a, b[..|b| - 1]);
      assert (a + b)[..|a + b| - 1] == a + b[..|b| - 1];
    }
  }

  /** The positions of the tool calls other than `propose`. */
  function CallPositions(parts: seq<Part>): set<int> {
    set i | 0 <= i < |parts| && parts[i].ToolCall? && parts[i].name != "propose"
  }

  lemma {:induction false} CallsInIsNumber(parts: seq<Part>)
    ensures CallsIn(parts) == |CallPositions(parts)|
  {
    if parts != [] {
      var n := |parts| - 1;
      var front := parts[..n];
      CallsInIsNumber(front);
      assert forall i :: i in CallPositions(front) <==> 0 <= i < n && parts[i].ToolCall? && parts[i].name != "propose";
      if parts[n].ToolCall? && parts[n].name != "propose" {
        assert CallPositions(parts) == CallPositions(front) + {n};
      } else {
        assert CallPositions(parts) == CallPositions(front);
      }
    }
  }

  /** Flattening keeps all parts of all messages, in order. */
  lemma {:induction false} FlattenConcat(a: seq<seq<Part>>, b: seq<seq<Part>>, one: seq<Part>)
    ensures Flatten(a + b) == Flatten(a) + Flatten(b) && Flatten([one]) == one
    decreases |b|
  {
    assert [one][..0] == [];
    if b == [] {
      assert a + b == a;
    } else {
      FlattenConcat(a, b[..|b| - 1], one);
      assert (a + b)[..|a + b| - 1] == a + b[..|b| - 1];
    }
  }

  lemma {:induction false} FlattenFrom(messages: seq<seq<Part>>, i: nat)
    requires i <= |messages|
    ensures Flatten(messages[..i]) <= Flatten(messages)
    decreases |messages| - i
  {
    if i < |messages| {
      FlattenFrom(messages, i + 1);
      assert messages[..i + 1][..i] == messages[..i];
    } else {
      assert messages[..i] == messages;
    }
  }

  /** Counts the tool calls of all messages, `propose` excluded; if reading the messages raises, the count
      so far stands. */
  method CountToolCalls(messages: seq<seq<Part>>) returns (count: nat)
    ensures count == CallsIn(ReadablePart(Flatten(messages)))
  {
    count := 0;
    ghost var read: seq<Part> := [];
    for i := 0 to |messages|
      invariant read == Flatten(messages[..i]) && Unreadable !in read
      invariant count == CallsIn(read)
    {
      var parts := messages[i];
      ghost var before := read;
      assert messages[..i + 1][..i] == messages[..i];
      FlattenFrom(messages, i + 1);
      for j := 0 to |parts|
        invariant read == before + parts[..j] && Unreadable !in read
        invariant count == CallsIn(read)
      {
        assert before + parts == Flatten(messages[..i + 1]);
        assert (before + parts)[|before| + j] == parts[j];
        if parts[j] == Unreadable {
          ReadableUnique(Flatten(messages), read);
          return;
        }
        CallsInConcat(read, [parts[j]]);
        assert CallsIn([parts[j]]) == if CountsAsCall(parts[j]) then 1 else 0 by {
          assert [parts[j]][..0] == [];
        }
        read := read + [parts[j]];
        if CountsAsCall(parts[j]) {
          count := count + 1;
        }
      }
      assert before + parts == Flatten(messages[..i + 1]);
    }
    assert messages[..|messages|] == messages;
    ReadableUnique(Flatten(messages), read);
  }

  // ---- Persistence ----

  /** One pass of the persistence loop over a proposal: the id and time its `add` draws, and where it raises. */
  datatype Attempt = Attempt(id: RowId, now: Timestamps.Stamp, fault: Fault)

  function RowOf(def: AgentDef, runId: RunId, p: ProposedAction, a: Attempt): Record {
    Record(a.id, Proposed(def.agentId, runId, p.action, p.arguments, p.rationale, a.now), Pending, None)
  }

  /** The rows of the proposals whose INSERT was committed, in the order they were proposed. */
  function Stored(def: AgentDef, runId: RunId, ps: seq<ProposedAction>, attempts: seq<Attempt>): seq<Record>
    requires |ps| == |attempts|
  {
    if ps == [] then []
    else
      var n := |ps| - 1;
      Stored(def, runId, ps[..n], attempts[..n]) + if !attempts[n].fault.BeforeCommit? then [RowOf(def, runId, ps[n], attempts[n])] else []
  }

  /** The last error an `add` raised, if any did. */
  function LastFailure(attempts: seq<Attempt>): (r: Option<string>)
    ensures r.Some? <==> exists i :: 0 <= i < |attempts| && !attempts[i].fault.NoFault?
  {
    if attempts == [] then None
    else if !attempts[|attempts| - 1].fault.NoFault? then attempts[|attempts| - 1].fault.Message()
    else LastFailure(attempts[..|attempts| - 1])
  }

  /** The add at position i is the last that raised. */
  ghost predicate LastFault(attempts: seq<Attempt>, i: int) {
    0 <= i < |attempts| && !attempts[i].fault.NoFault? && forall j :: i < j < |attempts| ==> attempts[j].fault.NoFault?
  }

  lemma {:induction false} LastFailureIsLast(attempts: seq<Attempt>)
    ensures forall i :: LastFault(attempts, i) ==> LastFailure(attempts) == Some(attempts[i].fault.message)
    ensures LastFailure(attempts) == None <==> forall i :: 0 <= i < |attempts| ==> attempts[i].fault.NoFault?
  {
    if attempts != [] {
      var n := |attempts| - 1;
      LastFailureIsLast(attempts[..n]);
      forall i | LastFault(attempts, i) ensures LastFailure(attempts) == Some(attempts[i].fault.message) {
        if i < n {
          assert LastFault(attempts[..n], i);
        }
      }
    }
  }

  /** The stored rows are those of the attempts at these positions: every one whose INSERT was committed, in
      order, each with its proposal's action, arguments and rationale under the run's and the agent's id. */
  ghost predicate StoredAt(def: AgentDef, runId: RunId, ps: seq<ProposedAction>, attempts: seq<Attempt>, rows: seq<Record>, at: seq<nat>)
    requires |ps| == |attempts|
  {
    && |at| == |rows|
    && (forall m, n :: 0 <= m < n < |at| ==> at[m] < at[n])
    && (forall n :: 0 <= n < |at| ==> at[n] < |ps| && IsRowOf(def, runId, ps[at[n]], attempts[at[n]], rows[n]))
    && (forall i: nat :: i in at <==> i < |ps| && !attempts[i].fault.BeforeCommit?)
  }

  predicate IsRowOf(def: AgentDef, runId: RunId, p: ProposedAction, a: Attempt, row: Record) {
    && row.id == a.id && row.status == Pending && row.error == None
    && row.proposed.agentId == def.agentId && row.proposed.runId == runId && row.proposed.createdAt == a.now
    && row.proposed.action == p.action && row.proposed.arguments == p.arguments && row.proposed.rationale == p.rationale
  }

  lemma {:induction false} StoredIsSubsequence(def: AgentDef, runId: RunId, ps: seq<ProposedAction>, attempts: seq<Attempt>) returns (at: seq<nat>)
    requires |ps| == |attempts|
    ensures StoredAt(def, runId, ps, attempts, Stored(def, runId, ps, attempts), at)
  {
    at := [];
    if ps != [] {
      var n := |ps| - 1;
      var front := StoredIsSubsequence(def, runId, ps[..n], attempts[..n]);
      at := if attempts[n].fault.BeforeCommit? then front else front + [n];
      assert forall i :: 0 <= i < n ==> attempts[..n][i] == attempts[i] && ps[..n][i] == ps[i];
      StoredAtNext(def, runId, ps, attempts, Stored(def, runId, ps[..n], attempts[..n]), front, n);
    }
  }

  lemma StoredAtNext(def: AgentDef, runId: RunId, ps: seq<ProposedAction>, attempts: seq<Attempt>, rows: seq<Record>, front: seq<nat>, n: nat)
    requires |ps| == |attempts| == n + 1 && StoredAt(def, runId, ps[..n], attempts[..n], rows, front)
    ensures attempts[n].fault.BeforeCommit? ==> StoredAt(def, runId, ps, attempts, rows, front)
    ensures !attempts[n].fault.BeforeCommit? ==>
      StoredAt(def, runId, ps, attempts, rows + [RowOf(def, runId, ps[n], attempts[n])], front + [n])
  {
    assert forall i :: 0 <= i < n ==> attempts[..n][i] == attempts[i] && ps[..n][i] == ps[i];
    assert IsRowOf(def, runId, ps[n], attempts[n], RowOf(def, runId, ps[n], attempts[n]));
    hide IsRowOf, RowOf;
    forall k | 0 <= k < |front| ensures front[k] < n && IsRowOf(def, runId, ps[front[k]], attempts[front[k]], rows[k]) {
    }
  }

  function Ids(rs: seq<Record>): (ids: seq<RowId>)
    ensures |ids| == |rs|
  {
    seq(|rs|, i requires 0 <= i < |rs| => rs[i].id)
  }

  /** The table grew by exactly these rows, in this order, and nothing else changed. */
  ghost predicate GrewBy(before: Table, after: Table, rs: seq<Record>) {
    && after.order == before.order + Ids(rs)
    && after.counted == before.counted
    && after.rows.Keys == before.rows.Keys + (set r | r in rs :: r.id)
    && (forall id :: id in before.rows ==> id in after.rows && after.rows[id] == before.rows[id])
    && (forall r :: r in rs ==> r.id in after.rows && after.rows[r.id] == r)
  }

  /** The ids drawn are fresh and distinct, as uuid4 hex strings are. */
  ghost predicate FreshAttempts(tb: Table, attempts: seq<Attempt>) {
    && (forall i :: 0 <= i < |attempts| ==> attempts[i].id !in tb.rows && Timestamps.Valid(attempts[i].now))
    && (forall i, j :: 0 <= i < j < |attempts| ==> attempts[i].id != attempts[j].id)
  }

  lemma {:induction false} StoredIds(def: AgentDef, runId: RunId, ps: seq<ProposedAction>, attempts: seq<Attempt>)
    requires |ps| == |attempts|
    ensures forall r :: r in Stored(def, runId, ps, attempts) ==> exists i :: 0 <= i < |attempts| && attempts[i].id == r.id
  {
    if ps != [] {
      var n := |ps| - 1;
      StoredIds(def, runId, ps[..n], attempts[..n]);
    }
  }

  /** The next id is still fresh after the rows added so far. */
  lemma NextIsFresh(before: Table, was: Table, def: AgentDef, runId: RunId, ps: seq<ProposedAction>, attempts: seq<Attempt>, i: nat)
    requires |attempts| == |ps| && i < |ps| && FreshAttempts(before, attempts)
    requires GrewBy(before, was, Stored(def, runId, ps[..i], attempts[..i]))
    ensures attempts[i].id !in was.rows && Timestamps.Valid(attempts[i].now)
  {
    StoredIds(def, runId, ps[..i], attempts[..i]);
    hide Stored;
  }

  lemma NextStored(def: AgentDef, runId: RunId, ps: seq<ProposedAction>, attempts: seq<Attempt>, i: nat)
    requires |attempts| == |ps| && i < |ps|
    ensures Stored(def, runId, ps[..i + 1], attempts[..i + 1]) ==
      Stored(def, runId, ps[..i], attempts[..i]) + if !attempts[i].fault.BeforeCommit? then [RowOf(def, runId, ps[i], attempts[i])] else []
    ensures LastFailure(attempts[..i + 1]) == if !attempts[i].fault.NoFault? then attempts[i].fault.Message() else LastFailure(attempts[..i])
  {
    assert ps[..i + 1][..i] == ps[..i] && attempts[..i + 1][..i] == attempts[..i];
  }

  /** Each proposal is added in turn; a failed `add` is remembered and the loop goes on. */
  method Persist(store: SqliteProposalStore, def: AgentDef, runId: RunId, ps: seq<ProposedAction>, attempts: seq<Attempt>)
    returns (failure: Option<string>)
    requires store.Ok() && |attempts| == |ps| && FreshAttempts(store.View(), attempts)
    modifies store
    ensures store.Ok()
    ensures GrewBy(old(store.View()), store.View(), Stored(def, runId, ps, attempts))
    ensures failure == LastFailure(attempts)
  {
    failure := None;
    ghost var before := store.View();
    assert GrewBy(before, before, []);
    assert ps[..0] == [] && attempts[..0] == [] && ps[..|ps|] == ps && attempts[..|ps|] == attempts;
    hide GrewBy, FreshAttempts, Sound, Timestamps.Valid;
    for i := 0 to |ps|
      invariant store.Ok() && GrewBy(before, store.View(), Stored(def, runId, ps[..i], attempts[..i]))
      invariant failure == LastFailure(attempts[..i])
    {
      ghost var was, rs := store.View(), Stored(def, runId, ps[..i], attempts[..i]);
      NextIsFresh(before, was, def, runId, ps, attempts, i);
      NextStored(def, runId, ps, attempts, i);
      hide Stored, LastFailure;
      var a := attempts[i];
      var added := store.Add(a.id, a.now, def.agentId, runId, ps[i].action, ps[i].arguments, ps[i].rationale, a.fault);
      if added.Failure? {
        failure := Some(added.error);
      }
      if a.fault.BeforeCommit? {
        assert rs + [] == rs;
      } else {
        GrowsByOne(before, was, rs, RowOf(def, runId, ps[i], a));
      }
    }
  }

  lemma GrowsByOne(before: Table, was: Table, rs: seq<Record>, r: Record)
    requires GrewBy(before, was, rs) && r.id !in was.rows
    ensures GrewBy(before, Insert(was, r), rs + [r])
  {
    assert Ids(rs + [r]) == Ids(rs) + [r.id];
    assert (set x | x in rs + [r] :: x.id) == (set x | x in rs :: x.id) + {r.id};
  }

  /** The rows of the proposals whose `add` returned. */
  function Added(def: AgentDef, runId: RunId, ps: seq<ProposedAction>, attempts: seq<Attempt>): seq<Record>
    requires |ps| == |attempts|
  {
    if ps == [] then []
    else
      var n := |ps| - 1;
      Added(def, runId, ps[..n], attempts[..n]) + if attempts[n].fault.NoFault? then [RowOf(def, runId, ps[n], attempts[n])] else []
  }

  lemma {:induction false} AddedAreStored(def: AgentDef, runId: RunId, ps: seq<ProposedAction>, attempts: seq<Attempt>)
    requires |ps| == |attempts|
    ensures |Added(def, runId, ps, attempts)| <= |Stored(def, runId, ps, attempts)|
    ensures (exists i :: 0 <= i < |ps| && attempts[i].fault.AfterCommit?) ==>
      |Added(def, runId, ps, attempts)| < |Stored(def, runId, ps, attempts)|
    ensures (forall i :: 0 <= i < |ps| ==> !attempts[i].fault.AfterCommit?) ==>
      Added(def, runId, ps, attempts) == Stored(def, runId, ps, attempts)
  {
    if ps != [] {
      var n := |ps| - 1;
      AddedAreStored(def, runId, ps[..n], attempts[..n]);
      assert forall i :: 0 <= i < n ==> attempts[..n][i] == attempts[i];
    }
  }

  /** The stored rows are those whose `add` returned if and only if no `add` raised after its commit: such
      a failure is reported although its proposal is in the table. */
  lemma StoredIffAdded(def: AgentDef, runId: RunId, ps: seq<ProposedAction>, attempts: seq<Attempt>)
    requires |ps| == |attempts|
    ensures Stored(def, runId, ps, attempts) == Added(def, runId, ps, attempts) <==>
      forall i :: 0 <= i < |ps| ==> !attempts[i].fault.AfterCommit?
  {
    AddedAreStored(def, runId, ps, attempts);
  }

  // ---- The loop as steps of the approval pipeline ----

  function StepOf(run: RunId, a: Attempt): Event {
    OfRun(run, if a.fault.BeforeCommit? then AddFailed else RowAdded(a.id, a.now))
  }

  function PersistSteps(run: RunId, attempts: seq<Attempt>): seq<Event> {
    if attempts == [] then []
    else PersistSteps(run, attempts[..|attempts| - 1]) + [StepOf(run, attempts[|attempts| - 1])]
  }

  /** The run has stopped, and there is an attempt with a fresh id for each of its proposals. */
  ghost predicate ReadyToPersist(w: World, run: RunId, attempts: seq<Attempt>) {
    && InPhase(w, run, Persisting) && w.runs[run].next == 0
    && |attempts| == |w.runs[run].proposals| && FreshAttempts(w.table, attempts)
  }

  /** The world after n passes, with this table. */
  function Passed(w: World, run: RunId, n: nat, tb: Table): World
    requires run in w.runs
  {
    w.(runs := w.runs[run := w.runs[run].(next := n)], table := tb)
  }

  lemma OnePass(w: World, run: RunId, n: nat, tb: Table, a: Attempt)
    requires InPhase(w, run, Persisting) && n < |w.runs[run].proposals| && a.id !in tb.rows
    ensures var r := w.runs[run];
      var tb' := if !a.fault.BeforeCommit? then Insert(tb, RowOf(r.def, run, r.proposals[n], a)) else tb;
      Runs(Passed(w, run, n, tb), [StepOf(run, a)], Passed(w, run, n + 1, tb'))
  {
    var v := Passed(w, run, n, tb);
    assert Apply(v, StepOf(run, a)).runs == w.runs[run := w.runs[run].(next := n + 1)];
    hide Runs;
    RunsOne(v, StepOf(run, a));
  }

  /** One pass grows the table by its row, if that is committed. */
  lemma NextTable(w: World, run: RunId, attempts: seq<Attempt>, n: nat, was: Table) returns (tb: Table)
    requires ReadyToPersist(w, run, attempts) && n < |attempts|
    requires GrewBy(w.table, was, Stored(w.runs[run].def, run, w.runs[run].proposals[..n], attempts[..n]))
    ensures GrewBy(w.table, tb, Stored(w.runs[run].def, run, w.runs[run].proposals[..n + 1], attempts[..n + 1]))
    ensures Runs(Passed(w, run, n, was), [StepOf(run, attempts[n])], Passed(w, run, n + 1, tb))
  {
    var r, a := w.runs[run], attempts[n];
    NextIsFresh(w.table, was, r.def, run, r.proposals, attempts, n);
    NextStored(r.def, run, r.proposals, attempts, n);
    OnePass(w, run, n, was, a);
    var rs := Stored(r.def, run, r.proposals[..n], attempts[..n]);
    hide GrewBy, FreshAttempts, Stored, Runs, Passed, StepOf;
    if a.fault.BeforeCommit? {
      tb := was;
      assert rs + [] == rs;
    } else {
      tb := Insert(was, RowOf(r.def, run, r.proposals[n], a));
      GrowsByOne(w.table, was, rs, RowOf(r.def, run, r.proposals[n], a));
    }
  }

  /** The first n passes of the loop are a run of the pipeline that grows the table by the same rows and
      changes nothing else. */
  lemma {:induction false} PersistIsPipelineRun(w: World, run: RunId, attempts: seq<Attempt>, n: nat) returns (tb: Table)
    requires ReadyToPersist(w, run, attempts) && n <= |attempts|
    ensures Runs(w, PersistSteps(run, attempts[..n]), Passed(w, run, n, tb))
    ensures GrewBy(w.table, tb, Stored(w.runs[run].def, run, w.runs[run].proposals[..n], attempts[..n]))
  {
    if n == 0 {
      tb := w.table;
      assert Passed(w, run, 0, tb) == w;
    } else {
      hide GrewBy, FreshAttempts, Stored, Runs, Passed, StepOf;
      var was := PersistIsPipelineRun(w, run, attempts, n - 1);
      tb := NextTable(w, run, attempts, n - 1, was);
      assert attempts[..n][..n - 1] == attempts[..n - 1];
      RunsAppend(w, PersistSteps(run, attempts[..n - 1]), Passed(w, run, n - 1, was), [StepOf(run, attempts[n - 1])], Passed(w, run, n, tb));
    }
  }

  // ---- The run ----

  /** The context a run hands to its tools. */
  class RunDeps {
    const runId: RunId
    const agentId: string
    var proposals: seq<ProposedAction>

    constructor (runId: RunId, agentId: string)
      ensures this.runId == runId && this.agentId == agentId && proposals == []
    {
      this.runId, this.agentId, proposals := runId, agentId, [];
    }

    /** The `propose` tool. */
    method Propose(action: string, arguments: Json, rationale: string) returns (reply: string)
      modifies this
      ensures proposals == old(proposals) + [ProposedAction(action, arguments, rationale)]
      ensures reply == "Proposal recorded: " + action
    {
      proposals := proposals + [ProposedAction(action, arguments, rationale)];
      reply := "Proposal recorded: " + action;
    }
  }

  /** The awaited agent, as far as the context shows: it calls `propose` for these actions. */
  method AwaitAgent(deps: RunDeps, proposed: seq<ProposedAction>)
    modifies deps
    ensures deps.proposals == old(deps.proposals) + proposed
  {
    for i := 0 to |proposed|
      invariant deps.proposals == old(deps.proposals) + proposed[..i]
    {
      var p := proposed[i];
      var reply := deps.Propose(p.action, p.arguments, p.rationale);
      assert proposed[..i + 1] == proposed[..i] + [p];
    }
    assert proposed[..|proposed|] == proposed;
  }

  const DEGRADED: string := "\n[warning: proposal persistence degraded: "

  /** The summary of the report: the output of an OK run, with the warning exactly when some `add` failed. */
  function Summary(o: Outcome, failure: Option<string>): string {
    if !o.Finished? then ""
    else if failure.Some? then o.output + DEGRADED + failure.value + "]"
    else o.output
  }

  function StatusOf(o: Outcome): RunStatus {
    match o
    case Finished(_, _) => OK
    case LimitHit(_) => LimitExceeded
    case TimedOut => Timeout
    case Crashed(_) => Error
  }

  /** Only a run that finished reports a count. */
  function CallsMade(o: Outcome): nat {
    if o.Finished? then CallsIn(ReadablePart(Flatten(o.messages))) else 0
  }

  function ErrorOf(o: Outcome, timeoutMessage: string): Option<string> {
    match o
    case Finished(_, _) => None
    case LimitHit(message) => Some(message)
    case TimedOut => Some(timeoutMessage)
    case Crashed(message) => Some(message)
  }

  /** What resolving the system prompt raises: only the first kind is caught. */
  datatype PromptError = GuidanceFetchError(message: string) | OtherError(message: string)

  /** What the stages before the awaited agent give: what building the model and the toolset raise, the
      resolved prompt, what building the agent raises. */
  datatype Stages = Stages(
    model: Option<string>, toolset: Option<string>, prompt: Result<string, PromptError>, agent: Option<string>)

  /** What `run` does, apart from the rows it stores; failure is the last error of the persistence loop. */
  function RunResult(def: AgentDef, runId: RunId, st: Stages, outcome: Outcome, timeoutMessage: string,
                     proposed: seq<ProposedAction>, failure: Option<string>): Result<RunReport, string> {
    if st.model.Some? then Failure(st.model.value)
    else if st.toolset.Some? then Failure(st.toolset.value)
    else match st.prompt
      case Failure(GuidanceFetchError(m)) => Success(RunReport(runId, def.agentId, Error, "", 0, [], Some(m)))
      case Failure(OtherError(m)) => Failure(m)
      case Success(_) =>
        if st.agent.Some? then Failure(st.agent.value)
        else Success(RunReport(
          runId, def.agentId, StatusOf(outcome), Summary(outcome, failure), CallsMade(outcome),
          proposed, ErrorOf(outcome, timeoutMessage)))
  }

  /** The awaited agent is reached. */
  predicate ReachesAgent(st: Stages) {
    st.model.None? && st.toolset.None? && st.prompt.Success? && st.agent.None?
  }

  /** `run` raises if and only if building the model, the toolset or the agent does, or resolving the prompt
      raises something other than a GuidanceFetchError, each if the run gets there; never because of how the
      agent ended or of a failing add. */
  lemma RunRaisesIff(def: AgentDef, runId: RunId, st: Stages, outcome: Outcome, timeoutMessage: string,
                     proposed: seq<ProposedAction>, failure: Option<string>)
    ensures RunResult(def, runId, st, outcome, timeoutMessage, proposed, failure).Failure? <==>
      || st.model.Some? || st.toolset.Some?
      || (st.prompt.Failure? && st.prompt.error.OtherError?)
      || (st.prompt.Success? && st.agent.Some?)
  {
    hide StatusOf, Summary, ErrorOf;
  }

  /** "Never raises" fails: a model factory that rejects the model's name ends the run without a report. */
  lemma RunCanRaise(def: AgentDef, runId: RunId, outcome: Outcome)
    ensures RunResult(def, runId, Stages(Some("unknown model"), None, Success("prompt"), None), outcome, "", [], None) ==
      Failure("unknown model")
  {
    hide StatusOf, Summary, ErrorOf;
  }

  /** What the report of a run that reached its agent says. */
  ghost predicate Reports(report: RunReport, def: AgentDef, runId: RunId, outcome: Outcome, timeoutMessage: string, proposed: seq<ProposedAction>) {
    && report.runId == runId && report.agentId == def.agentId && report.proposals == proposed
    && (report.status == OK <==> outcome.Finished?)
    && (report.status == LimitExceeded <==> outcome.LimitHit?)
    && (report.status == Timeout <==> outcome.TimedOut?)
    && (report.status == Error <==> outcome.Crashed?)
    && (outcome.Finished? ==> report.error == None)
    && (outcome.LimitHit? || outcome.Crashed? ==> report.error == Some(outcome.message))
    && (outcome.TimedOut? ==> report.error == Some(timeoutMessage))
    && (!outcome.Finished? ==> report.summary == "" && report.toolCalls == 0)
    && (outcome.Finished? ==> report.toolCalls == |CallPositions(ReadablePart(Flatten(outcome.messages)))|)
  }

  /** The summary of a run that finished: the output, and the warning with the last error exactly when some
      `add` raised. */
  ghost predicate Summarizes(summary: string, output: string, attempts: seq<Attempt>) {
    && ((forall i :: 0 <= i < |attempts| ==> attempts[i].fault.NoFault?) ==> summary == output)
    && (forall i :: LastFault(attempts, i) ==>
          summary == output + "\n[warning: proposal persistence degraded: " + attempts[i].fault.message + "]")
  }

  lemma RunResultReports(def: AgentDef, runId: RunId, st: Stages, outcome: Outcome, timeoutMessage: string,
                         proposed: seq<ProposedAction>, failure: Option<string>)
    requires ReachesAgent(st)
    ensures var r := RunResult(def, runId, st, outcome, timeoutMessage, proposed, failure);
      && r.Success? && Reports(r.value, def, runId, outcome, timeoutMessage, proposed)
      && (outcome.Finished? ==> r.value.summary == Summary(outcome, failure))
  {
    if outcome.Finished? {
      CallsInIsNumber(ReadablePart(Flatten(outcome.messages)));
    }
    hide CallPositions, ReadablePart, Flatten, CallsIn, Summary;
    assert !outcome.Finished? ==> Summary(outcome, failure) == "" by { NoSummary(outcome, failure); }
  }

  lemma NoSummary(outcome: Outcome, failure: Option<string>)
    ensures !outcome.Finished? ==> Summary(outcome, failure) == ""
  {
  }

  lemma SummaryMeans(outcome: Outcome, attempts: seq<Attempt>)
    requires outcome.Finished?
    ensures Summarizes(Summary(outcome, LastFailure(attempts)), outcome.output, attempts)
    ensures Summary(outcome, None) == outcome.output
  {
    LastFailureIsLast(attempts);
    hide LastFailure;
  }

  /** One run; `proposed` is what the awaited agent proposes, and timeoutMessage what a timeout is reported as.
      Whatever the stages give, however the agent ends and whichever adds fail: the first stage that raises
      decides; a run that reaches its agent reports how that ended and all proposals; and the stored rows are
      the in-order subsequence whose INSERT was committed. */
  method Run(def: AgentDef, runId: RunId, st: Stages, outcome: Outcome, timeoutMessage: string,
             proposed: seq<ProposedAction>, sink: Option<SqliteProposalStore>, attempts: seq<Attempt>)
    returns (r: Result<RunReport, string>)
    requires def.autonomy == Autonomous ==> proposed == []
    requires sink.Some? ==> sink.value.Ok() && |attempts| == |proposed| && FreshAttempts(sink.value.View(), attempts)
    modifies if sink.Some? then {sink.value} else {}
    ensures sink.Some? ==> sink.value.Ok()
    ensures r == RunResult(def, runId, st, outcome, timeoutMessage, proposed, if sink.Some? then LastFailure(attempts) else None)
    ensures st.model.Some? ==> r == Failure(st.model.value)
    ensures st.model.None? && st.toolset.Some? ==> r == Failure(st.toolset.value)
    ensures st.model.None? && st.toolset.None? && st.prompt.Failure? ==>
      if st.prompt.error.OtherError? then r == Failure(st.prompt.error.message)
      else r == Success(RunReport(runId, def.agentId, Error, "", 0, [], Some(st.prompt.error.message)))
    ensures st.model.None? && st.toolset.None? && st.prompt.Success? && st.agent.Some? ==> r == Failure(st.agent.value)
    ensures st.model.None? && st.toolset.None? && st.prompt.Success? && st.agent.None? ==>
      r.Success? && Reports(r.value, def, runId, outcome, timeoutMessage, proposed) &&
      (outcome.Finished? ==> if sink.Some? then Summarizes(r.value.summary, outcome.output, attempts) else r.value.summary == outcome.output)
    ensures sink.Some? && !ReachesAgent(st) ==> sink.value.View() == old(sink.value.View())
    ensures sink.Some? && ReachesAgent(st) ==>
      GrewBy(old(sink.value.View()), sink.value.View(), Stored(def, runId, proposed, attempts))
  {
    if st.model.Some? {
      return Failure(st.model.value);
    }
    if st.toolset.Some? {
      return Failure(st.toolset.value);
    }
    if st.prompt.Failure? {
      match st.prompt.error
      case GuidanceFetchError(m) => return Success(RunReport(runId, def.agentId, Error, "", 0, [], Some(m)));
      case OtherError(m) => return Failure(m);
    }
    if st.agent.Some? {
      return Failure(st.agent.value);
    }
    var deps := new RunDeps(runId, def.agentId);
    AwaitAgent(deps, proposed);
    assert deps.proposals == proposed;
    var status, summary, toolCalls, error := Error, "", 0, None;
    match outcome {
      case Finished(output, messages) =>
        status, summary := OK, output;
        toolCalls := CountToolCalls(messages);
      case LimitHit(message) => status, error := LimitExceeded, Some(message);
      case TimedOut => status, error := Timeout, Some(timeoutMessage);
      case Crashed(message) => error := Some(message);
    }
    var failure := None;
    if def.autonomy == Proposal && sink.Some? {
      failure := Persist(sink.value, def, runId, deps.proposals, attempts);
    }
    if failure.Some? && status == OK {
      summary := summary + DEGRADED + failure.value + "]";
    }
    r := Success(RunReport(runId, def.agentId, status, summary, toolCalls, deps.proposals, error));
    assert r == RunResult(def, runId, st, outcome, timeoutMessage, proposed, failure);
    RunResultReports(def, runId, st, outcome, timeoutMessage, proposed, failure);
    if outcome.Finished? {
      SummaryMeans(outcome, attempts);
    }
    hide RunResult, Reports, Summarizes, Summary, LastFailure, GrewBy, Stored;
  }
}
