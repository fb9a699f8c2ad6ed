/** What every interleaving keeps: lock ownership up to expiry, the bound on overlapping runs, the
    concurrency limits, and the run accounting. */
module RunSafety {
  import opened RunSteps
  import opened RunSystem
  import opened Sizes

  // ---- Lock ownership ----

  /** A SET is refused exactly when some lock of that agent is in force: a granted lock excludes every
      other task until it is given back or expires, and a lock nobody gave back (its holder crashed, its
      delete was lost) excludes nobody from its expiry on. */
  lemma RefusedIffHeld(s: Sys, r: Request)
    requires Reachable(s) && r.SetNx? && Enabled(s, Served(r))
    ensures r.token in Apply(s, Served(r)).refused <==> exists tok :: Holds(s, tok, r.agent)
    ensures r.token in Apply(s, Served(r)).grants <==> !exists tok :: Holds(s, tok, r.agent)
  {
    ReachableInv(s);
    assert RequestFits(s, r);
    hide AllBalanced;
    if Live(s, r.agent) {
      assert Holds(s, s.keys[r.agent].token, r.agent);
    }
  }

  /** No two tokens hold one agent's lock at once. */
  lemma HolderUnique(s: Sys, tok: Token, tok': Token, a: AgentId)
    requires Inv(s) && Holds(s, tok, a) && Holds(s, tok', a)
    ensures tok == tok'
  {
    hide AllBalanced, Orderly;
  }

  lemma GrantKept(s: Sys, e: Event, tok: Token)
    requires Inv(s) && Enabled(s, e) && tok in s.grants
    ensures var s' := Apply(s, e); tok in s'.grants && s'.grants[tok] == s.grants[tok] && s'.deleted >= s.deleted && s'.now >= s.now
  {
    hide AllBalanced, TableExact, Advance, CanAdvance;
    if e.Served? {
      assert RequestFits(s, e.request);
    }
  }

  /** From its grant until it expires or its own compare-and-delete is served, a token owns its key,
      whatever all other tasks, processes and the network do meanwhile. */
  lemma {:induction false} KeyOwnedUntilExpiry(s: Sys, es: seq<Event>, s': Sys, tok: Token)
    requires Inv(s) && Runs(s, es, s') && tok in s.grants
    requires tok !in s'.deleted && s'.now < s.grants[tok].expiry
    ensures tok in s'.grants && s'.grants[tok] == s.grants[tok]
    ensures s.grants[tok].agent in s'.keys && s'.keys[s.grants[tok].agent] == Entry(tok, s.grants[tok].expiry)
    decreases |es|
  {
    hide AllBalanced, Orderly, Enabled, Apply;
    if es != [] {
      GrantKept(s, es[0], tok);
      InvStep(s, es[0]);
      KeyOwnedUntilExpiry(Apply(s, es[0]), es[1..], s', tok);
    } else {
      assert Holds(s, tok, s.grants[tok].agent);
    }
  }

  /** An agent's running task under Redis holds the lock it was granted, for timeout_seconds from the grant. */
  lemma RunnerOwnsKey(s: Sys, p: ProcId, t: TaskId)
    requires Reachable(s) && p in s.procs && s.procs[p].cfg.redis && At(s.procs[p], t, Running)
    ensures var tok, a := Token(p, t), s.procs[p].tasks[t].agent;
      && tok in s.grants && s.grants[tok].agent == a && tok !in s.deleted
      && s.grants[tok].at <= s.now
      && s.grants[tok].expiry == s.grants[tok].at + Ttl(s.procs[p].cfg, a)
      && (s.now < s.grants[tok].expiry ==> a in s.keys && s.keys[a] == Entry(tok, s.grants[tok].expiry))
  {
    ReachableInv(s);
    assert RunFits(s, p, t) && AnswerFits(s, Token(p, t));
    hide AllBalanced;
  }

  /** The lock of a running task lasts timeout_seconds from its grant. */
  lemma LockLastsTimeout(s: Sys, p: ProcId, t: TaskId)
    requires Reachable(s) && p in s.procs && s.procs[p].cfg.redis
    requires t in s.procs[p].tasks && s.procs[p].tasks[t].pc == Running
    ensures var cfg, a, tok := s.procs[p].cfg, s.procs[p].tasks[t].agent, Token(p, t);
      a in cfg.agents && tok in s.grants && s.grants[tok].expiry == s.grants[tok].at + 1000 * cfg.agents[a].timeoutSeconds
  {
    ReachableInv(s);
    RunnerKnown(s.procs[p], t);
    assert RunFits(s, p, t) && AnswerFits(s, Token(p, t));
    hide Reachable, AllBalanced, TableExact, Orderly;
  }

  lemma RunnerKnown(p: Proc, t: TaskId)
    requires Balanced(p) && t in p.tasks && p.tasks[t].pc == Running
    ensures At(p, t, Running)
  {
    HasSemaphores(p);
  }

  /** Every SET on the wire asks for timeout_seconds in milliseconds. */
  lemma SetAsksForTimeout(s: Sys, r: Request)
    requires Reachable(s) && r in s.wire && r.SetNx? && r.token.proc in s.procs
    ensures var cfg := s.procs[r.token.proc].cfg;
      r.agent in cfg.agents && r.ttl == 1000 * cfg.agents[r.agent].timeoutSeconds
  {
    ReachableInv(s);
    assert RequestFits(s, r);
    hide Reachable, AllBalanced, TableExact, Orderly;
  }

  /** What each step puts on the wire: with Redis, a task that got its agent permit asks for the lock, and a
      task whose run ended, however it ended, sends its compare-and-delete; nothing else is sent. */
  lemma StepSends(s: Sys, p: ProcId, t: TaskId, step: Step)
    requires Reachable(s) && Enabled(s, Stepped(p, t, step))
    ensures var q, wire := s.procs[p], Apply(s, Stepped(p, t, step)).wire;
      if q.cfg.redis && step.AgentTaken? then
        var a := q.tasks[t].agent;
        a in q.cfg.agents && wire == s.wire + {SetNx(Token(p, t), a, 1000 * q.cfg.agents[a].timeoutSeconds)}
      else if q.cfg.redis && step.RunEnded? then wire == s.wire + {CompareDelete(Token(p, t), q.tasks[t].agent)}
      else wire == s.wire
  {
    ReachableInv(s);
    HasSemaphores(s.procs[p]);
    hide Reachable, Balanced, Orderly, TableExact, Advance;
  }

  /** Once a run has ended and its compare-and-delete is served, its task no longer owns the key. */
  lemma RunEndFreesKey(s: Sys, p: ProcId, t: TaskId, end: RunEnd)
    requires Reachable(s) && p in s.procs && s.procs[p].cfg.redis && Enabled(s, Stepped(p, t, RunEnded(end)))
    ensures var a := s.procs[p].tasks[t].agent;
      var served := Served(CompareDelete(Token(p, t), a));
      var ended := Apply(s, Stepped(p, t, RunEnded(end)));
      Enabled(ended, served) && !OwnsKey(Apply(ended, served), Token(p, t), a)
  {
    StepSends(s, p, t, RunEnded(end));
    hide Reachable, Advance, CanAdvance, Sends;
  }

  /** The key of agent a is there, unexpired, with this token. */
  predicate OwnsKey(s: Sys, tok: Token, a: AgentId) {
    Live(s, a) && s.keys[a].token == tok
  }

  /** A served compare-and-delete ends its own token's ownership and no other: not that of a task that took
      the key over after an expiry, and not that of any other agent's key. */
  lemma DeleteEndsOwnLockOnly(s: Sys, r: Request, tok: Token, a: AgentId)
    requires Reachable(s) && r.CompareDelete? && Enabled(s, Served(r))
    ensures OwnsKey(Apply(s, Served(r)), tok, a) <==> OwnsKey(s, tok, a) && tok != r.token
  {
    ReachableInv(s);
    assert RequestFits(s, r);
    hide AllBalanced, Orderly, Balanced;
  }

  // ---- Why a task is where it is ----

  /** A task was skipped as unknown or disabled only if it is; skipped for the lock only if its own SET was
      refused; and past the lock only if its own SET was granted. */
  ghost predicate ExitFits(s: Sys, p: ProcId, t: TaskId) {
    p in s.procs && t in s.procs[p].tasks ==>
      var q, k, tok := s.procs[p], s.procs[p].tasks[t], Token(p, t);
      var enabled := k.agent in q.cfg.agents && q.cfg.agents[k.agent].enabled;
      && (k.pc == Done(UnknownOrDisabled) <==> !enabled)
      && (k.pc == Done(LockTaken) ==> q.cfg.redis && tok in s.refused)
      && (q.cfg.redis && (k.pc == Running || WindowClosed(k.pc)) ==> tok in s.grants)
  }

  lemma ExitFitsAfterStep(s: Sys, p: ProcId, t: TaskId, step: Step)
    requires Enabled(s, Stepped(p, t, step)) && ExitFits(s, p, t)
    requires !s.procs[p].cfg.redis ==> forall u :: u in s.procs[p].tasks ==> s.procs[p].tasks[u].pc != Locking
    ensures ExitFits(Apply(s, Stepped(p, t, step)), p, t)
  {
    AdvanceMovesOne(s.procs[p], t, step);
    hide Advance, Sends;
  }

  ghost predicate ExitsFit(s: Sys) {
    && (forall p, t :: ExitFits(s, p, t))
    && (forall p, t :: p in s.procs && t in s.procs[p].tasks && s.procs[p].tasks[t].pc == Locking ==> s.procs[p].cfg.redis)
  }

  lemma ExitsFitStepped(s: Sys, p: ProcId, t: TaskId, step: Step)
    requires ExitsFit(s) && Enabled(s, Stepped(p, t, step))
    ensures ExitsFit(Apply(s, Stepped(p, t, step)))
  {
    var s' := Apply(s, Stepped(p, t, step));
    AdvanceMovesOne(s.procs[p], t, step);
    forall q, u ensures ExitFits(s', q, u) {
      if q == p && u == t {
        ExitFitsAfterStep(s, p, t, step);
      } else {
        OthersKeepExit(s, p, t, step, q, u);
      }
    }
    LocksUnderRedis(s, p, t, step);
    hide Advance, CanAdvance, TaskAfter, ExitFits, Sends;
  }

  lemma OthersKeepExit(s: Sys, p: ProcId, t: TaskId, step: Step, q: ProcId, u: TaskId)
    requires Enabled(s, Stepped(p, t, step)) && ExitFits(s, q, u) && !(q == p && u == t)
    ensures ExitFits(Apply(s, Stepped(p, t, step)), q, u)
  {
    AdvanceMovesOne(s.procs[p], t, step);
    hide Advance, CanAdvance, TaskAfter, Sends;
  }

  lemma LocksUnderRedis(s: Sys, p: ProcId, t: TaskId, step: Step)
    requires Enabled(s, Stepped(p, t, step))
    ensures TaskAfter(s.procs[p], t, step).pc == Locking ==> s.procs[p].cfg.redis
  {
  }

  lemma ExitsFitStep(s: Sys, e: Event)
    requires ExitsFit(s) && Enabled(s, e)
    ensures ExitsFit(Apply(s, e))
  {
    match e
    case Stepped(p, t, step) =>
      hide ExitsFit;
      ExitsFitStepped(s, p, t, step);
    case _ =>
      var s' := Apply(s, e);
      hide CanAdvance;
      forall p, t ensures ExitFits(s', p, t) { assert ExitFits(s, p, t); }
  }

  lemma {:induction false} ExitsFitRuns(s: Sys, es: seq<Event>, s': Sys)
    requires ExitsFit(s) && Runs(s, es, s')
    ensures ExitsFit(s')
    decreases |es|
  {
    hide ExitsFit, Enabled, Apply;
    if es != [] {
      ExitsFitStep(s, es[0]);
      ExitsFitRuns(Apply(s, es[0]), es[1..], s');
    }
  }

  /** In every interleaving tasks are skipped exactly when their agent is unknown or disabled, refused only by
      Redis, and in or past their run only with a granted lock. */
  lemma ExitsMatchAnswers(s: Sys, p: ProcId, t: TaskId)
    requires Reachable(s)
    ensures ExitFits(s, p, t)
  {
    var es :| Runs(INIT, es, s);
    ExitsFitRuns(INIT, es, s);
  }

  // ---- Overlapping runs ----

  /** The runs of agent a now in progress, over all processes that use the lock. */
  ghost function RunsOf(s: Sys, a: AgentId): set<Token> {
    set p, t | p in s.procs && t in s.procs[p].tasks && IsRunOf(s.procs[p], t, a) :: Token(p, t)
  }

  predicate IsRunOf(p: Proc, t: TaskId, a: AgentId) {
    p.cfg.redis && At(p, t, Running) && p.tasks[t].agent == a
  }

  ghost function Outlived(s: Sys, a: AgentId): set<Token> {
    set tok | tok in RunsOf(s, a) && tok in s.grants && s.now >= s.grants[tok].expiry
  }

  /** Whatever max_concurrent_runs says, the runs of one agent over all processes number at most one more
      than those that have outlived their own lock. */
  lemma OverlapBound(s: Sys, a: AgentId)
    requires Reachable(s)
    ensures |RunsOf(s, a)| <= 1 + |Outlived(s, a)|
  {
    ReachableInv(s);
    var runs, outlived := RunsOf(s, a), Outlived(s, a);
    forall tok | tok in runs - outlived ensures Holds(s, tok, a) {
      RunnerOwnsKey(s, tok.proc, tok.task);
    }
    hide RunsOf;
    forall x, y | x in runs - outlived && y in runs - outlived ensures x == y {
      HolderUnique(s, x, y, a);
    }
    AtMostOne(runs - outlived);
    assert runs == (runs - outlived) + outlived;
  }

  // ---- Limits ----

  function InRun(m: map<TaskId, Task>, a: AgentId): set<TaskId> {
    set t | t in m && m[t].pc == Running && m[t].agent == a
  }

  /** Runs stay within both limits in every live process; the gauge shows exactly the open run windows; and
      the free permits are what the tasks that hold one leave of the limits. */
  lemma WithinLimits(s: Sys, p: ProcId, a: AgentId)
    requires Reachable(s) && p in s.procs
    ensures var q := s.procs[p];
      && q.inflight == |set t | t in q.tasks && q.tasks[t].pc == Running| <= q.cfg.globalLimit
      && (a in q.cfg.agents ==> |set t | t in q.tasks && q.tasks[t].pc == Running && q.tasks[t].agent == a| <= q.cfg.agents[a].maxConcurrent)
    ensures var q := s.procs[p];
      && q.globalFree == q.cfg.globalLimit - |PastFirst(q.tasks)|
      && (a in q.cfg.agents ==> a in q.agentFree && q.agentFree[a] == q.cfg.agents[a].maxConcurrent - |PastSecond(q.tasks, a)|)
  {
    ReachableInv(s);
    var q := s.procs[p];
    hide Orderly, TableExact;
    RunnersHold(q, a);
    HasSemaphores(q);
    HoldersArePast(q.tasks, a);
    assert InRun(q.tasks, a) == set t | t in q.tasks && q.tasks[t].pc == Running && q.tasks[t].agent == a;
    hide Where, InRun, PastFirst, PastSecond;
  }

  /** The tasks that have the global permit. */
  function PastFirst(m: map<TaskId, Task>): set<TaskId> {
    set t | t in m && (m[t].pc == WaitAgent || PastBoth(m[t].pc))
  }

  /** The tasks that have agent a's permit. */
  function PastSecond(m: map<TaskId, Task>, a: AgentId): set<TaskId> {
    set t | t in m && m[t].agent == a && PastBoth(m[t].pc)
  }

  lemma HoldersArePast(m: map<TaskId, Task>, a: AgentId)
    ensures Where(m, GlobalHolders) == PastFirst(m) && Where(m, AgentHolders(a)) == PastSecond(m, a)
    ensures Where(m, InWindow) == set t | t in m && m[t].pc == Running
  {
  }

  /** The coroutine is inside the block that both semaphores guard. */
  predicate PastBoth(pc: Pc) {
    pc == Locking || pc == Running || pc.Unlocking?
  }

  lemma RunnersHold(q: Proc, a: AgentId)
    ensures |Where(q.tasks, InWindow)| <= |Where(q.tasks, GlobalHolders)|
    ensures |InRun(q.tasks, a)| <= |Where(q.tasks, AgentHolders(a))|
    ensures Where(q.tasks, AgentHolders(a)) <= Where(q.tasks, GlobalHolders)
  {
    SubsetSize(Where(q.tasks, InWindow), Where(q.tasks, GlobalHolders));
    SubsetSize(InRun(q.tasks, a), Where(q.tasks, AgentHolders(a)));
  }

  // ---- Accounting ----

  function Size(p: Proc, g: Account): nat { |Where(p.tasks, g)| }

  /** Every submit is accounted for once; a closed run window is counted by AGENT_RUNS or is one of the
      `Uncounted` ones, which are the returned runs still unlocking and the cancelled ones. */
  lemma EverySubmitAccounted(p: Proc)
    requires Balanced(p)
    ensures |p.tasks| ==
      Size(p, Left(UnknownOrDisabled)) + Size(p, Left(CancelledWaiting)) + Size(p, Left(LockTaken)) +
      Size(p, Left(LockFailed)) + Size(p, BeforeEnd) + |p.durations|
    ensures |p.durations| == |p.runs| + Size(p, Uncounted)
  {
    Partition(p.tasks);
  }

  lemma {:induction false} Partition(m: map<TaskId, Task>)
    ensures |m| ==
      |Where(m, Left(UnknownOrDisabled))| + |Where(m, Left(CancelledWaiting))| + |Where(m, Left(LockTaken))| +
      |Where(m, Left(LockFailed))| + |Where(m, BeforeEnd)| + |Where(m, ClosedAny)|
    ensures |Where(m, ClosedAny)| == |Where(m, CountedAny)| + |Where(m, Uncounted)|
    decreases |m|
  {
    if m == map[] {
      assert forall g :: Where(m, g) == {};
    } else {
      var t :| t in m;
      var k, rest := m[t], m - {t};
      assert m == rest[t := k] && |m.Keys| == |rest.Keys + {t}|;
      Partition(rest);
      OneKind(k);
      hide Member, Where;
      WhereUpdate(rest, t, k, Left(UnknownOrDisabled));
      WhereUpdate(rest, t, k, Left(CancelledWaiting));
      WhereUpdate(rest, t, k, Left(LockTaken));
      WhereUpdate(rest, t, k, Left(LockFailed));
      WhereUpdate(rest, t, k, BeforeEnd);
      WhereUpdate(rest, t, k, ClosedAny);
      WhereUpdate(rest, t, k, CountedAny);
      WhereUpdate(rest, t, k, Uncounted);
    }
  }

  lemma OneKind(k: Task)
    ensures Bit(Member(Left(UnknownOrDisabled), k)) + Bit(Member(Left(CancelledWaiting), k)) + Bit(Member(Left(LockTaken), k)) +
      Bit(Member(Left(LockFailed), k)) + Bit(Member(BeforeEnd, k)) + Bit(Member(ClosedAny, k)) == 1
    ensures Bit(Member(ClosedAny, k)) == Bit(Member(CountedAny, k)) + Bit(Member(Uncounted, k))
  {
  }

  /** The run returned its report, and the code that counts it comes only after the unlock. */
  predicate AwaitsCount(k: Task) {
    k.pc.Unlocking? && (k.pc.end == Ok || k.pc.end == NotOk)
  }

  /** A cancellation cut the run, or a returned report's way to being counted. */
  predicate LostCount(k: Task) {
    match k.pc
    case Unlocking(end) => end == Cancelled
    case Done(Finished(end)) => end == Cancelled
    case Done(CutShort(end)) => end != Raised
    case _ => false
  }

  function Awaiting(m: map<TaskId, Task>): set<TaskId> {
    set t | t in m && AwaitsCount(m[t])
  }

  function Lost(m: map<TaskId, Task>): set<TaskId> {
    set t | t in m && LostCount(m[t])
  }

  /** At any time, busy or idle: the closed run windows are the runs AGENT_RUNS has counted, those it is about
      to count, and those a cancellation kept from it. */
  lemma FinishedRunsCounted(p: Proc)
    requires Balanced(p)
    ensures |p.durations| == |p.runs| + |Awaiting(p.tasks)| + |Lost(p.tasks)|
    ensures |p.durations| == |p.runs| + |Awaiting(p.tasks)| <==> forall t :: t in p.tasks ==> !LostCount(p.tasks[t])
  {
    EverySubmitAccounted(p);
    UncountedSplits(p.tasks);
    hide Balanced, Where, Awaiting;
    if t :| t in p.tasks && LostCount(p.tasks[t]) {
      assert t in Lost(p.tasks);
    } else {
      assert Lost(p.tasks) == {};
    }
  }

  lemma UncountedSplits(m: map<TaskId, Task>)
    ensures |Where(m, Uncounted)| == |Awaiting(m)| + |Lost(m)|
  {
    forall t | t in m ensures Member(Uncounted, m[t]) <==> AwaitsCount(m[t]) || LostCount(m[t]) {
      UncountedKinds(m[t]);
    }
    assert Awaiting(m) !! Lost(m);
    hide Member, AwaitsCount, LostCount;
    assert Where(m, Uncounted) == Awaiting(m) + Lost(m);
  }

  lemma UncountedKinds(k: Task)
    ensures Member(Uncounted, k) <==> AwaitsCount(k) || LostCount(k)
  {
  }

  /** The "ok" counter of an agent and trigger is the number of its finished runs whose report said OK. */
  lemma OkMeansStatusOk(p: Proc, a: AgentId, trigger: string)
    requires Balanced(p)
    ensures p.runs[RunLabel(a, trigger, ResultOk)] ==
      |set t | t in p.tasks && p.tasks[t] == Task(a, trigger, Done(Finished(Ok)))|
  {
    var l := RunLabel(a, trigger, ResultOk);
    assert p.runs[l] == |Where(p.tasks, Counted(l))|;
    hide Balanced;
    var ok := set t | t in p.tasks && p.tasks[t] == Task(a, trigger, Done(Finished(Ok)));
    forall t | t in p.tasks ensures t in Where(p.tasks, Counted(l)) <==> t in ok {
      OkLabel(p.tasks[t], a, trigger);
    }
    hide Tallied, Member;
    assert Where(p.tasks, Counted(l)) == ok;
  }

  lemma OkLabel(k: Task, a: AgentId, trigger: string)
    ensures RunLabel(a, trigger, ResultOk) in Tallied(k) <==> k == Task(a, trigger, Done(Finished(Ok)))
  {
  }

  /** Its run is over, by a report other than OK or an exception, and was counted. */
  predicate EndedInError(pc: Pc) {
    pc == Unlocking(Raised) || pc == Done(Finished(NotOk)) || pc == Done(Finished(Raised)) || pc == Done(CutShort(Raised))
  }

  /** The "error" counter of an agent and trigger is the number of its runs that ended so. */
  lemma ErrorMeansNotOk(p: Proc, a: AgentId, trigger: string)
    requires Balanced(p)
    ensures p.runs[RunLabel(a, trigger, ResultError)] ==
      |set t | t in p.tasks && p.tasks[t].agent == a && p.tasks[t].reason == trigger && EndedInError(p.tasks[t].pc)|
  {
    var l := RunLabel(a, trigger, ResultError);
    assert p.runs[l] == |Where(p.tasks, Counted(l))|;
    hide Balanced;
    var errors := set t | t in p.tasks && p.tasks[t].agent == a && p.tasks[t].reason == trigger && EndedInError(p.tasks[t].pc);
    forall t | t in p.tasks ensures t in Where(p.tasks, Counted(l)) <==> t in errors {
      ErrorLabel(p.tasks[t], a, trigger);
    }
    hide Tallied, Member;
    assert Where(p.tasks, Counted(l)) == errors;
  }

  lemma ErrorLabel(k: Task, a: AgentId, trigger: string)
    ensures RunLabel(a, trigger, ResultError) in Tallied(k) <==> k.agent == a && k.reason == trigger && EndedInError(k.pc)
  {
  }

  /** Its run window was opened and closed. */
  predicate WindowClosed(pc: Pc) {
    pc.Unlocking? || (pc.Done? && (pc.exit.Finished? || pc.exit.CutShort?))
  }

  /** An agent's duration observations are its closed run windows. */
  lemma DurationsAreClosedWindows(p: Proc, a: AgentId)
    requires Balanced(p)
    ensures p.durations[a] == |set t | t in p.tasks && p.tasks[t].agent == a && WindowClosed(p.tasks[t].pc)|
  {
    assert p.durations[a] == |Where(p.tasks, Closed(a))|;
    hide Balanced;
    var closed := set t | t in p.tasks && p.tasks[t].agent == a && WindowClosed(p.tasks[t].pc);
    forall t | t in p.tasks ensures t in Where(p.tasks, Closed(a)) <==> t in closed {
      ClosedLabel(p.tasks[t], a);
    }
    hide Observed, Member, WindowClosed;
    assert Where(p.tasks, Closed(a)) == closed;
  }

  lemma ClosedLabel(k: Task, a: AgentId)
    ensures a in Observed(k) <==> k.agent == a && WindowClosed(k.pc)
  {
  }
}
