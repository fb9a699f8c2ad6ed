/** The executor and the Redis server as objects: each method is the code a coroutine runs between two
    awaits, updating the semaphores, the gauge and the counters in place. */
module RunExecutor {
  import opened RunSteps
  import opened RunSystem
  import opened Sizes

  class RunExecutor {
    const cfg: Config
    var globalFree: int
    var agentFree: map<AgentId, int>
    var tasks: map<TaskId, Task>
    var inflight: int
    var runs: multiset<RunLabel>
    var durations: multiset<AgentId>

    ghost function View(): Proc
      reads this
    {
      Proc(cfg, globalFree, agentFree, tasks, inflight, runs, durations)
    }

    ghost predicate Valid()
      reads this
    {
      Balanced(View())
    }

    constructor (cfg: Config)
      ensures Valid() && View() == Boot(cfg)
    {
      this.cfg := cfg;
      globalFree := cfg.globalLimit;
      agentFree := map a | a in cfg.agents :: cfg.agents[a].maxConcurrent;
      tasks, inflight, runs, durations := map[], 0, multiset{}, multiset{};
      new;
      BootBalanced(cfg);
    }

    method BeginSubmit(t: TaskId, agent: AgentId, reason: string)
      requires Valid() && CanAdvance(View(), t, Submitting(agent, reason))
      modifies this
      ensures Valid() && View() == Advance(old(View()), t, Submitting(agent, reason))
    {
      hide Balanced;
      AdvanceBalanced(View(), t, Submitting(agent, reason));
      if agent !in cfg.agents || !cfg.agents[agent].enabled {
        tasks := tasks[t := Task(agent, reason, Done(UnknownOrDisabled))];
      } else {
        tasks := tasks[t := Task(agent, reason, WaitGlobal)];
      }
    }

    method EnterGlobal(t: TaskId)
      requires Valid() && CanAdvance(View(), t, GlobalTaken)
      modifies this
      ensures Valid() && View() == Advance(old(View()), t, GlobalTaken)
    {
      hide Balanced;
      AdvanceBalanced(View(), t, GlobalTaken);
      globalFree := globalFree - 1;
      tasks := tasks[t := tasks[t].(pc := WaitAgent)];
    }

    method EnterAgent(t: TaskId)
      requires Valid() && CanAdvance(View(), t, AgentTaken)
      modifies this
      ensures Valid() && View() == Advance(old(View()), t, AgentTaken)
    {
      hide Balanced;
      AdvanceBalanced(View(), t, AgentTaken);
      var k := tasks[t];
      agentFree := agentFree[k.agent := agentFree[k.agent] - 1];
      if cfg.redis {
        tasks := tasks[t := k.(pc := Locking)];
      } else {
        OpenWindow(t);
      }
    }

    method OpenWindow(t: TaskId)
      requires t in tasks
      modifies this
      ensures View() == EnterRun(old(View()), t)
    {
      inflight := inflight + 1;
      tasks := tasks[t := tasks[t].(pc := Running)];
    }

    /** `__aexit__` of both semaphores. */
    method Release(t: TaskId, exit: Exit)
      requires t in tasks && tasks[t].agent in agentFree
      modifies this
      ensures View() == Leave(old(View()), t, exit)
    {
      var k := tasks[t];
      agentFree := agentFree[k.agent := agentFree[k.agent] + 1];
      globalFree := globalFree + 1;
      tasks := tasks[t := k.(pc := Done(exit))];
    }

    method CancelWaiting(t: TaskId)
      requires Valid() && CanAdvance(View(), t, WaitCancelled)
      modifies this
      ensures Valid() && View() == Advance(old(View()), t, WaitCancelled)
    {
      hide Balanced;
      AdvanceBalanced(View(), t, WaitCancelled);
      if tasks[t].pc == WaitAgent {
        globalFree := globalFree + 1;
      }
      tasks := tasks[t := tasks[t].(pc := Done(CancelledWaiting))];
    }

    method ReceiveLock(t: TaskId, acquired: bool)
      requires Valid() && CanAdvance(View(), t, LockAnswered(acquired))
      modifies this
      ensures Valid() && View() == Advance(old(View()), t, LockAnswered(acquired))
    {
      hide Balanced;
      AdvanceBalanced(View(), t, LockAnswered(acquired));
      if !acquired {
        Release(t, LockTaken);
      } else {
        OpenWindow(t);
      }
    }

    method LoseLock(t: TaskId)
      requires Valid() && CanAdvance(View(), t, LockBroken)
      modifies this
      ensures Valid() && View() == Advance(old(View()), t, LockBroken)
    {
      hide Balanced;
      AdvanceBalanced(View(), t, LockBroken);
      Release(t, LockFailed);
    }

    /** The `except` clause, then the `finally` block up to its await. */
    method CloseRunWindow(t: TaskId, end: RunEnd)
      requires At(View(), t, Running)
      modifies this
      ensures View() == CloseWindow(old(View()), t, end)
    {
      var k := tasks[t];
      if end == Raised {
        runs := runs + multiset{RunLabel(k.agent, k.reason, ResultError)};
      }
      durations := durations + multiset{k.agent};
      inflight := inflight - 1;
      tasks := tasks[t := k.(pc := Unlocking(end))];
    }

    method EndRun(t: TaskId, end: RunEnd)
      requires Valid() && CanAdvance(View(), t, RunEnded(end))
      modifies this
      ensures Valid() && View() == Advance(old(View()), t, RunEnded(end))
    {
      hide Balanced;
      AdvanceBalanced(View(), t, RunEnded(end));
      CloseRunWindow(t, end);
      if !cfg.redis {
        ReportAndLeave(t);
      }
    }

    /** The code after the `try` statement. */
    method ReportAndLeave(t: TaskId)
      requires Unlocks(View(), t)
      modifies this
      ensures View() == UnlockEnds(old(View()), t)
    {
      var k := tasks[t];
      if k.pc.end == Ok {
        runs := runs + multiset{RunLabel(k.agent, k.reason, ResultOk)};
      } else if k.pc.end == NotOk {
        runs := runs + multiset{RunLabel(k.agent, k.reason, ResultError)};
      }
      Release(t, Finished(k.pc.end));
    }

    /** The awaited compare-and-delete returned, or raised and was suppressed. */
    method FinishUnlock(t: TaskId)
      requires Valid() && CanAdvance(View(), t, UnlockEnded)
      modifies this
      ensures Valid() && View() == Advance(old(View()), t, UnlockEnded)
    {
      hide Balanced;
      AdvanceBalanced(View(), t, UnlockEnded);
      ReportAndLeave(t);
    }

    method CancelUnlock(t: TaskId)
      requires Valid() && CanAdvance(View(), t, UnlockCancelled)
      modifies this
      ensures Valid() && View() == Advance(old(View()), t, UnlockCancelled)
    {
      hide Balanced;
      AdvanceBalanced(View(), t, UnlockCancelled);
      Release(t, CutShort(tasks[t].pc.end));
    }
  }

  /** How the awaited SET came back to an uninterrupted submit. */
  datatype LockReply = Acquired | Refused | Broken

  /** How an uninterrupted submit leaves. */
  function ExitOf(cfg: Config, agent: AgentId, reply: LockReply, end: RunEnd, cut: bool): Exit {
    if !Known(cfg, agent) then UnknownOrDisabled
    else if cfg.redis && reply == Refused then LockTaken
    else if cfg.redis && reply == Broken then LockFailed
    else if cfg.redis && cut then CutShort(end)
    else Finished(end)
  }

  /** The task the method below is at, with every other task as it was in m. */
  predicate Alone(p: Proc, cfg: Config, m: map<TaskId, Task>, t: TaskId, k: Task) {
    p.cfg == cfg && p.tasks == m[t := k] && k.agent in p.agentFree
  }

  lemma AloneMoves(p: Proc, m: map<TaskId, Task>, t: TaskId, k: Task, step: Step)
    requires Alone(p, p.cfg, m, t, k) && CanAdvance(p, t, step)
    ensures Alone(Advance(p, t, step), p.cfg, m, t, k.(pc := PcAfter(p, t, step)))
  {
    AdvanceMovesOne(p, t, step);
    hide Advance, CanAdvance, PcAfter;
    UpdateTwice(m, t, k, TaskAfter(p, t, step));
  }

  /** `submit` from end to end, when permits are free and no other coroutine is resumed in between:
      whichever way it leaves, both permits and the gauge are back where they were, and the only trace
      is the task's own exit with the increments that go with it. */
  method Submit(ex: RunExecutor, t: TaskId, agent: AgentId, reason: string, reply: LockReply, end: RunEnd, cut: bool)
    requires ex.Valid() && t !in ex.tasks
    requires Known(ex.cfg, agent) && agent in ex.agentFree ==> ex.globalFree > 0 && ex.agentFree[agent] > 0
    modifies ex
    ensures ex.Valid()
    ensures ex.tasks == old(ex.tasks)[t := Task(agent, reason, Done(ExitOf(ex.cfg, agent, reply, end, cut)))]
    ensures ex.globalFree == old(ex.globalFree) && ex.agentFree == old(ex.agentFree) && ex.inflight == old(ex.inflight)
    ensures ex.runs == old(ex.runs) + Tallied(ex.tasks[t]) && ex.durations == old(ex.durations) + Observed(ex.tasks[t])
  {
    ghost var before, m := ex.View(), ex.tasks;
    ex.BeginSubmit(t, agent, reason);
    if Known(ex.cfg, agent) {
      Admit(ex, before, t, agent, reason);
      ghost var k := Task(agent, reason, if ex.cfg.redis then Locking else Running);
      AwaitLock(ex, m, t, k, reply, end, cut);
    }
    BooksFollowTasks(before, ex.View(), t, ex.tasks[t]);
  }

  /** The two `async with` entries. */
  method Admit(ex: RunExecutor, ghost before: Proc, t: TaskId, agent: AgentId, reason: string)
    requires ex.Valid() && Balanced(before) && before.cfg == ex.cfg && t !in before.tasks && Known(ex.cfg, agent)
    requires agent in before.agentFree ==> before.globalFree > 0 && before.agentFree[agent] > 0
    requires ex.View() == RunSteps.Submit(before, t, agent, reason)
    modifies ex
    ensures ex.Valid() && Alone(ex.View(), ex.cfg, before.tasks, t, Task(agent, reason, if ex.cfg.redis then Locking else Running))
  {
    HasSemaphore(before, agent);
    hide Balanced;
    AloneMoves(ex.View(), before.tasks, t, Task(agent, reason, WaitGlobal), GlobalTaken);
    ex.EnterGlobal(t);
    AloneMoves(ex.View(), before.tasks, t, Task(agent, reason, WaitAgent), AgentTaken);
    ex.EnterAgent(t);
  }

  /** The body of the `async with` block, and its exit. */
  method AwaitLock(ex: RunExecutor, ghost m: map<TaskId, Task>, t: TaskId, ghost k: Task, reply: LockReply, end: RunEnd, cut: bool)
    requires ex.Valid() && Known(ex.cfg, k.agent) && k.pc == (if ex.cfg.redis then Locking else Running)
    requires Alone(ex.View(), ex.cfg, m, t, k)
    modifies ex
    ensures ex.Valid() && Alone(ex.View(), ex.cfg, m, t, k.(pc := Done(ExitOf(ex.cfg, k.agent, reply, end, cut))))
  {
    hide Balanced, Advance;
    if ex.cfg.redis {
      if reply == Broken {
        AloneMoves(ex.View(), m, t, k, LockBroken);
        ex.LoseLock(t);
        return;
      }
      AloneMoves(ex.View(), m, t, k, LockAnswered(reply == Acquired));
      ex.ReceiveLock(t, reply == Acquired);
      if reply == Refused {
        return;
      }
    }
    AwaitRun(ex, m, t, k.(pc := Running), end, cut);
  }

  /** The `try` statement and what follows it. */
  method AwaitRun(ex: RunExecutor, ghost m: map<TaskId, Task>, t: TaskId, ghost k: Task, end: RunEnd, cut: bool)
    requires ex.Valid() && k.pc == Running && Alone(ex.View(), ex.cfg, m, t, k)
    modifies ex
    ensures ex.Valid()
    ensures Alone(ex.View(), ex.cfg, m, t, k.(pc := Done(if ex.cfg.redis && cut then CutShort(end) else Finished(end))))
  {
    hide Balanced, Advance;
    AloneMoves(ex.View(), m, t, k, RunEnded(end));
    ex.EndRun(t, end);
    if ex.cfg.redis {
      ghost var u := k.(pc := Unlocking(end));
      if cut {
        AloneMoves(ex.View(), m, t, u, UnlockCancelled);
        ex.CancelUnlock(t);
      } else {
        AloneMoves(ex.View(), m, t, u, UnlockEnded);
        ex.FinishUnlock(t);
      }
    }
  }

  /** The processes' books balance, and q's tasks are p's and a finished one. */
  ghost predicate CameAndWent(p: Proc, q: Proc, t: TaskId, k: Task) {
    Balanced(p) && Balanced(q) && q.cfg == p.cfg && t !in p.tasks && q.tasks == p.tasks[t := k] && k.pc.Done?
  }

  lemma PermitsFollowTasks(p: Proc, q: Proc, t: TaskId, k: Task)
    requires CameAndWent(p, q, t, k)
    ensures q.globalFree == p.globalFree && q.agentFree == p.agentFree && q.inflight == p.inflight
  {
    WhereUpdate(p.tasks, t, k, GlobalHolders);
    WhereUpdate(p.tasks, t, k, InWindow);
    hide Where;
    assert p.agentFree.Keys == q.agentFree.Keys;
    forall a | a in p.agentFree ensures q.agentFree[a] == p.agentFree[a] {
      WhereUpdate(p.tasks, t, k, AgentHolders(a));
      assert a in q.agentFree;
    }
  }

  lemma TallyFollows(p: Proc, q: Proc, t: TaskId, k: Task, l: RunLabel)
    requires t !in p.tasks && q.tasks == p.tasks[t := k]
    requires p.runs[l] == |Where(p.tasks, Counted(l))| && q.runs[l] == |Where(q.tasks, Counted(l))|
    ensures q.runs[l] == p.runs[l] + Tallied(k)[l]
  {
    WhereUpdate(p.tasks, t, k, Counted(l));
    AtMostOnce(k, l);
    hide Where, Tallied;
  }

  lemma RunsFollowTasks(p: Proc, q: Proc, t: TaskId, k: Task)
    requires CameAndWent(p, q, t, k)
    ensures q.runs == p.runs + Tallied(k)
  {
    hide Where, Tallied;
    forall l ensures q.runs[l] == p.runs[l] + Tallied(k)[l] {
      TallyFollows(p, q, t, k, l);
    }
    hide Balanced, CameAndWent;
  }

  lemma ObservedOnce(k: Task, a: AgentId)
    ensures Observed(k)[a] == Bit(Member(Closed(a), k))
  {
  }

  lemma DurationFollows(p: Proc, q: Proc, t: TaskId, k: Task, a: AgentId)
    requires t !in p.tasks && q.tasks == p.tasks[t := k]
    requires p.durations[a] == |Where(p.tasks, Closed(a))| && q.durations[a] == |Where(q.tasks, Closed(a))|
    ensures q.durations[a] == p.durations[a] + Observed(k)[a]
  {
    WhereUpdate(p.tasks, t, k, Closed(a));
    ObservedOnce(k, a);
    hide Where, Member, Observed;
  }

  lemma DurationsFollowTasks(p: Proc, q: Proc, t: TaskId, k: Task)
    requires CameAndWent(p, q, t, k)
    ensures q.durations == p.durations + Observed(k)
  {
    hide Where, Observed;
    forall a ensures q.durations[a] == p.durations[a] + Observed(k)[a] {
      DurationFollows(p, q, t, k, a);
    }
    hide Balanced, CameAndWent;
  }

  /** Balanced books are determined by the tasks: a task that came and went leaves only its increments. */
  lemma BooksFollowTasks(p: Proc, q: Proc, t: TaskId, k: Task)
    requires CameAndWent(p, q, t, k)
    ensures q.globalFree == p.globalFree && q.agentFree == p.agentFree && q.inflight == p.inflight
    ensures q.runs == p.runs + Tallied(k) && q.durations == p.durations + Observed(k)
  {
    PermitsFollowTasks(p, q, t, k);
    RunsFollowTasks(p, q, t, k);
    DurationsFollowTasks(p, q, t, k);
  }

  lemma HasSemaphore(p: Proc, agent: AgentId)
    requires Balanced(p) && Known(p.cfg, agent)
    ensures agent in p.agentFree
  {
    assert agent in p.agentFree.Keys;
  }

  /** The server: keys with an expiry time, and the two commands the executor sends. */
  class RedisServer {
    var now: nat
    var keys: map<AgentId, Entry>

    method SetNxEx(token: Token, a: AgentId, ttl: nat) returns (acquired: bool)
      modifies this`keys
      ensures acquired <==> !(a in old(keys) && now < old(keys)[a].expiry)
      ensures keys == if acquired then old(keys)[a := Entry(token, now + ttl)] else old(keys)
    {
      acquired := a !in keys || keys[a].expiry <= now;
      if acquired {
        keys := keys[a := Entry(token, now + ttl)];
      }
    }

    method CompareAndDelete(token: Token, a: AgentId)
      modifies this`keys
      ensures keys == if a in old(keys) && now < old(keys)[a].expiry && old(keys)[a].token == token then old(keys) - {a} else old(keys)
    {
      if a in keys && now < keys[a].expiry && keys[a].token == token {
        keys := keys - {a};
      }
    }
  }

  /** The server object does what the protocol's `Serve` says. */
  method ServeRequest(server: RedisServer, ghost s: Sys, r: Request)
    requires server.now == s.now && server.keys == s.keys
    modifies server`keys
    ensures server.keys == Serve(s, r).keys
  {
    match r
    case SetNx(tok, a, ttl) =>
      var acquired := server.SetNxEx(tok, a, ttl);
    case CompareDelete(tok, a) =>
      server.CompareAndDelete(tok, a);
  }
}
