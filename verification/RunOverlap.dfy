/** The overlap bound cannot be improved: for every n there is an interleaving with n runs of one agent
    in progress at once, all but one of which have outlived their lock. */
module RunOverlap {
  import opened RunSteps
  import opened RunSystem
  import opened RunSafety
  import opened RunDrain

  predicate Admits(cfg: Config, a: AgentId) {
    Known(cfg, a) && cfg.redis && cfg.globalLimit >= 1 && cfg.agents[a].maxConcurrent >= 1 && cfg.agents[a].timeoutSeconds >= 1
  }

  /** The task of a freshly started executor on its way into the run. */
  function Entering(cfg: Config, a: AgentId): Proc
    requires Admits(cfg, a)
  {
    TakeAgent(TakeGlobal(Submit(Boot(cfg), 0, a, "external"), 0), 0)
  }

  lemma EnteringIsLocking(cfg: Config, a: AgentId)
    requires Admits(cfg, a)
    ensures var q := Entering(cfg, a);
      q.cfg == cfg && At(q, 0, Locking) && q.tasks == map[0 := Task(a, "external", Locking)]
  {
  }

  lemma Reaches(s: Sys, es: seq<Event>, s': Sys)
    requires Reachable(s) && Runs(s, es, s')
    ensures Reachable(s')
  {
    var ds :| Runs(INIT, ds, s);
    RunsAppend(INIT, ds, s, es, s');
  }

  lemma StepReaches(s: Sys, e: Event)
    requires Reachable(s) && Enabled(s, e)
    ensures Reachable(Apply(s, e))
  {
    hide Enabled, Apply;
    RunsCons(s, e, [], Apply(s, e));
    Reaches(s, [e] + [], Apply(s, e));
  }

  /** A fresh executor's first submit asks for the lock. */
  lemma AsksForLock(s: Sys, p: ProcId, cfg: Config, a: AgentId) returns (s': Sys)
    requires Reachable(s) && p !in s.started && Admits(cfg, a)
    ensures Reachable(s')
    ensures s' == s.(procs := s.procs[p := Entering(cfg, a)], started := s.started + {p},
                     wire := s.wire + {SetNx(Token(p, 0), a, Ttl(cfg, a))})
  {
    hide Reachable, Runs;
    var q1 := Submit(Boot(cfg), 0, a, "external");
    var q2 := TakeGlobal(q1, 0);
    var q3 := TakeAgent(q2, 0);
    var s0 := s.(procs := s.procs[p := Boot(cfg)], started := s.started + {p});
    StepReaches(s, Start(p, cfg));
    var s1 := ProcStep(s0, p, Boot(cfg), 0, Submitting(a, "external"));
    var s2 := ProcStep(s1, p, q1, 0, GlobalTaken);
    s' := ProcStep(s2, p, q2, 0, AgentTaken);
    assert s0.procs[p := q1][p := q2][p := q3] == s.procs[p := q3];
  }

  lemma ProcStep(s: Sys, p: ProcId, q: Proc, t: TaskId, step: Step) returns (s': Sys)
    requires Reachable(s) && p in s.procs && s.procs[p] == q && CanAdvance(q, t, step) && !step.LockAnswered?
    ensures Reachable(s')
    ensures s' == s.(procs := s.procs[p := Advance(q, t, step)], wire := s.wire + Sends(q, Token(p, t), step))
  {
    hide Reachable, Advance, CanAdvance, Sends;
    StepReaches(s, Stepped(p, t, step));
    s' := Apply(s, Stepped(p, t, step));
  }

  /** When no lock of a is in force, a fresh executor gets its run. */
  lemma Admit(s: Sys, p: ProcId, cfg: Config, a: AgentId) returns (s': Sys)
    requires Reachable(s) && p !in s.started && Admits(cfg, a) && !Live(s, a)
    ensures Reachable(s') && s'.now == s.now && s'.started == s.started + {p}
    ensures s'.procs == s.procs[p := EnterRun(Entering(cfg, a), 0)]
    ensures s'.grants == s.grants[Token(p, 0) := Grant(a, s.now, s.now + Ttl(cfg, a))]
  {
    hide Reachable, Entering;
    EnteringIsLocking(cfg, a);
    var tok := Token(p, 0);
    var s1 := AsksForLock(s, p, cfg, a);
    StepReaches(s1, Served(SetNx(tok, a, Ttl(cfg, a))));
    var s2 := Apply(s1, Served(SetNx(tok, a, Ttl(cfg, a))));
    StepReaches(s2, Stepped(p, 0, LockAnswered(true)));
    s' := Apply(s2, Stepped(p, 0, LockAnswered(true)));
  }

  lemma RunsAfterAdmit(s: Sys, p: ProcId, cfg: Config, a: AgentId, s': Sys)
    requires p !in s.procs && Admits(cfg, a)
    requires s'.procs == s.procs[p := EnterRun(Entering(cfg, a), 0)]
    ensures RunsOf(s', a) == RunsOf(s, a) + {Token(p, 0)} && Token(p, 0) !in RunsOf(s, a)
  {
    EnteringIsLocking(cfg, a);
    hide Entering;
    var q := EnterRun(Entering(cfg, a), 0);
    assert forall t :: t in q.tasks && IsRunOf(q, t, a) <==> t == 0;
    hide IsRunOf;
    assert forall t :: t in s'.procs[p].tasks && IsRunOf(s'.procs[p], t, a) <==> t == 0;
  }

  /** Every run of a holds a grant, and every grant expires by `limit`. */
  ghost predicate ExpireBy(s: Sys, a: AgentId, limit: nat) {
    && (forall tok :: tok in RunsOf(s, a) ==> tok in s.grants)
    && (forall tok :: tok in s.grants ==> s.grants[tok].expiry <= limit)
  }

  /** n runs at once, n - 1 of which have outlived their lock. */
  lemma BoundAttained(n: nat, cfg: Config, a: AgentId) returns (s: Sys)
    requires n >= 1 && cfg.redis && a in cfg.agents && cfg.agents[a].enabled
    requires cfg.globalLimit >= 1 && cfg.agents[a].maxConcurrent >= 1 && cfg.agents[a].timeoutSeconds >= 1
    ensures Reachable(s) && |RunsOf(s, a)| == n && |Outlived(s, a)| == n - 1
  {
    assert Admits(cfg, a);
    hide Reachable, RunsOf, Outlived, Admits;
    s := ManyOverlap(n, cfg, a);
  }

  lemma {:induction false} ManyOverlap(n: nat, cfg: Config, a: AgentId) returns (s: Sys)
    requires n >= 1 && Admits(cfg, a)
    ensures Reachable(s) && |RunsOf(s, a)| == n && |Outlived(s, a)| == n - 1
    ensures ExpireBy(s, a, s.now + Ttl(cfg, a))
    ensures forall p :: p in s.started ==> p < n
  {
    hide Reachable, Entering, IsRunOf, Ttl;
    var m := INIT;
    if n == 1 {
      InitReachable();
      assert RunsOf(m, a) == {};
    } else {
      var r := ManyOverlap(n - 1, cfg, a);
      m := Apply(r, Tick(Ttl(cfg, a)));
      StepReaches(r, Tick(Ttl(cfg, a)));
      assert RunsOf(m, a) == RunsOf(r, a);
    }
    s := AdmitOneMore(m, n - 1, cfg, a);
  }

  lemma AdmitOneMore(m: Sys, p: ProcId, cfg: Config, a: AgentId) returns (s: Sys)
    requires Reachable(m) && p !in m.started && Admits(cfg, a) && ExpireBy(m, a, m.now)
    ensures Reachable(s) && s.started == m.started + {p}
    ensures |RunsOf(s, a)| == |RunsOf(m, a)| + 1 && |Outlived(s, a)| == |RunsOf(m, a)|
    ensures ExpireBy(s, a, s.now + Ttl(cfg, a))
  {
    AllExpired(m, p, a);
    TtlPositive(cfg, a);
    hide Reachable, Entering, Ttl, Admits, EnterRun, Live;
    s := Admit(m, p, cfg, a);
    RunsAfterAdmit(m, p, cfg, a, s);
    OneInForce(m, s, a, Token(p, 0), Grant(a, m.now, m.now + Ttl(cfg, a)));
  }

  lemma OneInForce(m: Sys, s: Sys, a: AgentId, tok: Token, g: Grant)
    requires RunsOf(s, a) == RunsOf(m, a) + {tok} && tok !in RunsOf(m, a)
    requires s.grants == m.grants[tok := g] && s.now == m.now < g.expiry && ExpireBy(m, a, m.now)
    ensures |RunsOf(s, a)| == |RunsOf(m, a)| + 1 && |Outlived(s, a)| == |RunsOf(m, a)| && ExpireBy(s, a, g.expiry)
  {
    hide RunsOf;
    var outlived := Outlived(s, a);
    assert forall x :: x in outlived <==> x in RunsOf(m, a);
    assert outlived == RunsOf(m, a);
  }

  lemma AllExpired(m: Sys, p: ProcId, a: AgentId)
    requires Reachable(m) && p !in m.started && ExpireBy(m, a, m.now)
    ensures !Live(m, a) && p !in m.procs
    ensures forall tok :: tok in RunsOf(m, a) ==> tok.proc != p
  {
    ReachableInv(m);
    hide Reachable, Orderly, Balanced;
  }

  lemma TtlPositive(cfg: Config, a: AgentId)
    requires Admits(cfg, a)
    ensures Ttl(cfg, a) >= 1
  {
  }

  lemma InitReachable()
    ensures Reachable(INIT)
  {
    assert Runs(INIT, [], INIT);
  }
}
