/** Any number of executor processes, the Redis server they share, the requests still on the wire
    between them, and a clock.  A request outlives the coroutine that sent it: it may be served after
    its sender was cancelled or crashed, or never. */
module RunSystem {
  import opened RunSteps

  type ProcId = nat

  /** The lock token of one task: `uuid4().hex`, drawn once by each task and never drawn twice. */
  datatype Token = Token(proc: ProcId, task: TaskId)

  datatype Entry = Entry(token: Token, expiry: nat)
  datatype Grant = Grant(agent: AgentId, at: nat, expiry: nat)

  datatype Request =
    | SetNx(token: Token, agent: AgentId, ttl: nat)
    | CompareDelete(token: Token, agent: AgentId)

  /** `keys` is the server's table, indexed by the agent in the key "agent:lock:<agent>"; an entry whose
      expiry has passed reads as absent.  `grants`, `refused` and `deleted` record the server's answers. */
  datatype Sys = Sys(
    now: nat,
    procs: map<ProcId, Proc>,
    started: set<ProcId>,
    keys: map<AgentId, Entry>,
    wire: set<Request>,
    grants: map<Token, Grant>,
    refused: set<Token>,
    deleted: set<Token>)

  const INIT := Sys(0, map[], {}, map[], {}, map[], {}, {})

  datatype Event =
    | Tick(ms: nat)
    | Start(p: ProcId, cfg: Config)
    | Crash(p: ProcId)
    | Stepped(p: ProcId, t: TaskId, step: Step)
    | Served(request: Request)
    | Dropped(request: Request)

  const MS_PER_SECOND: nat := 1000

  predicate Live(s: Sys, a: AgentId) {
    a in s.keys && s.now < s.keys[a].expiry
  }

  predicate Answered(s: Sys, tok: Token) {
    tok in s.grants || tok in s.refused
  }

  predicate Enabled(s: Sys, e: Event) {
    match e
    case Tick(_) => true
    case Start(p, _) => p !in s.started
    case Crash(p) => p in s.procs
    case Stepped(p, t, step) =>
      && p in s.procs
      && CanAdvance(s.procs[p], t, step)
      && (step.LockAnswered? ==> Answered(s, Token(p, t)) && step.acquired == (Token(p, t) in s.grants))
    // Redis answers SET ... EX 0 with an error, which the sender sees as LockBroken
    case Served(r) => r in s.wire && (r.SetNx? ==> r.ttl > 0)
    case Dropped(r) => r in s.wire
  }

  /** What the coroutine puts on the wire before it suspends. */
  function Sends(p: Proc, tok: Token, step: Step): set<Request>
    requires CanAdvance(p, tok.task, step)
  {
    if !p.cfg.redis || !(step.AgentTaken? || step.RunEnded?) then {} else
    var a := p.tasks[tok.task].agent;
    if step.RunEnded? then {CompareDelete(tok, a)} else {SetNx(tok, a, Ttl(p.cfg, a))}
  }

  function Ttl(cfg: Config, a: AgentId): nat {
    if a in cfg.agents then MS_PER_SECOND * cfg.agents[a].timeoutSeconds else 0
  }

  function Apply(s: Sys, e: Event): Sys
    requires Enabled(s, e)
  {
    match e
    case Tick(ms) => s.(now := s.now + ms)
    case Start(p, cfg) => s.(procs := s.procs[p := Boot(cfg)], started := s.started + {p})
    case Crash(p) => s.(procs := s.procs - {p})
    case Stepped(p, t, step) =>
      s.(procs := s.procs[p := Advance(s.procs[p], t, step)], wire := s.wire + Sends(s.procs[p], Token(p, t), step))
    case Served(r) => Serve(s, r)
    case Dropped(r) => s.(wire := s.wire - {r})
  }

  /** The server's side: SET NX EX, and the compare-and-delete script. */
  function Serve(s: Sys, r: Request): Sys {
    var q := s.(wire := s.wire - {r});
    match r
    case SetNx(tok, a, ttl) =>
      if Live(s, a) then q.(refused := q.refused + {tok})
      else q.(keys := q.keys[a := Entry(tok, s.now + ttl)], grants := q.grants[tok := Grant(a, s.now, s.now + ttl)])
    case CompareDelete(tok, a) =>
      var keys := if Live(s, a) && s.keys[a].token == tok then s.keys - {a} else s.keys;
      q.(keys := keys, deleted := q.deleted + {tok})
  }

  ghost predicate Runs(s: Sys, es: seq<Event>, s': Sys)
    decreases |es|
  {
    if es == [] then s' == s
    else Enabled(s, es[0]) && Runs(Apply(s, es[0]), es[1..], s')
  }

  ghost predicate Reachable(s: Sys) {
    exists es :: Runs(INIT, es, s)
  }

  lemma {:induction false} RunsAppend(s: Sys, es: seq<Event>, m: Sys, fs: seq<Event>, s': Sys)
    requires Runs(s, es, m) && Runs(m, fs, s')
    ensures Runs(s, es + fs, s')
    decreases |es|
  {
    if es == [] {
      assert es + fs == fs;
    } else {
      RunsAppend(Apply(s, es[0]), es[1..], m, fs, s');
      assert (es + fs)[1..] == es[1..] + fs;
    }
  }

  // ---- The invariant ----

  ghost predicate AllBalanced(s: Sys) {
    && s.procs.Keys <= s.started
    && (forall p :: p in s.procs ==> Balanced(s.procs[p]))
  }

  /** A request on the wire fits the task that sent it: a SET is not answered yet, and only a granted
      lock is given back, after the run. */
  predicate RequestFits(s: Sys, r: Request) {
    var p, t := r.token.proc, r.token.task;
    && p in s.started
    && (p in s.procs ==> HasAsked(s.procs[p], t) && s.procs[p].tasks[t].agent == r.agent)
    && (r.SetNx? ==> !Answered(s, r.token))
    && (r.SetNx? && p in s.procs ==> r.agent in s.procs[p].cfg.agents && r.ttl == Ttl(s.procs[p].cfg, r.agent))
    && (r.CompareDelete? ==> r.token in s.grants && s.grants[r.token].agent == r.agent)
    && (r.CompareDelete? && p in s.procs ==> HasRun(s.procs[p], t))
  }

  /** What the server has answered to a token fits the task that drew it. */
  predicate AnswerFits(s: Sys, tok: Token) {
    var p, t := tok.proc, tok.task;
    && (Answered(s, tok) ==> p in s.started && (p in s.procs ==> HasAsked(s.procs[p], t)))
    && (tok in s.grants ==> tok !in s.refused && (p in s.procs ==> s.procs[p].tasks[t].agent == s.grants[tok].agent))
    && (tok in s.grants ==> s.grants[tok].at <= s.now)
    && (tok in s.grants && p in s.procs ==>
          && s.grants[tok].agent in s.procs[p].cfg.agents
          && s.grants[tok].expiry == s.grants[tok].at + Ttl(s.procs[p].cfg, s.grants[tok].agent))
    && (tok in s.deleted ==> tok in s.grants && (p in s.procs ==> HasRun(s.procs[p], t)))
  }

  /** Under Redis only a task that was granted its lock runs. */
  predicate RunFits(s: Sys, p: ProcId, t: TaskId) {
    p in s.procs && s.procs[p].cfg.redis && At(s.procs[p], t, Running) ==> Token(p, t) in s.grants
  }

  ghost predicate Orderly(s: Sys) {
    && (forall r :: r in s.wire ==> RequestFits(s, r))
    && (forall r, r' :: r in s.wire && r' in s.wire && r.SetNx? && r'.SetNx? && r.token == r'.token ==> r == r')
    && (forall tok :: AnswerFits(s, tok))
    && (forall p, t :: RunFits(s, p, t))
  }

  /** The lock of tok is in force: granted, not yet given back, not expired. */
  predicate Holds(s: Sys, tok: Token, a: AgentId) {
    tok in s.grants && tok !in s.deleted && s.grants[tok].agent == a && s.now < s.grants[tok].expiry
  }

  /** The live entries of the table are exactly the locks in force. */
  ghost predicate TableExact(s: Sys) {
    && (forall tok :: tok in s.grants && Holds(s, tok, s.grants[tok].agent) ==>
          s.grants[tok].agent in s.keys && s.keys[s.grants[tok].agent] == Entry(tok, s.grants[tok].expiry))
    && (forall a :: Live(s, a) ==> Holds(s, s.keys[a].token, a) && s.grants[s.keys[a].token].expiry == s.keys[a].expiry)
  }

  ghost predicate Inv(s: Sys) {
    AllBalanced(s) && Orderly(s) && TableExact(s)
  }

  lemma BalancedStep(s: Sys, e: Event)
    requires AllBalanced(s) && Enabled(s, e)
    ensures AllBalanced(Apply(s, e))
  {
    hide Balanced, Advance, CanAdvance;
    match e
    case Start(p, cfg) => BootBalanced(cfg);
    case Stepped(p, t, step) => AdvanceBalanced(s.procs[p], t, step);
    case _ =>
  }

  lemma SendsOwn(p: Proc, tok: Token, step: Step)
    requires CanAdvance(p, tok.task, step)
    ensures forall r :: r in Sends(p, tok, step) ==>
      && p.cfg.redis && r.token == tok
      && (if r.SetNx? then step.AgentTaken? else step.RunEnded?)
      && r.agent == p.tasks[tok.task].agent
      && (r.SetNx? ==> r.agent in p.agentFree && r.ttl == Ttl(p.cfg, r.agent))
    ensures forall r, r' :: r in Sends(p, tok, step) && r' in Sends(p, tok, step) ==> r == r'
  {
  }

  lemma OrderlyStep(s: Sys, e: Event)
    requires AllBalanced(s) && Orderly(s) && Enabled(s, e)
    ensures Orderly(Apply(s, e))
  {
    hide Advance, CanAdvance, HasAsked, HasRun, At, Balanced, Orderly;
    match e
    case Stepped(p, t, step) =>
      HasSemaphores(s.procs[p]);
      OrderlyStepped(s, p, t, step);
    case Served(r) => OrderlyServed(s, r);
    case Start(p, cfg) => OrderlyStart(s, p, cfg);
    case _ => OrderlyOther(s, e);
  }

  lemma OrderlyOther(s: Sys, e: Event)
    requires Orderly(s) && Enabled(s, e) && !e.Stepped? && !e.Served? && !e.Start?
    ensures Orderly(Apply(s, e))
  {
    hide HasAsked, HasRun, At, Ttl;
    var s' := Apply(s, e);
    forall r | r in s'.wire ensures RequestFits(s', r) { assert RequestFits(s, r); }
    forall tok ensures AnswerFits(s', tok) { assert AnswerFits(s, tok); }
    forall p, t ensures RunFits(s', p, t) { assert RunFits(s, p, t); }
  }

  /** There is a semaphore for every agent and for nobody else. */
  lemma HasSemaphores(p: Proc)
    requires Balanced(p)
    ensures p.agentFree.Keys == p.cfg.agents.Keys
  {
  }

  lemma OrderlyStart(s: Sys, p: ProcId, cfg: Config)
    requires s.procs.Keys <= s.started && Orderly(s) && Enabled(s, Start(p, cfg))
    ensures Orderly(Apply(s, Start(p, cfg)))
  {
    hide HasAsked, HasRun;
    var s' := Apply(s, Start(p, cfg));
    forall r | r in s'.wire ensures RequestFits(s', r) { assert RequestFits(s, r); }
    forall tok ensures AnswerFits(s', tok) { assert AnswerFits(s, tok); }
    forall p, t ensures RunFits(s', p, t) { assert RunFits(s, p, t); }
  }

  lemma OrderlyStepped(s: Sys, p: ProcId, t: TaskId, step: Step)
    requires s.procs.Keys <= s.started && Orderly(s) && Enabled(s, Stepped(p, t, step))
    requires s.procs[p].agentFree.Keys == s.procs[p].cfg.agents.Keys
    ensures Orderly(Apply(s, Stepped(p, t, step)))
  {
    var s' := Apply(s, Stepped(p, t, step));
    forall r | r in s'.wire ensures RequestFits(s', r) { RequestFitsStepped(s, p, t, step, r); }
    forall tok ensures AnswerFits(s', tok) { AnswerFitsStepped(s, p, t, step, tok); }
    forall p', t' ensures RunFits(s', p', t') { RunFitsStepped(s, p, t, step, p', t'); }
    SendsOwn(s.procs[p], Token(p, t), step);
    hide Advance, CanAdvance, HasAsked, HasRun, Sends, RunFits, AnswerFits;
    if step.AgentTaken? {
      forall r | r in s.wire && r.SetNx? ensures r.token != Token(p, t) { 
        assert RequestFits(s, r);
        Forward(s.procs[p], t, step);
      }
    }
  }

  lemma RequestFitsStepped(s: Sys, p: ProcId, t: TaskId, step: Step, r: Request)
    requires Orderly(s) && p in s.started && Enabled(s, Stepped(p, t, step)) && r in Apply(s, Stepped(p, t, step)).wire
    requires s.procs[p].agentFree.Keys == s.procs[p].cfg.agents.Keys
    ensures RequestFits(Apply(s, Stepped(p, t, step)), r)
  {
    Forward(s.procs[p], t, step);
    SendsOwn(s.procs[p], Token(p, t), step);
    hide Advance, CanAdvance, HasRun, At, Sends, Ttl;
    if r in s.wire {
      assert RequestFits(s, r);
    } else {
      assert AnswerFits(s, r.token) && RunFits(s, p, t);
    }
  }

  lemma AnswerFitsStepped(s: Sys, p: ProcId, t: TaskId, step: Step, tok: Token)
    requires Orderly(s) && p in s.started && Enabled(s, Stepped(p, t, step))
    ensures AnswerFits(Apply(s, Stepped(p, t, step)), tok)
  {
    Forward(s.procs[p], t, step);
    hide Advance, CanAdvance, At, Sends, RunFits, RequestFits, Ttl;
    assert AnswerFits(s, tok);
  }

  lemma RunFitsStepped(s: Sys, p: ProcId, t: TaskId, step: Step, p': ProcId, t': TaskId)
    requires Orderly(s) && p in s.started && Enabled(s, Stepped(p, t, step))
    ensures RunFits(Apply(s, Stepped(p, t, step)), p', t')
  {
    Forward(s.procs[p], t, step);
    hide Advance, CanAdvance, HasAsked, HasRun, At, Sends, AnswerFits, RequestFits;
    assert RunFits(s, p', t');
  }

  lemma OrderlyServed(s: Sys, r: Request)
    requires s.procs.Keys <= s.started && Orderly(s) && Enabled(s, Served(r))
    ensures Orderly(Serve(s, r))
  {
    hide HasAsked, HasRun, At, Ttl;
    var s' := Serve(s, r);
    assert RequestFits(s, r) && AnswerFits(s, r.token);
    forall q | q in s'.wire ensures RequestFits(s', q) { assert RequestFits(s, q); }
    forall tok ensures AnswerFits(s', tok) { assert AnswerFits(s, tok); }
    forall p, t ensures RunFits(s', p, t) { assert RunFits(s, p, t); }
  }

  lemma TableStep(s: Sys, e: Event)
    requires Orderly(s) && TableExact(s) && Enabled(s, e)
    ensures TableExact(Apply(s, e))
  {
    hide Advance, CanAdvance, HasAsked, HasRun, Orderly, At, Serve;
    match e
    case Served(r) => TableServed(s, r);
    case _ =>
  }

  lemma TableServed(s: Sys, r: Request)
    requires Orderly(s) && TableExact(s) && Enabled(s, Served(r))
    ensures TableExact(Serve(s, r))
  {
    assert RequestFits(s, r) && AnswerFits(s, r.token);
    hide Orderly, HasAsked, HasRun, At;
    if r.SetNx? {
      TableSet(s, r);
    } else {
      TableDelete(s, r);
    }
  }

  lemma TableSet(s: Sys, r: Request)
    requires TableExact(s) && r.SetNx? && r.ttl > 0 && r.token !in s.grants && (r.token in s.deleted ==> r.token in s.grants)
    ensures TableExact(Serve(s, r))
  {
    var s' := Serve(s, r);
    forall tok | tok in s'.grants && Holds(s', tok, s'.grants[tok].agent)
      ensures s'.grants[tok].agent in s'.keys && s'.keys[s'.grants[tok].agent] == Entry(tok, s'.grants[tok].expiry)
    {
      if tok != r.token || Live(s, r.agent) {
        assert Holds(s, tok, s.grants[tok].agent);
      }
    }
  }

  lemma TableDelete(s: Sys, r: Request)
    requires TableExact(s) && r.CompareDelete? && r.token in s.grants && s.grants[r.token].agent == r.agent
    ensures TableExact(Serve(s, r))
  {
  }

  lemma InvStep(s: Sys, e: Event)
    requires Inv(s) && Enabled(s, e)
    ensures Inv(Apply(s, e))
  {
    BalancedStep(s, e);
    OrderlyStep(s, e);
    TableStep(s, e);
  }

  lemma {:induction false} InvRuns(s: Sys, es: seq<Event>, s': Sys)
    requires Inv(s) && Runs(s, es, s')
    ensures Inv(s')
    decreases |es|
  {
    hide Inv;
    if es != [] {
      InvStep(s, es[0]);
      InvRuns(Apply(s, es[0]), es[1..], s');
    }
  }

  /** Every interleaving, from a cold start: the books balance in every live process, what is on the
      wire or answered fits the tasks, and the server's table is exactly the set of locks in force. */
  lemma ReachableInv(s: Sys)
    requires Reachable(s)
    ensures Inv(s)
  {
    var es :| Runs(INIT, es, s);
    InvRuns(INIT, es, s);
  }
}
