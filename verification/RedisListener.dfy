/** The listener's objects: a debouncer per event trigger, marked by messages and read by the tick. */
module RedisListener {
  import opened Basics
  import opened Debounce

  class Debouncer {
    const delay: real
    var lastMark: Option<real>
    var pending: bool

    constructor (delay: real)
      ensures this.delay == delay && lastMark == None && !pending
    {
      this.delay, lastMark, pending := delay, None, false;
    }

    method Mark(now: real)
      modifies this
      ensures lastMark == Some(now) && pending
    {
      lastMark := Some(now);
      pending := true;
    }

    method Due(now: real) returns (due: bool)
      ensures due <==> pending && lastMark.Some? && now - lastMark.value >= delay
    {
      if !pending || lastMark.None? {
        return false;
      }
      return now - lastMark.value >= delay;
    }

    method Reset()
      modifies this
      ensures !pending && lastMark == old(lastMark)
    {
      pending := false;
    }
  }

  class AgentTriggerState {
    const agentId: string
    const topics: set<string>
    const debouncer: Debouncer
    var lastTopic: string

    constructor (agentId: string, topics: set<string>, debouncer: Debouncer)
      ensures this.agentId == agentId && this.topics == topics && this.debouncer == debouncer && lastTopic == "debounced"
    {
      this.agentId, this.topics, this.debouncer := agentId, topics, debouncer;
      lastTopic := "debounced";
    }

    ghost function View(): Gate
      reads this, debouncer
    {
      Gate(debouncer.lastMark, debouncer.pending, lastTopic)
    }

    function Config(): Trigger {
      Trigger(agentId, topics, debouncer.delay)
    }
  }

  datatype TriggerSpec = EventTrigger(topics: set<string>, debounceMinutes: int) | OtherTrigger
  datatype AgentSpec = AgentSpec(id: string, enabled: bool, triggers: seq<TriggerSpec>)

  function Delay(debounceMinutes: int): real {
    var seconds := debounceMinutes as real * 60.0;
    if seconds < 1.0 then 1.0 else seconds
  }

  /** The listened-to triggers of one agent, in order. */
  function AgentTriggers(id: string, triggers: seq<TriggerSpec>): seq<Trigger> {
    if triggers == [] then []
    else
      (if triggers[0].EventTrigger? then [Trigger(id, triggers[0].topics, Delay(triggers[0].debounceMinutes))] else []) +
      AgentTriggers(id, triggers[1..])
  }

  function AllTriggers(agents: seq<AgentSpec>): seq<Trigger> {
    if agents == [] then []
    else (if agents[0].enabled then AgentTriggers(agents[0].id, agents[0].triggers) else []) + AllTriggers(agents[1..])
  }

  /** Position p is trigger p.1 of agent p.0, an event trigger of an enabled agent. */
  predicate IsEventTrigger(agents: seq<AgentSpec>, p: (nat, nat)) {
    p.0 < |agents| && agents[p.0].enabled && p.1 < |agents[p.0].triggers| && agents[p.0].triggers[p.1].EventTrigger?
  }

  /** t listens for the event trigger at p: for its agent, on its topics, and with a quiet window of its minutes
      or, from zero minutes down, of one second. */
  predicate ListensFor(agents: seq<AgentSpec>, p: (nat, nat), t: Trigger)
    requires IsEventTrigger(agents, p)
  {
    var spec := agents[p.0].triggers[p.1];
    && t.agent == agents[p.0].id && t.topics == spec.topics
    && t.delay == if spec.debounceMinutes >= 1 then 60.0 * spec.debounceMinutes as real else 1.0
  }

  predicate Precedes(p: (nat, nat), q: (nat, nat)) {
    p.0 < q.0 || (p.0 == q.0 && p.1 < q.1)
  }

  /** Each trigger listens for the event trigger at its position. */
  ghost predicate Entries(agents: seq<AgentSpec>, triggers: seq<Trigger>, at: seq<(nat, nat)>) {
    |at| == |triggers| && forall m :: 0 <= m < |at| ==> Entry(agents, triggers[m], at[m])
  }

  predicate Entry(agents: seq<AgentSpec>, t: Trigger, p: (nat, nat)) {
    IsEventTrigger(agents, p) && ListensFor(agents, p, t)
  }

  ghost predicate Ordered(at: seq<(nat, nat)>) {
    forall l, m :: 0 <= l < m < |at| ==> Precedes(at[l], at[m])
  }

  /** The event triggers of the first n agents are among the positions. */
  ghost predicate Covers(agents: seq<AgentSpec>, n: nat, at: seq<(nat, nat)>) {
    forall p: (nat, nat) :: p.0 < n && IsEventTrigger(agents, p) ==> p in at
  }

  /** The triggers listened to are those at these positions: all event triggers of the enabled agents, each
      once, in order, and nothing else. */
  ghost predicate ListensExactly(agents: seq<AgentSpec>, triggers: seq<Trigger>, at: seq<(nat, nat)>) {
    Entries(agents, triggers, at) && Ordered(at) && Covers(agents, |agents|, at)
  }

  /** All positions are in one agent's first k triggers, in order. */
  ghost predicate Within(a: nat, k: nat, at: seq<(nat, nat)>) {
    && (forall n :: 0 <= n < |at| ==> at[n].0 == a && at[n].1 < k)
    && (forall m, n :: 0 <= m < n < |at| ==> at[m].1 < at[n].1)
  }

  ghost predicate AgentCovered(agents: seq<AgentSpec>, a: nat, k: nat, at: seq<(nat, nat)>) {
    forall j: nat :: j < k && IsEventTrigger(agents, (a, j)) ==> (a, j) in at
  }

  /** The same for the first k triggers of agent a alone. */
  ghost predicate AgentExactly(agents: seq<AgentSpec>, a: nat, k: nat, triggers: seq<Trigger>, at: seq<(nat, nat)>) {
    Entries(agents, triggers, at) && Within(a, k, at) && AgentCovered(agents, a, k, at)
  }

  lemma DelayIsMinutes(minutes: int)
    ensures Delay(minutes) == if minutes >= 1 then 60.0 * minutes as real else 1.0
  {
  }

  lemma {:induction false} AgentListensExactly(agents: seq<AgentSpec>, a: nat, k: nat) returns (at: seq<(nat, nat)>)
    requires a < |agents| && agents[a].enabled && k <= |agents[a].triggers|
    ensures AgentExactly(agents, a, k, AgentTriggers(agents[a].id, agents[a].triggers[..k]), at)
  {
    at := [];
    if k > 0 {
      var front := AgentListensExactly(agents, a, k - 1);
      AgentTriggersSnoc(agents[a].id, agents[a].triggers, k - 1);
      var spec := agents[a].triggers[k - 1];
      at := front;
      if spec.EventTrigger? {
        DelayIsMinutes(spec.debounceMinutes);
        at := front + [(a, k - 1)];
        assert (a, k - 1) in at;
      }
      hide Delay, AgentTriggers;
    }
  }

  ghost predicate Before(n: nat, at: seq<(nat, nat)>) {
    forall m :: 0 <= m < |at| ==> at[m].0 < n
  }

  /** The same for the first n agents. */
  ghost predicate AgentsExactly(agents: seq<AgentSpec>, n: nat, triggers: seq<Trigger>, at: seq<(nat, nat)>) {
    Entries(agents, triggers, at) && Ordered(at) && Before(n, at) && Covers(agents, n, at)
  }

  lemma EntriesAppend(agents: seq<AgentSpec>, x: seq<Trigger>, xAt: seq<(nat, nat)>, y: seq<Trigger>, yAt: seq<(nat, nat)>)
    requires Entries(agents, x, xAt) && Entries(agents, y, yAt)
    ensures Entries(agents, x + y, xAt + yAt)
  {
    hide Entry;
  }

  lemma OrderAppend(x: seq<(nat, nat)>, y: seq<(nat, nat)>, n: nat, k: nat)
    requires Ordered(x) && Before(n, x) && Within(n, k, y)
    ensures Ordered(x + y) && Before(n + 1, x + y)
  {
  }

  lemma CoversAppend(agents: seq<AgentSpec>, x: seq<(nat, nat)>, y: seq<(nat, nat)>, n: nat)
    requires n < |agents| && Covers(agents, n, x) && AgentCovered(agents, n, |agents[n].triggers|, y)
    ensures Covers(agents, n + 1, x + y)
  {
    forall p: (nat, nat) | p.0 < n + 1 && IsEventTrigger(agents, p) ensures p in x + y {
      if p.0 == n {
        assert p == (n, p.1) && p in y;
      } else {
        assert p in x;
      }
    }
  }

  lemma NextAgent(agents: seq<AgentSpec>, n: nat, triggers: seq<Trigger>, at: seq<(nat, nat)>, more: seq<Trigger>, moreAt: seq<(nat, nat)>)
    requires n < |agents| && AgentsExactly(agents, n, triggers, at)
    requires AgentExactly(agents, n, |agents[n].triggers|, more, moreAt)
    ensures AgentsExactly(agents, n + 1, triggers + more, at + moreAt)
  {
    hide Entries, Ordered, Before, Covers, Within, AgentCovered;
    EntriesAppend(agents, triggers, at, more, moreAt);
    OrderAppend(at, moreAt, n, |agents[n].triggers|);
    CoversAppend(agents, at, moreAt, n);
  }

  lemma {:induction false} AgentsListenExactly(agents: seq<AgentSpec>, n: nat) returns (at: seq<(nat, nat)>)
    requires n <= |agents|
    ensures AgentsExactly(agents, n, AllTriggers(agents[..n]), at)
  {
    at := [];
    if n > 0 {
      var front := AgentsListenExactly(agents, n - 1);
      AllTriggersSnoc(agents, n - 1);
      var a := agents[n - 1];
      at := front;
      if a.enabled {
        var more := AgentListensExactly(agents, n - 1, |a.triggers|);
        assert a.triggers[..|a.triggers|] == a.triggers;
        NextAgent(agents, n - 1, AllTriggers(agents[..n - 1]), front, AgentTriggers(a.id, a.triggers), more);
        at := front + more;
      } else {
        assert AllTriggers(agents[..n - 1]) + [] == AllTriggers(agents[..n - 1]);
      }
      hide AllTriggers, AgentTriggers, ListensFor;
    }
  }

  /** Whatever debounce_minutes says (zero and negative values included), every gate waits at least one
      second, and only enabled agents are listened for. */
  lemma DelaysAtLeastOne(agents: seq<AgentSpec>)
    ensures forall t :: t in AllTriggers(agents) ==> t.delay >= 1.0 && exists a :: a in agents && a.enabled && a.id == t.agent
  {
    var at := AllTriggersExact(agents);
    forall t | t in AllTriggers(agents) ensures t.delay >= 1.0 && exists a :: a in agents && a.enabled && a.id == t.agent {
      var n :| 0 <= n < |at| && AllTriggers(agents)[n] == t;
      assert agents[at[n].0] in agents;
    }
  }

  /** Exactly the event triggers of the enabled agents are listened for, with their own quiet windows. */
  lemma AllTriggersExact(agents: seq<AgentSpec>) returns (at: seq<(nat, nat)>)
    ensures ListensExactly(agents, AllTriggers(agents), at)
  {
    at := AgentsListenExactly(agents, |agents|);
    assert agents[..|agents|] == agents;
    hide AllTriggers, ListensFor;
  }

  lemma {:induction false} AgentTriggersSnoc(id: string, triggers: seq<TriggerSpec>, k: nat)
    requires k < |triggers|
    ensures AgentTriggers(id, triggers[..k + 1]) == AgentTriggers(id, triggers[..k]) +
      if triggers[k].EventTrigger? then [Trigger(id, triggers[k].topics, Delay(triggers[k].debounceMinutes))] else []
  {
    if k > 0 {
      AgentTriggersSnoc(id, triggers[1..], k - 1);
      assert triggers[..k + 1][1..] == triggers[1..][..k];
      assert triggers[..k][1..] == triggers[1..][..k - 1];
    }
  }

  lemma {:induction false} AllTriggersSnoc(agents: seq<AgentSpec>, k: nat)
    requires k < |agents|
    ensures AllTriggers(agents[..k + 1]) == AllTriggers(agents[..k]) +
      if agents[k].enabled then AgentTriggers(agents[k].id, agents[k].triggers) else []
  {
    if k > 0 {
      AllTriggersSnoc(agents[1..], k - 1);
      assert agents[..k + 1][1..] == agents[1..][..k];
      assert agents[..k][1..] == agents[1..][..k - 1];
    }
  }

  /** A message, with the reading each state's mark takes, if it takes one. */
  datatype Arrival = Arrival(topic: string, clock: seq<real>)

  /** A message passes every state in turn. */
  function Heard(a: Arrival): (r: seq<Event>)
    ensures |r| == |a.clock|
  {
    seq(|a.clock|, i requires 0 <= i < |a.clock| => Message(i, a.topic, a.clock[i]))
  }

  function AllHeard(arrivals: seq<Arrival>): seq<Event> {
    if arrivals == [] then [] else AllHeard(arrivals[..|arrivals| - 1]) + Heard(arrivals[|arrivals| - 1])
  }

  /** The trace after the first n turns of a tick that begins after tr: each state is checked once, in order,
      and a check that fires is followed by what arrives while its submit is awaited. */
  ghost function TickTrace(triggers: seq<Trigger>, tr: seq<Event>, clock: seq<real>, awaited: seq<seq<Arrival>>, n: nat): seq<Event>
    requires n <= |clock| == |awaited|
  {
    if n == 0 then tr
    else
      var t := TickTrace(triggers, tr, clock, awaited, n - 1) + [Check(n - 1, clock[n - 1])];
      if RequestAt(triggers, t, |t| - 1).Some? then t + AllHeard(awaited[n - 1]) else t
  }

  /** at[i] is where state i is checked in the tick that took tr to tr'. */
  ghost predicate TickAt(triggers: seq<Trigger>, tr: seq<Event>, clock: seq<real>, awaited: seq<seq<Arrival>>, n: nat,
                         tr': seq<Event>, at: seq<nat>)
    requires n <= |clock| == |awaited|
  {
    && |at| == n + 1 && at[0] == |tr| && at[n] == |tr'| && tr <= tr'
    && (forall i :: 0 <= i < n ==> TurnAt(triggers, clock[i], awaited[i], tr', i, at[i], at[i + 1]))
  }

  /** From position k to position k': the check of state i, and what arrived during its submit, if it fires. */
  ghost predicate TurnAt(triggers: seq<Trigger>, now: real, arrivals: seq<Arrival>, tr: seq<Event>, i: nat, k: nat, k': nat) {
    && k < k' <= |tr| && tr[k] == Check(i, now)
    && tr[k + 1..k'] == if RequestAt(triggers, tr, k).Some? then AllHeard(arrivals) else []
  }

  lemma TurnStays(triggers: seq<Trigger>, now: real, arrivals: seq<Arrival>, tr: seq<Event>, i: nat, k: nat, k': nat, more: seq<Event>)
    requires TurnAt(triggers, now, arrivals, tr, i, k, k')
    ensures TurnAt(triggers, now, arrivals, tr + more, i, k, k')
  {
    var longer := tr + more;
    assert longer[..|tr|] == tr;
    RequestOfPrefix(triggers, longer, |tr|, k);
    hide RequestAt, AllHeard;
    assert longer[k + 1..k'] == tr[k + 1..k'];
  }

  /** A tick checks every state once, in order, each at its own reading of the clock; what arrived while a
      submit was awaited comes right behind the check that fired, and nothing else happens. */
  lemma {:induction false} TickChecksAll(triggers: seq<Trigger>, tr: seq<Event>, clock: seq<real>, awaited: seq<seq<Arrival>>, n: nat)
    returns (at: seq<nat>)
    requires n <= |clock| == |awaited|
    ensures TickAt(triggers, tr, clock, awaited, n, TickTrace(triggers, tr, clock, awaited, n), at)
  {
    if n == 0 {
      at := [|tr|];
    } else {
      var front := TickChecksAll(triggers, tr, clock, awaited, n - 1);
      var t, t' := TickTrace(triggers, tr, clock, awaited, n - 1), TickTrace(triggers, tr, clock, awaited, n);
      hide TickTrace, TurnAt, RequestAt, AllHeard;
      var more := NextTurn(triggers, t, n - 1, clock[n - 1], awaited[n - 1]);
      TickTraceNext(triggers, tr, clock, awaited, n);
      at := front + [|t'|];
      TurnsStay(triggers, clock, awaited, t, more, n - 1, front);
    }
  }

  lemma TickTraceNext(triggers: seq<Trigger>, tr: seq<Event>, clock: seq<real>, awaited: seq<seq<Arrival>>, n: nat)
    requires 0 < n <= |clock| == |awaited|
    ensures TickTrace(triggers, tr, clock, awaited, n) ==
      WithTurn(triggers, TickTrace(triggers, tr, clock, awaited, n - 1), n - 1, clock[n - 1], awaited[n - 1])
  {
    hide RequestAt, AllHeard;
  }

  /** t, the check of state i, and what arrived during its submit, if it fires. */
  ghost function WithTurn(triggers: seq<Trigger>, t: seq<Event>, i: nat, now: real, arrivals: seq<Arrival>): seq<Event> {
    var checked := t + [Check(i, now)];
    if RequestAt(triggers, checked, |t|).Some? then checked + AllHeard(arrivals) else checked
  }

  lemma TurnsStay(triggers: seq<Trigger>, clock: seq<real>, awaited: seq<seq<Arrival>>, t: seq<Event>, more: seq<Event>, n: nat, at: seq<nat>)
    requires n <= |clock| == |awaited| && |at| == n + 1
    requires forall i :: 0 <= i < n ==> TurnAt(triggers, clock[i], awaited[i], t, i, at[i], at[i + 1])
    ensures forall i :: 0 <= i < n ==> TurnAt(triggers, clock[i], awaited[i], t + more, i, at[i], at[i + 1])
  {
    hide TurnAt;
    forall i | 0 <= i < n ensures TurnAt(triggers, clock[i], awaited[i], t + more, i, at[i], at[i + 1]) {
      TurnStays(triggers, clock[i], awaited[i], t, i, at[i], at[i + 1], more);
    }
  }

  lemma NextTurn(triggers: seq<Trigger>, t: seq<Event>, i: nat, now: real, arrivals: seq<Arrival>) returns (more: seq<Event>)
    ensures var t' := WithTurn(triggers, t, i, now, arrivals);
      t' == t + more && TurnAt(triggers, now, arrivals, t', i, |t|, |t'|)
  {
    var checked := t + [Check(i, now)];
    var t' := WithTurn(triggers, t, i, now, arrivals);
    hide RequestAt, AllHeard;
    var heard := if RequestAt(triggers, checked, |t|).Some? then AllHeard(arrivals) else [];
    more := [Check(i, now)] + heard;
    assert t' == checked + heard;
    Regroup(t, [Check(i, now)], heard);
    assert t'[..|t| + 1] == checked && t'[|t| + 1..] == heard;
    RequestOfPrefix(triggers, t', |t| + 1, |t|);
  }

  lemma {:induction false} AllHeardConcat(a: seq<Arrival>, b: seq<Arrival>)
    ensures AllHeard(a + b) == AllHeard(a) + AllHeard(b)
    decreases |b|
  {
    if b == [] {
      assert a + b == a;
    } else {
      hide Heard;
      var n := |b| - 1;
      AllHeardConcat(a, b[..n]);
      assert (a + b)[..|a + b| - 1] == a + b[..n];
      Regroup(AllHeard(a), AllHeard(b[..n]), Heard(b[n]));
    }
  }

  /** Messages are heard one after the other, each by every state in turn. */
  lemma HeardInOrder(first: Arrival, rest: seq<Arrival>, i: nat)
    requires i < |first.clock|
    ensures |AllHeard([first] + rest)| == |first.clock| + |AllHeard(rest)|
    ensures AllHeard([first] + rest)[i] == Message(i, first.topic, first.clock[i])
    ensures AllHeard([first] + rest)[|first.clock|..] == AllHeard(rest)
  {
    AllHeardConcat([first], rest);
    assert [first][..0] == [];
    assert AllHeard([first]) == Heard(first);
    HeardAt(first, i);
  }

  lemma AfterSnoc(triggers: seq<Trigger>, tr: seq<Event>, e: Event)
    ensures After(triggers, tr + [e]) == Step(triggers, After(triggers, tr), e)
    ensures RequestsOf(triggers, tr + [e]) == RequestsOf(triggers, tr) + Opt(RequestAt(triggers, tr + [e], |tr|))
    ensures RequestAt(triggers, tr + [e], |tr|) == Dispatch(triggers, After(triggers, tr), e)
  {
    SubmittedIsRequest(triggers, tr + [e], |tr|);
    assert (tr + [e])[..|tr|] == tr;
    hide RequestAt, Step, Dispatch;
  }

  lemma MessageSubmitsNothing(triggers: seq<Trigger>, tr: seq<Event>, e: Event)
    requires e.Message?
    ensures RequestAt(triggers, tr + [e], |tr|) == None
  {
    AfterSnoc(triggers, tr, e);
    hide RequestAt, After, RequestsOf, Step;
  }

  class RedisListener {
    var states: seq<AgentTriggerState>

    /** What has happened to the states, and what was submitted, since the listener was built. */
    ghost var trace: seq<Event>
    ghost var submitted: seq<RunRequest>

    ghost predicate Distinct()
      reads `states
    {
      forall i, j :: 0 <= i < j < |states| ==> states[i] != states[j] && states[i].debouncer != states[j].debouncer
    }

    ghost function Repr(): (r: set<object>)
      reads `states
      ensures forall i :: 0 <= i < |states| ==> states[i] in r && states[i].debouncer in r
      ensures this !in r
    {
      (set i | 0 <= i < |states| :: states[i]) + (set i | 0 <= i < |states| :: states[i].debouncer)
    }

    ghost function Triggers(): (r: seq<Trigger>)
      reads `states
      ensures |r| == |states|
    {
      var ss := states;
      seq(|ss|, i requires 0 <= i < |ss| => ss[i].Config())
    }

    ghost function Gates(): (r: seq<Gate>)
      reads `states, Repr()
      ensures |r| == |states|
    {
      var ss, repr := states, Repr();
      seq(|ss|, i requires 0 <= i < |ss| && ss[i] in repr && ss[i].debouncer in repr reads repr => ss[i].View())
    }

    /** The gates are where the trace has led them, and the requests submitted are those that the
        specification reads off the trace, without any gate. */
    ghost predicate Valid()
      reads this, Repr()
    {
      && Distinct()
      && Gates() == After(Triggers(), trace)
      && submitted == RequestsOf(Triggers(), trace)
    }

    /** One state per event trigger of each enabled agent, in order. */
    constructor (agents: seq<AgentSpec>)
      ensures Valid() && fresh(Repr()) && trace == [] && submitted == []
      ensures exists at :: ListensExactly(agents, Triggers(), at)
    {
      states, trace, submitted := [], [], [];
      new;
      for a := 0 to |agents|
        invariant Distinct() && fresh(Repr()) && trace == [] && submitted == []
        invariant Triggers() == AllTriggers(agents[..a]) && Gates() == Initial(Triggers())
      {
        AllTriggersSnoc(agents, a);
        if agents[a].enabled {
          Add(agents[a]);
          assert agents[a].triggers[..|agents[a].triggers|] == agents[a].triggers;
        }
      }
      assert agents[..|agents|] == agents;
      ghost var at := AllTriggersExact(agents);
    }

    method Add(agent: AgentSpec)
      requires Distinct()
      modifies `states
      ensures Distinct() && fresh(Repr() - old(Repr()))
      ensures Triggers() == old(Triggers()) + AgentTriggers(agent.id, agent.triggers)
      ensures Gates() == old(Gates()) + Initial(AgentTriggers(agent.id, agent.triggers))
    {
      ghost var triggers, gates := Triggers(), Gates();
      assert triggers + [] == triggers && gates + [] == gates;
      for k := 0 to |agent.triggers|
        invariant Distinct() && fresh(Repr() - old(Repr()))
        invariant Triggers() == triggers + AgentTriggers(agent.id, agent.triggers[..k])
        invariant Gates() == gates + Initial(AgentTriggers(agent.id, agent.triggers[..k]))
      {
        hide Triggers, Gates, Repr, Distinct, AgentTriggers;
        AgentTriggersSnoc(agent.id, agent.triggers, k);
        var trigger := agent.triggers[k];
        if trigger.EventTrigger? {
          AddTrigger(agent.id, trigger.topics, Delay(trigger.debounceMinutes));
        }
      }
      assert agent.triggers[..|agent.triggers|] == agent.triggers;
    }

    method AddTrigger(id: string, topics: set<string>, delay: real)
      requires Distinct()
      modifies `states
      ensures Distinct() && fresh(Repr() - old(Repr()))
      ensures Triggers() == old(Triggers()) + [Trigger(id, topics, delay)]
      ensures Gates() == old(Gates()) + [CLOSED]
    {
      ghost var triggers, gates, repr := Triggers(), Gates(), Repr();
      var was := states;
      var d := new Debouncer(delay);
      var state := new AgentTriggerState(id, topics, d);
      assert forall i :: 0 <= i < |was| ==> was[i].View() == gates[i];
      states := was + [state];
      Grown(was, state, triggers, gates, repr);
      hide Triggers, Gates, Repr;
    }

    lemma Grown(was: seq<AgentTriggerState>, state: AgentTriggerState, triggers: seq<Trigger>, gates: seq<Gate>, repr: set<object>)
      requires states == was + [state] && |was| == |triggers| == |gates|
      requires forall i :: 0 <= i < |was| ==> was[i].View() == gates[i] && was[i].Config() == triggers[i]
      requires forall i :: 0 <= i < |was| ==> was[i] in repr && was[i].debouncer in repr
      ensures Triggers() == triggers + [state.Config()] && Gates() == gates + [state.View()]
      ensures Repr() <= repr + {state, state.debouncer}
    {
      assert Triggers() == triggers + [state.Config()];
      assert Gates() == gates + [state.View()];
    }

    /** A gate that took its own step, with all others as they were, is a step of the machine. */
    lemma OthersUntouched(i: nat, gates: seq<Gate>, e: Event)
      requires i < |states| == |gates| && e.index == i
      requires states[i].View() == GateStep(states[i].Config(), i, gates[i], e)
      requires forall j :: 0 <= j < |states| && j != i ==> states[j].View() == gates[j]
      ensures Gates() == Step(Triggers(), gates, e)
    {
      var stepped := Step(Triggers(), gates, e);
      forall j | 0 <= j < |states| ensures Gates()[j] == stepped[j] {
        assert j != i ==> GateStep(Triggers()[j], j, gates[j], e) == gates[j];
      }
      assert Gates() == stepped;
    }

    /** Notes down an event that the gates have just taken, and the request it submitted. */
    ghost method Record(e: Event)
      requires Distinct() && submitted == RequestsOf(Triggers(), trace)
      requires Gates() == Step(Triggers(), After(Triggers(), trace), e)
      modifies `trace, `submitted
      ensures Valid() && trace == old(trace) + [e]
      ensures submitted == old(submitted) + Opt(RequestAt(Triggers(), trace, |old(trace)|))
    {
      hide Step, After, RequestsOf, RequestAt, Gates, Triggers, Repr, Distinct;
      ghost var triggers, gates, longer := Triggers(), Gates(), trace + [e];
      AfterSnoc(triggers, trace, e);
      assert this !in Repr();
      trace, submitted := longer, submitted + Opt(RequestAt(triggers, longer, |trace|));
      assert Triggers() == triggers && Gates() == gates && Distinct();
    }

    /** One state hears a message. */
    method MarkOne(i: nat, topic: string, now: real)
      requires Distinct() && i < |states|
      modifies states[i], states[i].debouncer
      ensures Gates() == Step(Triggers(), old(Gates()), Message(i, topic, now))
    {
      var state := states[i];
      ghost var gates := Gates();
      if topic in state.topics {
        state.lastTopic := topic;
        state.debouncer.Mark(now);
      }
      assert forall j :: 0 <= j < |states| && j != i ==> states[j] != state && states[j].debouncer != state.debouncer;
      OthersUntouched(i, gates, Message(i, topic, now));
      hide Step, Gates;
    }

    /** One state's turn, up to the await: the gate is reset before the request goes out. */
    method CheckOne(i: nat, now: real) returns (request: Option<RunRequest>)
      requires Distinct() && i < |states|
      modifies states[i].debouncer
      ensures Gates() == Step(Triggers(), old(Gates()), Check(i, now))
      ensures request == Dispatch(Triggers(), old(Gates()), Check(i, now))
    {
      var state := states[i];
      ghost var gates := Gates();
      request := None;
      var due := state.debouncer.Due(now);
      if due {
        state.debouncer.Reset();
        request := Some(RunRequest(state.agentId, "event:" + state.lastTopic));
      }
      assert request == Dispatch(Triggers(), gates, Check(i, now));
      assert forall j :: 0 <= j < |states| && j != i ==> states[j] != state && states[j].debouncer != state.debouncer;
      OthersUntouched(i, gates, Check(i, now));
      hide Step, Gates, Dispatch;
    }

    /** One state hears a message, on the record. */
    method Hear(i: nat, topic: string, now: real)
      requires Valid() && i < |states|
      modifies Repr(), `trace, `submitted
      ensures Valid() && trace == old(trace) + [Message(i, topic, now)] && submitted == old(submitted)
    {
      hide Step, After, RequestsOf, Gates, Triggers, Distinct, RequestAt;
      MessageSubmitsNothing(Triggers(), trace, Message(i, topic, now));
      MarkOne(i, topic, now);
      Record(Message(i, topic, now));
    }

    /** A message marks the states that listen to its topic, each at its own reading of the clock. */
    method HandleMessage(topic: string, clock: seq<real>)
      requires Valid() && |clock| == |states|
      modifies Repr(), `trace, `submitted
      ensures Valid() && trace == old(trace) + Heard(Arrival(topic, clock)) && submitted == old(submitted)
    {
      ghost var heard := Heard(Arrival(topic, clock));
      hide Valid, Repr, Heard;
      for i := 0 to |states|
        invariant Valid() && trace == old(trace) + heard[..i] && submitted == old(submitted)
      {
        Hear(i, topic, clock[i]);
        assert heard[i] == Message(i, topic, clock[i]) by { HeardAt(Arrival(topic, clock), i); }
        assert heard[..i + 1] == heard[..i] + [heard[i]];
      }
      assert heard[..|states|] == heard;
    }

    /** The messages processed while a submit is awaited. */
    method HandleArrivals(arrivals: seq<Arrival>)
      requires Valid() && forall a :: a in arrivals ==> |a.clock| == |states|
      modifies Repr(), `trace, `submitted
      ensures Valid() && trace == old(trace) + AllHeard(arrivals) && submitted == old(submitted)
    {
      assert trace + [] == trace;
      assert AllHeard(arrivals[..0]) == [];
      hide Valid, Repr, Heard, AllHeard;
      for k := 0 to |arrivals|
        invariant Valid() && trace == old(trace) + AllHeard(arrivals[..k]) && submitted == old(submitted)
      {
        var a := arrivals[k];
        assert a in arrivals && a == Arrival(a.topic, a.clock);
        HandleMessage(a.topic, a.clock);
        AllHeardNext(arrivals, k);
        Regroup(old(trace), AllHeard(arrivals[..k]), Heard(a));
      }
      assert arrivals[..|arrivals|] == arrivals;
    }

    /** One state's turn, on the record. */
    method Turn(i: nat, now: real) returns (request: Option<RunRequest>)
      requires Valid() && i < |states|
      modifies Repr(), `trace, `submitted
      ensures Valid() && trace == old(trace) + [Check(i, now)]
      ensures request == RequestAt(Triggers(), trace, |old(trace)|)
      ensures submitted == old(submitted) + Opt(request)
    {
      hide Step, After, RequestsOf, Gates, Triggers, Distinct, RequestAt, Dispatch;
      AfterSnoc(Triggers(), trace, Check(i, now));
      request := CheckOne(i, now);
      Record(Check(i, now));
    }

    /** One tick.  clock[i] is the reading state i's check takes; awaited[i] are the messages processed
        while its submit, if there is one, is awaited, whether that returns or raises. */
    method CheckDueAndDispatch(clock: seq<real>, awaited: seq<seq<Arrival>>) returns (requests: seq<RunRequest>)
      requires Valid() && |clock| == |awaited| == |states|
      requires forall i, a :: 0 <= i < |awaited| && a in awaited[i] ==> |a.clock| == |states|
      modifies Repr(), `trace, `submitted
      ensures Valid() && trace == TickTrace(Triggers(), old(trace), clock, awaited, |states|)
      ensures exists at :: TickAt(Triggers(), old(trace), clock, awaited, |states|, trace, at)
      ensures submitted == old(submitted) + requests
    {
      requests := [];
      hide Valid, Repr, AllHeard, Triggers;
      for i := 0 to |states|
        invariant Valid() && Triggers() == old(Triggers())
        invariant trace == TickTrace(Triggers(), old(trace), clock, awaited, i)
        invariant submitted == old(submitted) + requests
      {
        var request := Turn(i, clock[i]);
        requests := requests + Opt(request);
        if request.Some? {
          HandleArrivals(awaited[i]);
        }
      }
      ghost var at := TickChecksAll(Triggers(), old(trace), clock, awaited, |states|);
      assert TickAt(Triggers(), old(trace), clock, awaited, |states|, trace, at);
    }
  }

  lemma Regroup(a: seq<Event>, b: seq<Event>, c: seq<Event>)
    ensures a + (b + c) == a + b + c
  {
  }

  lemma AllHeardNext(arrivals: seq<Arrival>, k: nat)
    requires k < |arrivals|
    ensures AllHeard(arrivals[..k + 1]) == AllHeard(arrivals[..k]) + Heard(arrivals[k])
  {
    assert arrivals[..k + 1][..k] == arrivals[..k];
  }

  lemma HeardAt(a: Arrival, i: nat)
    requires i < |a.clock|
    ensures Heard(a)[i] == Message(i, a.topic, a.clock[i])
  {
  }
}
