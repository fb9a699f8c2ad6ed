/** The debounce gates of the Redis listener, as a machine over its event trace, and a specification that
    never mentions a gate: it says from the trace alone which checks dispatch, and what. */
module Debounce {
  import opened Basics
  import Spacing

  /** One EventTrigger of an enabled agent. */
  datatype Trigger = Trigger(agent: string, topics: set<string>, delay: real)

  /** The mutable part of a trigger state: the debouncer's two fields and the last matching topic. */
  datatype Gate = Gate(lastMark: Option<real>, pending: bool, lastTopic: string)

  datatype RunRequest = RunRequest(agent: string, reason: string)

  /** What happens to one state: a message comes by, or it has its turn in a tick; each with the clock
      reading it takes, if it takes one. */
  datatype Event = Message(index: nat, topic: string, at: real) | Check(index: nat, at: real)

  const CLOSED := Gate(None, false, "debounced")

  function Mark(g: Gate, topic: string, now: real): Gate {
    Gate(Some(now), true, topic)
  }

  predicate Due(g: Gate, delay: real, now: real) {
    g.pending && g.lastMark.Some? && now - g.lastMark.value >= delay
  }

  function Reset(g: Gate): Gate { g.(pending := false) }

  /** What one event does to the gate of trigger i. */
  function GateStep(trigger: Trigger, i: nat, g: Gate, e: Event): Gate {
    match e
    case Message(k, topic, now) => if k == i && topic in trigger.topics then Mark(g, topic, now) else g
    case Check(k, now) => if k == i && Due(g, trigger.delay, now) then Reset(g) else g
  }

  function Step(triggers: seq<Trigger>, gates: seq<Gate>, e: Event): seq<Gate>
    requires |triggers| == |gates|
  {
    seq(|gates|, i requires 0 <= i < |gates| => GateStep(triggers[i], i, gates[i], e))
  }

  /** The run request one event submits. */
  function Dispatch(triggers: seq<Trigger>, gates: seq<Gate>, e: Event): Option<RunRequest>
    requires |triggers| == |gates|
  {
    if e.Check? && e.index < |gates| && Due(gates[e.index], triggers[e.index].delay, e.at)
    then Some(RunRequest(triggers[e.index].agent, "event:" + gates[e.index].lastTopic))
    else None
  }

  function Initial(triggers: seq<Trigger>): (r: seq<Gate>)
    ensures |r| == |triggers|
  {
    seq(|triggers|, i => CLOSED)
  }

  /** The gates after everything that happened since the listener was built. */
  function After(triggers: seq<Trigger>, tr: seq<Event>): (r: seq<Gate>)
    ensures |r| == |triggers|
  {
    if tr == [] then Initial(triggers) else Step(triggers, After(triggers, tr[..|tr| - 1]), tr[|tr| - 1])
  }

  /** What the listener submits at event k. */
  function Submitted(triggers: seq<Trigger>, tr: seq<Event>, k: nat): Option<RunRequest>
    requires k < |tr|
  {
    Dispatch(triggers, After(triggers, tr[..k]), tr[k])
  }

  // ---- The specification over the trace ----

  predicate Matches(trigger: Trigger, i: nat, e: Event) {
    e.Message? && e.index == i && e.topic in trigger.topics
  }

  /** Event j is the latest matching message before position k. */
  ghost predicate Latest(trigger: Trigger, i: nat, tr: seq<Event>, j: nat, k: nat)
    requires k <= |tr|
  {
    j < k && Matches(trigger, i, tr[j]) && forall m :: j < m < k ==> !Matches(trigger, i, tr[m])
  }

  /** At check k of state i, the latest match is j and it is at least delay old. */
  ghost predicate Ripe(trigger: Trigger, i: nat, tr: seq<Event>, j: nat, k: nat)
    requires k < |tr|
  {
    tr[k].Check? && tr[k].index == i && Latest(trigger, i, tr, j, k) && tr[k].at - tr[j].at >= trigger.delay
  }

  /** Check k dispatches: its latest match is ripe, and nothing has been dispatched since that match. */
  ghost predicate Fires(trigger: Trigger, i: nat, tr: seq<Event>, k: nat)
    requires k < |tr|
    decreases k
  {
    exists j: nat :: Ripe(trigger, i, tr, j, k) && forall m :: j < m < k ==> !Fires(trigger, i, tr, m)
  }

  ghost predicate FiresFor(trigger: Trigger, i: nat, tr: seq<Event>, j: nat, k: nat)
    requires k < |tr|
  {
    Ripe(trigger, i, tr, j, k) && forall m :: j < m < k ==> !Fires(trigger, i, tr, m)
  }

  /** A gate agrees with the trace: it has the time and topic of the latest matching message, and is
      pending exactly when nothing was dispatched since. */
  ghost predicate Agrees(trigger: Trigger, i: nat, tr: seq<Event>, k: nat, g: Gate)
    requires k <= |tr|
  {
    && (g.lastMark.None? ==> !g.pending && forall j :: 0 <= j < k ==> !Matches(trigger, i, tr[j]))
    && (g.lastMark.Some? ==> exists j: nat :: Latest(trigger, i, tr, j, k) && Backs(trigger, i, tr, j, k, g))
  }

  ghost predicate Backs(trigger: Trigger, i: nat, tr: seq<Event>, j: nat, k: nat, g: Gate)
    requires k <= |tr|
  {
    j < k && tr[j].Message? && g.lastMark == Some(tr[j].at) && g.lastTopic == tr[j].topic &&
    (g.pending <==> forall m :: j < m < k ==> !Fires(trigger, i, tr, m))
  }

  lemma LatestUnique(trigger: Trigger, i: nat, tr: seq<Event>, j: nat, j': nat, k: nat)
    requires k <= |tr| && Latest(trigger, i, tr, j, k) && Latest(trigger, i, tr, j', k)
    ensures j == j'
  {
  }

  lemma FiresForLatest(trigger: Trigger, i: nat, tr: seq<Event>, j: nat, k: nat)
    requires k < |tr| && Latest(trigger, i, tr, j, k)
    ensures Fires(trigger, i, tr, k) <==> FiresFor(trigger, i, tr, j, k)
  {
    if Fires(trigger, i, tr, k) {
      var j': nat :| Ripe(trigger, i, tr, j', k) && forall m :: j' < m < k ==> !Fires(trigger, i, tr, m);
      LatestUnique(trigger, i, tr, j, j', k);
    }
  }

  /** One event keeps the agreement, and dispatches exactly when the trace says so. */
  lemma AgreesStep(trigger: Trigger, i: nat, tr: seq<Event>, k: nat, g: Gate)
    requires k < |tr| && Agrees(trigger, i, tr, k, g)
    ensures Agrees(trigger, i, tr, k + 1, GateStep(trigger, i, g, tr[k]))
    ensures tr[k].Check? && tr[k].index == i ==> (Due(g, trigger.delay, tr[k].at) <==> Fires(trigger, i, tr, k))
  {
    var g' := GateStep(trigger, i, g, tr[k]);
    if Matches(trigger, i, tr[k]) {
      assert Latest(trigger, i, tr, k, k + 1);
      assert Backs(trigger, i, tr, k, k + 1, g');
    } else if g.lastMark.Some? {
      var j: nat :| Latest(trigger, i, tr, j, k) && Backs(trigger, i, tr, j, k, g);
      assert Latest(trigger, i, tr, j, k + 1);
      FiresForLatest(trigger, i, tr, j, k);
      assert Backs(trigger, i, tr, j, k + 1, g');
    }
  }

  lemma {:induction false} GateAgrees(triggers: seq<Trigger>, tr: seq<Event>, k: nat, i: nat)
    requires k <= |tr| && i < |triggers|
    ensures Agrees(triggers[i], i, tr, k, After(triggers, tr[..k])[i])
  {
    if k > 0 {
      GateAgrees(triggers, tr, k - 1, i);
      var g := After(triggers, tr[..k - 1])[i];
      AgreesStep(triggers[i], i, tr, k - 1, g);
      assert tr[..k][..k - 1] == tr[..k - 1];
    }
  }

  /** For every interleaving of messages, clock advances and checks: a check dispatches exactly when a
      matching message arrived since the last dispatch of its state and the latest one is at least delay
      old; the request is the agent's, and names that message's topic. */
  lemma DispatchIffQuiet(triggers: seq<Trigger>, tr: seq<Event>, k: nat, i: nat)
    requires k < |tr| && i < |triggers| && tr[k].Check? && tr[k].index == i
    ensures Submitted(triggers, tr, k).Some? <==> Fires(triggers[i], i, tr, k)
    ensures forall j: nat :: j < k && Latest(triggers[i], i, tr, j, k) && Submitted(triggers, tr, k).Some? ==>
      Submitted(triggers, tr, k) == Some(RunRequest(triggers[i].agent, "event:" + tr[j].topic))
  {
    GateAgrees(triggers, tr, k, i);
    var g := After(triggers, tr[..k])[i];
    AgreesStep(triggers[i], i, tr, k, g);
    forall j: nat | j < k && Latest(triggers[i], i, tr, j, k) && Submitted(triggers, tr, k).Some?
      ensures g.lastTopic == tr[j].topic
    {
      var j': nat :| Latest(triggers[i], i, tr, j', k) && Backs(triggers[i], i, tr, j', k, g);
      LatestUnique(triggers[i], i, tr, j, j', k);
    }
  }

  /** No mark is ever lost: at any time after a matching message, either a dispatch followed it or one
      is pending. */
  lemma NoMarkLost(triggers: seq<Trigger>, tr: seq<Event>, i: nat, j: nat, k: nat)
    requires i < |triggers| && j < k <= |tr| && Matches(triggers[i], i, tr[j])
    ensures After(triggers, tr[..k])[i].pending || exists m :: j < m < k && Fires(triggers[i], i, tr, m)
  {
    GateAgrees(triggers, tr, k, i);
    AgreeingGateKeepsMark(triggers[i], i, tr, j, k, After(triggers, tr[..k])[i]);
  }

  lemma AgreeingGateKeepsMark(trigger: Trigger, i: nat, tr: seq<Event>, j: nat, k: nat, g: Gate)
    requires j < k <= |tr| && Matches(trigger, i, tr[j]) && Agrees(trigger, i, tr, k, g)
    ensures g.pending || exists m :: j < m < k && Fires(trigger, i, tr, m)
  {
    var l: nat :| Latest(trigger, i, tr, l, k) && Backs(trigger, i, tr, l, k, g);
    assert j <= l;
    if !g.pending {
      var m :| l < m < k && Fires(trigger, i, tr, m);
      assert j < m < k && Fires(trigger, i, tr, m);
    }
  }

  /** Event m of the trace brings state i a message on one of its topics. */
  predicate Brings(trigger: Trigger, i: nat, tr: seq<Event>, m: int) {
    0 <= m < |tr| && tr[m].Message? && tr[m].index == i && tr[m].topic in trigger.topics
  }

  /** Event j brought a message delay ago or more, and neither another message nor a firing followed. */
  ghost predicate QuietSince(trigger: Trigger, i: nat, tr: seq<Event>, j: nat, k: nat)
    requires k < |tr|
  {
    && j < k && Brings(trigger, i, tr, j) && tr[k].at - tr[j].at >= trigger.delay
    && (forall m :: j < m < k ==> !Brings(trigger, i, tr, m) && !Fires(trigger, i, tr, m))
  }

  /** Spelled out: state i's check fires if and only if some message on its topics came before it, at least delay
      ago, with no other such message and no firing since. */
  lemma FiresMeans(trigger: Trigger, i: nat, tr: seq<Event>, k: nat)
    requires k < |tr|
    ensures Fires(trigger, i, tr, k) <==> tr[k].Check? && tr[k].index == i && exists j: nat :: QuietSince(trigger, i, tr, j, k)
  {
    assert forall m :: 0 <= m < |tr| ==> (Brings(trigger, i, tr, m) <==> Matches(trigger, i, tr[m]));
    if Fires(trigger, i, tr, k) {
      var j: nat :| Ripe(trigger, i, tr, j, k) && forall m :: j < m < k ==> !Fires(trigger, i, tr, m);
      assert QuietSince(trigger, i, tr, j, k);
    }
    if j: nat :| tr[k].Check? && tr[k].index == i && QuietSince(trigger, i, tr, j, k) {
      assert Ripe(trigger, i, tr, j, k);
    }
  }

  // ---- The requests of a trace ----

  lemma FiresUnfolded(trigger: Trigger, i: nat, tr: seq<Event>, k: nat)
    requires k < |tr|
    ensures Fires(trigger, i, tr, k) <==> exists j: nat :: FiresFor(trigger, i, tr, j, k)
  {
    if Fires(trigger, i, tr, k) {
      var j: nat :| Ripe(trigger, i, tr, j, k) && forall m :: j < m < k ==> !Fires(trigger, i, tr, m);
      assert FiresFor(trigger, i, tr, j, k);
    }
  }

  /** What the specification has submitted at event k: the request of the check's state if it fires there,
      with the topic of the message it fires for. */
  ghost function RequestAt(triggers: seq<Trigger>, tr: seq<Event>, k: nat): Option<RunRequest>
    requires k < |tr|
  {
    var i := tr[k].index;
    if i < |triggers| && Fires(triggers[i], i, tr, k) then
      FiresUnfolded(triggers[i], i, tr, k);
      var j: nat :| FiresFor(triggers[i], i, tr, j, k);
      Some(RunRequest(triggers[i].agent, "event:" + tr[j].topic))
    else None
  }

  function Opt<T>(o: Option<T>): seq<T> {
    if o.Some? then [o.value] else []
  }

  /** All of them, in order. */
  ghost function RequestsOf(triggers: seq<Trigger>, tr: seq<Event>): seq<RunRequest> {
    if tr == [] then [] else RequestsOf(triggers, tr[..|tr| - 1]) + Opt(RequestAt(triggers, tr, |tr| - 1))
  }

  /** The listener submits what the specification says, when it says. */
  lemma SubmittedIsRequest(triggers: seq<Trigger>, tr: seq<Event>, k: nat)
    requires k < |tr|
    ensures Submitted(triggers, tr, k) == RequestAt(triggers, tr, k)
  {
    var i := tr[k].index;
    if tr[k].Check? && i < |triggers| {
      DispatchIffQuiet(triggers, tr, k, i);
    }
    hide Fires, After;
  }

  lemma LatestOfPrefix(trigger: Trigger, i: nat, tr: seq<Event>, n: nat, j: nat, k: nat)
    requires k < n <= |tr|
    ensures Latest(trigger, i, tr[..n], j, k) <==> Latest(trigger, i, tr, j, k)
  {
    if j < k {
      assert tr[..n][j] == tr[j];
      assert forall m :: j < m < k ==> tr[..n][m] == tr[m];
    }
  }

  lemma {:induction false} FiresOfPrefix(trigger: Trigger, i: nat, tr: seq<Event>, n: nat, k: nat)
    requires k < n <= |tr|
    ensures Fires(trigger, i, tr[..n], k) <==> Fires(trigger, i, tr, k)
    ensures forall j: nat :: FiresFor(trigger, i, tr[..n], j, k) <==> FiresFor(trigger, i, tr, j, k)
    decreases k
  {
    var front := tr[..n];
    forall m: nat | m < k ensures Fires(trigger, i, front, m) <==> Fires(trigger, i, tr, m) {
      FiresOfPrefix(trigger, i, tr, n, m);
    }
    forall j: nat ensures Ripe(trigger, i, front, j, k) <==> Ripe(trigger, i, tr, j, k) {
      LatestOfPrefix(trigger, i, tr, n, j, k);
    }
    forall j: nat ensures FiresFor(trigger, i, front, j, k) <==> FiresFor(trigger, i, tr, j, k) {
      if Ripe(trigger, i, tr, j, k) {
        assert forall m :: j < m < k ==> (Fires(trigger, i, front, m) <==> Fires(trigger, i, tr, m));
      }
    }
    FiresUnfolded(trigger, i, front, k);
    FiresUnfolded(trigger, i, tr, k);
  }

  /** What comes later changes no request: the requests of a trace are those at its firing positions. */
  lemma RequestOfPrefix(triggers: seq<Trigger>, tr: seq<Event>, n: nat, k: nat)
    requires k < n <= |tr|
    ensures RequestAt(triggers, tr[..n], k) == RequestAt(triggers, tr, k)
  {
    var i := tr[k].index;
    if i < |triggers| {
      FiresOfPrefix(triggers[i], i, tr, n, k);
      forall j: nat, j': nat | FiresFor(triggers[i], i, tr, j, k) && FiresFor(triggers[i], i, tr, j', k) ensures j == j' {
        LatestUnique(triggers[i], i, tr, j, j', k);
      }
    }
    hide Fires, FiresFor;
  }

  /** rs are the requests at these positions: every firing position, in order. */
  ghost predicate RequestsAt(triggers: seq<Trigger>, tr: seq<Event>, rs: seq<RunRequest>, at: seq<nat>) {
    && |at| == |rs|
    && (forall m, n :: 0 <= m < n < |at| ==> at[m] < at[n])
    && (forall n :: 0 <= n < |at| ==> at[n] < |tr| && RequestAt(triggers, tr, at[n]) == Some(rs[n]))
    && (forall k: nat :: k < |tr| && RequestAt(triggers, tr, k).Some? ==> k in at)
  }

  lemma NextRequest(triggers: seq<Trigger>, tr: seq<Event>, n: nat, rs: seq<RunRequest>, front: seq<nat>)
    requires |tr| == n + 1 && RequestsAt(triggers, tr[..n], rs, front)
    requires forall k: nat :: k < n ==> RequestAt(triggers, tr[..n], k) == RequestAt(triggers, tr, k)
    ensures RequestAt(triggers, tr, n).Some? ==> RequestsAt(triggers, tr, rs + [RequestAt(triggers, tr, n).value], front + [n])
    ensures RequestAt(triggers, tr, n).None? ==> RequestsAt(triggers, tr, rs, front)
  {
    hide RequestAt;
  }

  /** The requests of a trace are those at its firing positions. */
  lemma {:induction false} RequestsArePositions(triggers: seq<Trigger>, tr: seq<Event>) returns (at: seq<nat>)
    ensures RequestsAt(triggers, tr, RequestsOf(triggers, tr), at)
  {
    at := [];
    if tr != [] {
      var n := |tr| - 1;
      var front := RequestsArePositions(triggers, tr[..n]);
      hide RequestAt;
      at := front + if RequestAt(triggers, tr, n).Some? then [n] else [];
      forall k: nat | k < n ensures RequestAt(triggers, tr[..n], k) == RequestAt(triggers, tr, k) {
        RequestOfPrefix(triggers, tr, n, k);
      }
      NextRequest(triggers, tr, n, RequestsOf(triggers, tr[..n]), front);
    }
  }

  // ---- Timing ----

  ghost predicate Monotone(tr: seq<Event>) {
    forall a, b :: 0 <= a <= b < |tr| ==> tr[a].at <= tr[b].at
  }

  /** Two dispatches of one state are at least delay apart. */
  lemma DispatchesApart(trigger: Trigger, i: nat, tr: seq<Event>, k: nat, k': nat)
    requires Monotone(tr) && k < k' < |tr| && Fires(trigger, i, tr, k) && Fires(trigger, i, tr, k')
    ensures tr[k'].at - tr[k].at >= trigger.delay
  {
    var j: nat :| Ripe(trigger, i, tr, j, k') && forall m :: j < m < k' ==> !Fires(trigger, i, tr, m);
    assert k <= j;
  }

  /** Which events are dispatches of state i, and when events happen. */
  ghost function Dispatches(trigger: Trigger, i: nat, tr: seq<Event>): (hits: seq<bool>)
    ensures |hits| == |tr| && forall k :: 0 <= k < |tr| ==> hits[k] == Fires(trigger, i, tr, k)
  {
    seq(|tr|, k requires 0 <= k < |tr| => Fires(trigger, i, tr, k))
  }

  ghost function Times(tr: seq<Event>): (times: seq<real>)
    ensures |times| == |tr| && forall k :: 0 <= k < |tr| ==> times[k] == tr[k].at
  {
    seq(|tr|, k requires 0 <= k < |tr| => tr[k].at)
  }

  /** The dispatches of state i from event a to before event b. */
  ghost function FiresFrom(trigger: Trigger, i: nat, tr: seq<Event>, a: nat, b: nat): set<int>
    requires b <= |tr|
  {
    set k | a <= k < b && Fires(trigger, i, tr, k)
  }

  /** n dispatches of one state, from its dispatch a to its dispatch b, take at least (n - 1) * delay. */
  lemma DispatchRate(trigger: Trigger, i: nat, tr: seq<Event>, a: nat, b: nat)
    requires Monotone(tr) && a <= b < |tr| && Fires(trigger, i, tr, a) && Fires(trigger, i, tr, b)
    ensures tr[b].at - tr[a].at >= Spacing.Span(|FiresFrom(trigger, i, tr, a, b)|, trigger.delay)
  {
    var hits, times := Dispatches(trigger, i, tr), Times(tr);
    forall j, k | 0 <= j < k < |hits| && hits[j] && hits[k]
      ensures times[k] - times[j] >= trigger.delay
    {
      DispatchesApart(trigger, i, tr, j, k);
    }
    hide Fires, Monotone;
    assert FiresFrom(trigger, i, tr, a, b) == Spacing.Hits(hits, a, b);
    hide Dispatches, Times, FiresFrom, Spacing.Hits, Spacing.Span;
    Spacing.RateBySize(times, hits, trigger.delay, a, b);
  }

  /** After every event before the horizon, state i is checked again within gap. */
  ghost predicate CheckedWithin(i: nat, tr: seq<Event>, from: nat, gap: real, horizon: real) {
    forall k :: from <= k < |tr| && tr[k].at < horizon ==>
      exists m :: k < m < |tr| && tr[m] == Check(i, tr[m].at) && tr[m].at <= tr[k].at + gap
  }

  predicate InWindow(trigger: Trigger, gap: real, sent: real, fired: real) {
    sent + trigger.delay <= fired <= sent + trigger.delay + gap
  }

  /** A message followed by silence is dispatched exactly once, between delay and delay + gap later. */
  lemma DispatchedInTime(trigger: Trigger, i: nat, tr: seq<Event>, j: nat, gap: real)
    requires Monotone(tr) && trigger.delay > 0.0 && j < |tr| && Matches(trigger, i, tr[j])
    requires forall m :: j < m < |tr| ==> !Matches(trigger, i, tr[m])
    requires CheckedWithin(i, tr, j, gap, tr[j].at + trigger.delay)
    ensures exists k :: j < k < |tr| && FiresFor(trigger, i, tr, j, k) && InWindow(trigger, gap, tr[j].at, tr[k].at)
    ensures forall k, k' :: j < k < |tr| && j < k' < |tr| && Fires(trigger, i, tr, k) && Fires(trigger, i, tr, k') ==> k == k'
  {
    var m := CheckAfterQuiet(trigger, i, tr, j, gap);
    var k := FirstFireUpTo(trigger, i, tr, j, m);
    assert InWindow(trigger, gap, tr[j].at, tr[k].at);
    forall a, b | j < a < b < |tr| && Fires(trigger, i, tr, a) ensures !Fires(trigger, i, tr, b) {
      FiresForLatest(trigger, i, tr, j, b);
    }
  }

  lemma CheckAfterQuiet(trigger: Trigger, i: nat, tr: seq<Event>, j: nat, gap: real) returns (m: nat)
    requires Monotone(tr) && trigger.delay > 0.0 && j < |tr|
    requires CheckedWithin(i, tr, j, gap, tr[j].at + trigger.delay)
    ensures j < m < |tr| && tr[m].Check? && tr[m].index == i && InWindow(trigger, gap, tr[j].at, tr[m].at)
  {
    var horizon := tr[j].at + trigger.delay;
    var last := j;
    while last + 1 < |tr| && tr[last + 1].at < horizon
      invariant j <= last < |tr| && tr[last].at < horizon
    {
      last := last + 1;
    }
    m :| last < m < |tr| && tr[m] == Check(i, tr[m].at) && tr[m].at <= tr[last].at + gap;
    assert tr[last + 1].at <= tr[m].at;
  }

  lemma FirstFireUpTo(trigger: Trigger, i: nat, tr: seq<Event>, j: nat, m: nat) returns (k: nat)
    requires Monotone(tr) && j < m < |tr| && Matches(trigger, i, tr[j])
    requires forall x :: j < x < |tr| ==> !Matches(trigger, i, tr[x])
    requires tr[m].Check? && tr[m].index == i && tr[m].at >= tr[j].at + trigger.delay
    ensures j < k <= m && FiresFor(trigger, i, tr, j, k)
  {
    k := j + 1;
    while k < m && !Fires(trigger, i, tr, k)
      invariant j < k <= m
      invariant forall x :: j < x < k ==> !Fires(trigger, i, tr, x)
    {
      k := k + 1;
    }
    assert Latest(trigger, i, tr, j, k);
    FiresForLatest(trigger, i, tr, j, k);
  }
}
