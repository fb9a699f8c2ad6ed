/** The TTL cache in front of the guidance fetch, over every interleaving of calls. */
module GuidanceProvider {
  import opened Basics
  import Spacing

  type Guidance = map<string, string>

  /** The raw tool result, as far as coercion looks at it: a dict in item order, None, or anything else.
      `shown` is its str(). */
  datatype Raw = NoneValue | DictValue(items: seq<(string, Raw)>, shown: string) | OtherValue(typeName: string, shown: string)

  function Shown(v: Raw): string {
    if v.NoneValue? then "" else v.shown
  }

  function TypeName(v: Raw): string {
    match v
    case NoneValue => "NoneType"
    case DictValue(_, _) => "dict"
    case OtherValue(name, _) => name
  }

  /** The dict to read: a {"result": ...} wrapper is removed once. */
  function Unwrapped(raw: Raw): Raw {
    if raw.DictValue? && |raw.items| == 1 && raw.items[0].0 == "result" then raw.items[0].1 else raw
  }

  ghost predicate LastItem(items: seq<(string, Raw)>, key: string, i: int) {
    0 <= i < |items| && items[i].0 == key && forall j :: i < j < |items| ==> items[j].0 != key
  }

  /** out maps exactly the keys of the items, each to the text of its last value. */
  ghost predicate Filled(items: seq<(string, Raw)>, out: Guidance) {
    && (forall k :: k in out <==> exists i :: LastItem(items, k, i))
    && (forall k, i :: LastItem(items, k, i) ==> k in out && out[k] == Shown(items[i].1))
  }

  /** What coercing a raw result may answer. */
  ghost predicate Coerced(raw: Raw, r: Result<Guidance, string>) {
    match Unwrapped(raw)
    case DictValue(items, _) => r.Success? && Filled(items, r.value)
    case other => r == Failure("get_store_guidance returned unexpected type '" + TypeName(other) + "'; expected a dict.")
  }

  /** r is what a dict without a wrapper becomes: its keys, each with the text of its last value, None as the
      empty text; anything but a dict is refused. */
  ghost predicate Coerces(data: Raw, r: Result<Guidance, string>) {
    if !data.DictValue? then r.Failure?
    else
      && r.Success?
      && (forall k :: k in r.value <==> exists i :: LastItem(data.items, k, i))
      && (forall k, i :: LastItem(data.items, k, i) ==> k in r.value && r.value[k] == if data.items[i].1.NoneValue? then "" else data.items[i].1.shown)
  }

  /** A dict whose only key is "result" is coerced as its value, once; everything else as itself. */
  lemma CoercedMeans(raw: Raw, r: Result<Guidance, string>)
    requires Coerced(raw, r)
    ensures raw.DictValue? && |raw.items| == 1 && raw.items[0].0 == "result" ==> Coerces(raw.items[0].1, r)
    ensures !(raw.DictValue? && |raw.items| == 1 && raw.items[0].0 == "result") ==> Coerces(raw, r)
  {
    hide LastItem;
  }

  /** Coercion has one answer. */
  lemma CoercedUnique(raw: Raw, r: Result<Guidance, string>, s: Result<Guidance, string>)
    requires Coerced(raw, r) && Coerced(raw, s)
    ensures r == s
  {
    if Unwrapped(raw).DictValue? {
      var items := Unwrapped(raw).items;
      assert r.value.Keys == s.value.Keys;
      forall k | k in r.value
        ensures r.value[k] == s.value[k]
      {
        var i :| LastItem(items, k, i);
      }
      assert r.value == s.value;
    }
  }

  lemma NextItem(items: seq<(string, Raw)>, item: (string, Raw), out: Guidance)
    requires Filled(items, out)
    ensures Filled(items + [item], out[item.0 := Shown(item.1)])
  {
    var more := items + [item];
    var filled := out[item.0 := Shown(item.1)];
    assert LastItem(more, item.0, |items|);
    forall k, i | k != item.0
      ensures LastItem(more, k, i) <==> LastItem(items, k, i)
    {
      if LastItem(items, k, i) {
        assert forall j :: i < j < |more| ==> more[j].0 != k;
      }
      if LastItem(more, k, i) {
        assert forall j :: i < j < |items| ==> items[j] == more[j];
      }
    }
    forall k
      ensures k in filled <==> exists i :: LastItem(more, k, i)
    {
      if k != item.0 && k in filled {
        var i :| LastItem(items, k, i);
        assert LastItem(more, k, i);
      }
    }
  }

  /** Fills a dict from the items in order, a later value for a key replacing an earlier one; anything
      that is not a dict is refused. */
  method CoerceGuidance(raw: Raw) returns (r: Result<Guidance, string>)
    ensures Coerced(raw, r)
  {
    var data := Unwrapped(raw);
    if !data.DictValue? {
      return Failure("get_store_guidance returned unexpected type '" + TypeName(data) + "'; expected a dict.");
    }
    var out: Guidance := map[];
    for n := 0 to |data.items|
      invariant Filled(data.items[..n], out)
    {
      var (k, v) := data.items[n];
      NextItem(data.items[..n], data.items[n], out);
      assert data.items[..n + 1] == data.items[..n] + [data.items[n]];
      out := out[k := Shown(v)];
    }
    assert data.items[..|data.items|] == data.items;
    r := Success(out);
  }

  // ---- The cache under any number of overlapping callers ----

  /** What callers of one provider do: a call looks at the cache, and one that found it stale is over when its
      fetch is; each with the clock reading it takes, if it takes one.  A call is one `caller`. */
  datatype Event = Look(caller: nat, at: real) | FetchEnded(caller: nat, fetch: Result<Guidance, string>, at: real)

  datatype Cache = Cache(value: Option<Guidance>, fetchedAt: Option<real>)

  const EMPTY := Cache(None, None)

  predicate Fresh(c: Cache, ttl: real, now: real) {
    c.value.Some? && c.fetchedAt.Some? && now - c.fetchedAt.value < ttl
  }

  function CacheStep(c: Cache, e: Event): Cache {
    if e.FetchEnded? && e.fetch.Success? then Cache(Some(e.fetch.value), Some(e.at)) else c
  }

  function After(tr: seq<Event>): Cache {
    if tr == [] then EMPTY else CacheStep(After(tr[..|tr| - 1]), tr[|tr| - 1])
  }

  /** What a call returns or raises at an event, if it is over then. */
  function Answered(c: Cache, ttl: real, e: Event): Option<Result<Guidance, string>> {
    match e
    case Look(_, at) => if Fresh(c, ttl, at) then Some(Success(c.value.value)) else None
    case FetchEnded(_, fetch, _) => Some(fetch)
  }

  /** What call tr[k].caller is answered at event k of the trace. */
  function Answer(ttl: real, tr: seq<Event>, k: nat): Option<Result<Guidance, string>>
    requires k < |tr|
  {
    Answered(After(tr[..k]), ttl, tr[k])
  }

  /** Call k looked at event b, found the cache stale, and its fetch ended at event k. */
  ghost predicate FetchOf(ttl: real, tr: seq<Event>, b: int, k: int) {
    && 0 <= b < k < |tr| && tr[k].FetchEnded?
    && tr[b] == Look(tr[k].caller, tr[b].at) && Answer(ttl, tr, b) == None
  }

  /** Every fetch belongs to a call that found the cache stale, and calls look once. */
  ghost predicate Calls(ttl: real, tr: seq<Event>) {
    && (forall k :: 0 <= k < |tr| && tr[k].FetchEnded? ==> exists b :: FetchOf(ttl, tr, b, k))
    && (forall j, k :: 0 <= j < k < |tr| && tr[j].Look? && tr[k].Look? ==> tr[j].caller != tr[k].caller)
  }

  ghost predicate Monotone(tr: seq<Event>) {
    forall j, k :: 0 <= j <= k < |tr| ==> tr[j].at <= tr[k].at
  }

  predicate Refreshes(tr: seq<Event>, k: nat)
    requires k < |tr|
  {
    tr[k].FetchEnded? && tr[k].fetch.Success?
  }

  ghost predicate LatestRefresh(tr: seq<Event>, n: nat, j: int)
    requires n <= |tr|
  {
    0 <= j < n && Refreshes(tr, j) && forall k :: j < k < n ==> !Refreshes(tr, k)
  }

  /** The cache holds what this event fetched, since this event. */
  predicate PutBy(c: Cache, e: Event) {
    e.FetchEnded? && e.fetch.Success? && c == Cache(Some(e.fetch.value), Some(e.at))
  }

  /** The cache after n events is what the latest refresh among them put there. */
  ghost predicate CacheTracks(tr: seq<Event>, n: nat)
    requires n <= |tr|
  {
    var c := After(tr[..n]);
    if c == EMPTY then forall k :: 0 <= k < n ==> !Refreshes(tr, k)
    else exists j :: LatestRefresh(tr, n, j) && PutBy(c, tr[j])
  }

  lemma {:induction false} CacheIsLatestRefresh(tr: seq<Event>, n: nat)
    requires n <= |tr|
    ensures CacheTracks(tr, n)
  {
    if n > 0 {
      CacheIsLatestRefresh(tr, n - 1);
      assert tr[..n][..n - 1] == tr[..n - 1];
      var c := After(tr[..n]);
      if Refreshes(tr, n - 1) {
        assert LatestRefresh(tr, n, n - 1);
      } else if c != EMPTY {
        var j :| LatestRefresh(tr, n - 1, j) && PutBy(c, tr[j]);
        assert LatestRefresh(tr, n, j);
      }
    }
  }

  /** Where a returned value comes from: this call's own fetch, or the latest refresh, if it ended less than
      ttl before the call looked. */
  ghost predicate Backed(ttl: real, tr: seq<Event>, k: nat, j: int)
    requires k < |tr|
  {
    && 0 <= j <= k && Refreshes(tr, j) && Answer(ttl, tr, k) == Some(tr[j].fetch)
    && (j < k ==> tr[k].Look? && LatestRefresh(tr, k, j) && tr[k].at - tr[j].at < ttl)
  }

  /** However callers overlap, every returned value is the call's own or recent. */
  lemma AnswersAreRecent(ttl: real, tr: seq<Event>, k: nat)
    requires k < |tr| && Answer(ttl, tr, k).Some? && Answer(ttl, tr, k).value.Success?
    ensures exists j :: Backed(ttl, tr, k, j)
  {
    if tr[k].FetchEnded? {
      assert Backed(ttl, tr, k, k);
    } else {
      CacheIsLatestRefresh(tr, k);
      var j :| LatestRefresh(tr, k, j) && PutBy(After(tr[..k]), tr[j]);
      assert Backed(ttl, tr, k, j);
    }
  }

  /** A call fetches if and only if no refresh has ended, or the latest one ended at least ttl before. */
  lemma FetchesIffStale(ttl: real, tr: seq<Event>, k: nat)
    requires k < |tr| && tr[k].Look?
    ensures Answer(ttl, tr, k) == None <==> forall j :: LatestRefresh(tr, k, j) ==> tr[k].at - tr[j].at >= ttl
  {
    CacheIsLatestRefresh(tr, k);
    var c := After(tr[..k]);
    if c != EMPTY {
      var j :| LatestRefresh(tr, k, j) && PutBy(c, tr[j]);
      assert forall l :: LatestRefresh(tr, k, l) ==> l == j;
    }
  }

  lemma FailureKeepsCache(tr: seq<Event>, e: Event)
    requires e.FetchEnded? && e.fetch.Failure?
    ensures After(tr + [e]) == After(tr)
  {
    assert (tr + [e])[..|tr|] == tr;
  }

  // ---- How far refreshes are apart ----

  lemma LatestOfRefreshes(tr: seq<Event>, n: nat, j: nat) returns (l: nat)
    requires j < n <= |tr| && Refreshes(tr, j)
    ensures j <= l && LatestRefresh(tr, n, l)
  {
    l := n - 1;
    while !Refreshes(tr, l)
      invariant j <= l < n
      invariant forall k :: l < k < n ==> !Refreshes(tr, k)
      decreases l
    {
      l := l - 1;
    }
  }

  /** A refresh whose call looked after another refresh ended, ends at least ttl after it: refreshes are
      closer than ttl only if their calls overlap. */
  lemma RefreshesApart(ttl: real, tr: seq<Event>, j: nat, b: nat, k: nat)
    requires Monotone(tr) && j < b && FetchOf(ttl, tr, b, k) && Refreshes(tr, j)
    ensures tr[k].at - tr[j].at >= ttl
  {
    var l := LatestOfRefreshes(tr, b, j);
    FetchesIffStale(ttl, tr, b);
    assert LatestRefresh(tr, b, l);
    hide Answer, FetchOf;
    assert tr[j].at <= tr[l].at;
  }

  /** Overlapping calls both fetch: each looks before the other's fetch ends, and no time need pass between
      the two refreshes. */
  lemma OverlapFetchesTwice(ttl: real, g: Guidance) returns (tr: seq<Event>)
    ensures Calls(ttl, tr) && Monotone(tr) && |tr| == 4
    ensures Refreshes(tr, 2) && Refreshes(tr, 3) && tr[2].at == tr[3].at && tr[2].caller != tr[3].caller
  {
    tr := [Look(0, 0.0), Look(1, 0.0), FetchEnded(0, Success(g), 0.0), FetchEnded(1, Success(g), 0.0)];
    assert tr[..0] == [] && tr[..1][..0] == [] && tr[..1] == [Look(0, 0.0)];
    assert After(tr[..0]) == EMPTY && After(tr[..1]) == EMPTY;
    assert FetchOf(ttl, tr, 0, 2) && FetchOf(ttl, tr, 1, 3);
  }

  /** Refreshes of calls none of which looked before the chosen one before it was over. */
  ghost predicate Successive(ttl: real, tr: seq<Event>, chosen: seq<bool>) {
    && |chosen| == |tr|
    && (forall k :: 0 <= k < |tr| && chosen[k] ==> Refreshes(tr, k))
    && (forall j, k :: 0 <= j < k < |tr| && chosen[j] && chosen[k] ==> LooksAfter(ttl, tr, j, k))
  }

  ghost predicate LooksAfter(ttl: real, tr: seq<Event>, j: int, k: int) {
    exists b :: j < b && FetchOf(ttl, tr, b, k)
  }

  ghost function Times(tr: seq<Event>): (times: seq<real>)
    ensures |times| == |tr| && forall k :: 0 <= k < |tr| ==> times[k] == tr[k].at
  {
    seq(|tr|, k requires 0 <= k < |tr| => tr[k].at)
  }

  /** The chosen refreshes from the first to before the last. */
  function ChosenFrom(chosen: seq<bool>, first: nat, last: nat): set<int>
    requires last <= |chosen|
  {
    set k | first <= k < last && chosen[k]
  }

  /** The fetch rate: among any calls, n refreshes that do not overlap take at least (n - 1) * ttl. */
  lemma RefreshRate(ttl: real, tr: seq<Event>, chosen: seq<bool>, first: nat, last: nat)
    requires Monotone(tr) && Successive(ttl, tr, chosen) && first <= last < |tr| && chosen[first] && chosen[last]
    ensures tr[last].at - tr[first].at >= Spacing.Span(|ChosenFrom(chosen, first, last)|, ttl)
  {
    var times := Times(tr);
    forall j, k | 0 <= j < k < |tr| && chosen[j] && chosen[k]
      ensures times[k] - times[j] >= ttl
    {
      var b :| j < b && FetchOf(ttl, tr, b, k);
      RefreshesApart(ttl, tr, j, b, k);
    }
    hide Successive, Monotone, Times;
    assert ChosenFrom(chosen, first, last) == Spacing.Hits(chosen, first, last);
    hide Spacing.Hits, Spacing.Span, ChosenFrom;
    Spacing.RateBySize(times, chosen, ttl, first, last);
  }

  class GuidanceProvider {
    const ttl: real
    var cache: Option<Guidance>
    var fetchedAt: Option<real>

    /** What callers have done so far. */
    ghost var trace: seq<Event>

    ghost predicate Valid()
      reads this
    {
      Cache(cache, fetchedAt) == After(trace)
    }

    constructor (ttl: real)
      ensures Valid() && this.ttl == ttl && trace == []
    {
      this.ttl, cache, fetchedAt, trace := ttl, None, None, [];
    }

    /** `get` up to its await. */
    method BeginGet(caller: nat, now: real) returns (hit: Option<Guidance>)
      requires Valid()
      modifies this
      ensures Valid() && trace == old(trace) + [Look(caller, now)]
      ensures Answer(ttl, trace, |old(trace)|) == if hit.Some? then Some(Success(hit.value)) else None
    {
      hit := None;
      if cache.Some? && fetchedAt.Some? && now - fetchedAt.value < ttl {
        hit := cache;
      }
      assert (trace + [Look(caller, now)])[..|trace|] == trace;
      trace := trace + [Look(caller, now)];
    }

    /** `get` from the end of its fetch.  `raised` is what connecting or calling the tool raises, if
        anything, and `raw` what the tool returns. */
    method FinishGet(caller: nat, raised: Option<string>, raw: Raw, now: real) returns (r: Result<Guidance, string>)
      requires Valid()
      modifies this
      ensures Valid() && trace == old(trace) + [FetchEnded(caller, r, now)]
      ensures if raised.Some? then r == Failure("Could not fetch get_store_guidance from MCP: " + raised.value) else Coerced(raw, r)
    {
      if raised.Some? {
        r := Failure("Could not fetch get_store_guidance from MCP: " + raised.value);
      } else {
        r := CoerceGuidance(raw);
        if r.Success? {
          cache := Some(r.value);
          fetchedAt := Some(now);
        }
      }
      ghost var e := FetchEnded(caller, r, now);
      assert (trace + [e])[..|trace|] == trace;
      trace := trace + [e];
    }
  }
}
