/** Events that keep a minimum distance from each other happen at a bounded rate. */
module Spacing {
  /** How many of the first n positions are hits. */
  function Count(hits: seq<bool>, n: nat): nat
    requires n <= |hits|
  {
    if n == 0 then 0 else Count(hits, n - 1) + if hits[n - 1] then 1 else 0
  }

  ghost predicate Spaced(times: seq<real>, hits: seq<bool>, gap: real) {
    && |times| == |hits|
    && (forall j, k :: 0 <= j < k < |hits| && hits[j] && hits[k] ==> times[k] - times[j] >= gap)
  }

  /** n times the gap. */
  function Span(n: int, gap: real): real {
    n as real * gap
  }

  lemma SpanGrows(n: int, gap: real)
    ensures Span(n + 1, gap) == Span(n, gap) + gap && Span(0, gap) == 0.0 && Span(1, gap) == gap
  {
  }

  lemma PreviousHit(hits: seq<bool>, a: nat, b: nat) returns (c: nat)
    requires a < b < |hits| && hits[a]
    ensures a <= c < b && hits[c] && Count(hits, b) == Count(hits, c) + 1
  {
    c := b - 1;
    while !hits[c]
      invariant a <= c < b
      invariant Count(hits, b) == Count(hits, c + 1)
      decreases c
    {
      c := c - 1;
    }
  }

  /** From one hit to another, every hit on the way (the last one aside) has taken at least gap. */
  lemma {:induction false} Rate(times: seq<real>, hits: seq<bool>, gap: real, a: nat, b: nat)
    requires Spaced(times, hits, gap) && a <= b < |hits| && hits[a] && hits[b]
    ensures times[b] - times[a] >= Span(Count(hits, b) - Count(hits, a), gap)
    decreases b
  {
    SpanGrows(0, gap);
    if a < b {
      hide Span;
      var c := PreviousHit(hits, a, b);
      Rate(times, hits, gap, a, c);
      SpanGrows(Count(hits, c) - Count(hits, a), gap);
    }
  }

  /** The hits from one position to before another. */
  function Hits(hits: seq<bool>, from: nat, to: nat): set<int>
    requires to <= |hits|
  {
    set k | from <= k < to && hits[k]
  }

  lemma {:induction false} CountIsSize(hits: seq<bool>, a: nat, b: nat)
    requires a <= b <= |hits|
    ensures Count(hits, b) - Count(hits, a) == |Hits(hits, a, b)|
    decreases b
  {
    if a < b {
      CountIsSize(hits, a, b - 1);
      if hits[b - 1] {
        assert Hits(hits, a, b) == Hits(hits, a, b - 1) + {b - 1};
      } else {
        assert Hits(hits, a, b) == Hits(hits, a, b - 1);
      }
    } else {
      assert Hits(hits, a, b) == {};
    }
  }

  /** n hits, from the first of them to the last, take at least (n - 1) * gap. */
  lemma RateBySize(times: seq<real>, hits: seq<bool>, gap: real, a: nat, b: nat)
    requires Spaced(times, hits, gap) && a <= b < |hits| && hits[a] && hits[b]
    ensures times[b] - times[a] >= Span(|Hits(hits, a, b)|, gap)
  {
    Rate(times, hits, gap, a, b);
    CountIsSize(hits, a, b);
    hide Spaced, Count, Hits, Span;
  }
}
