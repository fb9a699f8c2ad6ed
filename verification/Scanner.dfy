/** Leftmost, non-overlapping scanning of a text for one pattern, as `re.sub` and `re.findall` do it.  The
    pattern is a matcher: what it finds at the very beginning of a text, if anything. */
module Scanner {
  import opened Basics

  datatype Hit<+T> = Hit(len: nat, value: T)

  type Matcher<!T> = string -> Option<Hit<T>>

  /** Matches are non-empty and lie inside the text. */
  ghost predicate Proper<T(!new)>(m: Matcher<T>) {
    forall s :: m(s).Some? ==> 1 <= m(s).value.len <= |s|
  }

  /** A character outside every match, or a match. */
  datatype Piece<+T> = Lit(c: char) | Tok(text: string, value: T)

  function Scan<T(!new)>(m: Matcher<T>, s: string): seq<Piece<T>>
    requires Proper(m)
    decreases |s|
  {
    if s == "" then []
    else match m(s)
      case Some(h) => [Tok(s[..h.len], h.value)] + Scan(m, s[h.len..])
      case None => [Lit(s[0])] + Scan(m, s[1..])
  }

  function TextOf<T>(p: Piece<T>): string {
    if p.Lit? then [p.c] else p.text
  }

  function Text<T>(ps: seq<Piece<T>>): string {
    if ps == [] then "" else TextOf(ps[0]) + Text(ps[1..])
  }

  /** The text with every match replaced by f of its value. */
  function Sub<T>(ps: seq<Piece<T>>, f: T -> string): string {
    if ps == [] then "" else (if ps[0].Lit? then [ps[0].c] else f(ps[0].value)) + Sub(ps[1..], f)
  }

  function Values<T>(ps: seq<Piece<T>>): set<T> {
    set p | p in ps && p.Tok? :: p.value
  }

  /** Scanning loses nothing. */
  lemma {:induction false} ScanKeepsText<T(!new)>(m: Matcher<T>, s: string)
    requires Proper(m)
    ensures Text(Scan(m, s)) == s
    decreases |s|
  {
    if s != "" {
      match m(s)
      case Some(h) => ScanKeepsText(m, s[h.len..]);
      case None => ScanKeepsText(m, s[1..]);
    }
  }

  /** What matches at the beginning of a text is one of its values. */
  lemma FirstMatchFound<T(!new)>(m: Matcher<T>, s: string)
    requires Proper(m) && s != "" && m(s).Some?
    ensures m(s).value.value in Values(Scan(m, s))
  {
    var ps := Scan(m, s);
    assert ps[0] == Tok(s[..m(s).value.len], m(s).value.value);
    assert ps[0] in ps;
  }

  /** Pieces that the scanner would cut their own text into. */
  ghost predicate Canonical<T(!new)>(m: Matcher<T>, ps: seq<Piece<T>>) {
    forall i :: 0 <= i < |ps| ==>
      m(Text(ps[i..])) == if ps[i].Lit? then None else Some(Hit(|ps[i].text|, ps[i].value))
  }

  /** The scanner's own pieces are such pieces. */
  lemma {:induction false} ScanIsCanonical<T(!new)>(m: Matcher<T>, s: string)
    requires Proper(m)
    ensures Canonical(m, Scan(m, s))
    decreases |s|
  {
    if s != "" {
      var ps := Scan(m, s);
      var rest := match m(s) case Some(h) => s[h.len..] case None => s[1..];
      ScanIsCanonical(m, rest);
      ScanKeepsText(m, s);
      ScanKeepsText(m, rest);
      assert ps[1..] == Scan(m, rest) && ps[0..] == ps;
      forall i | 0 <= i < |ps|
        ensures m(Text(ps[i..])) == if ps[i].Lit? then None else Some(Hit(|ps[i].text|, ps[i].value))
      {
        if i > 0 {
          assert ps[1..][i - 1..] == ps[i..] && ps[i] == ps[1..][i - 1];
        }
      }
    }
  }

  /** Substitution piece by piece: a literal stays, a match becomes f of its value, and the rest follows. */
  lemma {:induction false} SubByPieces<T>(a: seq<Piece<T>>, b: seq<Piece<T>>, f: T -> string, c: char, text: string, v: T)
    ensures Sub(a + b, f) == Sub(a, f) + Sub(b, f)
    ensures Sub([Lit(c)], f) == [c] && Sub([Tok(text, v)], f) == f(v)
  {
    assert [Tok(text, v)][1..] == [] && Sub<T>([], f) == "";
    if a == [] {
      assert a + b == b;
    } else {
      SubByPieces(a[1..], b, f, c, text, v);
      assert (a + b)[1..] == a[1..] + b;
    }
  }

  lemma {:induction false} ScanInvertsText<T(!new)>(m: Matcher<T>, ps: seq<Piece<T>>)
    requires Proper(m) && Canonical(m, ps)
    ensures Scan(m, Text(ps)) == ps
  {
    if ps != [] {
      assert ps[0..] == ps;
      forall i | 0 <= i < |ps[1..]|
        ensures m(Text(ps[1..][i..])) == if ps[1..][i].Lit? then None else Some(Hit(|ps[1..][i].text|, ps[1..][i].value))
      {
        assert ps[1..][i..] == ps[i + 1..];
      }
      ScanInvertsText(m, ps[1..]);
      var s := Text(ps);
      if ps[0].Tok? {
        assert s[..|ps[0].text|] == ps[0].text && s[|ps[0].text|..] == Text(ps[1..]);
      } else {
        assert s[1..] == Text(ps[1..]);
      }
      assert ps == [ps[0]] + ps[1..];
    }
  }

  /** Replacing reads f on the values found and on nothing else. */
  lemma {:induction false} SubReadsValues<T>(ps: seq<Piece<T>>, f: T -> string, g: T -> string)
    requires forall v :: v in Values(ps) ==> f(v) == g(v)
    ensures Sub(ps, f) == Sub(ps, g)
  {
    if ps != [] {
      forall v | v in Values(ps[1..]) ensures v in Values(ps) {
        var p :| p in ps[1..] && p.Tok? && p.value == v;
        assert p in ps;
      }
      SubReadsValues(ps[1..], f, g);
      if ps[0].Tok? {
        assert ps[0] in ps && ps[0].value in Values(ps);
      }
    }
  }

  lemma {:induction false} SubWithoutMatches<T>(ps: seq<Piece<T>>, f: T -> string)
    requires forall p :: p in ps ==> p.Lit?
    ensures Sub(ps, f) == Text(ps)
  {
    if ps != [] {
      SubWithoutMatches(ps[1..], f);
    }
  }

  lemma NoValuesNoTokens<T>(ps: seq<Piece<T>>)
    ensures Values(ps) == {} <==> forall p :: p in ps ==> p.Lit?
  {
    forall p | p in ps && p.Tok? ensures p.value in Values(ps) {
    }
  }

  // ---- Reading a text from the front ----

  lemma Assoc(a: string, b: string, c: string)
    ensures a + (b + c) == a + b + c
  {
  }

  /** What is left of s behind a literal it begins with. */
  function Strip(s: string, lit: string): (r: Option<string>)
    ensures r.Some? ==> s == lit + r.value
  {
    if |lit| <= |s| && s[..|lit|] == lit then Some(s[|lit|..]) else None
  }

  lemma StripLiteral(lit: string, rest: string)
    ensures Strip(lit + rest, lit) == Some(rest)
  {
  }

  ghost predicate AllIn(s: string, inClass: char -> bool) {
    forall i :: 0 <= i < |s| ==> inClass(s[i])
  }

  ghost predicate StopsRun(s: string, inClass: char -> bool) {
    s == "" || !inClass(s[0])
  }

  /** The longest prefix whose characters are all in the class, and what is left. */
  function TakeRun(s: string, inClass: char -> bool): (r: (string, string))
    ensures s == r.0 + r.1 && AllIn(r.0, inClass) && StopsRun(r.1, inClass)
  {
    if s == "" || !inClass(s[0]) then ("", s)
    else
      var (run, rest) := TakeRun(s[1..], inClass);
      ([s[0]] + run, rest)
  }

  /** A run that something else follows is exactly that long. */
  lemma {:induction false} TakeWholeRun(run: string, rest: string, inClass: char -> bool)
    requires AllIn(run, inClass) && StopsRun(rest, inClass)
    ensures TakeRun(run + rest, inClass) == (run, rest)
  {
    if run == "" {
      assert run + rest == rest;
    } else {
      assert (run + rest)[1..] == run[1..] + rest;
      TakeWholeRun(run[1..], rest, inClass);
      assert run == [run[0]] + run[1..];
    }
  }

  /** A reader consumes a value from the front of a text. */
  type Reader<!T> = string -> Option<(T, string)>

  /** The matcher of a reader: what it consumed, by length. */
  function Reading<T>(read: Reader<T>): Matcher<T> {
    s =>
      match read(s)
      case Some((v, rest)) => if |rest| < |s| then Some(Hit(|s| - |rest|, v)) else None
      case None => None
  }

  lemma ReadingProper<T(!new)>(read: Reader<T>)
    ensures Proper(Reading(read))
  {
  }
}
