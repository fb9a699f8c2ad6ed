/** `{{saga.<key>}}` placeholders in prompts: finding, validating and substituting them. */
module Placeholders {
  import opened Basics
  import opened Scanner

  /** A placeholder as written, with the blanks around its key. */
  datatype Placeholder = Placeholder(before: string, key: string, after: string)

  /** `\s` of a str pattern, which is also what `str.strip` removes. */
  predicate IsSpace(c: char) {
    var n := c as int;
    9 <= n <= 13 || 28 <= n <= 32 || n == 0x85 || n == 0xA0 || n == 0x1680 || 0x2000 <= n <= 0x200A ||
    n == 0x2028 || n == 0x2029 || n == 0x202F || n == 0x205F || n == 0x3000
  }

  predicate IsKeyChar(c: char) {
    'a' <= c <= 'z' || c == '_'
  }

  /** The pattern: "{{", blanks, "saga.", a key, blanks, "}}". */
  function ReadPlaceholder(s: string): Option<(Placeholder, string)> {
    match Strip(s, "{{")
    case None => None
    case Some(t) =>
      var (before, u) := TakeRun(t, IsSpace);
      match Strip(u, "saga.")
      case None => None
      case Some(v) => ReadKey(before, v)
  }

  function ReadKey(before: string, s: string): Option<(Placeholder, string)> {
    var (key, t) := TakeRun(s, IsKeyChar);
    var (after, u) := TakeRun(t, IsSpace);
    match Strip(u, "}}")
    case None => None
    case Some(rest) => if key == "" then None else Some((Placeholder(before, key, after), rest))
  }

  // ---- What a placeholder is, independently of how it is found ----

  /** The code points `str.isspace` accepts. */
  ghost const WHITESPACE: set<int> := {
    9, 10, 11, 12, 13, 28, 29, 30, 31, 32, 0x85, 0xA0, 0x1680, 0x2000, 0x2001, 0x2002, 0x2003, 0x2004, 0x2005, 0x2006,
    0x2007, 0x2008, 0x2009, 0x200A, 0x2028, 0x2029, 0x202F, 0x205F, 0x3000
  }

  ghost predicate Blanks(s: string) {
    forall c :: c in s ==> c as int in WHITESPACE
  }

  /** Blanks, a key of lower-case ASCII letters and underscores, blanks. */
  ghost predicate ValidPlaceholder(p: Placeholder) {
    Blanks(p.before) && p.key != "" && (forall c :: c in p.key ==> 'a' <= c <= 'z' || c == '_') && Blanks(p.after)
  }

  lemma BlanksAreRun(s: string)
    ensures Blanks(s) <==> AllIn(s, IsSpace)
  {
    if AllIn(s, IsSpace) {
      forall c | c in s ensures c as int in WHITESPACE {
        var i :| 0 <= i < |s| && s[i] == c;
        assert IsSpace(s[i]);
      }
    }
    if Blanks(s) {
      forall i | 0 <= i < |s| ensures IsSpace(s[i]) {
        assert s[i] in s;
      }
    }
  }

  lemma KeyIsRun(key: string)
    ensures (forall c :: c in key ==> 'a' <= c <= 'z' || c == '_') <==> AllIn(key, IsKeyChar)
  {
    if AllIn(key, IsKeyChar) {
      forall c | c in key ensures IsKeyChar(c) {
        var i :| 0 <= i < |key| && key[i] == c;
      }
    }
    forall i | 0 <= i < |key| ensures key[i] in key {
    }
  }

  lemma ValidIsRuns(p: Placeholder)
    ensures ValidPlaceholder(p) <==>
      AllIn(p.before, IsSpace) && p.key != "" && AllIn(p.key, IsKeyChar) && AllIn(p.after, IsSpace)
  {
    BlanksAreRun(p.before);
    KeyIsRun(p.key);
    BlanksAreRun(p.after);
    hide Blanks, AllIn;
  }

  function Print(p: Placeholder): string {
    "{{" + p.before + "saga." + p.key + p.after + "}}"
  }

  lemma ReadKeyComplete(p: Placeholder, rest: string)
    requires ValidPlaceholder(p)
    ensures ReadKey(p.before, p.key + (p.after + ("}}" + rest))) == Some((p, rest))
  {
    var close := "}}" + rest;
    ValidIsRuns(p);
    hide ValidPlaceholder;
    assert StopsRun(p.after + close, IsKeyChar) by {
      assert p.after != "" ==> IsSpace(p.after[0]);
      assert p.after == "" ==> (p.after + close)[0] == '}';
    }
    TakeWholeRun(p.key, p.after + close, IsKeyChar);
    TakeWholeRun(p.after, close, IsSpace);
    StripLiteral("}}", rest);
  }

  lemma PrintedFrom(p: Placeholder, rest: string)
    ensures Print(p) + rest == "{{" + (p.before + ("saga." + (p.key + (p.after + ("}}" + rest)))))
  {
    var close := "}}" + rest;
    Assoc("{{" + p.before + "saga." + p.key + p.after, "}}", rest);
    Assoc("{{" + p.before + "saga." + p.key, p.after, close);
    Assoc("{{" + p.before + "saga.", p.key, p.after + close);
    Assoc("{{" + p.before, "saga.", p.key + (p.after + close));
    Assoc("{{", p.before, "saga." + (p.key + (p.after + close)));
  }

  /** Reading behind the opening braces. */
  lemma BlanksThenKey(before: string, key: string)
    requires AllIn(before, IsSpace)
    ensures TakeRun(before + ("saga." + key), IsSpace) == (before, "saga." + key)
    ensures Strip("saga." + key, "saga.") == Some(key)
  {
    assert ("saga." + key)[0] == 's';
    TakeWholeRun(before, "saga." + key, IsSpace);
    StripLiteral("saga.", key);
  }

  lemma ReadPlaceholderComplete(p: Placeholder, rest: string)
    requires ValidPlaceholder(p)
    ensures ReadPlaceholder(Print(p) + rest) == Some((p, rest))
  {
    var key := p.key + (p.after + ("}}" + rest));
    ReadKeyComplete(p, rest);
    PrintedFrom(p, rest);
    ValidIsRuns(p);
    hide ValidPlaceholder;
    StripLiteral("{{", p.before + ("saga." + key));
    BlanksThenKey(p.before, key);
    hide ReadKey, Print, TakeRun, Strip, IsSpace, IsKeyChar, AllIn;
  }

  lemma ReadKeySound(before: string, s: string)
    requires ReadKey(before, s).Some? && AllIn(before, IsSpace)
    ensures var (p, rest) := ReadKey(before, s).value;
      ValidPlaceholder(p) && p.before == before && s == p.key + p.after + "}}" + rest
  {
    ValidIsRuns(ReadKey(before, s).value.0);
    var (key, w) := TakeRun(s, IsKeyChar);
    var (after, x) := TakeRun(w, IsSpace);
    var rest := Strip(x, "}}").value;
    hide Strip, TakeRun, IsSpace, IsKeyChar, AllIn, ValidPlaceholder;
    Assoc(key, after, x);
    Assoc(key + after, "}}", rest);
  }

  lemma ReadPlaceholderSound(s: string)
    requires ReadPlaceholder(s).Some?
    ensures ValidPlaceholder(ReadPlaceholder(s).value.0) && s == Print(ReadPlaceholder(s).value.0) + ReadPlaceholder(s).value.1
  {
    var (before, u) := TakeRun(Strip(s, "{{").value, IsSpace);
    var v := Strip(u, "saga.").value;
    ReadKeySound(before, v);
    var (p, rest) := ReadKey(before, v).value;
    hide Strip, TakeRun, ReadKey, ValidPlaceholder;
    Assoc("{{", before, u);
    Assoc("{{" + before, "saga.", v);
    var head := "{{" + before + "saga.";
    Assoc(head, p.key + p.after, "}}" + rest);
    Assoc(head, p.key, p.after);
    Assoc(head + p.key + p.after, "}}", rest);
    Assoc(p.key + p.after, "}}", rest);
  }

  /** A placeholder is found exactly where the text begins with one, and is read back: the pattern is
      unambiguous. */
  lemma ReadPlaceholderExact(s: string, p: Placeholder, rest: string)
    ensures ValidPlaceholder(p) && s == Print(p) + rest <==> ReadPlaceholder(s) == Some((p, rest))
  {
    if ValidPlaceholder(p) && s == Print(p) + rest {
      ReadPlaceholderComplete(p, rest);
    }
    if ReadPlaceholder(s).Some? {
      ReadPlaceholderSound(s);
    }
    hide ReadPlaceholder, ValidPlaceholder, Print;
  }

  // ---- The three functions of the module ----

  function PiecesOf(text: string): seq<Piece<Placeholder>> {
    ReadingProper(ReadPlaceholder);
    Scan(Reading(ReadPlaceholder), text)
  }

  function ReferencedKeys(text: string): set<string> {
    set p | p in Values(PiecesOf(text)) :: p.key
  }

  const GUIDANCE_KEYS: set<string> := {
    "store_description", "doctype_instructions", "metadata_instructions", "summary_instructions", "folder_instructions", "language"
  }

  /** What `validate_placeholders` accepts. */
  predicate Validates(text: string) {
    ReferencedKeys(text) - GUIDANCE_KEYS == {}
  }

  type Guidance = map<string, string>

  function ValueFor(guidance: Guidance, default: string): Placeholder -> string {
    (p: Placeholder) => if p.key in guidance then guidance[p.key] else default
  }

  function Substitute(text: string, guidance: Guidance): string {
    Sub(PiecesOf(text), ValueFor(guidance, ""))
  }

  lemma KeyReferenced(text: string, p: Placeholder)
    requires p in Values(PiecesOf(text))
    ensures p.key in ReferencedKeys(text)
  {
  }

  /** A placeholder at the beginning of a text is referenced. */
  lemma FirstIsReferenced(p: Placeholder, rest: string)
    requires ValidPlaceholder(p)
    ensures p.key in ReferencedKeys(Print(p) + rest)
  {
    var text := Print(p) + rest;
    ReadPlaceholderComplete(p, rest);
    ReadingProper(ReadPlaceholder);
    assert |Print(p)| > 0;
    hide ReadPlaceholder, ValidPlaceholder, Print;
    assert |text| == |Print(p)| + |rest|;
    FirstMatchFound(Reading(ReadPlaceholder), text);
    hide Scan, Values;
    assert p in Values(PiecesOf(text));
  }

  /** Guidance maps that agree on the referenced keys give the same prompt. */
  lemma DependsOnReferencedKeys(text: string, g: Guidance, h: Guidance)
    requires forall k :: k in ReferencedKeys(text) ==> (k in g <==> k in h) && (k in g ==> g[k] == h[k])
    ensures Substitute(text, g) == Substitute(text, h)
  {
    forall p | p in Values(PiecesOf(text)) ensures ValueFor(g, "")(p) == ValueFor(h, "")(p) {
      KeyReferenced(text, p);
    }
    hide PiecesOf;
    SubReadsValues(PiecesOf(text), ValueFor(g, ""), ValueFor(h, ""));
  }

  /** A text that references nothing is left alone, whatever the guidance is. */
  lemma IdentityWithoutReferences(text: string, g: Guidance)
    requires ReferencedKeys(text) == {}
    ensures Substitute(text, g) == text
  {
    var ps := PiecesOf(text);
    forall p: Placeholder | p in Values(ps) ensures p.key in ReferencedKeys(text) {
      KeyReferenced(text, p);
    }
    assert Values(ps) == {};
    ReadingProper(ReadPlaceholder);
    ScanKeepsText(Reading(ReadPlaceholder), text);
    NoValuesNoTokens(ps);
    SubWithoutMatches(ps, ValueFor(g, ""));
  }

  /** In a validated prompt, with guidance for all six keys, the empty-string default is never used. */
  lemma ValidatedNeedsNoDefault(text: string, g: Guidance, default: string)
    requires Validates(text) && GUIDANCE_KEYS <= g.Keys
    ensures Substitute(text, g) == Sub(PiecesOf(text), ValueFor(g, default))
  {
    forall p | p in Values(PiecesOf(text)) ensures ValueFor(g, "")(p) == ValueFor(g, default)(p) {
      KeyReferenced(text, p);
      assert p.key in GUIDANCE_KEYS by {
        assert p.key !in ReferencedKeys(text) - GUIDANCE_KEYS;
      }
    }
    hide PiecesOf;
    SubReadsValues(PiecesOf(text), ValueFor(g, ""), ValueFor(g, default));
  }

  // ---- Printing and substituting ----

  /** A prompt as its author writes it: placeholders are well formed, and the text between them does not
      contain "{{". */
  ghost predicate Prompt(ps: seq<Piece<Placeholder>>) {
    && (forall i :: 0 <= i < |ps| && ps[i].Tok? ==> ValidPlaceholder(ps[i].value) && ps[i].text == Print(ps[i].value))
    && (forall i :: 0 <= i < |ps| - 1 ==> !(ps[i] == Lit('{') && ps[i + 1] == Lit('{')))
  }

  lemma PlaceholderRead(p: Placeholder, text: string, rest: string)
    requires ValidPlaceholder(p) && text == Print(p)
    ensures Reading(ReadPlaceholder)(text + rest) == Some(Hit(|text|, p))
  {
    ReadPlaceholderComplete(p, rest);
    assert |text| > 0;
    hide ReadPlaceholder, ValidPlaceholder, Print;
    assert |text + rest| == |text| + |rest|;
  }

  /** Nothing is found where a text does not begin with two braces, or goes on with a third. */
  lemma NoPlaceholder(s: string)
    requires !(|s| >= 2 && s[0] == '{' && s[1] == '{') || (|s| >= 3 && s[2] == '{')
    ensures ReadPlaceholder(s).None?
  {
    if Strip(s, "{{").Some? {
      var t := Strip(s, "{{").value;
      assert t[0] == '{' && !IsSpace(t[0]);
      hide IsSpace, ReadKey;
      assert TakeRun(t, IsSpace) == ("", t);
      assert Strip(t, "saga.").None?;
    }
  }

  lemma LiteralUnread(ps: seq<Piece<Placeholder>>, i: nat)
    requires Prompt(ps) && i < |ps| && ps[i].Lit?
    ensures ReadPlaceholder(Text(ps[i..])).None?
  {
    var s := Text(ps[i..]);
    assert ps[i..][0] == ps[i] && ps[i..][1..] == ps[i + 1..];
    assert s == [ps[i].c] + Text(ps[i + 1..]);
    if i + 1 < |ps| {
      assert ps[i + 1..][0] == ps[i + 1];
      if ps[i + 1].Tok? {
        assert TextOf(ps[i + 1])[0] == '{' && TextOf(ps[i + 1])[1] == '{';
        assert s[1] == '{' && s[2] == '{';
      } else {
        assert s[1] == ps[i + 1].c;
      }
    } else {
      assert ps[i + 1..] == [];
    }
    hide ReadPlaceholder, Prompt;
    NoPlaceholder(s);
  }

  lemma PromptCanonical(ps: seq<Piece<Placeholder>>)
    requires Prompt(ps)
    ensures Canonical(Reading(ReadPlaceholder), ps)
  {
    forall i | 0 <= i < |ps|
      ensures Reading(ReadPlaceholder)(Text(ps[i..])) == if ps[i].Lit? then None else Some(Hit(|ps[i].text|, ps[i].value))
    {
      assert ps[i..][0] == ps[i] && ps[i..][1..] == ps[i + 1..];
      if ps[i].Tok? {
        PlaceholderRead(ps[i].value, ps[i].text, Text(ps[i + 1..]));
      } else {
        LiteralUnread(ps, i);
      }
      hide ReadPlaceholder;
    }
  }

  lemma PromptPieces(ps: seq<Piece<Placeholder>>)
    requires Prompt(ps)
    ensures PiecesOf(Text(ps)) == ps
  {
    ReadingProper(ReadPlaceholder);
    PromptCanonical(ps);
    ScanInvertsText(Reading(ReadPlaceholder), ps);
    hide Prompt, Canonical;
  }

  /** Printing any prompt and substituting gives the concatenation of its literals and, for each placeholder, the
      guidance text of its key, or nothing if there is none. */
  lemma SubstituteRoundTrip(ps: seq<Piece<Placeholder>>, g: Guidance)
    requires Prompt(ps)
    ensures Substitute(Text(ps), g) == Sub(ps, (p: Placeholder) => if p.key in g then g[p.key] else "")
  {
    PromptPieces(ps);
    SubReadsValues(ps, ValueFor(g, ""), (p: Placeholder) => if p.key in g then g[p.key] else "");
    hide PiecesOf, Prompt;
  }

  /** The keys a printed prompt references are those of its placeholders. */
  lemma ReferencesRoundTrip(ps: seq<Piece<Placeholder>>, key: string)
    requires Prompt(ps)
    ensures key in ReferencedKeys(Text(ps)) <==> exists i :: 0 <= i < |ps| && ps[i].Tok? && ps[i].value.key == key
  {
    PromptPieces(ps);
    KeysOfPieces(ps, Text(ps));
    hide PiecesOf, Prompt, ReferencedKeys;
  }

  predicate IsGuidanceKey(key: string) {
    key == "store_description" || key == "doctype_instructions" || key == "metadata_instructions" ||
    key == "summary_instructions" || key == "folder_instructions" || key == "language"
  }

  lemma GuidanceKeys(key: string)
    ensures key in GUIDANCE_KEYS <==> IsGuidanceKey(key)
  {
  }

  /** A printed prompt is valid if and only if the keys of its placeholders are all among the six. */
  lemma ValidatesIff(ps: seq<Piece<Placeholder>>)
    requires Prompt(ps)
    ensures Validates(Text(ps)) <==> forall i :: 0 <= i < |ps| && ps[i].Tok? ==> IsGuidanceKey(ps[i].value.key)
  {
    PromptPieces(ps);
    KeysOfPieces(ps, Text(ps));
    hide PiecesOf, Prompt, ReferencedKeys, IsGuidanceKey;
    NoneUnknown(ps, ReferencedKeys(Text(ps)), GUIDANCE_KEYS);
    forall i | 0 <= i < |ps| && ps[i].Tok? ensures ps[i].value.key in GUIDANCE_KEYS <==> IsGuidanceKey(ps[i].value.key) {
      GuidanceKeys(ps[i].value.key);
    }
  }

  lemma NoneUnknown(ps: seq<Piece<Placeholder>>, referenced: set<string>, known: set<string>)
    requires forall k :: k in referenced <==> exists i :: 0 <= i < |ps| && ps[i].Tok? && ps[i].value.key == k
    ensures referenced - known == {} <==> forall i :: 0 <= i < |ps| && ps[i].Tok? ==> ps[i].value.key in known
  {
    if referenced - known == {} {
      forall i | 0 <= i < |ps| && ps[i].Tok? ensures ps[i].value.key in known {
        assert ps[i].value.key !in referenced - known;
      }
    } else {
      var k :| k in referenced - known;
      var i :| 0 <= i < |ps| && ps[i].Tok? && ps[i].value.key == k;
    }
  }

  lemma KeysOfPieces(ps: seq<Piece<Placeholder>>, text: string)
    requires PiecesOf(text) == ps
    ensures forall k :: k in ReferencedKeys(text) <==> exists i :: 0 <= i < |ps| && ps[i].Tok? && ps[i].value.key == k
  {
    hide PiecesOf;
    forall i | 0 <= i < |ps| && ps[i].Tok? ensures ps[i].value.key in ReferencedKeys(text) {
      assert ps[i] in ps && ps[i].value in Values(ps);
    }
    forall k | k in ReferencedKeys(text) ensures exists i :: 0 <= i < |ps| && ps[i].Tok? && ps[i].value.key == k {
      var v :| v in Values(ps) && v.key == k;
      var p :| p in ps && p.Tok? && p.value == v;
    }
  }

  /** `_resolve_system_prompt`: no fetch for a prompt that references nothing. */
  function ResolvePrompt(prompt: string, fetched: Result<Guidance, string>): Result<string, string> {
    if ReferencedKeys(prompt) == {} then Success(prompt)
    else match fetched
      case Success(g) => Success(Substitute(prompt, g))
      case Failure(e) => Failure(e)
  }

  /** Skipping the fetch is invisible: with guidance at hand the result is the unconditional substitution,
      and a failed fetch fails the prompt exactly when the prompt references something. */
  lemma ShortcutIsSubstitution(prompt: string, fetched: Result<Guidance, string>)
    ensures fetched.Success? ==> ResolvePrompt(prompt, fetched) == Success(Substitute(prompt, fetched.value))
    ensures fetched.Failure? ==> (ResolvePrompt(prompt, fetched).Failure? <==> ReferencedKeys(prompt) != {})
  {
    if ReferencedKeys(prompt) == {} && fetched.Success? {
      IdentityWithoutReferences(prompt, fetched.value);
    }
  }
}
