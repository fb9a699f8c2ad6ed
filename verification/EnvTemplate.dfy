/** `${VAR}` and `${VAR:-default}` tokens in configuration values. */
module EnvTemplate {
  import opened Basics
  import opened Scanner

  datatype Ref = Ref(name: string, default: Option<string>)

  predicate IsNameStart(c: char) {
    'A' <= c <= 'Z' || 'a' <= c <= 'z' || c == '_'
  }

  predicate IsNameChar(c: char) {
    IsNameStart(c) || '0' <= c <= '9'
  }

  predicate NotBrace(c: char) { c != '}' }

  /** The pattern: "${", a name, optionally ":-" and a default up to the brace, "}". */
  function ReadRef(s: string): Option<(Ref, string)> {
    match Strip(s, "${")
    case None => None
    case Some(t) =>
      var (name, u) := TakeRun(t, IsNameChar);
      if name == "" || !IsNameStart(name[0]) then None
      else match ReadClose(u)
        case None => None
        case Some((default, rest)) => Some((Ref(name, default), rest))
  }

  function ReadClose(s: string): Option<(Option<string>, string)> {
    match Strip(s, "}")
    case Some(rest) => Some((None, rest))
    case None =>
      match Strip(s, ":-")
      case None => None
      case Some(t) =>
        var (default, u) := TakeRun(t, NotBrace);
        match Strip(u, "}")
        case None => None
        case Some(rest) => Some((Some(default), rest))
  }

  // ---- What a token is, independently of how it is found ----

  ghost predicate ValidDefault(default: Option<string>) {
    default.Some? ==> '}' !in default.value
  }

  /** A name: ASCII letters, digits and underscores, not beginning with a digit. */
  ghost predicate ValidName(name: string) {
    && name != "" && !('0' <= name[0] <= '9')
    && forall c :: c in name ==> 'A' <= c <= 'Z' || 'a' <= c <= 'z' || '0' <= c <= '9' || c == '_'
  }

  ghost predicate ValidRef(r: Ref) {
    ValidName(r.name) && ValidDefault(r.default)
  }

  lemma NameIsRun(name: string)
    ensures ValidName(name) <==> name != "" && IsNameStart(name[0]) && AllIn(name, IsNameChar)
  {
    if name != "" && AllIn(name, IsNameChar) {
      forall c | c in name ensures IsNameChar(c) {
        var i :| 0 <= i < |name| && name[i] == c;
      }
    }
    if ValidName(name) {
      forall i | 0 <= i < |name| ensures IsNameChar(name[i]) {
        assert name[i] in name;
      }
      assert name[0] in name;
    }
  }

  lemma DefaultIsRun(default: string)
    ensures '}' !in default <==> AllIn(default, NotBrace)
  {
    if '}' in default {
      var i :| 0 <= i < |default| && default[i] == '}';
      assert !NotBrace(default[i]);
    }
  }

  function PrintClose(default: Option<string>): string {
    if default.Some? then ":-" + default.value + "}" else "}"
  }

  function Print(r: Ref): string {
    "${" + r.name + PrintClose(r.default)
  }

  lemma ReadCloseComplete(default: Option<string>, rest: string)
    requires ValidDefault(default)
    ensures ReadClose(PrintClose(default) + rest) == Some((default, rest))
  {
    var s := PrintClose(default) + rest;
    if default.Some? {
      var d := default.value;
      DefaultIsRun(d);
      assert s == ":-" + (d + ("}" + rest));
      StripLiteral(":-", d + ("}" + rest));
      TakeWholeRun(d, "}" + rest, NotBrace);
      StripLiteral("}", rest);
    } else {
      StripLiteral("}", rest);
    }
  }

  lemma ReadRefComplete(r: Ref, rest: string)
    requires ValidRef(r)
    ensures ReadRef(Print(r) + rest) == Some((r, rest))
  {
    var close := PrintClose(r.default) + rest;
    ReadCloseComplete(r.default, rest);
    NameIsRun(r.name);
    assert !IsNameChar(close[0]);
    hide ReadClose, PrintClose, ValidDefault, ValidName;
    assert Print(r) + rest == "${" + (r.name + close);
    StripLiteral("${", r.name + close);
    TakeWholeRun(r.name, close, IsNameChar);
  }

  lemma ReadRefSound(s: string)
    requires ReadRef(s).Some?
    ensures ValidRef(ReadRef(s).value.0) && s == Print(ReadRef(s).value.0) + ReadRef(s).value.1
  {
    var t := Strip(s, "${").value;
    var (name, u) := TakeRun(t, IsNameChar);
    var (default, rest) := ReadClose(u).value;
    ReadCloseSound(u);
    NameIsRun(name);
    hide ReadClose, PrintClose, ValidDefault, ValidName, Strip, TakeRun;
    Assoc("${", name, u);
    Assoc("${" + name, PrintClose(default), rest);
  }

  lemma ReadCloseSound(s: string)
    requires ReadClose(s).Some?
    ensures ValidDefault(ReadClose(s).value.0) && s == PrintClose(ReadClose(s).value.0) + ReadClose(s).value.1
  {
    if Strip(s, "}").None? {
      var (d, u) := TakeRun(Strip(s, ":-").value, NotBrace);
      var rest := Strip(u, "}").value;
      DefaultIsRun(d);
      hide Strip, TakeRun;
      Assoc(":-", d, u);
      Assoc(":-" + d, "}", rest);
    }
  }

  /** A token is found exactly where the text begins with one, and is read back: the pattern is unambiguous. */
  lemma ReadRefExact(s: string, r: Ref, rest: string)
    ensures ValidRef(r) && s == Print(r) + rest <==> ReadRef(s) == Some((r, rest))
  {
    if ValidRef(r) && s == Print(r) + rest {
      ReadRefComplete(r, rest);
    }
    if ReadRef(s).Some? {
      ReadRefSound(s);
    }
    hide ReadRef, ValidRef, Print;
  }

  function MatchRef(): Matcher<Ref> { Reading(ReadRef) }

  // ---- resolve_env ----

  type Env = map<string, string>

  function Lookup(r: Ref, env: Env): Option<string> {
    if r.name in env then Some(env[r.name]) else r.default
  }

  /** Pieces resolved in order; the first token with neither value nor default is the error. */
  function Resolve(ps: seq<Piece<Ref>>, env: Env): Result<string, string> {
    if ps == [] then Success("")
    else
      var here := if ps[0].Lit? then Some([ps[0].c]) else Lookup(ps[0].value, env);
      if here.None? then Failure(ps[0].value.name)
      else match Resolve(ps[1..], env)
        case Success(rest) => Success(here.value + rest)
        case Failure(e) => Failure(e)
  }

  function ResolveEnv(value: string, env: Env): Result<string, string> {
    ReadingProper(ReadRef);
    Resolve(Scan(MatchRef(), value), env)
  }

  predicate Unresolvable(p: Piece<Ref>, env: Env) {
    p.Tok? && Lookup(p.value, env).None?
  }

  /** Resolving is replacing each token by its value, and fails exactly when some token has none; the
      error names the first such token. */
  lemma {:induction false} ResolveIsSub(ps: seq<Piece<Ref>>, env: Env)
    ensures Resolve(ps, env).Failure? <==> exists i :: 0 <= i < |ps| && Unresolvable(ps[i], env)
    ensures Resolve(ps, env).Success? ==> Resolve(ps, env).value == Sub(ps, r => Lookup(r, env).GetOr(""))
    ensures Resolve(ps, env).Failure? ==> exists i :: FirstUnresolvable(ps, i, env) && ps[i].value.name == Resolve(ps, env).error
  {
    if ps != [] {
      ResolveIsSub(ps[1..], env);
      if Unresolvable(ps[0], env) {
        assert FirstUnresolvable(ps, 0, env);
      } else if Resolve(ps[1..], env).Failure? {
        var i :| FirstUnresolvable(ps[1..], i, env) && ps[1..][i].value.name == Resolve(ps[1..], env).error;
        assert ps[i + 1] == ps[1..][i];
        assert FirstUnresolvable(ps, i + 1, env) by {
          assert forall j :: 0 < j < i + 1 ==> ps[j] == ps[1..][j - 1];
        }
      } else {
        assert forall j :: 0 < j < |ps| ==> ps[j] == ps[1..][j - 1];
      }
    }
  }

  ghost predicate FirstUnresolvable(ps: seq<Piece<Ref>>, i: int, env: Env) {
    0 <= i < |ps| && Unresolvable(ps[i], env) && forall j :: 0 <= j < i ==> !Unresolvable(ps[j], env)
  }

  // ---- Printing and resolving ----

  /** A template as its author writes it: tokens are well formed, and the literal text between them does not
      contain "${". */
  ghost predicate Template(ps: seq<Piece<Ref>>) {
    && (forall i :: 0 <= i < |ps| && ps[i].Tok? ==> ValidRef(ps[i].value) && ps[i].text == Print(ps[i].value))
    && (forall i :: 0 <= i < |ps| - 1 ==> !(ps[i] == Lit('$') && ps[i + 1] == Lit('{')))
  }

  lemma TemplateCanonical(ps: seq<Piece<Ref>>)
    requires Template(ps)
    ensures Canonical(MatchRef(), ps)
  {
    forall i | 0 <= i < |ps|
      ensures MatchRef()(Text(ps[i..])) == if ps[i].Lit? then None else Some(Hit(|ps[i].text|, ps[i].value))
    {
      assert ps[i..][0] == ps[i] && ps[i..][1..] == ps[i + 1..];
      if ps[i].Tok? {
        TokenRead(ps[i].value, ps[i].text, Text(ps[i + 1..]));
      } else {
        LiteralUnread(ps, i);
      }
      hide ReadRef;
    }
  }

  lemma TokenRead(r: Ref, text: string, rest: string)
    requires ValidRef(r) && text == Print(r)
    ensures MatchRef()(text + rest) == Some(Hit(|text|, r))
  {
    ReadRefComplete(r, rest);
    assert |text| > 0;
    hide ReadRef, ValidRef, Print;
    assert |text + rest| == |text| + |rest|;
  }

  lemma LiteralUnread(ps: seq<Piece<Ref>>, i: nat)
    requires Template(ps) && i < |ps| && ps[i].Lit?
    ensures ReadRef(Text(ps[i..])).None?
  {
    var s := Text(ps[i..]);
    assert ps[i..][0] == ps[i] && ps[i..][1..] == ps[i + 1..];
    assert s == [ps[i].c] + Text(ps[i + 1..]);
    if i + 1 < |ps| {
      assert ps[i + 1..][0] == ps[i + 1];
      assert ps[i + 1].Tok? ==> TextOf(ps[i + 1])[0] == '$';
      assert s[1] == TextOf(ps[i + 1])[0];
    } else {
      assert ps[i + 1..] == [];
    }
    assert !(|s| >= 2 && s[0] == '$' && s[1] == '{');
    assert Strip(s, "${").None?;
  }

  /** What resolving the pieces must give: every token its environment value or else its default, every
      literal itself; and a failure exactly when some token has neither, naming the first such token. */
  ghost predicate ResolvedAs(result: Result<string, string>, ps: seq<Piece<Ref>>, env: Env) {
    var value := (r: Ref) => if r.name in env then env[r.name] else if r.default.Some? then r.default.value else "";
    && (result.Failure? <==> exists i :: Lacking(ps, i, env))
    && (result.Failure? ==> exists i :: Lacking(ps, i, env) && ps[i].value.name == result.error && forall j :: j < i ==> !Lacking(ps, j, env))
    && (result.Success? ==> result.value == Sub(ps, value))
  }

  /** Piece i is a token with neither an environment value nor a default. */
  ghost predicate Lacking(ps: seq<Piece<Ref>>, i: int, env: Env) {
    0 <= i < |ps| && ps[i].Tok? && ps[i].value.name !in env && ps[i].value.default.None?
  }

  lemma ResolveMeans(ps: seq<Piece<Ref>>, env: Env)
    ensures ResolvedAs(Resolve(ps, env), ps, env)
  {
    ResolveIsSub(ps, env);
    assert forall i :: Lacking(ps, i, env) <==> 0 <= i < |ps| && Unresolvable(ps[i], env);
    var f := (r: Ref) => if r.name in env then env[r.name] else if r.default.Some? then r.default.value else "";
    SubReadsValues(ps, r => Lookup(r, env).GetOr(""), f);
    if Resolve(ps, env).Failure? {
      var i :| FirstUnresolvable(ps, i, env) && ps[i].value.name == Resolve(ps, env).error;
      assert Lacking(ps, i, env);
    }
    hide Resolve, Lookup, Unresolvable, Sub;
  }

  lemma TemplateResolves(ps: seq<Piece<Ref>>, env: Env)
    requires Template(ps)
    ensures ResolveEnv(Text(ps), env) == Resolve(ps, env)
  {
    ReadingProper(ReadRef);
    TemplateCanonical(ps);
    ScanInvertsText(MatchRef(), ps);
    hide Template, Canonical, Resolve;
  }

  /** Printing any template and resolving the text gives the concatenation of literals, environment values
      and defaults, and fails exactly when some token of the template has neither. */
  lemma RoundTrip(ps: seq<Piece<Ref>>, env: Env)
    requires Template(ps)
    ensures ResolvedAs(ResolveEnv(Text(ps), env), ps, env)
  {
    TemplateResolves(ps, env);
    ResolveMeans(ps, env);
    hide Template, ResolvedAs;
  }

  /** Any text at all is resolved so, in the pieces its leftmost tokens cut it into. */
  lemma AnyText(s: string, env: Env) returns (ps: seq<Piece<Ref>>)
    ensures Text(ps) == s && Canonical(MatchRef(), ps)
    ensures ResolvedAs(ResolveEnv(s, env), ps, env)
  {
    ReadingProper(ReadRef);
    ps := Scan(MatchRef(), s);
    ScanKeepsText(MatchRef(), s);
    ScanIsCanonical(MatchRef(), s);
    ResolveMeans(ps, env);
    hide Canonical, ResolvedAs;
  }

  /** One token alone: the environment comes first, then the default, then the failure. */
  lemma OneToken(r: Ref, env: Env)
    requires ValidRef(r)
    ensures ResolveEnv(Print(r), env) ==
      if r.name in env then Success(env[r.name]) else if r.default.Some? then Success(r.default.value) else Failure(r.name)
  {
    var ps: seq<Piece<Ref>> := [Tok(Print(r), r)];
    TextOfToken(Print(r), r);
    TemplateResolves(ps, env);
    ResolveOne(Print(r), r, env);
    hide Print, ResolveEnv, Resolve;
  }

  lemma TextOfToken(text: string, r: Ref)
    ensures Text([Tok(text, r)]) == text
  {
    var ps: seq<Piece<Ref>> := [Tok(text, r)];
    assert ps[1..] == [] && Text(ps[1..]) == "" && text + "" == text;
  }

  lemma ResolveOne(text: string, r: Ref, env: Env)
    ensures Resolve([Tok(text, r)], env) ==
      if r.name in env then Success(env[r.name]) else if r.default.Some? then Success(r.default.value) else Failure(r.name)
  {
    var ps: seq<Piece<Ref>> := [Tok(text, r)];
    assert ps[1..] == [] && Resolve(ps[1..], env) == Success("");
    var here := Lookup(r, env).GetOr("");
    assert here + "" == here;
  }

  /** The bearer token of the shipped configuration. */
  lemma ShippedBearerToken(env: Env)
    ensures ResolveEnv("${SAGA_MCP_TOKEN:-changeme}", env) ==
      Success(if "SAGA_MCP_TOKEN" in env then env["SAGA_MCP_TOKEN"] else "changeme")
  {
    var r := Ref("SAGA_MCP_TOKEN", Some("changeme"));
    BearerTokenPrinted();
    BearerTokenValid();
    hide Print, ValidRef, ResolveEnv;
    OneToken(r, env);
  }

  lemma BearerTokenPrinted()
    ensures Print(Ref("SAGA_MCP_TOKEN", Some("changeme"))) == "${SAGA_MCP_TOKEN:-changeme}"
  {
  }

  lemma BearerTokenValid()
    ensures ValidRef(Ref("SAGA_MCP_TOKEN", Some("changeme")))
  {
  }

  // ---- resolve_tree ----

  datatype Entry = Entry(key: string, node: Node)
  datatype Node = Dict(entries: seq<Entry>) | List(items: seq<Node>) | Leaf(text: string) | Other(repr: string)

  function ResolveTree(n: Node, env: Env): Result<Node, string>
    decreases n
  {
    match n
    case Dict(entries) =>
      (match ResolveEntries(entries, env) case Success(r) => Success(Dict(r)) case Failure(e) => Failure(e))
    case List(items) =>
      (match ResolveItems(items, env) case Success(r) => Success(List(r)) case Failure(e) => Failure(e))
    case Leaf(text) =>
      (match ResolveEnv(text, env) case Success(r) => Success(Leaf(r)) case Failure(e) => Failure(e))
    case Other(_) => Success(n)
  }

  function ResolveItems(items: seq<Node>, env: Env): Result<seq<Node>, string>
    decreases items
  {
    if items == [] then Success([])
    else match ResolveTree(items[0], env)
      case Failure(e) => Failure(e)
      case Success(first) =>
        match ResolveItems(items[1..], env)
        case Failure(e) => Failure(e)
        case Success(rest) => Success([first] + rest)
  }

  function ResolveEntries(entries: seq<Entry>, env: Env): Result<seq<Entry>, string>
    decreases entries
  {
    if entries == [] then Success([])
    else match ResolveTree(entries[0].node, env)
      case Failure(e) => Failure(e)
      case Success(first) =>
        match ResolveEntries(entries[1..], env)
        case Failure(e) => Failure(e)
        case Success(rest) => Success([Entry(entries[0].key, first)] + rest)
  }

  /** The string leaves in document order. */
  function Leaves(n: Node): seq<string>
    decreases n
  {
    match n
    case Dict(entries) => EntryLeaves(entries)
    case List(items) => ItemLeaves(items)
    case Leaf(text) => [text]
    case Other(_) => []
  }

  function ItemLeaves(items: seq<Node>): seq<string>
    decreases items
  {
    if items == [] then [] else Leaves(items[0]) + ItemLeaves(items[1..])
  }

  function EntryLeaves(entries: seq<Entry>): seq<string>
    decreases entries
  {
    if entries == [] then [] else Leaves(entries[0].node) + EntryLeaves(entries[1..])
  }

  /** The tree with its string leaves blanked: its shape, keys and other scalars. */
  function Skeleton(n: Node): Node
    decreases n
  {
    match n
    case Dict(entries) => Dict(EntrySkeletons(entries))
    case List(items) => List(ItemSkeletons(items))
    case Leaf(_) => Leaf("")
    case Other(_) => n
  }

  function ItemSkeletons(items: seq<Node>): seq<Node>
    decreases items
  {
    if items == [] then [] else [Skeleton(items[0])] + ItemSkeletons(items[1..])
  }

  function EntrySkeletons(entries: seq<Entry>): seq<Entry>
    decreases entries
  {
    if entries == [] then [] else [Entry(entries[0].key, Skeleton(entries[0].node))] + EntrySkeletons(entries[1..])
  }

  /** Every text resolved in turn, up to the first that fails. */
  function ResolveAll(texts: seq<string>, env: Env): Result<seq<string>, string> {
    if texts == [] then Success([])
    else match ResolveEnv(texts[0], env)
      case Failure(e) => Failure(e)
      case Success(first) =>
        match ResolveAll(texts[1..], env)
        case Failure(e) => Failure(e)
        case Success(rest) => Success([first] + rest)
  }

  lemma {:induction false} ResolveAllConcat(a: seq<string>, b: seq<string>, env: Env)
    ensures ResolveAll(a + b, env) ==
      match ResolveAll(a, env)
      case Failure(e) => Failure(e)
      case Success(x) => (match ResolveAll(b, env) case Failure(e) => Failure(e) case Success(y) => Success(x + y))
  {
    hide ResolveEnv;
    if a == [] {
      assert a + b == b;
      assert forall y: seq<string> :: [] + y == y;
    } else {
      ResolveAllConcat(a[1..], b, env);
      assert (a + b)[1..] == a[1..] + b;
      assert forall f: string, x: seq<string>, y: seq<string> :: [f] + x + y == [f] + (x + y);
    }
  }

  /** What resolving must do to a whole tree: same skeleton, leaves resolved one by one, and the same first
      failure in document order. */
  ghost predicate TreeResolved(n: Node, env: Env) {
    match ResolveTree(n, env)
    case Success(r) => Skeleton(r) == Skeleton(n) && ResolveAll(Leaves(n), env) == Success(Leaves(r))
    case Failure(e) => ResolveAll(Leaves(n), env) == Failure(e)
  }

  ghost predicate ItemsResolved(items: seq<Node>, env: Env) {
    match ResolveItems(items, env)
    case Success(r) => ItemSkeletons(r) == ItemSkeletons(items) && ResolveAll(ItemLeaves(items), env) == Success(ItemLeaves(r))
    case Failure(e) => ResolveAll(ItemLeaves(items), env) == Failure(e)
  }

  ghost predicate EntriesResolved(entries: seq<Entry>, env: Env) {
    match ResolveEntries(entries, env)
    case Success(r) => EntrySkeletons(r) == EntrySkeletons(entries) && ResolveAll(EntryLeaves(entries), env) == Success(EntryLeaves(r))
    case Failure(e) => ResolveAll(EntryLeaves(entries), env) == Failure(e)
  }

  /** Resolving a tree keeps its shape, its keys and its other scalars, resolves every string leaf, and
      fails exactly when some leaf fails, with the first leaf's error. */
  lemma {:induction false} ResolveTreeLiftsResolveEnv(n: Node, env: Env)
    ensures TreeResolved(n, env)
    decreases n
  {
    hide ResolveEnv;
    match n
    case Dict(entries) => ResolveEntriesLift(entries, env);
    case List(items) => ResolveItemsLift(items, env);
    case Leaf(text) => ResolveAllSingle(text, env);
    case Other(_) =>
  }

  lemma ResolveAllSingle(text: string, env: Env)
    ensures ResolveAll([text], env) == match ResolveEnv(text, env) case Failure(e) => Failure(e) case Success(r) => Success([r])
  {
    hide ResolveEnv;
    var texts := [text];
    assert texts[1..] == [] && ResolveAll(texts[1..], env) == Success([]);
    assert forall r: string :: [r] + [] == [r];
  }

  lemma {:induction false} ResolveItemsLift(items: seq<Node>, env: Env)
    ensures ItemsResolved(items, env)
    decreases items
  {
    hide ResolveEnv;
    if items != [] {
      ResolveTreeLiftsResolveEnv(items[0], env);
      ResolveItemsLift(items[1..], env);
      ResolveAllConcat(Leaves(items[0]), ItemLeaves(items[1..]), env);
    }
  }

  lemma {:induction false} ResolveEntriesLift(entries: seq<Entry>, env: Env)
    ensures EntriesResolved(entries, env)
    decreases entries
  {
    hide ResolveEnv;
    if entries != [] {
      ResolveTreeLiftsResolveEnv(entries[0].node, env);
      ResolveEntriesLift(entries[1..], env);
      ResolveAllConcat(Leaves(entries[0].node), EntryLeaves(entries[1..]), env);
    }
  }

  lemma {:induction false} ResolveAllFailsIff(texts: seq<string>, env: Env)
    ensures ResolveAll(texts, env).Failure? <==> exists i :: 0 <= i < |texts| && ResolveEnv(texts[i], env).Failure?
    ensures ResolveAll(texts, env).Success? ==> |ResolveAll(texts, env).value| == |texts|
    ensures ResolveAll(texts, env).Success? ==>
      forall i :: 0 <= i < |texts| ==> ResolveEnv(texts[i], env) == Success(ResolveAll(texts, env).value[i])
  {
    hide ResolveEnv;
    if texts != [] {
      ResolveAllFailsIff(texts[1..], env);
      assert forall i :: 0 < i < |texts| ==> texts[i] == texts[1..][i - 1];
      if ResolveEnv(texts[0], env).Success? && ResolveAll(texts[1..], env).Failure? {
        var i :| 0 <= i < |texts[1..]| && ResolveEnv(texts[1..][i], env).Failure?;
        assert ResolveEnv(texts[i + 1], env).Failure?;
      }
    }
  }

  lemma {:induction false} ItemsByIndex(items: seq<Node>, env: Env)
    ensures ResolveItems(items, env).Failure? <==> exists i :: 0 <= i < |items| && ResolveTree(items[i], env).Failure?
    ensures ResolveItems(items, env).Success? ==> |ResolveItems(items, env).value| == |items|
    ensures ResolveItems(items, env).Success? ==>
      forall i :: 0 <= i < |items| ==> ResolveTree(items[i], env) == Success(ResolveItems(items, env).value[i])
  {
    if items != [] {
      ItemsByIndex(items[1..], env);
      hide ResolveTree;
      assert forall i :: 0 < i < |items| ==> items[i] == items[1..][i - 1];
      if ResolveTree(items[0], env).Success? && ResolveItems(items[1..], env).Failure? {
        var i :| 0 <= i < |items[1..]| && ResolveTree(items[1..][i], env).Failure?;
        assert ResolveTree(items[i + 1], env).Failure?;
      }
    }
  }

  lemma {:induction false} EntriesByIndex(entries: seq<Entry>, env: Env)
    ensures ResolveEntries(entries, env).Failure? <==> exists i :: 0 <= i < |entries| && ResolveTree(entries[i].node, env).Failure?
    ensures ResolveEntries(entries, env).Success? ==> |ResolveEntries(entries, env).value| == |entries|
    ensures ResolveEntries(entries, env).Success? ==>
      forall i :: 0 <= i < |entries| ==> var e := ResolveEntries(entries, env).value[i];
        e.key == entries[i].key && ResolveTree(entries[i].node, env) == Success(e.node)
  {
    if entries != [] {
      EntriesByIndex(entries[1..], env);
      hide ResolveTree;
      assert forall i :: 0 < i < |entries| ==> entries[i] == entries[1..][i - 1];
      if ResolveTree(entries[0].node, env).Success? && ResolveEntries(entries[1..], env).Failure? {
        var i :| 0 <= i < |entries[1..]| && ResolveTree(entries[1..][i].node, env).Failure?;
        assert ResolveTree(entries[i + 1].node, env).Failure?;
      }
    }
  }

  ghost predicate EntriesMatch(entries: seq<Entry>, resolved: seq<Entry>, env: Env) {
    && |resolved| == |entries|
    && (forall i :: 0 <= i < |entries| ==> resolved[i].key == entries[i].key)
    && (forall i :: 0 <= i < |entries| ==> ResolveTree(entries[i].node, env) == Success(resolved[i].node))
  }

  ghost predicate ItemsMatch(items: seq<Node>, resolved: seq<Node>, env: Env) {
    |resolved| == |items| && forall i :: 0 <= i < |items| ==> ResolveTree(items[i], env) == Success(resolved[i])
  }

  /** The resolved tree, child by child: a dict keeps its keys in order and a list its length, with every child
      resolved; a string is resolved; anything else is returned as it is. */
  lemma TreeByNode(n: Node, env: Env)
    ensures var r := ResolveTree(n, env);
      && (n.Dict? ==> (r.Failure? <==> exists i :: 0 <= i < |n.entries| && ResolveTree(n.entries[i].node, env).Failure?))
      && (n.Dict? && r.Success? ==> r.value.Dict? && EntriesMatch(n.entries, r.value.entries, env))
    ensures var r := ResolveTree(n, env);
      && (n.List? ==> (r.Failure? <==> exists i :: 0 <= i < |n.items| && ResolveTree(n.items[i], env).Failure?))
      && (n.List? && r.Success? ==> r.value.List? && ItemsMatch(n.items, r.value.items, env))
    ensures n.Leaf? && ResolveEnv(n.text, env).Success? ==> ResolveTree(n, env) == Success(Leaf(ResolveEnv(n.text, env).value))
    ensures n.Leaf? && ResolveEnv(n.text, env).Failure? ==> ResolveTree(n, env) == Failure(ResolveEnv(n.text, env).error)
    ensures n.Other? ==> ResolveTree(n, env) == Success(n)
  {
    hide ResolveEnv;
    match n
    case Dict(entries) => EntriesByIndex(entries, env);
    case List(items) => ItemsByIndex(items, env);
    case Leaf(_) =>
    case Other(_) =>
  }
}
