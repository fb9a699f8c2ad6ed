/** Agent files: splitting off the frontmatter, and loading a directory of them. */
module Frontmatter {
  import opened Basics
  import EnvTemplate
  import Placeholders
  import Scanner

  const OPENING := "---\n"
  const FENCE := "\n---\n"

  /** pat occurs in s at position i. */
  predicate At(s: string, i: nat, pat: string) {
    i + |pat| <= |s| && s[i..i + |pat|] == pat
  }

  /** `str.find` with a start position. */
  function Find(s: string, pat: string, start: nat): (r: Option<nat>)
    ensures r.Some? ==> start <= r.value && At(s, r.value, pat) && forall i :: start <= i < r.value ==> !At(s, i, pat)
    ensures r.None? ==> forall i: nat :: start <= i ==> !At(s, i, pat)
    decreases |s| - start
  {
    if start + |pat| > |s| then None
    else if At(s, start, pat) then Some(start)
    else Find(s, pat, start + 1)
  }

  // ---- str.strip ----

  function StripLeft(s: string): string {
    if s != "" && Placeholders.IsSpace(s[0]) then StripLeft(s[1..]) else s
  }

  function StripRight(s: string): string {
    if s != "" && Placeholders.IsSpace(s[|s| - 1]) then StripRight(s[..|s| - 1]) else s
  }

  function Strip(s: string): string {
    StripRight(StripLeft(s))
  }

  ghost predicate Blank(s: string) {
    forall c :: c in s ==> Placeholders.IsSpace(c)
  }

  ghost predicate NoBlankEnds(s: string) {
    s != "" ==> !Placeholders.IsSpace(s[0]) && !Placeholders.IsSpace(s[|s| - 1])
  }

  /** r is s without some blanks on either side. */
  ghost predicate Trims(s: string, left: string, r: string, right: string) {
    s == left + r + right && Blank(left) && Blank(right)
  }

  lemma {:induction false} StripLeftTrims(s: string) returns (left: string)
    ensures s == left + StripLeft(s) && Blank(left)
    ensures StripLeft(s) != "" ==> !Placeholders.IsSpace(StripLeft(s)[0])
  {
    left := "";
    if s != "" && Placeholders.IsSpace(s[0]) {
      left := StripLeftTrims(s[1..]);
      left := [s[0]] + left;
    }
  }

  lemma {:induction false} StripRightTrims(s: string) returns (right: string)
    ensures s == StripRight(s) + right && Blank(right)
    ensures StripRight(s) != "" ==> StripRight(s)[0] == s[0] && !Placeholders.IsSpace(StripRight(s)[|StripRight(s)| - 1])
  {
    right := "";
    if s != "" && Placeholders.IsSpace(s[|s| - 1]) {
      right := StripRightTrims(s[..|s| - 1]);
      right := right + [s[|s| - 1]];
    }
  }

  /** Stripping removes the blanks at both ends, all of them, and nothing else; it leaves nothing exactly
      of a blank text. */
  lemma StripSound(s: string) returns (left: string, right: string)
    ensures Trims(s, left, Strip(s), right) && NoBlankEnds(Strip(s))
    ensures Strip(s) == "" <==> Blank(s)
  {
    left := StripLeftTrims(s);
    right := StripRightTrims(StripLeft(s));
    var r := Strip(s);
    if r != "" {
      assert s[|left|] == r[0] && r[0] in s;
    }
  }

  // ---- The split ----

  datatype SplitError = MissingOpening | Unclosed | EmptyBody

  function Split(text: string): Result<(string, string), SplitError> {
    if !At(text, 0, OPENING) then Failure(MissingOpening)
    else match Find(text, FENCE, 4)
      case None => Failure(Unclosed)
      case Some(end) =>
        var body := Strip(text[end + 5..]);
        if body == "" then Failure(EmptyBody) else Success((text[4..end], body))
  }

  /** The text of an agent file: front matter between the fences, then the rest. */
  function Join(front: string, rest: string): string {
    OPENING + front + FENCE + rest
  }

  /** Front matter that the closing fence cannot be found in too early: the second part is the overlap of
      a last line "---" with the fence that follows it. */
  ghost predicate FenceFree(front: string) {
    && (forall i: nat :: !At(front, i, FENCE))
    && !(4 <= |front| && At(front, |front| - 4, "\n---"))
  }

  /** Where the fence shows up in a joined text before its intended place. */
  lemma EarlyFence(front: string, rest: string, i: nat)
    requires i < |front|
    ensures At(Join(front, rest), i + 4, FENCE) <==> At(front, i, FENCE) || (i + 4 == |front| && At(front, i, "\n---"))
  {
    var text := Join(front, rest);
    var n := |front| - i;
    if n >= 5 {
      assert text[i + 4..i + 9] == front[i..i + 5];
    } else {
      assert text[i + 4..i + 9] == front[i..] + FENCE[..5 - n];
      var w := front[i..] + FENCE[..5 - n];
      if n == 4 {
        assert front[i..i + 4] == front[i..];
        assert FENCE == "\n---" + "\n";
        assert w[..4] == front[i..] && FENCE[..4] == "\n---";
      } else {
        assert w[n] == '\n' && FENCE[n] == '-';
      }
    }
  }

  lemma FenceFound(front: string, rest: string)
    ensures Find(Join(front, rest), FENCE, 4) == Some(|front| + 4) <==> FenceFree(front)
  {
    var text := Join(front, rest);
    assert At(text, |front| + 4, FENCE);
    forall i: nat | i < |front|
      ensures At(text, i + 4, FENCE) <==> At(front, i, FENCE) || (i + 4 == |front| && At(front, i, "\n---"))
    {
      EarlyFence(front, rest, i);
    }
    if FenceFree(front) {
      forall i: nat | 4 <= i < |front| + 4 ensures !At(text, i, FENCE) {
        assert !At(front, i - 4, FENCE);
        assert At(text, (i - 4) + 4, FENCE) <==> At(front, i - 4, FENCE) || (i == |front| && At(front, i - 4, "\n---"));
      }
    } else if 4 <= |front| && At(front, |front| - 4, "\n---") {
      assert At(text, |front| - 4 + 4, FENCE);
    } else {
      var i: nat :| At(front, i, FENCE);
      assert At(text, i + 4, FENCE);
    }
  }

  lemma JoinParts(front: string, rest: string)
    ensures var text := Join(front, rest);
      At(text, 0, OPENING) && text[4..|front| + 4] == front && text[|front| + 9..] == rest
  {
  }

  /** Printing then splitting gives back exactly the front matter and the stripped body, for precisely the
      front matter that neither contains the closing fence nor ends in its first four characters, and the
      bodies that are not blank. */
  lemma SplitInvertsJoin(front: string, rest: string)
    ensures Split("---\n" + front + "\n---\n" + rest) == Success((front, Strip(rest))) <==>
      && (forall i: nat :: !At(front, i, "\n---\n"))
      && !(4 <= |front| && At(front, |front| - 4, "\n---"))
      && !Blank(rest)
  {
    assert Join(front, rest) == "---\n" + front + "\n---\n" + rest;
    JoinSplits(front, rest);
    assert FenceFree(front) <==> (forall i: nat :: !At(front, i, "\n---\n")) && !(4 <= |front| && At(front, |front| - 4, "\n---"));
    hide Split, Join, Strip, Blank, FenceFree;
  }

  lemma JoinSplits(front: string, rest: string)
    ensures Split(Join(front, rest)) == Success((front, Strip(rest))) <==> FenceFree(front) && !Blank(rest)
  {
    var text := Join(front, rest);
    JoinParts(front, rest);
    FenceFound(front, rest);
    var _, _ := StripSound(rest);
    assert At(text, |front| + 4, FENCE) by {
      assert text[|front| + 4..|front| + 9] == FENCE;
    }
    var end := Find(text, FENCE, 4);
    assert |text[4..end.value]| == end.value - 4;
  }

  /** The text is front matter free of the fence, the fences, and the rest. */
  ghost predicate Parts(text: string, front: string, rest: string) {
    text == Join(front, rest) && FenceFree(front)
  }

  lemma SplitParts(text: string, front: string, rest: string)
    requires Parts(text, front, rest)
    ensures Split(text) == if Blank(rest) then Failure(EmptyBody) else Success((front, Strip(rest)))
  {
    JoinParts(front, rest);
    FenceFound(front, rest);
    var _, _ := StripSound(rest);
  }

  /** A text with opening and fence is made of two parts. */
  lemma Recompose(text: string) returns (front: string, rest: string)
    requires At(text, 0, OPENING) && Find(text, FENCE, 4).Some?
    ensures Parts(text, front, rest)
  {
    var end := Find(text, FENCE, 4).value;
    front, rest := text[4..end], text[end + 5..];
    assert text[..4] == OPENING && text[end..end + 5] == FENCE;
    assert text == text[..4] + front + text[end..end + 5] + rest;
    FenceFound(front, rest);
    hide Find, Strip;
  }

  /** Without the opening, or without a closing fence behind it, a text is not split. */
  lemma SplitNeedsFences(text: string)
    ensures Split(text) == Failure(MissingOpening) <==> !At(text, 0, OPENING)
    ensures Split(text) == Failure(Unclosed) <==> At(text, 0, OPENING) && forall i: nat :: 4 <= i ==> !At(text, i, FENCE)
    ensures At(text, 0, OPENING) && (exists i: nat :: 4 <= i && At(text, i, FENCE)) <==> exists front, rest :: Parts(text, front, rest)
  {
    hide Strip;
    if At(text, 0, OPENING) && Find(text, FENCE, 4).Some? {
      var front, rest := Recompose(text);
    }
    forall front, rest | Parts(text, front, rest)
      ensures At(text, 0, OPENING) && At(text, |front| + 4, FENCE)
    {
      JoinParts(front, rest);
      FenceFound(front, rest);
    }
  }

  /** With both, it is split into the only two parts it has, unless the second is blank. */
  lemma SplitExact(text: string, front: string, body: string)
    ensures Split(text) == Success((front, body)) <==> exists rest :: Parts(text, front, rest) && !Blank(rest) && body == Strip(rest)
    ensures Split(text) == Failure(EmptyBody) <==> exists head, rest :: Parts(text, head, rest) && Blank(rest)
  {
    forall head, rest | Parts(text, head, rest)
      ensures Split(text) == if Blank(rest) then Failure(EmptyBody) else Success((head, Strip(rest)))
    {
      SplitParts(text, head, rest);
    }
    if !Split(text).Failure? || Split(text).error == EmptyBody {
      var head, rest := Recompose(text);
      assert Parts(text, head, rest);
    }
    hide Split, Parts, Blank, Strip;
  }

  // ---- Parsing and loading ----

  datatype Agent = Agent(id: string, systemPrompt: string)

  datatype LoadError =
    | BadSplit(error: SplitError)
    | Missing(message: string)
    | UnknownPlaceholder
    | Invalid(message: string)
    | Duplicate(id: string, file: string, earlier: string)

  /** The environment, and what YAML and the schema make of resolved front matter and a body: the agent's id. */
  datatype Context = Context(env: map<string, string>, define: (string, string) -> Result<string, string>)

  function Parse(text: string, c: Context): Result<Agent, LoadError> {
    match Split(text)
    case Failure(e) => Failure(BadSplit(e))
    case Success((front, body)) =>
      match EnvTemplate.ResolveEnv(front, c.env)
      case Failure(name) => Failure(Missing(name))
      case Success(yaml) =>
        if !Placeholders.Validates(body) then Failure(UnknownPlaceholder)
        else match c.define(yaml, body)
          case Failure(m) => Failure(Invalid(m))
          case Success(id) => Success(Agent(id, body))
  }

  /** How a file made of these parts is parsed, stage by stage: the body must not be blank, the environment must
      resolve the front matter, the body's placeholders must be known, and YAML and the schema must accept the
      resolved front matter together with the stripped body. */
  lemma ParseParts(front: string, rest: string, c: Context)
    requires FenceFree(front)
    ensures var r, yaml := Parse(Join(front, rest), c), EnvTemplate.ResolveEnv(front, c.env);
      && (Blank(rest) ==> r == Failure(BadSplit(EmptyBody)))
      && (!Blank(rest) && yaml.Failure? ==> r == Failure(Missing(yaml.error)))
      && (!Blank(rest) && yaml.Success? ==>
            var body := Strip(rest);
            if !(Placeholders.ReferencedKeys(body) <= Placeholders.GUIDANCE_KEYS) then r == Failure(UnknownPlaceholder)
            else if c.define(yaml.value, body).Failure? then r == Failure(Invalid(c.define(yaml.value, body).error))
            else r == Success(Agent(c.define(yaml.value, body).value, body)))
  {
    SplitParts(Join(front, rest), front, rest);
    KnownIsSubset(Strip(rest));
    hide Split, Join, Blank, Strip, FenceFree, EnvTemplate.ResolveEnv, Placeholders.ReferencedKeys, Placeholders.Validates;
  }

  lemma KnownIsSubset(body: string)
    ensures Placeholders.Validates(body) <==> Placeholders.ReferencedKeys(body) <= Placeholders.GUIDANCE_KEYS
  {
    hide Placeholders.ReferencedKeys;
    var unknown := Placeholders.ReferencedKeys(body) - Placeholders.GUIDANCE_KEYS;
    if unknown == {} {
      forall k | k in Placeholders.ReferencedKeys(body) ensures k in Placeholders.GUIDANCE_KEYS {
        assert k !in unknown;
      }
    }
  }

  /** The prompt of a loaded agent is stripped and not blank, and guidance for the six keys resolves it
      without the empty default. */
  lemma LoadedPrompt(text: string, c: Context, g: map<string, string>, default: string)
    requires Parse(text, c).Success? && Placeholders.GUIDANCE_KEYS <= g.Keys
    ensures var p := Parse(text, c).value.systemPrompt;
      && p != "" && NoBlankEnds(p)
      && Placeholders.Substitute(p, g) == Scanner.Sub(Placeholders.PiecesOf(p), Placeholders.ValueFor(g, default))
  {
    var end := Find(text, FENCE, 4).value;
    var _, _ := StripSound(text[end + 5..]);
    Placeholders.ValidatedNeedsNoDefault(Strip(text[end + 5..]), g, default);
  }

  datatype File = File(name: string, text: string)

  /** Every file parses, and the ids are all different. */
  ghost predicate Loadable(files: seq<File>, c: Context) {
    && (forall i :: 0 <= i < |files| ==> Parse(files[i].text, c).Success?)
    && (forall i, j :: 0 <= i < j < |files| ==> Parse(files[i].text, c).value.id != Parse(files[j].text, c).value.id)
  }

  /** File i parses, but file j already has its id. */
  ghost predicate Repeats(files: seq<File>, c: Context, i: nat, j: int, e: LoadError)
    requires i < |files| && Parse(files[i].text, c).Success? && Loadable(files[..i], c)
  {
    0 <= j < i &&
    var id := Parse(files[i].text, c).value.id;
    Parse(files[j].text, c).value.id == id && e == Duplicate(id, files[i].name, files[j].name)
  }

  /** What is wrong with file i, the files before it being fine. */
  ghost predicate Faulty(files: seq<File>, c: Context, i: int, e: LoadError) {
    0 <= i < |files| && Loadable(files[..i], c) &&
    match Parse(files[i].text, c)
    case Failure(pe) => e == pe
    case Success(agent) => exists j :: Repeats(files, c, i, j, e)
  }

  /** `load_agent_files` over the files of the directory in sorted order. */
  method LoadAgentFiles(files: seq<File>, c: Context) returns (r: Result<seq<Agent>, LoadError>)
    ensures r.Success? <==> Loadable(files, c)
    ensures r.Success? ==> |r.value| == |files| && forall i :: 0 <= i < |files| ==> Parse(files[i].text, c) == Success(r.value[i])
    ensures r.Failure? ==> exists i :: Faulty(files, c, i, r.error)
  {
    hide Parse;
    var agents: seq<Agent> := [];
    var seenIds: map<string, string> := map[];
    for i := 0 to |files|
      invariant Loadable(files[..i], c)
      invariant |agents| == i && forall j :: 0 <= j < i ==> Parse(files[j].text, c) == Success(agents[j])
      invariant forall j :: 0 <= j < i ==> agents[j].id in seenIds
      invariant forall id :: id in seenIds ==> exists j :: 0 <= j < i && agents[j].id == id && seenIds[id] == files[j].name
    {
      var parsed := Parse(files[i].text, c);
      if parsed.Failure? {
        assert Faulty(files, c, i, parsed.error);
        return Failure(parsed.error);
      }
      var agent := parsed.value;
      if agent.id in seenIds {
        var e := Duplicate(agent.id, files[i].name, seenIds[agent.id]);
        ghost var j :| 0 <= j < i && agents[j].id == agent.id && seenIds[agent.id] == files[j].name;
        assert Repeats(files, c, i, j, e);
        assert Faulty(files, c, i, e);
        return Failure(e);
      }
      seenIds := seenIds[agent.id := files[i].name];
      agents := agents + [agent];
    }
    assert files[..|files|] == files;
    r := Success(agents);
  }
}
