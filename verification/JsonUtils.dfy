/** src/core/json_utils.py: extracting a JSON object from an LLM response. */
module JsonUtils {
  import opened PyText
  import opened Json
  import JsonPrint
  import JsonText
  import LlmUtils

  /** A parsed dict, or `JsonParseError` with its snippet. */
  datatype Outcome = Found(dict: Json) | JsonParseError(rawSnippet: string)

  /** The object a strategy found; anything else lets the next strategy run. */
  function Dict(v: Option<Json>): (r: Option<Json>)
    ensures r.Some? ==> r.value.Obj? && v == r
  {
    if v.Some? && v.value.Obj? then v else None
  }

  predicate Ticks(s: string) {
    |s| >= 3 && s[0] == '`' && s[1] == '`' && s[2] == '`'
  }

  /** Where the first run of three back-ticks begins. */
  function FindTicks(s: string): (r: Option<nat>)
    ensures r.Some? ==> r.value <= |s|
  {
    if s == "" then None
    else if Ticks(s) then Some(0)
    else match FindTicks(s[1..])
      case Some(i) => Some(i + 1)
      case None => None
  }

  /** The group of a fence that opens with three back-ticks and `tag` at the head of s. */
  function FenceAt(s: string, tag: string): Option<string> {
    if Ticks(s) && 3 + |tag| <= |s| && LlmUtils.NameMatches(s[3..3 + |tag|], tag) then
      var body := TrimLeft(s[3 + |tag|..]);
      match FindTicks(body)
      case Some(k) => Some(body[..k])
      case None => None
    else None
  }

  function SearchFence(s: string, tag: string): Option<string> {
    if FenceAt(s, tag).Some? || s == "" then FenceAt(s, tag) else SearchFence(s[1..], tag)
  }

  /** `s.find(c)`, None for -1. */
  function Find(s: string, c: char): (r: Option<nat>)
    ensures r.Some? ==> r.value < |s| && s[r.value] == c
  {
    if s == "" then None
    else if s[0] == c then Some(0)
    else match Find(s[1..], c)
      case Some(i) => Some(i + 1)
      case None => None
  }

  function FindLast(s: string, c: char): (r: Option<nat>)
    ensures r.Some? ==> r.value < |s| && s[r.value] == c
  {
    if s == "" then None
    else if s[|s| - 1] == c then Some(|s| - 1)
    else FindLast(s[..|s| - 1], c)
  }

  function Plain(normalized: string): Option<Json> {
    Dict(Loads(Trim(normalized)))
  }

  function Fenced(normalized: string, tag: string): Option<Json> {
    match SearchFence(normalized, tag)
    case Some(group) => Dict(Loads(Trim(group)))
    case None => None
  }

  /** Pass A: the slice from the first '{' to the last '}'. */
  function PassA(normalized: string): Option<Json> {
    match (Find(normalized, '{'), FindLast(normalized, '}'))
    case (Some(i), Some(j)) => if i < j then Dict(Loads(normalized[i..j + 1])) else None
    case _ => None
  }

  /** Pass B: `raw_decode` from the first '{'. */
  function PassB(normalized: string): Option<Json> {
    match Find(normalized, '{')
    case Some(i) => (match Value(normalized[i..]) case Parsed(v, _) => Dict(Some(v)) case Failed => None)
    case None => None
  }

  function Snippet(raw: string): string {
    if |raw| <= 200 then raw else raw[..200]
  }

  function SafeJsonParse(word: char -> bool, raw: string): Outcome {
    var n := LlmUtils.StripReasoningBlocks(word, raw);
    if Plain(n).Some? then Found(Plain(n).value)
    else if Fenced(n, "json").Some? then Found(Fenced(n, "json").value)
    else if Fenced(n, "").Some? then Found(Fenced(n, "").value)
    else if PassA(n).Some? then Found(PassA(n).value)
    else if PassB(n).Some? then Found(PassB(n).value)
    else JsonParseError(Snippet(raw))
  }

  // ---- The strategies that look for braces never disagree ----

  lemma {:induction false} FindFirst(pre: string, rest: string, c: char)
    requires c !in pre && rest != "" && rest[0] == c
    ensures Find(pre + rest, c) == Some(|pre|)
  {
    if pre == "" {
      assert pre + rest == rest;
    } else {
      assert (pre + rest)[1..] == pre[1..] + rest;
      FindFirst(pre[1..], rest, c);
    }
  }

  lemma {:induction false} BeforeFound(s: string, c: char)
    requires Find(s, c).Some?
    ensures c !in s[..Find(s, c).value]
  {
    if s[0] != c {
      BeforeFound(s[1..], c);
      assert s[..Find(s, c).value] == [s[0]] + s[1..][..Find(s[1..], c).value];
    }
  }

  /** An object text read whole is read the same from any longer text it starts. */
  lemma ObjectReadFromLonger(o: string, more: string)
    requires o != "" && o[0] == '{' && Dict(Loads(o)).Some?
    ensures Value(o + more).Parsed? && Some(Value(o + more).value) == Loads(o)
  {
    hide Value;
    assert SkipWs(o) == o;
    ValueMore(o, more);
  }

  /** Whenever Pass A succeeds, Pass B returns the same object. */
  lemma PassesAgree(n: string)
    requires PassA(n).Some?
    ensures PassB(n) == PassA(n)
  {
    hide Value, Loads;
    var i, j := Find(n, '{').value, FindLast(n, '}').value;
    ObjectReadFromLonger(n[i..j + 1], n[j + 1..]);
    assert n[i..] == n[i..j + 1] + n[j + 1..];
  }

  /** Pass B is the stronger of the two: trailing braces defeat Pass A only. */
  lemma PassBIsStronger()
    ensures PassA("{} }").None? && PassB("{} }") == Some(Obj([]))
  {
    var n := "{} }";
    assert n[1..][0] == '}' && n[1..][1..] == " }" && SkipWs(n[1..]) == n[1..];
    assert Value(n) == Parsed(Obj([]), " }");
    assert n[0..] == n && Find(n, '{') == Some(0);
    assert n[0..4] == n && SkipWs(n) == n && FindLast(n, '}') == Some(3);
    assert " }"[1..] == "}" && SkipWs(" }") == "}";
  }

  lemma ObjectStartsWithBrace(s: string)
    requires Value(s).Parsed? && Value(s).value.Obj?
    ensures s != "" && s[0] == '{'
  {
    hide Chars, Members, Elements, IntEnd, ExpEnd;
  }

  lemma WsIsSpace(c: char)
    requires IsWs(c)
    ensures IsSpace(c)
  {}

  lemma TrimmedStart(s: string)
    ensures SkipWs(Trim(s)) == Trim(s)
  {
    hide IsWs, IsSpace;
    if Trim(s) != "" {
      assert Trim(s)[0] == TrimLeft(s)[0];
      if IsWs(Trim(s)[0]) { WsIsSpace(Trim(s)[0]); }
    }
  }

  /** A trimmed text that parses as an object starts with its brace. */
  lemma PlainStartsWithBrace(n: string)
    requires Plain(n).Some?
    ensures Trim(n) != "" && Trim(n)[0] == '{'
  {
    hide Value, Trim, SkipWs;
    TrimmedStart(n);
    ObjectStartsWithBrace(Trim(n));
  }

  /** Whenever the whole text parses as an object, Pass B returns the same object. */
  lemma PlainAgrees(n: string)
    requires Plain(n).Some?
    ensures PassB(n) == Plain(n)
  {
    hide Value, Loads, IsSpace, TrimLeft, TrimRight;
    PlainStartsWithBrace(n);
    var l, c := TrimLeft(n), Trim(n);
    var pre := n[..|n| - |l|];
    assert n == pre + l && l == c + l[|c|..];
    forall i | 0 <= i < |pre| ensures pre[i] != '{' {
      TrimLeftSkipsSpace(n, i);
      BraceIsNoSpace();
    }
    FindFirst(pre, l, '{');
    assert n[|pre|..] == l;
    ObjectReadFromLonger(c, l[|c|..]);
  }

  lemma BraceIsNoSpace()
    ensures !IsSpace('{') && !IsSpace('}') && !IsSpace('`')
  {}

  /** Where no fence answers, the result is what Pass B alone finds. */
  lemma WithoutFences(word: char -> bool, raw: string)
    requires var n := LlmUtils.StripReasoningBlocks(word, raw);
             Fenced(n, "json").None? && Fenced(n, "").None?
    ensures var n := LlmUtils.StripReasoningBlocks(word, raw);
            SafeJsonParse(word, raw)
            == if PassB(n).Some? then Found(PassB(n).value) else JsonParseError(Snippet(raw))
  {
    hide Plain, Fenced, PassA, PassB, LlmUtils.StripReasoningBlocks;
    var n := LlmUtils.StripReasoningBlocks(word, raw);
    if Plain(n).Some? { PlainAgrees(n); }
    if PassA(n).Some? { PassesAgree(n); }
  }

  /** When the call fails, and with what: the first 200 characters of the text as it came. */
  lemma FailsExactly(word: char -> bool, raw: string)
    ensures var n := LlmUtils.StripReasoningBlocks(word, raw);
            SafeJsonParse(word, raw).JsonParseError?
            <==> Fenced(n, "json").None? && Fenced(n, "").None? && PassB(n).None?
    ensures var r := SafeJsonParse(word, raw);
            r.JsonParseError? ==> r.rawSnippet <= raw && |r.rawSnippet| == (if |raw| < 200 then |raw| else 200)
  {
    hide Plain, Fenced, PassA, PassB, LlmUtils.StripReasoningBlocks;
    var n := LlmUtils.StripReasoningBlocks(word, raw);
    if Plain(n).Some? { PlainAgrees(n); }
    if PassA(n).Some? { PassesAgree(n); }
  }

  // ---- Recovery ----

  /** An object text without surrounding white space. */
  predicate IsObjectText(o: string, v: Json) {
    |o| > 1 && o[0] == '{' && o[|o| - 1] == '}' && v.Obj? && Loads(o) == Some(v)
  }

  lemma PassBRecovers(p: string, o: string, q: string, v: Json)
    requires '{' !in p && IsObjectText(o, v)
    ensures PassB(p + o + q) == Some(v)
  {
    hide Value, Loads;
    FindFirst(p, o + q, '{');
    assert p + o + q == p + (o + q);
    assert (p + (o + q))[|p|..] == o + q;
    ObjectReadFromLonger(o, q);
  }

  lemma {:induction false} NoFence(s: string, tag: string)
    requires FindTicks(s).None?
    ensures SearchFence(s, tag).None?
  {
    if s != "" { NoFence(s[1..], tag); }
  }

  predicate TicksAt(s: string, i: nat) {
    i + 2 < |s| && s[i] == '`' && s[i + 1] == '`' && s[i + 2] == '`'
  }

  lemma {:induction false} NoTicksAt(s: string, i: nat)
    requires FindTicks(s).None?
    ensures !TicksAt(s, i)
  {
    if i > 0 && s != "" { NoTicksAt(s[1..], i - 1); }
  }

  lemma {:induction false} NoTicksFound(s: string)
    requires forall i: nat :: !TicksAt(s, i)
    ensures FindTicks(s).None?
  {
    if s != "" {
      assert !TicksAt(s, 0);
      forall i: nat ensures !TicksAt(s[1..], i) { assert !TicksAt(s, i + 1); }
      NoTicksFound(s[1..]);
    }
  }

  lemma NoTicksWithin(s: string, a: nat, b: nat)
    requires a <= b <= |s| && FindTicks(s).None?
    ensures FindTicks(s[a..b]).None?
  {
    forall i: nat ensures !TicksAt(s[a..b], i) { NoTicksAt(s, a + i); }
    NoTicksFound(s[a..b]);
  }

  /** Recovery: an object text after a prefix without '{', and before any suffix, in a text
      without reasoning blocks or fences, is returned exactly. */
  lemma Recovers(word: char -> bool, raw: string, p: string, o: string, q: string, v: Json)
    requires raw == p + o + q && '{' !in p && IsObjectText(o, v)
    requires !LlmUtils.HasBlock(LlmUtils.Reasoning(word), raw)
    requires FindTicks(raw).None?
    ensures SafeJsonParse(word, raw) == Found(v)
  {
    hide PassB, SafeJsonParse, FindTicks, LlmUtils.HasBlock, LlmUtils.Reasoning, Trim, TrimLeft, TrimRight, IsSpace,
        Loads;
    LlmUtils.RemoveNothing(LlmUtils.Reasoning(word), raw);
    BraceIsNoSpace();
    TrimKeepsCore(p, o, q);
    var n := TrimLeft(p) + o + TrimRight(q);
    assert LlmUtils.StripReasoningBlocks(word, raw) == n;
    TrimIsWithin(raw);
    var a, b :| 0 <= a <= b <= |raw| && Trim(raw) == raw[a..b];
    NoTicksWithin(raw, a, b);
    NoFence(n, "json");
    NoFence(n, "");
    assert '{' !in TrimLeft(p);
    PassBRecovers(TrimLeft(p), o, TrimRight(q), v);
    WithoutFences(word, raw);
  }

  /** In particular for a printed object. */
  lemma RecoversPrinted(word: char -> bool, raw: string, p: string, v: Json, st: JsonPrint.Style, q: string)
    requires raw == p + JsonPrint.Dumps(v, st) + q
    requires '{' !in p && v.Obj? && JsonPrint.Plain(v)
    requires !LlmUtils.HasBlock(LlmUtils.Reasoning(word), raw) && FindTicks(raw).None?
    ensures SafeJsonParse(word, raw) == Found(v)
  {
    hide SafeJsonParse, FindTicks, LlmUtils.HasBlock, LlmUtils.Reasoning, Loads, JsonPrint.Dumps, JsonPrint.Plain;
    JsonPrint.LoadsDumps(v, st);
    JsonPrint.ObjectEnds(v, st);
    Recovers(word, raw, p, JsonPrint.Dumps(v, st), q, v);
  }

  // ---- A fenced answer ----

  predicate AllSpace(w: string) {
    forall i :: 0 <= i < |w| ==> IsSpace(w[i])
  }

  lemma TrimmedCore(w: string, o: string, more: string)
    requires AllSpace(w) && o != "" && !IsSpace(o[0])
    ensures TrimLeft(w + o + more) == o + more
  {
    hide IsSpace;
    assert (w + o + more)[|w|..] == o + more;
    assert (w + o + more)[|w|] == o[0];
    TrimLeftAt(w + o + more, |w|);
  }

  lemma {:induction false} TrimRightAll(o: string, w: string)
    requires AllSpace(w) && o != "" && !IsSpace(o[|o| - 1])
    ensures TrimRight(o + w) == o
  {
    hide IsSpace;
    if w == "" {
      assert o + w == o;
    } else {
      assert (o + w)[..|o + w| - 1] == o + w[..|w| - 1];
      TrimRightAll(o, w[..|w| - 1]);
    }
  }

  lemma {:induction false} FenceAfter(p: string, s: string, tag: string)
    requires '`' !in p && FenceAt(s, tag).Some?
    ensures SearchFence(p + s, tag) == FenceAt(s, tag)
  {
    hide FenceAt;
    if p == "" {
      assert p + s == s;
    } else {
      assert (p + s)[1..] == p[1..] + s;
      NoFenceHere(p + s, tag);
      FenceAfter(p[1..], s, tag);
    }
  }

  lemma NoFenceHere(s: string, tag: string)
    requires s != "" && s[0] != '`'
    ensures FenceAt(s, tag).None?
  {}

  /** The first run of ticks in o + w + "```" + more is the one written there. */
  lemma {:induction false} TicksAfter(o: string, ticks: string, more: string)
    requires FindTicks(o).None? && (o != "" ==> o[|o| - 1] != '`') && ticks == "```"
    ensures FindTicks(o + ticks + more) == Some(|o|)
  {
    var s := o + ticks + more;
    if o == "" {
      assert s[0] == '`' && s[1] == '`' && s[2] == '`';
    } else {
      assert s[1..] == o[1..] + ticks + more;
      TicksAfter(o[1..], ticks, more);
      assert s[0] == o[0];
      if |o| > 1 { assert s[1] == o[1]; }
      if |o| > 2 { assert s[2] == o[2]; }
    }
  }

  lemma NoTicksBeforeSpace(o: string, w: string)
    requires FindTicks(o).None? && o != "" && o[|o| - 1] != '`' && AllSpace(w)
    ensures FindTicks(o + w).None? && (o + w)[|o + w| - 1] != '`'
  {
    hide IsSpace;
    BraceIsNoSpace();
    forall i: nat ensures !TicksAt(o + w, i) {
      NoTicksAt(o, i);
      if i < |o| <= i + 2 { assert (o + w)[|o| - 1] == o[|o| - 1]; }
      if |o| <= i < |o + w| { assert (o + w)[i] == w[i - |o|]; }
    }
    NoTicksFound(o + w);
    if w != "" { assert (o + w)[|o + w| - 1] == w[|w| - 1]; }
  }

  lemma JsonTag()
    ensures LlmUtils.NameMatches("json", "json")
  {}

  lemma FenceOf(s: string, ticks: string, t: string, tag: string, rest: string)
    requires s == ticks + t + rest && ticks == "```" && LlmUtils.NameMatches(t, tag)
    ensures FenceAt(s, tag)
            == match FindTicks(TrimLeft(rest)) case Some(k) => Some(TrimLeft(rest)[..k]) case None => None
  {
    LlmUtils.NameLength(t, tag);
    hide LlmUtils.NameMatches, TrimLeft, FindTicks;
    assert s[3..3 + |tag|] == t && s[3 + |tag|..] == rest;
    assert s[0] == '`' && s[1] == '`' && s[2] == '`';
  }

  lemma FenceHead(s: string, ticks: string, tag: string, rest: string)
    requires s == ticks + tag + rest && ticks == "```" && LlmUtils.NameMatches(tag, tag)
    ensures FenceAt(s, tag)
            == match FindTicks(TrimLeft(rest)) case Some(k) => Some(TrimLeft(rest)[..k]) case None => None
  {
    hide *;
    FenceOf(s, ticks, tag, tag, rest);
  }

  /** The text opens with three back-ticks, the tag in any case, white space, the group, and three back-ticks; the
      white space is all there is, and the group ends at the first three back-ticks. */
  ghost predicate OpensFence(s: string, tag: string, g: string) {
    exists t, w, q ::
      && s == "```" + t + w + (g + "```" + q) && LlmUtils.NameMatches(t, tag) && AllSpace(w)
      && !IsSpace((g + "`")[0]) && FindTicks(g + "```" + q) == Some(|g|)
  }

  /** The group of a fence is what stands in it. */
  lemma FenceAtExactly(s: string, tag: string, g: string)
    ensures FenceAt(s, tag) == Some(g) <==> OpensFence(s, tag, g)
  {
    hide LlmUtils.NameMatches, IsSpace, FindTicks;
    BraceIsNoSpace();
    if FenceAt(s, tag) == Some(g) { FenceIsWritten(s, tag, g); }
    if OpensFence(s, tag, g) {
      var t, w, q :| && s == "```" + t + w + (g + "```" + q) && LlmUtils.NameMatches(t, tag) && AllSpace(w)
                     && !IsSpace((g + "`")[0]) && FindTicks(g + "```" + q) == Some(|g|);
      assert (g + "```" + q)[0] == (g + "`")[0];
      FenceIsRead(s, tag, g, "```", t, w, g + "```" + q);
    }
  }

  lemma FenceIsRead(s: string, tag: string, g: string, ticks: string, t: string, w: string, body: string)
    requires ticks == "```" && s == ticks + t + w + body && LlmUtils.NameMatches(t, tag) && AllSpace(w)
    requires body != "" && !IsSpace(body[0]) && FindTicks(body) == Some(|g|) && g <= body
    ensures FenceAt(s, tag) == Some(g)
  {
    hide *;
    SpaceGone(w, body);
    assert ticks + t + w + body == ticks + t + (w + body);
    FenceOf(s, ticks, t, tag, w + body);
    assert body[..|g|] == g;
  }

  lemma SpaceGone(w: string, body: string)
    requires AllSpace(w) && body != "" && !IsSpace(body[0])
    ensures TrimLeft(w + body) == body
  {
    hide IsSpace;
    assert (w + body)[|w|..] == body && (w + body)[|w|] == body[0];
    TrimLeftAt(w + body, |w|);
  }

  lemma SpaceBefore(u: string) returns (w: string)
    ensures AllSpace(w) && u == w + TrimLeft(u)
  {
    hide IsSpace;
    w := u[..|u| - |TrimLeft(u)|];
    forall i | 0 <= i < |w| ensures IsSpace(w[i]) { TrimLeftSkipsSpace(u, i); }
  }

  lemma FenceIsWritten(s: string, tag: string, g: string)
    requires FenceAt(s, tag) == Some(g)
    ensures OpensFence(s, tag, g)
  {
    hide LlmUtils.NameMatches, IsSpace, FindTicks, TrimLeft, AllSpace;
    var t, u := s[3..3 + |tag|], s[3 + |tag|..];
    var body := TrimLeft(u);
    var w := SpaceBefore(u);
    TicksFound(body);
    var k := FindTicks(body).value;
    var q := body[k + 3..];
    CutAtTicks(body, k, g, q);
    OpenTicks(s, t, |tag|);
    hide FenceAt, OpensFence;
    assert "```" + t + (w + body) == "```" + t + w + body;
    FenceFrom(s, tag, g, t, w, q);
  }

  lemma FenceFrom(s: string, tag: string, g: string, t: string, w: string, q: string)
    requires s == "```" + t + w + (g + "```" + q) && LlmUtils.NameMatches(t, tag) && AllSpace(w)
    requires !IsSpace((g + "`")[0]) && FindTicks(g + "```" + q) == Some(|g|)
    ensures OpensFence(s, tag, g)
  {
    hide LlmUtils.NameMatches, IsSpace, FindTicks, AllSpace;
  }

  lemma CutAtTicks(body: string, k: nat, g: string, q: string)
    requires k + 3 <= |body| && body[k] == '`' && body[k + 1] == '`' && body[k + 2] == '`'
    requires g == body[..k] && q == body[k + 3..]
    ensures body == g + "```" + q && body[0] == (g + "`")[0]
  {
    assert body[k..k + 3] == "```";
  }

  lemma OpenTicks(s: string, t: string, n: nat)
    requires 3 + n <= |s| && s[0] == '`' && s[1] == '`' && s[2] == '`' && t == s[3..3 + n]
    ensures s == "```" + t + s[3 + n..]
  {
    assert s[..3] == "```";
  }

  lemma {:induction false} TicksFound(s: string)
    requires FindTicks(s).Some?
    ensures var k := FindTicks(s).value; k + 3 <= |s| && s[k] == '`' && s[k + 1] == '`' && s[k + 2] == '`'
  {
    if !Ticks(s) { TicksFound(s[1..]); }
  }

  /** A fence with this group opens here and none before. */
  ghost predicate FirstFence(s: string, tag: string, g: string, i: nat) {
    i <= |s| && OpensFence(s[i..], tag, g) && forall j :: 0 <= j < i ==> FenceAt(s[j..], tag).None?
  }

  /** The search finds the first fence. */
  lemma {:induction false} SearchFenceExactly(s: string, tag: string, g: string)
    ensures SearchFence(s, tag) == Some(g) <==> exists i: nat :: FirstFence(s, tag, g, i)
  {
    hide FenceAt, OpensFence;
    assert s[0..] == s;
    FenceAtExactly(s, tag, g);
    if FenceAt(s, tag).Some? || s == "" {
      if SearchFence(s, tag) == Some(g) { assert FirstFence(s, tag, g, 0); }
    } else {
      SearchFenceExactly(s[1..], tag, g);
      if i: nat :| FirstFence(s[1..], tag, g, i) {
        DropDrop(s, 1, i);
        forall j | 0 <= j < i + 1 ensures FenceAt(s[j..], tag).None? { if j > 0 { assert s[1..][j - 1..] == s[j..]; } }
        assert FirstFence(s, tag, g, i + 1);
      }
      if i: nat :| FirstFence(s, tag, g, i) {
        DropDrop(s, 1, i - 1);
        forall j | 0 <= j < i - 1 ensures FenceAt(s[1..][j..], tag).None? { assert s[1..][j..] == s[j + 1..]; }
        assert FirstFence(s[1..], tag, g, i - 1);
      }
    }
  }

  /** What a tagged fence around an object text gives. */
  lemma FenceGives(p: string, ticks: string, tag: string, w: string, o: string, w': string, q: string, v: Json)
    requires '`' !in p && ticks == "```" && LlmUtils.NameMatches(tag, tag)
    requires AllSpace(w) && AllSpace(w') && IsObjectText(o, v) && FindTicks(o).None?
    ensures Fenced(p + (ticks + tag + (w + o + (w' + ticks + q))), tag) == Some(v)
  {
    hide LlmUtils.NameMatches, TrimLeft, TrimRight, FindTicks, FenceAt, SearchFence, IsSpace, Loads, AllSpace;
    var rest := w + o + (w' + ticks + q);
    BraceIsNoSpace();
    TrimmedCore(w, o, w' + ticks + q);
    NoTicksBeforeSpace(o, w');
    TicksAfter(o + w', ticks, q);
    assert o + (w' + ticks + q) == (o + w') + ticks + q;
    assert (o + w' + ticks + q)[..|o + w'|] == o + w';
    FenceHead(ticks + tag + rest, ticks, tag, rest);
    FenceAfter(p, ticks + tag + rest, tag);
    AlreadyTrimmed(o + w');
    TrimRightAll(o, w');
  }

  lemma AlreadyTrimmed(s: string)
    requires s != "" && !IsSpace(s[0])
    ensures TrimLeft(s) == s
  {}

  /** Recovery from a tagged fence: an object text inside one, whatever white space surrounds it there,
      is returned exactly, when nothing before the fence has a back-tick or a '{'. */
  lemma FencedRecovers(word: char -> bool, p: string, ticks: string, tag: string, w: string, o: string, w': string,
                       q: string, v: Json)
    requires '`' !in p && '{' !in p && ticks == "```" && tag == "json"
    requires AllSpace(w) && AllSpace(w') && IsObjectText(o, v) && FindTicks(o).None?
    requires var raw := p + (ticks + tag + w + o + w' + ticks) + q;
             !LlmUtils.HasBlock(LlmUtils.Reasoning(word), raw)
    ensures SafeJsonParse(word, p + (ticks + tag + w + o + w' + ticks) + q) == Found(v)
  {
    hide SafeJsonParse, FindTicks, LlmUtils.HasBlock, LlmUtils.Reasoning, Trim, TrimLeft, TrimRight, IsSpace, Loads,
         PassB, Plain, Fenced, AllSpace, LlmUtils.NameMatches;
    var core := ticks + tag + w + o + w' + ticks;
    var raw := p + core + q;
    LlmUtils.RemoveNothing(LlmUtils.Reasoning(word), raw);
    BraceIsNoSpace();
    TrimKeepsCore(p, core, q);
    var n := TrimLeft(p) + core + TrimRight(q);
    assert LlmUtils.StripReasoningBlocks(word, raw) == n;
    assert '`' !in TrimLeft(p) && '{' !in TrimLeft(p);
    JsonTag();
    FenceGives(TrimLeft(p), ticks, tag, w, o, w', TrimRight(q), v);
    NoBraceBefore(TrimLeft(p), ticks, tag, w);
    PassBRecovers(TrimLeft(p) + ticks + tag + w, o, w' + ticks + TrimRight(q), v);
    Regroup(TrimLeft(p), ticks, tag, w, o, w', TrimRight(q));
    FencedWins(word, raw, n, v);
  }

  lemma Regroup(p: string, ticks: string, tag: string, w: string, o: string, w': string, q: string)
    ensures p + (ticks + tag + w + o + w' + ticks) + q == p + (ticks + tag + (w + o + (w' + ticks + q)))
    ensures p + (ticks + tag + w + o + w' + ticks) + q == p + ticks + tag + w + o + (w' + ticks + q)
  {
    var end := w' + ticks + q;
    assert ticks + tag + w + o + w' + ticks + q == ticks + tag + w + o + end;
    assert ticks + tag + w + o + end == ticks + tag + (w + o + end);
    assert p + (ticks + tag + w + o + w' + ticks) + q == p + (ticks + tag + w + o + w' + ticks + q);
    assert p + (ticks + tag + w + o + end) == p + ticks + tag + w + o + end;
  }

  lemma NoBraceBefore(p: string, ticks: string, tag: string, w: string)
    requires '{' !in p && ticks == "```" && tag == "json" && AllSpace(w)
    ensures '{' !in p + ticks + tag + w
  {
    hide IsSpace;
    BraceIsNoSpace();
  }

  lemma FencedWins(word: char -> bool, raw: string, n: string, v: Json)
    requires n == LlmUtils.StripReasoningBlocks(word, raw)
    ensures Fenced(n, "json") == Some(v) && PassB(n) == Some(v) ==> SafeJsonParse(word, raw) == Found(v)
  {
    hide Plain, Fenced, PassA, PassB, LlmUtils.StripReasoningBlocks;
    if Plain(n).Some? { PlainAgrees(n); }
  }

  // ---- Recovery of any spelling ----

  predicate IsObject(doc: JsonText.Doc) {
    doc.NoMembers? || doc.Mapped?
  }

  lemma ObjectSpelled(doc: JsonText.Doc)
    requires JsonText.FineDoc(doc) && IsObject(doc)
    ensures IsObjectText(JsonText.DocText(doc), JsonText.DocValue(doc))
  {
    hide Loads, JsonText.FineMembers, JsonText.MembersText, JsonText.MemberValues, JsonText.Blank;
    var o := JsonText.DocText(doc);
    EndsWithBrace(doc);
    NothingBlank();
    assert "" + (o + "") == o;
    assert JsonText.Spells(o, JsonText.DocValue(doc));
    JsonText.LoadsExactly(o, JsonText.DocValue(doc));
  }

  lemma NothingBlank()
    ensures JsonText.Blank("")
  {}

  lemma EndsWithBrace(doc: JsonText.Doc)
    requires JsonText.FineDoc(doc) && IsObject(doc)
    ensures var o := JsonText.DocText(doc); |o| > 1 && o[0] == '{' && o[|o| - 1] == '}'
  {
    hide JsonText.Blank, JsonText.MembersText, JsonText.FineMembers;
    if doc.Mapped? { MembersEndWithBrace(doc.members); }
  }

  lemma {:induction false} MembersEndWithBrace(ms: JsonText.MemberList)
    requires JsonText.FineMembers(ms)
    ensures var o := JsonText.MembersText(ms); o != "" && o[|o| - 1] == '}'
  {
    hide JsonText.Blank, JsonText.BodyText, JsonText.DocText, JsonText.FinePieces, JsonText.FineDoc;
    if ms.MoreMembers? { MembersEndWithBrace(ms.rest); }
  }

  /** Recovery, whatever spelling and white space the object comes in: pretty-printed, with raw or escaped
      characters, in a text without reasoning blocks and fences whose first '{' is the object's. */
  lemma SpelledRecovers(word: char -> bool, raw: string, p: string, doc: JsonText.Doc, q: string)
    requires JsonText.FineDoc(doc) && IsObject(doc)
    requires raw == p + JsonText.DocText(doc) + q && '{' !in p
    requires !LlmUtils.HasBlock(LlmUtils.Reasoning(word), raw) && FindTicks(raw).None?
    ensures SafeJsonParse(word, raw) == Found(JsonText.DocValue(doc))
  {
    hide SafeJsonParse, FindTicks, LlmUtils.HasBlock, LlmUtils.Reasoning, Loads, JsonText.DocText, JsonText.DocValue;
    ObjectSpelled(doc);
    Recovers(word, raw, p, JsonText.DocText(doc), q, JsonText.DocValue(doc));
  }

  /** And from inside a tagged fence. */
  lemma SpelledFenceRecovers(word: char -> bool, raw: string, p: string, ticks: string, tag: string, w: string,
                             doc: JsonText.Doc, w': string, q: string)
    requires '`' !in p && '{' !in p && ticks == "```" && tag == "json" && AllSpace(w) && AllSpace(w')
    requires JsonText.FineDoc(doc) && IsObject(doc) && FindTicks(JsonText.DocText(doc)).None?
    requires raw == p + (ticks + tag + w + JsonText.DocText(doc) + w' + ticks) + q
    requires !LlmUtils.HasBlock(LlmUtils.Reasoning(word), raw)
    ensures SafeJsonParse(word, raw) == Found(JsonText.DocValue(doc))
  {
    hide SafeJsonParse, FindTicks, LlmUtils.HasBlock, LlmUtils.Reasoning, Loads, JsonText.DocText, JsonText.DocValue,
         AllSpace;
    ObjectSpelled(doc);
    FencedRecovers(word, p, ticks, tag, w, JsonText.DocText(doc), w', q, JsonText.DocValue(doc));
  }

  /** At the first '{' of the text stands a spelling of this object. */
  ghost predicate ObjectAhead(n: string, v: Json) {
    exists p, doc, q ::
      && '{' !in p && JsonText.FineDoc(doc) && IsObject(doc) && n == p + JsonText.DocText(doc) + q
      && v == JsonText.DocValue(doc)
  }

  /** Pass B finds an object exactly where one is spelled at the first '{'. */
  lemma PassBExactly(n: string, v: Json)
    ensures PassB(n) == Some(v) <==> ObjectAhead(n, v)
  {
    hide Value, JsonText.FineDoc, JsonText.DocText, JsonText.DocValue, Loads;
    if PassB(n) == Some(v) {
      var i := Find(n, '{').value;
      BeforeFound(n, '{');
      var doc := JsonText.ValueWritten(n[i..]);
      ObjectsOnly(doc);
      assert n == n[..i] + JsonText.DocText(doc) + Value(n[i..]).rest;
    }
    if ObjectAhead(n, v) {
      var p, doc, q :| '{' !in p && JsonText.FineDoc(doc) && IsObject(doc) && n == p + JsonText.DocText(doc) + q
                       && v == JsonText.DocValue(doc);
      ObjectSpelled(doc);
      PassBRecovers(p, JsonText.DocText(doc), q, v);
    }
  }

  lemma {:induction false} FindBehind(front: string, c: char, post: string)
    requires c !in post && front != "" && front[|front| - 1] == c
    ensures FindLast(front + post, c) == Some(|front| - 1)
  {
    if post == "" {
      assert front + post == front;
    } else {
      var s := front + post;
      assert s[|s| - 1] == post[|post| - 1] && s[..|s| - 1] == front + post[..|post| - 1];
      FindBehind(front, c, post[..|post| - 1]);
    }
  }

  lemma {:induction false} BehindFound(s: string, c: char)
    requires FindLast(s, c).Some?
    ensures c !in s[FindLast(s, c).value + 1..]
  {
    var last := |s| - 1;
    if s[last] != c {
      BehindFound(s[..last], c);
      assert s[FindLast(s, c).value + 1..] == s[..last][FindLast(s, c).value + 1..] + [s[last]];
    }
  }

  /** The stretch from the first '{' to the last '}' of the text spells this object. */
  ghost predicate BracesSpell(n: string, v: Json) {
    exists p, o, q ::
      && '{' !in p && '}' !in q && n == p + o + q && v.Obj? && JsonText.Spells(o, v)
      && |o| > 1 && o[0] == '{' && o[|o| - 1] == '}'
  }

  lemma Slices(p: string, o: string, q: string)
    ensures (p + o + q)[|p|..|p| + |o|] == o && p + o + q == p + (o + q)
  {}

  lemma ThreeSlices(n: string, i: nat, j: nat)
    requires i <= j <= |n|
    ensures n == n[..i] + n[i..j] + n[j..]
  {}

  lemma BracesFound(p: string, o: string, q: string)
    requires '{' !in p && '}' !in q && |o| > 1 && o[0] == '{' && o[|o| - 1] == '}'
    ensures PassA(p + o + q) == Dict(Loads(o))
  {
    hide Find, FindLast, Loads;
    Slices(p, o, q);
    FindFirst(p, o + q, '{');
    FindBehind(p + o, '}', q);
  }

  lemma BracesSpelled(n: string, i: nat, j: nat, v: Json)
    requires Find(n, '{') == Some(i) && FindLast(n, '}') == Some(j) && i < j
    requires v.Obj? && JsonText.Spells(n[i..j + 1], v)
    ensures BracesSpell(n, v)
  {
    hide *;
    BeforeFound(n, '{');
    BehindFound(n, '}');
    StretchSpells(n, n[..i], n[i..j + 1], n[j + 1..], v);
  }

  lemma StretchSpells(n: string, p: string, o: string, q: string, v: Json)
    requires |p| + |o| <= |n| && |o| > 1 && n[|p|] == '{' && n[|p| + |o| - 1] == '}'
    requires p == n[..|p|] && o == n[|p|..|p| + |o|] && q == n[|p| + |o|..] && '{' !in p && '}' !in q
    requires v.Obj? && JsonText.Spells(o, v)
    ensures BracesSpell(n, v)
  {
    hide JsonText.Spells;
    ThreeSlices(n, |p|, |p| + |o|);
  }

  /** Pass A finds an object exactly where that stretch spells one. */
  lemma PassAExactly(n: string, v: Json)
    ensures PassA(n) == Some(v) <==> BracesSpell(n, v)
  {
    hide Find, FindLast, Loads, JsonText.Spells;
    if PassA(n) == Some(v) {
      hide BracesSpell;
      var i, j := Find(n, '{').value, FindLast(n, '}').value;
      JsonText.LoadsExactly(n[i..j + 1], v);
      BracesSpelled(n, i, j, v);
    }
    if BracesSpell(n, v) {
      var p, o, q :| '{' !in p && '}' !in q && n == p + o + q && v.Obj? && JsonText.Spells(o, v)
                     && |o| > 1 && o[0] == '{' && o[|o| - 1] == '}';
      hide PassA;
      JsonText.LoadsExactly(o, v);
      BracesFound(p, o, q);
    }
  }

  lemma ObjectsOnly(doc: JsonText.Doc)
    requires JsonText.FineDoc(doc) && JsonText.DocValue(doc).Obj?
    ensures IsObject(doc)
  {
    hide JsonText.MemberValues, JsonText.ItemValues, JsonText.Points, JsonText.FineMembers, JsonText.FineItems,
         JsonText.FinePieces;
  }

  /** The whole call fails exactly when neither fence gives an object and none is spelled at the first '{'. */
  lemma FailsUnlessSpelled(word: char -> bool, raw: string, n: string)
    requires n == LlmUtils.StripReasoningBlocks(word, raw)
    ensures SafeJsonParse(word, raw).JsonParseError?
            <==> Fenced(n, "json").None? && Fenced(n, "").None? && forall v :: !ObjectAhead(n, v)
  {
    hide Fenced, PassB, SafeJsonParse, ObjectAhead, LlmUtils.StripReasoningBlocks;
    FailsExactly(word, raw);
    forall v ensures PassB(n) == Some(v) <==> ObjectAhead(n, v) { PassBExactly(n, v); }
    if PassB(n).Some? { assert ObjectAhead(n, PassB(n).value); }
  }

  // ---- The strategies, in order ----

  /** The trimmed text spells this object. */
  ghost predicate WholeSpells(n: string, v: Json) {
    v.Obj? && JsonText.Spells(Trim(n), v)
  }

  /** The group of the first fence with this tag spells this object. */
  ghost predicate FenceSpells(n: string, tag: string, v: Json) {
    v.Obj? && exists g, i: nat :: FirstFence(n, tag, g, i) && JsonText.Spells(Trim(g), v)
  }

  lemma WholeExactly(n: string, v: Json)
    ensures Plain(n) == Some(v) <==> WholeSpells(n, v)
  {
    hide Loads, JsonText.Spells;
    JsonText.LoadsExactly(Trim(n), v);
  }

  lemma FencedExactly(n: string, tag: string, v: Json)
    ensures Fenced(n, tag) == Some(v) <==> FenceSpells(n, tag, v)
  {
    hide Loads, JsonText.Spells, SearchFence, FirstFence, Trim;
    if Fenced(n, tag) == Some(v) {
      var g := SearchFence(n, tag).value;
      SearchFenceExactly(n, tag, g);
      JsonText.LoadsExactly(Trim(g), v);
      var i: nat :| FirstFence(n, tag, g, i);
    }
    if FenceSpells(n, tag, v) {
      var g, i: nat :| FirstFence(n, tag, g, i) && JsonText.Spells(Trim(g), v);
      SearchFenceExactly(n, tag, g);
      JsonText.LoadsExactly(Trim(g), v);
    }
  }

  /** The whole call: an object that the text spells, else in the first `json` fence, else in the first fence, else at
      the first '{'; and otherwise it fails. */
  lemma ParseExactly(word: char -> bool, raw: string, n: string, v: Json)
    requires n == LlmUtils.StripReasoningBlocks(word, raw)
    ensures WholeSpells(n, v) ==> SafeJsonParse(word, raw) == Found(v)
    ensures (forall u :: !WholeSpells(n, u)) && FenceSpells(n, "json", v) ==> SafeJsonParse(word, raw) == Found(v)
    ensures (forall u :: !WholeSpells(n, u) && !FenceSpells(n, "json", u)) && FenceSpells(n, "", v) ==>
              SafeJsonParse(word, raw) == Found(v)
    ensures (forall u :: !WholeSpells(n, u) && !FenceSpells(n, "json", u) && !FenceSpells(n, "", u)) ==>
              ObjectAhead(n, v) ==> SafeJsonParse(word, raw) == Found(v)
    ensures SafeJsonParse(word, raw).JsonParseError?
            <==> forall u ::
                   !WholeSpells(n, u) && !FenceSpells(n, "json", u) && !FenceSpells(n, "", u) && !ObjectAhead(n, u)
  {
    hide Plain, Fenced, PassA, PassB, LlmUtils.StripReasoningBlocks, WholeSpells, FenceSpells, ObjectAhead;
    forall u
      ensures Plain(n) == Some(u) <==> WholeSpells(n, u)
      ensures Fenced(n, "json") == Some(u) <==> FenceSpells(n, "json", u)
      ensures Fenced(n, "") == Some(u) <==> FenceSpells(n, "", u)
      ensures PassB(n) == Some(u) <==> ObjectAhead(n, u)
    {
      WholeExactly(n, u);
      FencedExactly(n, "json", u);
      FencedExactly(n, "", u);
      PassBExactly(n, u);
    }
    if PassA(n).Some? { PassesAgree(n); }
    if Plain(n).Some? { assert WholeSpells(n, Plain(n).value); }
    if Fenced(n, "json").Some? { assert FenceSpells(n, "json", Fenced(n, "json").value); }
    if Fenced(n, "").Some? { assert FenceSpells(n, "", Fenced(n, "").value); }
    if PassB(n).Some? { assert ObjectAhead(n, PassB(n).value); }
  }
}
