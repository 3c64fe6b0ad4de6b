/** src/core/llm_utils.py: removing reasoning blocks and unwrapping the output block. */
module LlmUtils {
  import opened PyText

  /** One of the two compiled patterns: `<(names)\b[^>]*>.*?</\1\s*>`, case-insensitive.
      `word` tells which characters `\b` counts as word characters. */
  datatype Pattern = Pattern(names: seq<string>, word: char -> bool)

  /** A block at the head of a text: the opening tag ends at `inner`, the closing tag is [close..end). */
  datatype Block = Block(inner: nat, close: nat, end: nat)

  function Reasoning(word: char -> bool): Pattern {
    Pattern(["thinking", "think", "reasoning", "reflection"], word)
  }

  function Output(word: char -> bool): Pattern {
    Pattern(["output"], word)
  }

  // ---- Matching one tag ----

  /** Simple lower-casing, as far as it can produce a letter of a tag name. */
  function Lower(c: char): char {
    if 'A' <= c <= 'Z' then c + 32 as char
    else if c == '\U{0130}' then 'i'
    else if c == '\U{212A}' then 'k'
    else c
  }

  /** A pattern letter also matches the two characters that share its upper-case form. */
  predicate LetterMatches(c: char, letter: char) {
    || Lower(c) == letter
    || (letter == 'i' && c == '\U{0131}')
    || (letter == 's' && c == '\U{017F}')
  }

  predicate NameMatches(text: string, name: string) {
    |text| == |name| && forall k :: 0 <= k < |name| ==> LetterMatches(text[k], name[k])
  }

  /** A back-reference compares lower-cased characters only. */
  predicate SameName(a: string, b: string) {
    |a| == |b| && forall k :: 0 <= k < |a| ==> Lower(a[k]) == Lower(b[k])
  }

  /** Length of `[^>]*>` at the head of s. */
  function ThroughGt(s: string): (r: Option<nat>)
    ensures r.Some? ==> 0 < r.value <= |s| && s[r.value - 1] == '>' && '>' !in s[..r.value - 1]
    ensures r.None? ==> '>' !in s
  {
    if s == "" then None
    else if s[0] == '>' then Some(1)
    else match ThroughGt(s[1..])
      case Some(k) => Some(k + 1)
      case None => None
  }

  /** Length of the opening tag of `name` at the head of s. */
  function Open(p: Pattern, s: string, name: string): (r: Option<nat>)
    ensures r.Some? ==> |name| + 1 < r.value <= |s| && s[0] == '<' && s[r.value - 1] == '>'
    ensures r.Some? && '>' !in name ==> '>' !in s[|name| + 1..r.value - 1]
  {
    var n := |name| + 1;
    if n < |s| && s[0] == '<' && NameMatches(s[1..n], name) && !p.word(s[n]) then
      match ThroughGt(s[n..])
      case Some(k) => assert s[n..n + k - 1] == s[n..][..k - 1]; Some(n + k)
      case None => None
    else None
  }

  /** Length of the closing tag `</name\s*>` at the head of s. */
  function Close(s: string, name: string): (r: Option<nat>)
    ensures r.Some? ==> |name| + 2 < r.value <= |s| && s[0] == '<' && s[r.value - 1] == '>'
  {
    var n := |name| + 2;
    if n < |s| && s[0] == '<' && s[1] == '/' && SameName(s[2..n], name) then
      var rest := TrimLeft(s[n..]);
      if rest != "" && rest[0] == '>' then Some(|s| - |rest| + 1) else None
    else None
  }

  /** Where the first closing tag at or after the head of s begins. */
  function FindClose(s: string, name: string): (r: Option<nat>)
    ensures r.Some? ==> r.value <= |s|
  {
    if s == "" then None
    else if Close(s, name).Some? then Some(0)
    else match FindClose(s[1..], name)
      case Some(j) => Some(j + 1)
      case None => None
  }

  lemma {:induction false} FoundIsClose(s: string, name: string)
    requires FindClose(s, name).Some?
    ensures Close(s[FindClose(s, name).value..], name).Some?
  {
    hide Close;
    if Close(s, name).Some? {
      assert s[0..] == s;
    } else {
      FoundIsClose(s[1..], name);
      DropDrop(s, 1, FindClose(s[1..], name).value);
    }
  }

  lemma ClosesWithin(s: string, k: nat, tag: string, j: nat)
    requires k <= |s| && FindClose(s[k..], tag) == Some(j)
    ensures k + j <= |s| && Close(s[k + j..], tag).Some?
  {
    hide Close, FindClose;
    FoundIsClose(s[k..], tag);
    DropDrop(s, k, j);
  }

  function BlockNamed(p: Pattern, s: string, name: string): (r: Option<Block>)
    ensures r.Some? ==> 0 < r.value.inner <= r.value.close < r.value.end <= |s|
    ensures r.Some? ==> s[0] == '<' && s[r.value.end - 1] == '>'
  {
    match Open(p, s, name)
    case None => None
    case Some(k) =>
      match FindClose(s[k..], s[1..|name| + 1])
      case None => None
      case Some(j) =>
        ClosesWithin(s, k, s[1..|name| + 1], j);
        Some(Block(k, k + j, k + j + Close(s[k + j..], s[1..|name| + 1]).value))
  }

  /** The alternation: the first name that gives a block. */
  function FirstNamed(p: Pattern, s: string, names: seq<string>): (r: Option<Block>)
    ensures r.Some? ==> 0 < r.value.inner <= r.value.close < r.value.end <= |s|
  {
    if names == [] then None
    else if BlockNamed(p, s, names[0]).Some? then BlockNamed(p, s, names[0])
    else FirstNamed(p, s, names[1..])
  }

  lemma {:induction false} FirstNamedIsSome(p: Pattern, s: string, names: seq<string>)
    ensures FirstNamed(p, s, names).Some? <==> exists n <- names :: BlockNamed(p, s, n).Some?
    ensures FirstNamed(p, s, names).Some? ==> exists n <- names :: BlockNamed(p, s, n) == FirstNamed(p, s, names)
  {
    hide BlockNamed;
    if names != [] {
      FirstNamedIsSome(p, s, names[1..]);
      assert forall n :: n in names <==> n == names[0] || n in names[1..];
    }
  }

  function BlockAt(p: Pattern, s: string): (r: Option<Block>)
    ensures r.Some? ==> 0 < r.value.inner <= r.value.close < r.value.end <= |s|
  {
    FirstNamed(p, s, p.names)
  }

  // ---- The three public functions ----

  /** `pattern.sub("", s)`: leftmost, non-overlapping. */
  function Remove(p: Pattern, s: string): (r: string)
    ensures |r| <= |s|
  {
    if s == "" then ""
    else match BlockAt(p, s)
      case Some(b) => Remove(p, s[b.end..])
      case None => [s[0]] + Remove(p, s[1..])
  }

  /** `pattern.findall(s)`: the inner text of every block. */
  function Payloads(p: Pattern, s: string): seq<string> {
    if s == "" then []
    else match BlockAt(p, s)
      case Some(b) => [s[b.inner..b.close]] + Payloads(p, s[b.end..])
      case None => Payloads(p, s[1..])
  }

  function StripReasoningBlocks(word: char -> bool, raw: string): string {
    Trim(Remove(Reasoning(word), raw))
  }

  function ExtractOutputPayload(word: char -> bool, raw: string): string {
    var matches := Payloads(Output(word), raw);
    if matches == [] then raw else Trim(matches[|matches| - 1])
  }

  function SanitizeLlmResponse(word: char -> bool, raw: string): string {
    Trim(ExtractOutputPayload(word, StripReasoningBlocks(word, raw)))
  }

  // ---- Blocks depend only on their own characters ----

  predicate HasBlock(p: Pattern, s: string) {
    s != "" && (BlockAt(p, s).Some? || HasBlock(p, s[1..]))
  }

  lemma {:induction false} ThroughGtLocal(s: string, u: string)
    requires ThroughGt(s).Some? && Agree(s, u, ThroughGt(s).value)
    ensures ThroughGt(u) == ThroughGt(s)
  {
    if s[0] != '>' {
      AgreeDrop(s, u, ThroughGt(s).value, 1);
      ThroughGtLocal(s[1..], u[1..]);
    }
  }

  lemma OpenLocal(p: Pattern, s: string, u: string, name: string)
    requires Open(p, s, name).Some? && Agree(s, u, Open(p, s, name).value)
    ensures Open(p, u, name) == Open(p, s, name) && u[1..|name| + 1] == s[1..|name| + 1]
  {
    hide NameMatches;
    var k, n := Open(p, s, name).value, |name| + 1;
    AgreeSlice(s, u, k, 1, n);
    AgreeDrop(s, u, k, n);
    ThroughGtLocal(s[n..], u[n..]);
  }

  lemma TrimLeftLocal(s: string, u: string)
    requires TrimLeft(s) != "" && Agree(s, u, |s| - |TrimLeft(s)| + 1)
    ensures TrimLeft(u) != "" && TrimLeft(u)[0] == TrimLeft(s)[0] && |u| - |TrimLeft(u)| == |s| - |TrimLeft(s)|
  {
    hide IsSpace;
    var n := |s| - |TrimLeft(s)|;
    assert TrimLeft(s)[0] == s[n] && u[n] == s[n];
    forall i | 0 <= i < n ensures IsSpace(u[i]) { TrimLeftSkipsSpace(s, i); }
    TrimLeftAt(u, n);
  }

  lemma CloseGap(s: string, name: string)
    requires Close(s, name).Some?
    ensures var n, rest := |name| + 2, TrimLeft(s[|name| + 2..]);
            && n < |s| && s[0] == '<' && s[1] == '/' && SameName(s[2..n], name)
            && rest != "" && rest[0] == '>' && Close(s, name).value == |s| - |rest| + 1
  {
    hide SameName, TrimLeft;
  }

  lemma GapLocal(s: string, u: string, n: nat, k: nat)
    requires n <= k && Agree(s, u, k)
    requires TrimLeft(s[n..]) != "" && k == |s| - |TrimLeft(s[n..])| + 1
    ensures TrimLeft(u[n..]) != "" && TrimLeft(u[n..])[0] == TrimLeft(s[n..])[0]
    ensures |u| - |TrimLeft(u[n..])| == |s| - |TrimLeft(s[n..])|
  {
    hide TrimLeft;
    AgreeDrop(s, u, k, n);
    hide Agree;
    TrimLeftLocal(s[n..], u[n..]);
  }

  lemma CloseLocal(s: string, u: string, name: string)
    requires Close(s, name).Some? && Agree(s, u, Close(s, name).value)
    ensures Close(u, name) == Close(s, name)
  {
    hide SameName, IsSpace, TrimLeft;
    var k, n := Close(s, name).value, |name| + 2;
    CloseGap(s, name);
    assert u[0] == s[0] && u[1] == s[1];
    hide Close, Agree;
    AgreeSlice(s, u, k, 2, n);
    GapLocal(s, u, n, k);
    CloseFromGap(u, name);
  }

  lemma CloseFromGap(s: string, name: string)
    requires |name| + 2 < |s| && s[0] == '<' && s[1] == '/' && SameName(s[2..|name| + 2], name)
    requires var rest := TrimLeft(s[|name| + 2..]); rest != "" && rest[0] == '>'
    ensures Close(s, name) == Some(|s| - |TrimLeft(s[|name| + 2..])| + 1)
  {
    hide SameName, TrimLeft;
  }

  lemma BlockParts(p: Pattern, s: string, name: string)
    requires BlockNamed(p, s, name).Some?
    ensures var b := BlockNamed(p, s, name).value;
            && Open(p, s, name) == Some(b.inner)
            && Close(s[b.close..], s[1..|name| + 1]) == Some(b.end - b.close)
            && FindClose(s[b.inner..], s[1..|name| + 1]) == Some(b.close - b.inner)
  {
    hide Open, Close, FindClose;
    var k := Open(p, s, name).value;
    FoundIsClose(s[k..], s[1..|name| + 1]);
    DropDrop(s, k, FindClose(s[k..], s[1..|name| + 1]).value);
  }

  lemma {:induction false} CloseFound(s: string, j: nat, name: string)
    requires j <= |s| && Close(s[j..], name).Some?
    ensures FindClose(s, name).Some?
  {
    hide Close;
    if j > 0 && Close(s, name).None? {
      DropDrop(s, 1, j - 1);
      CloseFound(s[1..], j - 1, name);
    } else {
      assert s[0..] == s;
    }
  }

  lemma BlockFromParts(p: Pattern, s: string, name: string, k: nat, j: nat)
    requires Open(p, s, name) == Some(k) && k <= j <= |s|
    requires Close(s[j..], s[1..|name| + 1]).Some?
    ensures BlockNamed(p, s, name).Some?
  {
    hide Open, Close, FindClose;
    DropDrop(s, k, j - k);
    CloseFound(s[k..], j - k, s[1..|name| + 1]);
  }

  lemma BlockLocal(p: Pattern, s: string, u: string, name: string)
    requires BlockNamed(p, s, name).Some? && Agree(s, u, BlockNamed(p, s, name).value.end)
    ensures BlockNamed(p, u, name).Some?
  {
    var b := BlockNamed(p, s, name).value;
    hide BlockNamed, Open, Close;
    BlockParts(p, s, name);
    OpenLocal(p, s, u, name);
    AgreeDrop(s, u, b.end, b.close);
    CloseLocal(s[b.close..], u[b.close..], s[1..|name| + 1]);
    BlockFromParts(p, u, name, b.inner, b.close);
  }

  lemma BlockAtLocal(p: Pattern, s: string, u: string)
    requires BlockAt(p, s).Some? && Agree(s, u, BlockAt(p, s).value.end)
    ensures BlockAt(p, u).Some?
  {
    hide BlockNamed, FirstNamed;
    FirstNamedIsSome(p, s, p.names);
    FirstNamedIsSome(p, u, p.names);
    var n :| n in p.names && BlockNamed(p, s, n) == BlockAt(p, s);
    BlockLocal(p, s, u, n);
  }

  lemma {:induction false} HasBlockInSuffix(p: Pattern, s: string, i: nat)
    requires i <= |s| && HasBlock(p, s[i..])
    ensures HasBlock(p, s)
  {
    hide BlockAt;
    if i == 0 {
      assert s[0..] == s;
    } else {
      DropDrop(s, 1, i - 1);
      HasBlockInSuffix(p, s[1..], i - 1);
    }
  }

  lemma {:induction false} HasBlockInPrefix(p: Pattern, s: string, i: nat)
    requires i <= |s| && HasBlock(p, s[..i])
    ensures HasBlock(p, s)
  {
    hide BlockAt;
    if BlockAt(p, s[..i]).Some? {
      BlockAtLocal(p, s[..i], s);
    } else {
      assert s[..i][1..] == s[1..][..i - 1];
      HasBlockInPrefix(p, s[1..], i - 1);
    }
  }

  /** A block in any part of a text is a block of the whole text. */
  lemma HasBlockWithin(p: Pattern, sub: string, s: string)
    requires Within(sub, s) && HasBlock(p, sub)
    ensures HasBlock(p, s)
  {
    hide HasBlock;
    var a, b :| 0 <= a <= b <= |s| && sub == s[a..b];
    assert sub == s[..b][a..];
    HasBlockInSuffix(p, s[..b], a);
    HasBlockInPrefix(p, s, b);
  }

  lemma {:induction false} TrimLeftKeepsBlocks(p: Pattern, s: string)
    requires HasBlock(p, s)
    ensures HasBlock(p, TrimLeft(s))
  {
    hide BlockAt;
    if IsSpace(s[0]) {
      BlockStartsWithLt(p, s);
      TrimLeftKeepsBlocks(p, s[1..]);
    }
  }

  lemma BlockStartsWithLt(p: Pattern, s: string)
    ensures BlockAt(p, s).Some? ==> s[0] == '<' && s[BlockAt(p, s).value.end - 1] == '>'
  {
    hide BlockNamed, FirstNamed;
    FirstNamedIsSome(p, s, p.names);
    if BlockAt(p, s).Some? {
      var n :| n in p.names && BlockNamed(p, s, n) == BlockAt(p, s);
    }
  }

  lemma {:induction false} TrimRightKeepsBlocks(p: Pattern, s: string)
    requires HasBlock(p, s)
    ensures HasBlock(p, TrimRight(s))
  {
    hide BlockAt;
    if IsSpace(s[|s| - 1]) {
      DropLastKeepsBlocks(p, s);
      TrimRightKeepsBlocks(p, s[..|s| - 1]);
    }
  }

  lemma {:induction false} DropLastKeepsBlocks(p: Pattern, s: string)
    requires HasBlock(p, s) && s[|s| - 1] != '>'
    ensures HasBlock(p, s[..|s| - 1])
  {
    hide BlockAt;
    var r := s[..|s| - 1];
    if BlockAt(p, s).Some? {
      BlockStartsWithLt(p, s);
      BlockAtLocal(p, s, r);
    } else {
      DropLastKeepsBlocks(p, s[1..]);
      assert s[1..][..|s| - 2] == r[1..];
    }
  }

  lemma {:induction false} RemoveNothing(p: Pattern, s: string)
    requires !HasBlock(p, s)
    ensures Remove(p, s) == s && Payloads(p, s) == []
  {
    hide BlockAt;
    if s != "" {
      RemoveNothing(p, s[1..]);
    }
  }

  lemma {:induction false} RemoveShortens(p: Pattern, s: string)
    requires HasBlock(p, s)
    ensures |Remove(p, s)| < |s| && Payloads(p, s) != []
  {
    hide BlockAt;
    if BlockAt(p, s).None? {
      RemoveShortens(p, s[1..]);
    }
  }

  // ---- When a second pass finds something: a tag spliced across a removed block ----

  /** Reading q kept characters from s on runs into a removed block before the last of them. */
  predicate SeamIn(p: Pattern, s: string, q: nat)
    requires q <= |Remove(p, s)|
  {
    q > 0 && (BlockAt(p, s).Some? || SeamIn(p, s[1..], q - 1))
  }

  /** What is left of s after q kept characters, and after any block that follows them. */
  function Advance(p: Pattern, s: string, q: nat): (u: string)
    requires q <= |Remove(p, s)|
    ensures |u| <= |s| && |Remove(p, u)| == |Remove(p, s)| - q
    decreases |s|
  {
    if s == "" then s
    else match BlockAt(p, s)
      case Some(b) => Advance(p, s[b.end..], q)
      case None => if q == 0 then s else Advance(p, s[1..], q - 1)
  }

  /** The kept characters from s on begin with a block of `name` whose opening or closing
      tag is made of characters from both sides of a removed block. */
  predicate SplicedAt(p: Pattern, s: string, name: string) {
    match BlockNamed(p, Remove(p, s), name)
    case None => false
    case Some(b) => SeamIn(p, s, b.inner) || SeamIn(p, Advance(p, s, b.close), b.end - b.close)
  }

  predicate Spliced(p: Pattern, s: string) {
    if s == "" then false
    else match BlockAt(p, s)
      case Some(b) => Spliced(p, s[b.end..])
      case None => (exists n <- p.names :: SplicedAt(p, s, n)) || Spliced(p, s[1..])
  }

  lemma {:induction false} AdvanceIsSuffix(p: Pattern, s: string, q: nat)
    requires q <= |Remove(p, s)|
    ensures Advance(p, s, q) == s[|s| - |Advance(p, s, q)|..]
    ensures Remove(p, Advance(p, s, q)) == Remove(p, s)[q..]
    decreases |s|
  {
    hide BlockAt;
    var u := Advance(p, s, q);
    if s != "" {
      match BlockAt(p, s)
      case Some(b) =>
        AdvanceIsSuffix(p, s[b.end..], q);
        DropDrop(s, b.end, |s| - b.end - |u|);
      case None =>
        if q > 0 {
          AdvanceIsSuffix(p, s[1..], q - 1);
          DropDrop(s, 1, |s| - 1 - |u|);
          assert Remove(p, s)[1..] == Remove(p, s[1..]);
          DropDrop(Remove(p, s), 1, q - 1);
        }
    }
  }

  lemma {:induction false} NoSeam(p: Pattern, s: string, q: nat)
    requires q <= |Remove(p, s)| && !SeamIn(p, s, q)
    ensures Agree(Remove(p, s), s, q)
  {
    hide BlockAt;
    if q > 0 {
      NoSeam(p, s[1..], q - 1);
    }
  }

  lemma {:induction false} AdvancePast(p: Pattern, s: string, k: nat, q: nat)
    requires k <= q <= |Remove(p, s)| && !SeamIn(p, s, k)
    ensures k + |Advance(p, s, q)| <= |s|
  {
    hide BlockAt;
    if k > 0 {
      AdvancePast(p, s[1..], k - 1, q - 1);
    }
  }

  /** A closing tag of the kept text that crosses no seam stands in s itself. */
  lemma UnsplicedClose(p: Pattern, s: string, q: nat, name: string)
    requires q <= |Remove(p, s)| && Close(Remove(p, s)[q..], name).Some?
    requires |Remove(p, Advance(p, s, q))| == |Remove(p, s)| - q
    requires !SeamIn(p, Advance(p, s, q), Close(Remove(p, s)[q..], name).value)
    ensures |Advance(p, s, q)| <= |s| && Close(s[|s| - |Advance(p, s, q)|..], name).Some?
  {
    hide Close, SeamIn, Advance, Remove;
    var u := Advance(p, s, q);
    AdvanceIsSuffix(p, s, q);
    NoSeam(p, u, Close(Remove(p, s)[q..], name).value);
    CloseLocal(Remove(p, u), u, name);
  }

  /** A block of the kept text whose tags cross no seam was already a block of s. */
  lemma UnsplicedBlockIsOld(p: Pattern, s: string, name: string)
    requires BlockNamed(p, Remove(p, s), name).Some? && !SplicedAt(p, s, name)
    ensures BlockNamed(p, s, name).Some?
  {
    hide BlockNamed, Open, Close, SeamIn, Advance, Remove;
    var r := Remove(p, s);
    var b := BlockNamed(p, r, name).value;
    BlockParts(p, r, name);
    NoSeam(p, s, b.inner);
    OpenLocal(p, r, s, name);
    UnsplicedClose(p, s, b.close, s[1..|name| + 1]);
    AdvancePast(p, s, b.inner, b.close);
    BlockFromParts(p, s, name, b.inner, |s| - |Advance(p, s, b.close)|);
  }

  lemma {:induction false} NewBlocksAreSpliced(p: Pattern, s: string)
    ensures HasBlock(p, Remove(p, s)) <==> Spliced(p, s)
  {
    hide BlockNamed, SplicedAt, FirstNamed;
    FirstNamedIsSome(p, s, p.names);
    if s != "" {
      match BlockAt(p, s)
      case Some(b) => NewBlocksAreSpliced(p, s[b.end..]);
      case None =>
        NewBlocksAreSpliced(p, s[1..]);
        var r := Remove(p, s);
        FirstNamedIsSome(p, r, p.names);
        assert r[1..] == Remove(p, s[1..]);
        forall n | n in p.names ensures SplicedAt(p, s, n) <==> BlockNamed(p, r, n).Some? {
          SplicedAtNeedsBlock(p, s, n);
          if BlockNamed(p, r, n).Some? && !SplicedAt(p, s, n) { UnsplicedBlockIsOld(p, s, n); }
        }
    }
  }

  lemma SplicedAtNeedsBlock(p: Pattern, s: string, name: string)
    ensures SplicedAt(p, s, name) ==> BlockNamed(p, Remove(p, s), name).Some?
  {
    hide BlockNamed;
  }

  /** `strip_reasoning_blocks` is idempotent exactly on the texts in which no tag is spliced. */
  lemma StripIdempotentExactly(word: char -> bool, raw: string)
    ensures var once := StripReasoningBlocks(word, raw);
            !Spliced(Reasoning(word), raw) ==> StripReasoningBlocks(word, once) == once
    ensures var once := StripReasoningBlocks(word, raw);
            Spliced(Reasoning(word), raw) ==> StripReasoningBlocks(word, once) != once
  {
    hide HasBlock, Spliced, Remove, Reasoning, Trim;
    var p := Reasoning(word);
    var r := Remove(p, raw);
    NewBlocksAreSpliced(p, raw);
    TrimKeepsBlocks(p, r);
    StripFixed(word, Trim(r));
    TrimIdempotent(r);
  }

  lemma TrimKeepsBlocks(p: Pattern, s: string)
    ensures HasBlock(p, Trim(s)) <==> HasBlock(p, s)
  {
    hide HasBlock, TrimLeft, TrimRight;
    if HasBlock(p, s) {
      TrimLeftKeepsBlocks(p, s);
      TrimRightKeepsBlocks(p, TrimLeft(s));
    } else if HasBlock(p, Trim(s)) {
      TrimIsWithin(s);
      HasBlockWithin(p, Trim(s), s);
    }
  }

  /** The texts that `strip_reasoning_blocks` returns unchanged: trimmed and free of blocks. */
  lemma StripFixed(word: char -> bool, s: string)
    ensures StripReasoningBlocks(word, s) == s <==> Trim(s) == s && !HasBlock(Reasoning(word), s)
  {
    hide HasBlock, Remove, Reasoning, Trim;
    var p := Reasoning(word);
    TrimIsWithin(Remove(p, s));
    if HasBlock(p, s) {
      RemoveShortens(p, s);
    } else {
      RemoveNothing(p, s);
    }
  }

  /** A check a caller can run over the text: no kept stretch that a removed block follows
      ends inside an open tag, that is, with a '<' after its last '>'. */
  predicate SeamFree(p: Pattern, s: string, inTag: bool) {
    if s == "" then true
    else match BlockAt(p, s)
      case Some(b) => !inTag && SeamFree(p, s[b.end..], false)
      case None => SeamFree(p, s[1..], if s[0] == '<' then true else if s[0] == '>' then false else inTag)
  }

  predicate PlainNames(p: Pattern) {
    forall n <- p.names :: '>' !in n
  }

  lemma {:induction false} SeamFreeWeaken(p: Pattern, s: string)
    requires SeamFree(p, s, true)
    ensures SeamFree(p, s, false)
  {
    hide BlockAt;
    if s != "" && s[0] != '<' && s[0] != '>' {
      SeamFreeWeaken(p, s[1..]);
    }
  }

  lemma {:induction false} SeamFreeAdvance(p: Pattern, s: string, q: nat)
    requires q <= |Remove(p, s)| && SeamFree(p, s, false)
    ensures var u := Advance(p, s, q); SeamFree(p, u, false) && (u != "" ==> BlockAt(p, u).None?)
    decreases |s|
  {
    hide BlockAt;
    if s != "" {
      match BlockAt(p, s)
      case Some(b) => SeamFreeAdvance(p, s[b.end..], q);
      case None =>
        if q > 0 {
          if s[0] == '<' { SeamFreeWeaken(p, s[1..]); }
          SeamFreeAdvance(p, s[1..], q - 1);
        }
    }
  }

  lemma {:induction false} NoSeamBeforeGt(p: Pattern, s: string, k: nat)
    requires SeamFree(p, s, true) && k <= |Remove(p, s)| && '>' !in Remove(p, s)[..if k == 0 then 0 else k - 1]
    ensures !SeamIn(p, s, k)
  {
    hide BlockAt;
    if k > 1 {
      assert Remove(p, s)[..k - 1][0] == s[0];
      assert Remove(p, s[1..])[..k - 2] == Remove(p, s)[..k - 1][1..];
      NoSeamBeforeGt(p, s[1..], k - 1);
    }
  }

  /** A tag that starts with a kept '<' and has its only '>' at the end crosses no seam. */
  lemma TagCrossesNoSeam(p: Pattern, s: string, k: nat)
    requires SeamFree(p, s, false) && s != "" && BlockAt(p, s).None?
    requires 1 < k <= |Remove(p, s)| && Remove(p, s)[0] == '<' && '>' !in Remove(p, s)[..k - 1]
    ensures !SeamIn(p, s, k)
  {
    hide BlockAt;
    assert Remove(p, s[1..])[..k - 2] == Remove(p, s)[..k - 1][1..];
    NoSeamBeforeGt(p, s[1..], k - 1);
  }

  lemma OpenHasOneGt(p: Pattern, s: string, name: string)
    requires Open(p, s, name).Some? && '>' !in name
    ensures '>' !in s[..Open(p, s, name).value - 1] && '>' !in s[1..|name| + 1]
  {
    var k, n := Open(p, s, name).value, |name| + 1;
    forall i | 0 <= i < k - 1 ensures s[i] != '>' {
      if 1 <= i < n {
        assert LetterMatches(s[1..n][i - 1], name[i - 1]);
      } else if n <= i {
        assert s[n..][..k - n - 1][i - n] == s[i];
      }
    }
  }

  lemma CloseHasOneGt(s: string, name: string)
    requires Close(s, name).Some? && '>' !in name
    ensures '>' !in s[..Close(s, name).value - 1]
  {
    hide TrimLeft;
    var k, n := Close(s, name).value, |name| + 2;
    forall i | 0 <= i < k - 1 ensures s[i] != '>' {
      if 2 <= i < n {
        assert s[2..n][i - 2] == s[i] && Lower(s[i]) == Lower(name[i - 2]);
      } else if n <= i {
        TrimLeftSkipsSpace(s[n..], i - n);
      }
    }
  }

  lemma SeamFreeNotSplicedAt(p: Pattern, s: string, name: string)
    requires SeamFree(p, s, false) && s != "" && BlockAt(p, s).None? && '>' !in name
    ensures !SplicedAt(p, s, name)
  {
    hide BlockNamed, Open, Close, SeamIn, SeamFree, Advance, Remove;
    var r := Remove(p, s);
    if BlockNamed(p, r, name).Some? {
      var b := BlockNamed(p, r, name).value;
      BlockParts(p, r, name);
      OpenHasOneGt(p, r, name);
      TagCrossesNoSeam(p, s, b.inner);
      var u := Advance(p, s, b.close);
      AdvanceIsSuffix(p, s, b.close);
      SeamFreeAdvance(p, s, b.close);
      CloseHasOneGt(r[b.close..], r[1..|name| + 1]);
      RemoveEmpty(p, u);
      TagCrossesNoSeam(p, u, b.end - b.close);
    }
  }

  lemma RemoveEmpty(p: Pattern, s: string)
    ensures Remove(p, s) != "" ==> s != ""
  {}

  /** The seam check rules out every spliced tag. */
  lemma {:induction false} SeamFreeNotSpliced(p: Pattern, s: string)
    requires PlainNames(p) && SeamFree(p, s, false)
    ensures !Spliced(p, s)
  {
    hide BlockAt, SplicedAt;
    if s != "" {
      match BlockAt(p, s)
      case Some(b) => SeamFreeNotSpliced(p, s[b.end..]);
      case None =>
        forall n | n in p.names ensures !SplicedAt(p, s, n) { SeamFreeNotSplicedAt(p, s, n); }
        if s[0] == '<' { SeamFreeWeaken(p, s[1..]); }
        SeamFreeNotSpliced(p, s[1..]);
    }
  }

  lemma SeamFreeIsIdempotent(word: char -> bool, raw: string)
    requires SeamFree(Reasoning(word), raw, false)
    ensures var once := StripReasoningBlocks(word, raw); StripReasoningBlocks(word, once) == once
  {
    hide Spliced, SeamFree, StripReasoningBlocks;
    SeamFreeNotSpliced(Reasoning(word), raw);
    StripIdempotentExactly(word, raw);
  }

  // ---- extract_output_payload and the pipeline ----

  lemma {:induction false} CloseInPrefix(s: string, i: nat, name: string)
    requires i <= |s| && FindClose(s[..i], name).Some?
    ensures FindClose(s, name).Some? && FindClose(s, name).value < i
  {
    hide Close;
    if Close(s[..i], name).Some? {
      CloseLocal(s[..i], s, name);
    } else if Close(s, name).None? {
      assert s[..i][1..] == s[1..][..i - 1];
      CloseInPrefix(s[1..], i - 1, name);
    }
  }

  lemma SameNameClose(s: string, a: string, b: string)
    requires Close(s, a).Some? && SameName(a, b)
    ensures Close(s, b).Some?
  {
    hide SameName, TrimLeft;
    SameNameThrough(s[2..|a| + 2], a, b);
  }

  lemma SameNameThrough(c: string, a: string, b: string)
    requires SameName(c, a) && SameName(a, b)
    ensures SameName(c, b) && |a| == |b|
  {
    hide Lower;
  }

  lemma {:induction false} SameNameFindClose(s: string, a: string, b: string)
    requires SameName(a, b)
    ensures FindClose(s, a) == FindClose(s, b)
  {
    hide Close, SameName;
    if s != "" {
      if Close(s, a).Some? { SameNameClose(s, a, b); }
      if Close(s, b).Some? { SameNameSymmetric(a, b); SameNameClose(s, b, a); }
      SameNameFindClose(s[1..], a, b);
    }
  }

  lemma SameNameSymmetric(a: string, b: string)
    requires SameName(a, b)
    ensures SameName(b, a)
  {}

  lemma {:induction false} HasBlockSomewhere(p: Pattern, s: string) returns (i: nat)
    requires HasBlock(p, s)
    ensures i < |s| && BlockAt(p, s[i..]).Some?
  {
    hide BlockAt;
    if BlockAt(p, s).Some? {
      i := 0;
      assert s[0..] == s;
    } else {
      i := HasBlockSomewhere(p, s[1..]);
      DropDrop(s, 1, i);
      i := i + 1;
    }
  }

  lemma OutputTag(word: char -> bool, s: string) returns (tag: string, b: Block)
    requires BlockAt(Output(word), s).Some?
    ensures BlockAt(Output(word), s) == Some(b)
    ensures NameMatches(tag, "output")
    ensures Close(s[b.close..], tag).Some? && FindClose(s[b.inner..], tag) == Some(b.close - b.inner)
  {
    hide Open, Close, FindClose, BlockNamed, NameMatches;
    var p := Output(word);
    b := BlockAt(p, s).value;
    FirstNamedIsSome(p, s, p.names);
    assert BlockNamed(p, s, "output") == Some(b);
    BlockParts(p, s, "output");
    tag := s[1..7];
    OpenMatchesName(p, s, "output");
  }

  lemma OpenMatchesName(p: Pattern, s: string, name: string)
    requires Open(p, s, name).Some?
    ensures NameMatches(s[1..|name| + 1], name)
  {}

  /** A non-greedy payload holds no closing tag, hence no block. */
  lemma PayloadHasNoBlock(word: char -> bool, s: string)
    requires BlockAt(Output(word), s).Some?
    ensures var b := BlockAt(Output(word), s).value; !HasBlock(Output(word), s[b.inner..b.close])
  {
    hide BlockAt, Close, FindClose, HasBlock;
    var tag, b := OutputTag(word, s);
    var w := s[b.inner..b.close];
    assert w == s[b.inner..][..b.close - b.inner];
    if HasBlock(Output(word), w) {
      var i := HasBlockSomewhere(Output(word), w);
      var tag', b' := OutputTag(word, w[i..]);
      DropDrop(w, i, b'.close);
      CloseFound(w, i + b'.close, tag');
      assert SameName(tag', tag);
      SameNameFindClose(w, tag', tag);
      CloseInPrefix(s[b.inner..], b.close - b.inner, tag);
    }
  }

  lemma {:induction false} PayloadsAreParts(word: char -> bool, s: string)
    ensures forall w <- Payloads(Output(word), s) :: Within(w, s) && !HasBlock(Output(word), w)
  {
    hide BlockAt, HasBlock, Output;
    var p := Output(word);
    if s != "" {
      if BlockAt(p, s).Some? {
        var b := BlockAt(p, s).value;
        PayloadHasNoBlock(word, s);
        PayloadsAreParts(word, s[b.end..]);
        assert s[b.end..] == s[b.end..|s|];
        forall w | w in Payloads(p, s[b.end..]) ensures Within(w, s) { WithinTrans(w, s[b.end..], s); }
      } else {
        PayloadsAreParts(word, s[1..]);
        assert s[1..] == s[1..|s|];
        forall w | w in Payloads(p, s[1..]) ensures Within(w, s) { WithinTrans(w, s[1..], s); }
      }
    }
  }

  /** What `extract_output_payload` returns holds no output block and is part of its input. */
  lemma ExtractedHasNoOutput(word: char -> bool, raw: string, r: string)
    requires r == ExtractOutputPayload(word, raw)
    ensures !HasBlock(Output(word), r)
    ensures Within(r, raw)
  {
    hide HasBlock, Trim, Output;
    var p := Output(word);
    var ws := Payloads(p, raw);
    if ws == [] {
      if HasBlock(p, raw) { RemoveShortens(p, raw); }
      assert raw == raw[0..|raw|];
    } else {
      var w := ws[|ws| - 1];
      PayloadsAreParts(word, raw);
      TrimIsWithin(w);
      WithinTrans(Trim(w), w, raw);
      if HasBlock(p, Trim(w)) { HasBlockWithin(p, Trim(w), w); }
    }
  }

  /** `extract_output_payload` is idempotent on every text. */
  lemma ExtractIdempotent(word: char -> bool, raw: string, once: string)
    requires once == ExtractOutputPayload(word, raw)
    ensures ExtractOutputPayload(word, once) == once
  {
    hide HasBlock, Trim, Output;
    ExtractedHasNoOutput(word, raw, once);
    RemoveNothing(Output(word), once);
  }

  lemma SanitizedHasNoOutput(word: char -> bool, raw: string)
    ensures var r := SanitizeLlmResponse(word, raw);
            !HasBlock(Output(word), r) && Within(r, StripReasoningBlocks(word, raw)) && Trim(r) == r
  {
    hide HasBlock, Trim, Output, StripReasoningBlocks, ExtractOutputPayload;
    var x := StripReasoningBlocks(word, raw);
    var e := ExtractOutputPayload(word, x);
    ExtractedHasNoOutput(word, x, e);
    TrimIsWithin(e);
    TrimIdempotent(e);
    WithinTrans(Trim(e), e, x);
    if HasBlock(Output(word), Trim(e)) { HasBlockWithin(Output(word), Trim(e), e); }
  }

  /** `sanitize_llm_response` is idempotent exactly where its result holds no reasoning block. */
  lemma SanitizeIdempotentExactly(word: char -> bool, raw: string, r: string)
    requires r == SanitizeLlmResponse(word, raw)
    ensures SanitizeLlmResponse(word, r) == r <==> !HasBlock(Reasoning(word), r)
  {
    hide HasBlock, Trim, Output, Reasoning, Remove;
    SanitizedHasNoOutput(word, raw);
    if HasBlock(Reasoning(word), r) {
      RemoveShortens(Reasoning(word), r);
      TrimIsWithin(Remove(Reasoning(word), r));
      SanitizedHasNoOutput(word, r);
    } else {
      StripFixed(word, r);
      RemoveNothing(Output(word), r);
    }
  }

  /** Where stripping is idempotent, so is the whole pipeline. */
  lemma SanitizeIdempotentWhenStripIs(word: char -> bool, raw: string)
    requires !Spliced(Reasoning(word), raw)
    ensures var r := SanitizeLlmResponse(word, raw); SanitizeLlmResponse(word, r) == r
  {
    hide HasBlock, Trim, Output, Reasoning, SanitizeLlmResponse, StripReasoningBlocks, Spliced;
    var x := StripReasoningBlocks(word, raw);
    var r := SanitizeLlmResponse(word, raw);
    StripIdempotentExactly(word, raw);
    StripFixed(word, x);
    SanitizedHasNoOutput(word, raw);
    SanitizeIdempotentExactly(word, raw, r);
    if HasBlock(Reasoning(word), r) { HasBlockWithin(Reasoning(word), r, x); }
  }

  // ---- The pipeline's idempotence, read off its input ----

  /** A spliced block begins at kept position i and lies whole before kept position hi. */
  predicate SplicedWhole(p: Pattern, s: string, i: nat, hi: nat, name: string)
    requires i <= hi <= |Remove(p, s)|
  {
    SplicedAt(p, Advance(p, s, i), name) && BlockNamed(p, Remove(p, s)[i..hi], name).Some?
  }

  predicate SplicedWithin(p: Pattern, s: string, lo: nat, hi: nat)
    requires lo <= hi <= |Remove(p, s)|
  {
    exists i, name :: lo <= i <= hi && name in p.names && SplicedWhole(p, s, i, hi, name)
  }

  lemma {:induction false} AdvanceStops(p: Pattern, s: string, q: nat)
    requires q <= |Remove(p, s)| && Advance(p, s, q) != ""
    ensures BlockAt(p, Advance(p, s, q)).None?
    decreases |s|
  {
    hide BlockAt;
    match BlockAt(p, s)
    case Some(b) => AdvanceStops(p, s[b.end..], q);
    case None => if q > 0 { AdvanceStops(p, s[1..], q - 1); }
  }

  /** A block of the kept text that starts where no block of the input starts is spliced. */
  lemma KeptBlockIsSpliced(p: Pattern, s: string, i: nat, hi: nat, name: string)
    requires i <= hi <= |Remove(p, s)| && name in p.names && BlockNamed(p, Remove(p, s)[i..hi], name).Some?
    ensures SplicedWhole(p, s, i, hi, name)
  {
    hide BlockNamed, SplicedAt, Remove, Advance, FirstNamed;
    var r, u := Remove(p, s), Advance(p, s, i);
    AdvanceIsSuffix(p, s, i);
    assert Agree(r[i..hi], r[i..], hi - i);
    BlockEndWithin(p, r[i..hi], name);
    BlockLocal(p, r[i..hi], r[i..], name);
    if !SplicedAt(p, u, name) {
      UnsplicedBlockIsOld(p, u, name);
      FirstNamedIsSome(p, u, p.names);
      NoBlockInNothing(p, name);
      AdvanceStops(p, s, i);
    }
  }

  lemma NoBlockInNothing(p: Pattern, name: string)
    ensures BlockNamed(p, "", name).None?
  {}

  lemma BlockEndWithin(p: Pattern, s: string, name: string)
    requires BlockNamed(p, s, name).Some?
    ensures BlockNamed(p, s, name).value.end <= |s|
  {
    hide Open, FindClose, Close;
  }

  /** A stretch of the kept text holds a block exactly when a spliced block lies in it. */
  lemma BlocksWithinAreSpliced(p: Pattern, s: string, lo: nat, hi: nat)
    requires lo <= hi <= |Remove(p, s)|
    ensures HasBlock(p, Remove(p, s)[lo..hi]) <==> SplicedWithin(p, s, lo, hi)
  {
    hide BlockNamed, SplicedAt, Remove, Advance, FirstNamed, HasBlock;
    var r := Remove(p, s);
    if HasBlock(p, r[lo..hi]) {
      var k := HasBlockSomewhere(p, r[lo..hi]);
      var i := lo + k;
      assert r[lo..hi][k..] == r[i..hi];
      FirstNamedIsSome(p, r[i..hi], p.names);
      var name :| name in p.names && BlockNamed(p, r[i..hi], name) == BlockAt(p, r[i..hi]);
      KeptBlockIsSpliced(p, s, i, hi, name);
    }
    if SplicedWithin(p, s, lo, hi) {
      var i, name :| lo <= i <= hi && name in p.names && SplicedWhole(p, s, i, hi, name);
      assert r[lo..hi][i - lo..] == r[i..hi];
      NamedIsBlock(p, r[i..hi], name);
      HasBlockInSuffix(p, r[lo..hi], i - lo);
    }
  }

  lemma NamedIsBlock(p: Pattern, s: string, name: string)
    requires name in p.names && BlockNamed(p, s, name).Some?
    ensures HasBlock(p, s)
  {
    hide BlockNamed, FirstNamed, HasBlock;
    FirstNamedIsSome(p, s, p.names);
    NoBlockInNothing(p, name);
    HasBlockHere(p, s);
  }

  /** Where the payload of the last block lies. */
  function LastSpan(p: Pattern, s: string): (r: Option<(nat, nat)>)
    ensures r.Some? ==> r.value.0 <= r.value.1 <= |s|
  {
    if s == "" then None
    else match BlockAt(p, s)
      case Some(b) =>
        (match LastSpan(p, s[b.end..])
         case Some((c, d)) => Some((b.end + c, b.end + d))
         case None => Some((b.inner, b.close)))
      case None =>
        match LastSpan(p, s[1..])
        case Some((c, d)) => Some((1 + c, 1 + d))
        case None => None
  }

  lemma {:induction false} LastSpanIsLastPayload(p: Pattern, s: string)
    ensures LastSpan(p, s).None? <==> Payloads(p, s) == []
    ensures LastSpan(p, s).Some? ==>
      Payloads(p, s)[|Payloads(p, s)| - 1] == s[LastSpan(p, s).value.0..LastSpan(p, s).value.1]
    decreases |s|
  {
    hide BlockAt;
    if s != "" {
      var n := match BlockAt(p, s) case Some(b) => b.end case None => 1;
      LastSpanIsLastPayload(p, s[n..]);
      if LastSpan(p, s[n..]).Some? {
        var (c, d) := LastSpan(p, s[n..]).value;
        SliceOfSlice(s, n, |s|, c, d);
      }
    }
  }

  /** The guard on the input: with an output block in the stripped text, no spliced block lies in the last
      payload; without one, there is none at all. Kept positions count from the text before trimming. */
  predicate SanitizeKeeps(word: char -> bool, raw: string) {
    var p := Reasoning(word);
    var kept := Remove(p, raw);
    match LastSpan(Output(word), Trim(kept))
    case None => !Spliced(p, raw)
    case Some((c, d)) =>
      TrimPlace(kept);
      var start := |kept| - |TrimLeft(kept)|;
      !SplicedWithin(p, raw, start + c, start + d)
  }

  lemma TrimPlace(s: string)
    ensures var start := |s| - |TrimLeft(s)|;
            start + |Trim(s)| <= |s| && Trim(s) == s[start..start + |Trim(s)|]
  {
    hide IsSpace;
  }

  /** The result holds a reasoning block exactly when the guard fails. */
  lemma SanitizedBlocksExactly(word: char -> bool, raw: string)
    ensures HasBlock(Reasoning(word), SanitizeLlmResponse(word, raw)) <==> !SanitizeKeeps(word, raw)
  {
    hide HasBlock, Trim, TrimLeft, Output, Reasoning, Remove, Spliced, SplicedWithin, LastSpan, Payloads;
    var p := Reasoning(word);
    var kept := Remove(p, raw);
    var n := Trim(kept);
    TrimIdempotent(kept);
    LastSpanIsLastPayload(Output(word), n);
    match LastSpan(Output(word), n)
    case None =>
      TrimKeepsBlocks(p, kept);
      NewBlocksAreSpliced(p, raw);
    case Some((c, d)) =>
      TrimPlace(kept);
      var start := |kept| - |TrimLeft(kept)|;
      SliceOfSlice(kept, start, start + |n|, c, d);
      TrimIdempotent(n[c..d]);
      TrimKeepsBlocks(p, n[c..d]);
      BlocksWithinAreSpliced(p, raw, start + c, start + d);
  }

  /** `sanitize_llm_response` is idempotent on exactly the inputs that pass the guard. */
  lemma SanitizeIdempotentOnInput(word: char -> bool, raw: string, once: string)
    requires once == SanitizeLlmResponse(word, raw)
    ensures SanitizeLlmResponse(word, once) == once <==> SanitizeKeeps(word, raw)
  {
    hide HasBlock, SanitizeKeeps, SanitizeLlmResponse, Reasoning;
    SanitizedBlocksExactly(word, raw);
    SanitizeIdempotentExactly(word, raw, once);
  }

  // ---- The scanner against the pattern read declaratively ----

  /** The pieces of one match of the pattern, and the text after it. */
  datatype Match = Match(tag: string, attrs: string, body: string, again: string, gap: string, rest: string) {
    function Joined(): string {
      "<" + tag + attrs + ">" + body + "</" + again + gap + ">" + rest
    }
  }

  predicate Fits(p: Pattern, name: string, m: Match) {
    && NameMatches(m.tag, name) && '>' !in m.attrs && !p.word((m.attrs + ">")[0])
    && SameName(m.again, m.tag) && forall c <- m.gap :: IsSpace(c)
  }

  lemma {:induction false} ThroughGtOf(a: string, rest: string)
    requires '>' !in a
    ensures ThroughGt(a + ">" + rest) == Some(|a| + 1)
  {
    var s := a + ">" + rest;
    if a != "" {
      assert s[1..] == a[1..] + ">" + rest;
      ThroughGtOf(a[1..], rest);
    }
  }

  lemma {:induction false} TrimLeftOf(gap: string, rest: string)
    requires forall c <- gap :: IsSpace(c)
    requires rest != "" && !IsSpace(rest[0])
    ensures TrimLeft(gap + rest) == rest
  {
    hide IsSpace;
    if gap == "" {
      assert gap + rest == rest;
    } else {
      assert (gap + rest)[1..] == gap[1..] + rest;
      TrimLeftOf(gap[1..], rest);
    }
  }

  lemma OpenOf(p: Pattern, name: string, tag: string, attrs: string, rest: string)
    requires NameMatches(tag, name) && '>' !in attrs && !p.word((attrs + ">")[0])
    ensures Open(p, "<" + tag + attrs + ">" + rest, name) == Some(|tag| + |attrs| + 2)
  {
    hide NameMatches, ThroughGt;
    var s := "<" + tag + attrs + ">" + rest;
    NameLength(tag, name);
    assert s[1..|tag| + 1] == tag;
    assert s[|tag| + 1..] == attrs + ">" + rest;
    assert s[|tag| + 1] == (attrs + ">")[0];
    ThroughGtOf(attrs, rest);
  }

  lemma NameLength(tag: string, name: string)
    requires NameMatches(tag, name)
    ensures |tag| == |name|
  {}

  lemma CloseOf(tag: string, again: string, gap: string, rest: string)
    requires SameName(again, tag) && forall c <- gap :: IsSpace(c)
    ensures Close("</" + again + gap + ">" + rest, tag) == Some(|again| + |gap| + 3)
  {
    hide TrimLeft;
    var s := "</" + again + gap + ">" + rest;
    assert s[2..|again| + 2] == again;
    assert s[|again| + 2..] == gap + (">" + rest);
    TrimLeftOf(gap, ">" + rest);
  }

  /** Every reading of the pattern at the head of a text is found, with a body no longer than it. */
  lemma MatchIsFound(p: Pattern, name: string, m: Match)
    requires Fits(p, name, m)
    ensures var r := BlockNamed(p, m.Joined(), name);
            r.Some? && r.value.close - r.value.inner <= |m.body|
  {
    hide Open, Close, FindClose, BlockNamed, NameMatches, SameName, IsSpace, Match.Joined;
    var tail := "</" + m.again + m.gap + ">" + m.rest;
    var s, k := m.Joined(), |m.tag| + |m.attrs| + 2;
    NameLength(m.tag, name);
    JoinedHead(m, tail);
    OpenOf(p, name, m.tag, m.attrs, m.body + tail);
    CloseOf(m.tag, m.again, m.gap, m.rest);
    CloseFoundBefore(m.body + tail, |m.body|, m.tag);
    BlockOf(p, s, name, k);
  }

  lemma JoinedHead(m: Match, tail: string)
    requires tail == "</" + m.again + m.gap + ">" + m.rest
    ensures var s, k := m.Joined(), |m.tag| + |m.attrs| + 2;
            && s == "<" + m.tag + m.attrs + ">" + (m.body + tail)
            && k <= |s| && s[k..] == m.body + tail && s[1..|m.tag| + 1] == m.tag
    ensures (m.body + tail)[|m.body|..] == tail
  {
    var s := m.Joined();
    assert s == "<" + m.tag + m.attrs + ">" + (m.body + tail);
  }

  lemma BlockOf(p: Pattern, s: string, name: string, k: nat)
    requires Open(p, s, name) == Some(k) && |name| + 1 <= |s| && k <= |s|
    requires FindClose(s[k..], s[1..|name| + 1]).Some?
    ensures var r := BlockNamed(p, s, name);
            && r.Some? && r.value.inner == k && r.value.close == k + FindClose(s[k..], s[1..|name| + 1]).value
            && Close(s[r.value.close..], s[1..|name| + 1]) == Some(r.value.end - r.value.close)
  {
    hide Open, FindClose, Close;
    var j := FindClose(s[k..], s[1..|name| + 1]).value;
    FoundIsClose(s[k..], s[1..|name| + 1]);
    DropDrop(s, k, j);
  }

  lemma {:induction false} CloseFoundBefore(s: string, j: nat, name: string)
    requires j <= |s| && Close(s[j..], name).Some?
    ensures FindClose(s, name).Some? && FindClose(s, name).value <= j
  {
    hide Close;
    if j > 0 && Close(s, name).None? {
      DropDrop(s, 1, j - 1);
      CloseFoundBefore(s[1..], j - 1, name);
    } else {
      assert s[0..] == s;
    }
  }

  /** And every block the scanner reports is a reading of the pattern, with the reported payload. */
  lemma FoundIsMatch(p: Pattern, s: string, name: string) returns (m: Match)
    requires BlockNamed(p, s, name).Some?
    ensures Fits(p, name, m) && m.Joined() == s
    ensures var b := BlockNamed(p, s, name).value; m.body == s[b.inner..b.close] && m.rest == s[b.end..]
  {
    hide BlockNamed, Open, Close, NameMatches, SameName, IsSpace, Match.Joined;
    var b := BlockNamed(p, s, name).value;
    BlockParts(p, s, name);
    var tag, attrs := OpenPieces(p, s, name);
    var again, gap := ClosePieces(s[b.close..], tag);
    m := Match(tag, attrs, s[b.inner..b.close], again, gap, s[b.end..]);
    Reassemble(m, s, b.inner, b.close, b.end);
  }

  lemma Reassemble(m: Match, s: string, i: nat, j: nat, k: nat)
    requires i <= j <= k <= |s|
    requires s[..i] == "<" + m.tag + m.attrs + ">" && s[i..j] == m.body
    requires s[j..][..k - j] == "</" + m.again + m.gap + ">" && s[k..] == m.rest
    ensures m.Joined() == s
  {
    hide Match.Joined;
    JoinedPieces(m);
    ThreeCuts(s, i, j, k);
  }

  lemma JoinedPieces(m: Match)
    ensures m.Joined() == ("<" + m.tag + m.attrs + ">") + m.body + ("</" + m.again + m.gap + ">") + m.rest
  {
    var head := "<" + m.tag + m.attrs + ">" + m.body;
    assert head + "</" + m.again + m.gap + ">" == head + ("</" + m.again + m.gap + ">");
  }

  lemma OpenPieces(p: Pattern, s: string, name: string) returns (tag: string, attrs: string)
    requires Open(p, s, name).Some?
    ensures NameMatches(tag, name) && '>' !in attrs && !p.word((attrs + ">")[0])
    ensures tag == s[1..|name| + 1] && s[..Open(p, s, name).value] == "<" + tag + attrs + ">"
  {
    hide NameMatches;
    var k, n := Open(p, s, name).value, |name| + 1;
    tag, attrs := s[1..n], s[n..k - 1];
    assert (attrs + ">")[0] == s[n];
    assert attrs == s[n..][..k - n - 1];
  }

  lemma ClosePieces(s: string, tag: string) returns (again: string, gap: string)
    requires Close(s, tag).Some?
    ensures SameName(again, tag) && forall c <- gap :: IsSpace(c)
    ensures s[..Close(s, tag).value] == "</" + again + gap + ">"
  {
    hide SameName, IsSpace, TrimLeft;
    var k, n := Close(s, tag).value, |tag| + 2;
    again, gap := s[2..n], s[n..k - 1];
    forall i | 0 <= i < |gap| ensures IsSpace(gap[i]) { TrimLeftSkipsSpace(s[n..], i); }
  }

  /** `sub` removes, and `findall` reports, the leftmost block first; what stands before it is kept. */
  lemma {:induction false} LeftmostFirst(p: Pattern, pre: string, s: string)
    requires BlockAt(p, s).Some?
    requires forall j :: 0 <= j < |pre| ==> BlockAt(p, pre[j..] + s).None?
    ensures var b := BlockAt(p, s).value;
            && Remove(p, pre + s) == pre + Remove(p, s[b.end..])
            && Payloads(p, pre + s) == [s[b.inner..b.close]] + Payloads(p, s[b.end..])
  {
    hide BlockAt;
    if pre == "" {
      assert pre + s == s;
    } else {
      assert pre[0..] == pre;
      forall j | 0 <= j < |pre| - 1 ensures pre[1..][j..] == pre[j + 1..] { DropDrop(pre, 1, j); }
      assert (pre + s)[1..] == pre[1..] + s;
      LeftmostFirst(p, pre[1..], s);
    }
  }

  // ---- Which tags the two patterns know ----

  lemma WrongLetter(p: Pattern, s: string, name: string, k: nat)
    requires s != "" ==> s[0] != '<' || (k < |name| && k + 1 < |s| && !LetterMatches(s[k + 1], name[k]))
    ensures BlockNamed(p, s, name).None?
  {
    hide ThroughGt, FindClose, LetterMatches;
    var n := |name| + 1;
    if n < |s| && s[0] == '<' {
      assert s[1..n][k] == s[k + 1];
    }
  }

  /** The character is this lower-case letter or its upper-case form. */
  predicate InCase(c: char, letter: char) {
    c == letter || exists i :: 0 <= i < 26 && LOWERS[i] == letter && UPPERS[i] == c
  }

  /** The text is this lower-case name, each letter in its own case. */
  predicate Cased(text: string, name: string) {
    |text| == |name| && forall k :: 0 <= k < |name| ==> InCase(text[k], name[k])
  }

  /** The table of word characters has the ASCII letters, and the two letters that Python folds to `i`. */
  predicate HasLetters(word: char -> bool) {
    && (forall i :: 0 <= i < 26 ==> word(LOWERS[i]) && word(UPPERS[i]))
    && word('\U{0130}') && word('\U{0131}') && !word('>')
  }

  /** The pieces of one block: the two tags spell the name, each in any case, and the first closing tag is the one
      behind the body. */
  predicate Spelled(word: char -> bool, name: string, m: Match) {
    && Cased(m.tag, name) && Cased(m.again, name)
    && '>' !in m.attrs && !word((m.attrs + ">")[0]) && (forall c <- m.gap :: IsSpace(c))
    && FindClose(m.body + ("</" + m.again + m.gap + ">" + m.rest), m.tag) == Some(|m.body|)
  }

  lemma LetterCode(letter: char)
    requires letter in LOWERS
    ensures 'a' <= letter <= 'z'
  {
    var j :| 0 <= j < 26 && LOWERS[j] == letter;
    LowerAt(j);
  }

  lemma CaseCode(c: char, letter: char)
    requires InCase(c, letter) && c != letter
    ensures 'A' <= c <= 'Z' && c as int + 32 == letter as int
  {
    var i :| 0 <= i < 26 && LOWERS[i] == letter && UPPERS[i] == c;
    LowerAt(i);
  }

  lemma LetterIs(c: char, letter: char)
    requires InCase(c, letter) && letter in LOWERS
    ensures Lower(c) == letter
  {
    LetterCode(letter);
    if c != letter { CaseCode(c, letter); }
  }

  /** The characters a letter of a name matches, as `re.IGNORECASE` has it for text patterns: the letter in both
      cases; for `i` also the dotted capital and the dotless small one, for `k` the Kelvin sign, for `s` the long s. */
  lemma LetterMatchesExactly(c: char, i: nat)
    requires i < 26
    ensures LetterMatches(c, LOWERS[i])
            <==> (c == LOWERS[i] || c == UPPERS[i] || (i == 8 && (c == '\U{0130}' || c == '\U{0131}'))
                  || (i == 10 && c == '\U{212A}') || (i == 18 && c == '\U{017F}'))
  {
    LowerAt(i);
    LowerAt(8);
    LowerAt(10);
    LowerAt(18);
  }

  /** The characters that a back-reference takes for the same letter. */
  lemma SameLetterExactly(c: char, i: nat)
    requires i < 26
    ensures SameName([c], [LOWERS[i]])
            <==> (c == LOWERS[i] || c == UPPERS[i] || (i == 8 && c == '\U{0130}') || (i == 10 && c == '\U{212A}'))
  {
    LowerAt(i);
    LowerAt(8);
    LowerAt(10);
    assert [c][0] == c && [LOWERS[i]][0] == LOWERS[i];
  }

  predicate Letters(name: string) {
    forall k :: 0 <= k < |name| ==> name[k] in LOWERS
  }

  lemma CasedMatches(text: string, again: string, name: string)
    requires Cased(text, name) && Cased(again, name) && Letters(name)
    ensures NameMatches(text, name) && SameName(again, text)
  {
    hide InCase, Lower;
    forall k | 0 <= k < |name| ensures Lower(text[k]) == name[k] && Lower(again[k]) == name[k] {
      LetterIs(text[k], name[k]);
      LetterIs(again[k], name[k]);
    }
  }

  /** A letter in either case matches no other letter. */
  lemma LetterApart(c: char, letter: char, other: char)
    requires InCase(c, letter) && letter in LOWERS && other in LOWERS && letter != other
    ensures !LetterMatches(c, other)
  {
    LetterIs(c, letter);
    LetterCode(letter);
    if c != letter { CaseCode(c, letter); }
  }

  lemma {:induction false} FirstNamedSkips(p: Pattern, s: string, names: seq<string>, k: nat)
    requires k < |names| && BlockNamed(p, s, names[k]).Some?
    requires forall j :: 0 <= j < k ==> BlockNamed(p, s, names[j]).None?
    ensures FirstNamed(p, s, names) == BlockNamed(p, s, names[k])
  {
    hide BlockNamed;
    if k > 0 { FirstNamedSkips(p, s, names[1..], k - 1); }
  }

  /** Where the body and the rest lie in the joined pieces. */
  lemma JoinedParts(m: Match, tail: string)
    requires tail == "</" + m.again + m.gap + ">" + m.rest
    ensures var s, k, j := m.Joined(), |m.tag| + |m.attrs| + 2, |m.tag| + |m.attrs| + 2 + |m.body|;
            && j + |m.again| + |m.gap| + 3 <= |s| && s[k..j] == m.body && s[j..] == tail
            && s[j + |m.again| + |m.gap| + 3..] == m.rest
  {
    hide Match.Joined;
    JoinedHead(m, tail);
    var s, k := m.Joined(), |m.tag| + |m.attrs| + 2;
    DropDrop(s, k, |m.body|);
    DropDrop(s, k + |m.body|, |m.again| + |m.gap| + 3);
    assert s[k..k + |m.body|] == s[k..][..|m.body|] == m.body;
    assert tail[|m.again| + |m.gap| + 3..] == m.rest;
  }

  lemma SpelledTags(p: Pattern, name: string, m: Match, tail: string)
    requires Spelled(p.word, name, m) && Letters(name) && tail == "</" + m.again + m.gap + ">" + m.rest
    ensures |m.tag| == |name| && Open(p, m.Joined(), name) == Some(|m.tag| + |m.attrs| + 2)
    ensures Close(tail, m.tag) == Some(|m.again| + |m.gap| + 3)
    ensures FindClose(m.body + tail, m.tag) == Some(|m.body|)
  {
    hide *;
    SpelledParts(p.word, name, m, tail);
    CasedMatches(m.tag, m.again, name);
    NameLength(m.tag, name);
    OpenOf(p, name, m.tag, m.attrs, m.body + tail);
    CloseOf(m.tag, m.again, m.gap, m.rest);
    JoinedHead(m, tail);
  }

  lemma JoinedSlices(m: Match, tail: string)
    requires tail == "</" + m.again + m.gap + ">" + m.rest
    ensures var s, k := m.Joined(), |m.tag| + |m.attrs| + 2;
            k <= |s| && s[k..] == m.body + tail && |m.tag| + 1 <= |s| && s[1..|m.tag| + 1] == m.tag
  {
    hide *;
    JoinedHead(m, tail);
  }

  /** The pieces make a block. */
  lemma SpelledBlock(p: Pattern, name: string, m: Match, tail: string, k: nat)
    requires Spelled(p.word, name, m) && Letters(name) && tail == "</" + m.again + m.gap + ">" + m.rest
    requires k == |m.tag| + |m.attrs| + 2 && k + |m.body| <= |m.Joined()| && m.Joined()[k + |m.body|..] == tail
    ensures BlockNamed(p, m.Joined(), name)
            == Some(Block(k, k + |m.body|, k + |m.body| + (|m.again| + |m.gap| + 3)))
  {
    hide *;
    SpelledTags(p, name, m, tail);
    JoinedSlices(m, tail);
    PiecesBlock(p, m.Joined(), name, m, tail, k, |m.again| + |m.gap| + 3);
  }

  lemma PiecesBlock(p: Pattern, s: string, name: string, m: Match, tail: string, k: nat, c: nat)
    requires Open(p, s, name) == Some(k) && k <= |s| && |name| + 1 <= |s| && s[1..|name| + 1] == m.tag
    requires s[k..] == m.body + tail && FindClose(m.body + tail, m.tag) == Some(|m.body|)
    requires Close(tail, m.tag) == Some(c) && k + |m.body| <= |s| && s[k + |m.body|..] == tail
    ensures BlockNamed(p, s, name) == Some(Block(k, k + |m.body|, k + |m.body| + c))
  {
    hide *;
    BlockIs(p, s, name, m.tag, k, m.body + tail, |m.body|, tail, c);
  }

  /** A block with these pieces, as the scanner reports it. */
  lemma SpelledIsFound(p: Pattern, name: string, m: Match)
    requires Spelled(p.word, name, m) && Letters(name)
    ensures var r := BlockNamed(p, m.Joined(), name);
            && r.Some? && m.Joined()[r.value.inner..r.value.close] == m.body && m.Joined()[r.value.end..] == m.rest
  {
    hide *;
    var tail := "</" + m.again + m.gap + ">" + m.rest;
    JoinedParts(m, tail);
    SpelledBlock(p, name, m, tail, |m.tag| + |m.attrs| + 2);
  }

  lemma SpelledParts(word: char -> bool, name: string, m: Match, tail: string)
    requires Spelled(word, name, m) && tail == "</" + m.again + m.gap + ">" + m.rest
    ensures Cased(m.tag, name) && Cased(m.again, name) && '>' !in m.attrs && !word((m.attrs + ">")[0])
    ensures (forall c <- m.gap :: IsSpace(c)) && FindClose(m.body + tail, m.tag) == Some(|m.body|)
  {
    hide Cased, IsSpace, FindClose;
  }

  lemma BlockIs(p: Pattern, s: string, name: string, tag: string, k: nat, inner: string, j: nat, tail: string, c: nat)
    requires Open(p, s, name) == Some(k) && k <= |s| && |name| + 1 <= |s| && s[1..|name| + 1] == tag
    requires s[k..] == inner && FindClose(inner, tag) == Some(j) && Close(tail, tag) == Some(c)
    requires k + j <= |s| && s[k + j..] == tail
    ensures BlockNamed(p, s, name) == Some(Block(k, k + j, k + j + c))
  {
    hide *;
    BlockOf(p, s, name, k);
    var b := BlockNamed(p, s, name).value;
    assert b.close == k + j;
  }

  lemma NamesOf(word: char -> bool, name: string)
    requires name in {"thinking", "think", "reasoning", "reflection", "output"}
    ensures Letters(name)
  {
    forall k | 0 <= k < |name| ensures name[k] in LOWERS { NameLetter(name[k]); }
  }

  lemma NameLetter(c: char)
    requires c in "thinkreasoglcup" || c == 'f'
    ensures c in LOWERS
  {
    LowerAt(c as int - 97);
    assert LOWERS[c as int - 97] == c;
  }

  /** The tag's letter k, and what stands behind a tag of five letters. */
  lemma TagLetter(m: Match, k: nat)
    requires k < |m.tag|
    ensures |m.Joined()| > k + 1 && m.Joined()[k + 1] == m.tag[k] && m.Joined()[0] == '<'
  {}

  lemma BehindTag(m: Match)
    ensures |m.Joined()| > |m.tag| + 1 && m.Joined()[|m.tag| + 1] == (m.attrs + ">")[0] && m.Joined()[0] == '<'
  {}

  lemma NoWordIsI(word: char -> bool, c: char)
    requires HasLetters(word) && !word(c)
    ensures !LetterMatches(c, 'i')
  {
    LowerAt(8);
    assert LOWERS[8] == 'i' && UPPERS[8] == 'I';
  }

  lemma LettersApart(m: Match, name: string, other: string, k: nat, p: Pattern)
    requires Cased(m.tag, name) && k < |name| && k < |other| && name[k] != other[k]
    requires name[k] in LOWERS && other[k] in LOWERS
    ensures BlockNamed(p, m.Joined(), other).None?
  {
    hide LetterMatches, InCase, BlockNamed, Match.Joined;
    TagLetter(m, k);
    LetterApart(m.tag[k], name[k], other[k]);
    WrongLetter(p, m.Joined(), other, k);
  }

  lemma ThinkIsShort(word: char -> bool, m: Match)
    requires HasLetters(word) && Cased(m.tag, "think") && !word((m.attrs + ">")[0])
    ensures BlockNamed(Reasoning(word), m.Joined(), "thinking").None?
  {
    assert |m.tag| == 5;
    hide *;
    BehindTag(m);
    NoWordIsI(word, (m.attrs + ">")[0]);
    WrongLetter(Reasoning(word), m.Joined(), "thinking", 5);
  }

  /** The names tried before this one do not open the block. */
  lemma EarlierNames(word: char -> bool, name: string, m: Match)
    requires Cased(m.tag, name)
    ensures name in {"reasoning", "reflection"} ==>
              BlockNamed(Reasoning(word), m.Joined(), "thinking").None?
              && BlockNamed(Reasoning(word), m.Joined(), "think").None?
    ensures name == "reflection" ==> BlockNamed(Reasoning(word), m.Joined(), "reasoning").None?
  {
    hide *;
    NameLetter('t');
    NameLetter('r');
    NameLetter('a');
    NameLetter('f');
    if name == "reasoning" {
      LettersApart(m, name, "thinking", 0, Reasoning(word));
      LettersApart(m, name, "think", 0, Reasoning(word));
    } else if name == "reflection" {
      LettersApart(m, name, "thinking", 0, Reasoning(word));
      LettersApart(m, name, "think", 0, Reasoning(word));
      LettersApart(m, name, "reasoning", 2, Reasoning(word));
    }
  }

  lemma FourNames(word: char -> bool)
    ensures Reasoning(word).word == word && |Reasoning(word).names| == 4
    ensures var names := Reasoning(word).names;
            names[0] == "thinking" && names[1] == "think" && names[2] == "reasoning" && names[3] == "reflection"
  {}

  /** A block with one of the four names is the one the alternation finds. */
  lemma ReasoningIsFound(word: char -> bool, name: string, m: Match)
    requires HasLetters(word) && name in {"thinking", "think", "reasoning", "reflection"} && Spelled(word, name, m)
    ensures BlockAt(Reasoning(word), m.Joined()) == BlockNamed(Reasoning(word), m.Joined(), name)
    ensures BlockAt(Reasoning(word), m.Joined()).Some?
  {
    hide *;
    var p := Reasoning(word);
    FourNames(word);
    NamesOf(word, name);
    SpelledParts(word, name, m, "</" + m.again + m.gap + ">" + m.rest);
    SpelledIsFound(p, name, m);
    EarlierNames(word, name, m);
    if name == "think" { ThinkIsShort(word, m); }
    var k := if name == "thinking" then 0 else if name == "think" then 1 else if name == "reasoning" then 2 else 3;
    FirstNamedSkips(p, m.Joined(), p.names, k);
    AtHead(p, m.Joined());
  }

  lemma AtHead(p: Pattern, s: string)
    ensures BlockAt(p, s) == FirstNamed(p, s, p.names)
  {
    hide FirstNamed;
  }

  /** Stripping removes the leftmost block of each of the four names, in any case, with any attributes, and goes on
      behind it. */
  lemma ReasoningIsRemoved(word: char -> bool, pre: string, name: string, m: Match)
    requires HasLetters(word) && name in {"thinking", "think", "reasoning", "reflection"} && Spelled(word, name, m)
    requires forall j :: 0 <= j < |pre| ==> BlockAt(Reasoning(word), pre[j..] + m.Joined()).None?
    ensures Remove(Reasoning(word), pre + m.Joined()) == pre + Remove(Reasoning(word), m.rest)
    ensures StripReasoningBlocks(word, pre + m.Joined()) == Trim(pre + Remove(Reasoning(word), m.rest))
  {
    SpelledIsCut(word, pre, name, m);
    hide Remove, Trim, Match.Joined, Reasoning;
  }

  lemma SpelledIsCut(word: char -> bool, pre: string, name: string, m: Match)
    requires HasLetters(word) && name in {"thinking", "think", "reasoning", "reflection"} && Spelled(word, name, m)
    requires forall j :: 0 <= j < |pre| ==> BlockAt(Reasoning(word), pre[j..] + m.Joined()).None?
    ensures Remove(Reasoning(word), pre + m.Joined()) == pre + Remove(Reasoning(word), m.rest)
  {
    hide *;
    FourNames(word);
    NamesOf(word, name);
    SpelledIsFound(Reasoning(word), name, m);
    ReasoningIsFound(word, name, m);
    LeftmostFirst(Reasoning(word), pre, m.Joined());
  }

  /** Extraction gives the trimmed payload of the leftmost output block if no other follows, and else goes on behind
      it. */
  lemma OutputIsExtracted(word: char -> bool, pre: string, m: Match)
    requires Spelled(word, "output", m)
    requires forall j :: 0 <= j < |pre| ==> BlockAt(Output(word), pre[j..] + m.Joined()).None?
    ensures ExtractOutputPayload(word, pre + m.Joined())
            == if HasBlock(Output(word), m.rest) then ExtractOutputPayload(word, m.rest) else Trim(m.body)
  {
    var p := Output(word);
    NamesOf(word, "output");
    SpelledIsFound(p, "output", m);
    FirstNamedSkips(p, m.Joined(), p.names, 0);
    hide BlockNamed, FirstNamed, Match.Joined, Spelled, Output, Trim, HasBlock, Payloads;
    LeftmostFirst(p, pre, m.Joined());
    if HasBlock(p, m.rest) { RemoveShortens(p, m.rest); } else { RemoveNothing(p, m.rest); }
  }

  lemma {:induction false} NoBlockWithoutLt(p: Pattern, s: string)
    requires '<' !in s
    ensures !HasBlock(p, s)
  {
    hide BlockAt;
    if s != "" {
      BlockStartsWithLt(p, s);
      NoBlockWithoutLt(p, s[1..]);
    }
  }

  lemma NoBlockBefore(p: Pattern, pre: string, s: string)
    requires '<' !in pre
    ensures forall j :: 0 <= j < |pre| ==> BlockAt(p, pre[j..] + s).None?
  {
    hide BlockAt;
    forall j | 0 <= j < |pre| ensures BlockAt(p, pre[j..] + s).None? { BlockStartsWithLt(p, pre[j..] + s); }
  }

  /** In a text with no other '<', the four kinds of block and nothing else are removed, and the text around them is
      what is left. */
  lemma OnlyBlockIsRemoved(word: char -> bool, pre: string, name: string, m: Match)
    requires HasLetters(word) && name in {"thinking", "think", "reasoning", "reflection"}
    requires Cased(m.tag, name) && Cased(m.again, name) && '>' !in m.attrs && !word((m.attrs + ">")[0])
    requires (forall c <- m.gap :: c as int in SPACES) && '<' !in pre && '<' !in m.body && '<' !in m.rest
    ensures StripReasoningBlocks(word, pre + m.Joined()) == Trim(pre + m.rest)
  {
    NamesOf(word, name);
    FirstCloseIsIts(name, m);
    hide BlockAt, Match.Joined, Remove, Reasoning, Trim, Cased, FindClose, HasBlock;
    NoBlockBefore(Reasoning(word), pre, m.Joined());
    NoBlockWithoutLt(Reasoning(word), m.rest);
    RemoveNothing(Reasoning(word), m.rest);
    ReasoningIsRemoved(word, pre, name, m);
  }

  lemma OnlyOutputIsExtracted(word: char -> bool, pre: string, m: Match)
    requires Cased(m.tag, "output") && Cased(m.again, "output") && '>' !in m.attrs && !word((m.attrs + ">")[0])
    requires (forall c <- m.gap :: c as int in SPACES) && '<' !in pre && '<' !in m.body && '<' !in m.rest
    ensures ExtractOutputPayload(word, pre + m.Joined()) == Trim(m.body)
  {
    NamesOf(word, "output");
    FirstCloseIsIts("output", m);
    hide BlockAt, Match.Joined, Output, Trim, Cased, FindClose, HasBlock, Payloads;
    NoBlockBefore(Output(word), pre, m.Joined());
    NoBlockWithoutLt(Output(word), m.rest);
    OutputIsExtracted(word, pre, m);
  }

  /** A body without '<' is followed by the first closing tag. */
  lemma FirstCloseIsIts(name: string, m: Match)
    requires Cased(m.tag, name) && Cased(m.again, name) && Letters(name)
    requires (forall c <- m.gap :: c as int in SPACES) && '<' !in m.body
    ensures forall c <- m.gap :: IsSpace(c)
    ensures FindClose(m.body + ("</" + m.again + m.gap + ">" + m.rest), m.tag) == Some(|m.body|)
  {
    forall c | c in m.gap ensures IsSpace(c) { SpacesExactly(c); }
    CasedMatches(m.tag, m.again, name);
    hide IsSpace, Close, FindClose, Cased, Letters, SameName;
    CloseOf(m.tag, m.again, m.gap, m.rest);
    FirstClose(m.body, "</" + m.again + m.gap + ">" + m.rest, m.tag);
  }

  lemma {:induction false} FirstClose(body: string, tail: string, tag: string)
    requires '<' !in body && Close(tail, tag).Some?
    ensures FindClose(body + tail, tag) == Some(|body|)
  {
    hide Close;
    if body == "" {
      assert body + tail == tail;
    } else {
      NoCloseWithoutLt(body + tail, tag);
      assert (body + tail)[1..] == body[1..] + tail;
      FirstClose(body[1..], tail, tag);
    }
  }

  /** And conversely, what stripping takes for a block opens with one of the four names. */
  lemma ReasoningIsNamed(word: char -> bool, s: string) returns (name: string, m: Match)
    requires BlockAt(Reasoning(word), s).Some?
    ensures name in {"thinking", "think", "reasoning", "reflection"}
    ensures Fits(Reasoning(word), name, m) && m.Joined() == s
    ensures var b := BlockAt(Reasoning(word), s).value; m.body == s[b.inner..b.close] && m.rest == s[b.end..]
  {
    hide BlockNamed, FirstNamed, Fits, Match.Joined;
    var p := Reasoning(word);
    FirstNamedIsSome(p, s, p.names);
    name :| name in p.names && BlockNamed(p, s, name) == BlockAt(p, s);
    m := FoundIsMatch(p, s, name);
  }

  // ---- The unconditional idempotence claim fails ----

  lemma NoBlockAt(word: char -> bool, s: string, k: nat)
    requires k < 4 && k + 1 < |s| && (s[0] != '<' || s[k + 1] == '<' || s[k + 1] == '/')
    ensures BlockAt(Reasoning(word), s).None?
  {
    hide BlockNamed;
    FirstNamedIsSome(Reasoning(word), s, Reasoning(word).names);
    WrongLetter(Reasoning(word), s, "thinking", k);
    WrongLetter(Reasoning(word), s, "think", k);
    WrongLetter(Reasoning(word), s, "reasoning", k);
    WrongLetter(Reasoning(word), s, "reflection", k);
  }

  /** `<name>c</name>` is a block as soon as c does not start a tag. */
  lemma OneLetterBlock(p: Pattern, tag: string, c: char, rest: string)
    requires NameMatches(tag, tag) && c != '<' && !p.word('>')
    ensures BlockNamed(p, "<" + tag + ">" + [c] + "</" + tag + ">" + rest, tag)
            == Some(Block(|tag| + 2, |tag| + 3, 2 * |tag| + 6))
  {
    hide *;
    var again := "</" + tag + "" + ">" + rest;
    var s := "<" + tag + "" + ">" + ([c] + again);
    assert "<" + tag + ">" + [c] + "</" + tag + ">" + rest == s;
    OneLetterTags(p, tag, c, rest, s, again);
    OneLetterSlices(tag, [c] + again);
    BehindLetter(s, |tag| + 2, c, again);
    SecondCloses(c, again, tag);
    BlockIs(p, s, tag, tag, |tag| + 2, [c] + again, 1, again, |tag| + 3);
  }

  lemma OneLetterTags(p: Pattern, tag: string, c: char, rest: string, s: string, again: string)
    requires NameMatches(tag, tag) && c != '<' && !p.word('>')
    requires again == "</" + tag + "" + ">" + rest && s == "<" + tag + "" + ">" + ([c] + again)
    ensures Open(p, s, tag) == Some(|tag| + 2) && Close(again, tag) == Some(|tag| + 3) && |tag| + 2 <= |s|
  {
    hide Open, NameMatches, Close;
    OpenOf(p, tag, tag, "", [c] + again);
    CloseOf(tag, tag, "", rest);
  }

  lemma BehindLetter(s: string, k: nat, c: char, again: string)
    requires k <= |s| && s[k..] == [c] + again
    ensures k < |s| && s[k + 1..] == again
  {
    assert s[k + 1..] == s[k..][1..];
  }

  lemma OneLetterSlices(tag: string, tail: string)
    ensures var s := "<" + tag + "" + ">" + tail; s[|tag| + 2..] == tail && s[1..|tag| + 1] == tag
  {}

  lemma SecondCloses(c: char, again: string, tag: string)
    requires c != '<' && Close(again, tag).Some?
    ensures FindClose([c] + again, tag) == Some(1)
  {
    hide Close;
    NoCloseWithoutLt([c] + again, tag);
    assert ([c] + again)[1..] == again;
  }

  lemma NoCloseWithoutLt(s: string, tag: string)
    requires s != "" && s[0] != '<'
    ensures Close(s, tag).None?
  {}

  lemma OneLetterThought(word: char -> bool, c: char, rest: string)
    requires c != '<' && !word('>')
    ensures BlockAt(Reasoning(word), "<" + "think" + ">" + [c] + "</" + "think" + ">" + rest) == Some(Block(7, 8, 16))
  {
    var p := Reasoning(word);
    var s := "<" + "think" + ">" + [c] + "</" + "think" + ">" + rest;
    assert s[6] == '>' && !LetterMatches('>', "thinking"[5]);
    assert NameMatches("think", "think");
    hide BlockNamed, LetterMatches, NameMatches, Reasoning;
    WrongLetter(p, s, "thinking", 5);
    OneLetterBlock(p, "think", c, rest);
    SecondName(word, s);
  }

  lemma SecondName(word: char -> bool, s: string)
    requires BlockNamed(Reasoning(word), s, "thinking").None? && BlockNamed(Reasoning(word), s, "think").Some?
    ensures BlockAt(Reasoning(word), s) == BlockNamed(Reasoning(word), s, "think")
  {
    hide BlockNamed;
    var names := Reasoning(word).names;
    assert names[0] == "thinking" && names[1..][0] == "think";
    assert FirstNamed(Reasoning(word), s, names[1..]) == BlockNamed(Reasoning(word), s, "think");
  }

  /** A block after `pre` is removed when `pre` only begins a tag. */
  lemma CutAfter(word: char -> bool, pre: string, s: string, b: Block)
    requires |pre| == 4 && '<' !in pre[1..] && s != "" && s[0] == '<'
    requires BlockAt(Reasoning(word), s) == Some(b)
    requires Remove(Reasoning(word), s[b.end..]) == s[b.end..]
    ensures Remove(Reasoning(word), pre + s) == pre + s[b.end..]
  {
    hide BlockAt, Reasoning, Remove;
    forall j | 0 <= j < |pre| ensures BlockAt(Reasoning(word), pre[j..] + s).None? {
      assert j > 0 ==> pre[1..][j - 1] == pre[j];
      assert (pre[j..] + s)[0] == pre[j] && (pre[j..] + s)[4 - j] == '<';
      NoBlockAt(word, pre[j..] + s, 3 - j);
    }
    LeftmostFirst(Reasoning(word), pre, s);
  }

  /** Text whose only '<' begins a closing tag holds no block. */
  lemma {:induction false} NothingToRemove(word: char -> bool, s: string)
    requires |s| > 0 ==> s[|s| - 1] != '<'
    requires forall j :: 0 <= j < |s| - 1 && s[j] == '<' ==> s[j + 1] == '/'
    ensures Remove(Reasoning(word), s) == s
  {
    hide BlockAt, Reasoning;
    if s != "" {
      if |s| > 1 { NoBlockAt(word, s, 0); } else { BlockStartsWithLt(Reasoning(word), s); }
      NothingToRemove(word, s[1..]);
    }
  }

  function SplicedThought(): string {
    "<thi<think>x</think>nk>y</think>"
  }

  lemma SplicedParts()
    ensures SplicedThought() == "<thi" + ("<" + "think" + ">" + "x" + "</" + "think" + ">" + "nk>y</think>")
  {}

  /** Removing the inner thought joins `<thi` and `nk>` into a tag. */
  lemma InnerThoughtIsCut(word: char -> bool)
    requires !word('>')
    ensures var joined := "<" + "think" + ">" + "y" + "</" + "think" + ">" + "";
            Remove(Reasoning(word), SplicedThought()) == joined && BlockAt(Reasoning(word), joined).Some?
  {
    hide BlockAt, Reasoning, Remove, LetterMatches, SplicedThought;
    SplicedParts();
    var tail := "nk>y</think>";
    var s := "<" + "think" + ">" + "x" + "</" + "think" + ">" + tail;
    OneLetterThought(word, 'x', tail);
    NothingToRemove(word, tail);
    assert s[16..] == tail;
    CutAfter(word, "<thi", s, Block(7, 8, 16));
    var joined := "<" + "think" + ">" + "y" + "</" + "think" + ">" + "";
    assert "<thi" + tail == joined;
    OneLetterThought(word, 'y', "");
  }

  /** The unconditional claim fails: a second pass removes the joined block. `word` is any table of word
      characters without '>'. */
  lemma StripNotIdempotent(word: char -> bool, raw: string, once: string)
    requires !word('>') && raw == SplicedThought() && once == StripReasoningBlocks(word, raw)
    ensures StripReasoningBlocks(word, once) != once
  {
    hide BlockAt, Reasoning, Remove, SplicedThought;
    InnerThoughtIsCut(word);
    SecondPassShrinks(word, Remove(Reasoning(word), SplicedThought()));
  }

  lemma SecondPassShrinks(word: char -> bool, s: string)
    requires s != "" && BlockAt(Reasoning(word), s).Some?
    ensures StripReasoningBlocks(word, Trim(s)) != Trim(s) && HasBlock(Reasoning(word), Trim(s))
  {
    hide HasBlock, Trim, Remove, Reasoning;
    var p := Reasoning(word);
    assert HasBlock(p, s) by { HasBlockHere(p, s); }
    TrimKeepsBlocks(p, s);
    StripFixed(word, Trim(s));
  }

  lemma HasBlockHere(p: Pattern, s: string)
    requires s != "" && BlockAt(p, s).Some?
    ensures HasBlock(p, s)
  {}

  /** Text whose every '<' is followed by '/' or 't' holds no output block. */
  lemma {:induction false} NoOutputTag(word: char -> bool, s: string)
    requires |s| > 0 ==> s[|s| - 1] != '<'
    requires forall j :: 0 <= j < |s| - 1 && s[j] == '<' ==> s[j + 1] == '/' || s[j + 1] == 't'
    ensures !HasBlock(Output(word), s)
  {
    hide BlockNamed, LetterMatches;
    if s != "" {
      assert !LetterMatches('/', 'o') && !LetterMatches('t', 'o') by { OtherLetters(); }
      FirstNamedIsSome(Output(word), s, Output(word).names);
      WrongLetter(Output(word), s, "output", 0);
      NoOutputTag(word, s[1..]);
    }
  }

  lemma OtherLetters()
    ensures !LetterMatches('/', 'o') && !LetterMatches('t', 'o')
  {}

  /** So does the claim for the pipeline, on the same text. */
  lemma SanitizeNotIdempotent(word: char -> bool, raw: string, once: string)
    requires !word('>') && raw == SplicedThought() && once == SanitizeLlmResponse(word, raw)
    ensures SanitizeLlmResponse(word, once) != once
  {
    hide BlockAt, Reasoning, Remove, SplicedThought, Output, HasBlock, Trim, SanitizeLlmResponse;
    InnerThoughtIsCut(word);
    var joined := Remove(Reasoning(word), raw);
    SecondPassShrinks(word, joined);
    NoOutputTag(word, joined);
    TrimKeepsBlocks(Output(word), joined);
    NoOutputPassesThrough(word, raw, StripReasoningBlocks(word, raw));
    TrimIdempotent(joined);
    SanitizeIdempotentExactly(word, raw, once);
  }

  lemma NoOutputPassesThrough(word: char -> bool, raw: string, n: string)
    requires n == StripReasoningBlocks(word, raw)
    ensures !HasBlock(Output(word), n) ==> SanitizeLlmResponse(word, raw) == Trim(n)
  {
    hide HasBlock, Trim, Output, Reasoning, Remove;
    if !HasBlock(Output(word), n) { RemoveNothing(Output(word), n); }
  }
}
