/** Python's `json` decoder (RFC 8259, with the decoder's `NaN` and `Infinity` extensions). */
module Json {
  import opened PyText
  import Decimal

  /** A decoded string: Unicode code points, lone surrogates included. */
  type Text = seq<nat>

  /** A decoded value; an object keeps its members as written, later duplicates last. */
  datatype Json =
    | Null
    | Bool(b: bool)
    | Int(n: int)
    | Float(lexeme: string)
    | Str(text: Text)
    | Arr(items: seq<Json>)
    | Obj(members: seq<(Text, Json)>)

  /** A value read from the head of a text and what follows it, or a `JSONDecodeError`. */
  datatype Parsed<+T> = Parsed(value: T, rest: string) | Failed {
    predicate IsFailure() { Failed? }
    function PropagateFailure<U>(): Parsed<U> requires Failed? { Failed }
    function Extract(): (T, string) requires Parsed? { (value, rest) }
  }

  // ---- White space, numbers, strings ----

  predicate IsWs(c: char) {
    c == ' ' || c == '\t' || c == '\n' || c == '\r'
  }

  function SkipWs(s: string): (r: string)
    ensures |r| <= |s|
    ensures r != "" ==> !IsWs(r[0])
  {
    if s != "" && IsWs(s[0]) then SkipWs(s[1..]) else s
  }

  function DigitRun(s: string): (n: nat)
    ensures n <= |s|
  {
    if s != "" && Decimal.IsDigit(s[0]) then 1 + DigitRun(s[1..]) else 0
  }

  function IntLen(s: string): (n: nat)
    ensures n <= |s|
  {
    if s != "" && s[0] == '0' then 1 else DigitRun(s)
  }

  function FracLen(s: string): (n: nat)
    ensures n <= |s| && (n > 0 ==> s[0] == '.')
  {
    if |s| > 1 && s[0] == '.' && DigitRun(s[1..]) > 0 then 1 + DigitRun(s[1..]) else 0
  }

  function ExpLen(s: string): (n: nat)
    ensures n <= |s| && (n > 0 ==> s[0] == 'e' || s[0] == 'E')
  {
    if s != "" && (s[0] == 'e' || s[0] == 'E') then
      var sign := if |s| > 1 && (s[1] == '+' || s[1] == '-') then 2 else 1;
      if DigitRun(s[sign..]) > 0 then sign + DigitRun(s[sign..]) else 0
    else 0
  }

  function IntEnd(s: string): (n: nat)
    ensures n <= |s|
  {
    if s != "" && s[0] == '-' then 1 + IntLen(s[1..]) else IntLen(s)
  }

  function FracEnd(s: string): (n: nat)
    ensures IntEnd(s) <= n <= |s|
  {
    IntEnd(s) + FracLen(s[IntEnd(s)..])
  }

  function ExpEnd(s: string): (n: nat)
    ensures FracEnd(s) <= n <= |s|
  {
    FracEnd(s) + ExpLen(s[FracEnd(s)..])
  }

  function Number(s: string): (r: Parsed<Json>)
    ensures r.Parsed? ==> |r.rest| < |s|
  {
    if IntEnd(s) == 0 || (s[0] == '-' && IntEnd(s) == 1) then Failed
    else if ExpEnd(s) == IntEnd(s) then Parsed(Int(Decimal.IntValue(s[..IntEnd(s)])), s[IntEnd(s)..])
    else Parsed(Float(s[..ExpEnd(s)]), s[ExpEnd(s)..])
  }

  function HexValue(c: char): (r: Option<nat>)
    ensures r.Some? ==> r.value < 16
  {
    if '0' <= c <= '9' then Some(c as int - '0' as int)
    else if 'a' <= c <= 'f' then Some(c as int - 'a' as int + 10)
    else if 'A' <= c <= 'F' then Some(c as int - 'A' as int + 10)
    else None
  }

  function Hex4(a: char, b: char, c: char, d: char): (r: Option<nat>)
    ensures r.Some? ==> r.value < 0x10000
  {
    match (HexValue(a), HexValue(b), HexValue(c), HexValue(d))
    case (Some(w), Some(x), Some(y), Some(z)) => Some(((w * 16 + x) * 16 + y) * 16 + z)
    case _ => None
  }

  function ShortEscape(c: char): Option<nat> {
    match c
    case '"' => Some(0x22)
    case '\\' => Some(0x5C)
    case '/' => Some(0x2F)
    case 'b' => Some(0x08)
    case 'f' => Some(0x0C)
    case 'n' => Some(0x0A)
    case 'r' => Some(0x0D)
    case 't' => Some(0x09)
    case _ => None
  }

  /** One character or escape of a string body, not its closing quote. */
  function OneChar(s: string): (r: Parsed<nat>)
    requires s != ""
    ensures r.Parsed? ==> |r.rest| < |s|
  {
    if s[0] == '\\' then
      if |s| >= 6 && s[1] == 'u' && Hex4(s[2], s[3], s[4], s[5]).Some? then
        Parsed(Hex4(s[2], s[3], s[4], s[5]).value, s[6..])
      else if |s| >= 2 && ShortEscape(s[1]).Some? then Parsed(ShortEscape(s[1]).value, s[2..])
      else Failed
    else if s[0] < ' ' then Failed
    else Parsed(s[0] as int, s[1..])
  }

  /** The body of a string up to and including its closing quote. */
  function Chars(s: string): (r: Parsed<Text>)
    ensures r.Parsed? ==> |r.rest| < |s|
    decreases |s|
  {
    if s == "" then Failed
    else if s[0] == '"' then Parsed([], s[1..])
    else
      var (c, s1) :- OneChar(s);
      var (cs, rest) :- Chars(s1);
      Parsed([c] + cs, rest)
  }

  predicate IsHigh(c: nat) { 0xD800 <= c < 0xDC00 }
  predicate IsLow(c: nat) { 0xDC00 <= c < 0xE000 }

  /** An escaped high surrogate directly followed by a low one stands for one code point. */
  function JoinPairs(t: Text): Text {
    if t == [] then []
    else if |t| > 1 && IsHigh(t[0]) && IsLow(t[1]) then
      [0x10000 + (t[0] - 0xD800) * 0x400 + (t[1] - 0xDC00)] + JoinPairs(t[2..])
    else [t[0]] + JoinPairs(t[1..])
  }

  function Keyword(s: string, word: string, v: Json): (r: Parsed<Json>)
    requires word != ""
    ensures r.Parsed? ==> |r.rest| < |s|
  {
    if word <= s then Parsed(v, s[|word|..]) else Failed
  }

  // ---- Values ----

  function Value(s: string): (r: Parsed<Json>)
    ensures r.Parsed? ==> |r.rest| < |s|
    decreases |s|, 0
  {
    if s == "" then Failed
    else match s[0]
      case '"' =>
        var (t, rest) :- Chars(s[1..]);
        Parsed(Str(JoinPairs(t)), rest)
      case '{' =>
        var s1 := SkipWs(s[1..]);
        if s1 != "" && s1[0] == '}' then Parsed(Obj([]), s1[1..])
        else
          var (ms, rest) :- Members(s1);
          Parsed(Obj(ms), rest)
      case '[' =>
        var s1 := SkipWs(s[1..]);
        if s1 != "" && s1[0] == ']' then Parsed(Arr([]), s1[1..])
        else
          var (vs, rest) :- Elements(s1);
          Parsed(Arr(vs), rest)
      case 'n' => Keyword(s, "null", Null)
      case 't' => Keyword(s, "true", Bool(true))
      case 'f' => Keyword(s, "false", Bool(false))
      case 'N' => Keyword(s, "NaN", Float("NaN"))
      case 'I' => Keyword(s, "Infinity", Float("Infinity"))
      case _ => if "-Infinity" <= s then Parsed(Float("-Infinity"), s[9..]) else Number(s)
  }

  /** Members from a key on, through the closing brace. */
  function Members(s: string): (r: Parsed<seq<(Text, Json)>>)
    ensures r.Parsed? ==> |r.rest| < |s|
    decreases |s|, 1
  {
    if s == "" || s[0] != '"' then Failed
    else
      var (k, s1) :- Chars(s[1..]);
      var s2 := SkipWs(s1);
      if s2 == "" || s2[0] != ':' then Failed
      else
        var (v, s3) :- Value(SkipWs(s2[1..]));
        var s4 := SkipWs(s3);
        if s4 == "" then Failed
        else if s4[0] == '}' then Parsed([(JoinPairs(k), v)], s4[1..])
        else if s4[0] != ',' then Failed
        else
          var (ms, rest) :- Members(SkipWs(s4[1..]));
          Parsed([(JoinPairs(k), v)] + ms, rest)
  }

  /** Elements from a value on, through the closing bracket. */
  function Elements(s: string): (r: Parsed<seq<Json>>)
    ensures r.Parsed? ==> |r.rest| < |s|
    decreases |s|, 1
  {
    var (v, s1) :- Value(s);
    var s2 := SkipWs(s1);
    if s2 == "" then Failed
    else if s2[0] == ']' then Parsed([v], s2[1..])
    else if s2[0] != ',' then Failed
    else
      var (vs, rest) :- Elements(SkipWs(s2[1..]));
      Parsed([v] + vs, rest)
  }

  /** `json.loads(s)`; None stands for `JSONDecodeError`. */
  function Loads(s: string): Option<Json> {
    match Value(SkipWs(s))
    case Parsed(v, rest) => if SkipWs(rest) == "" then Some(v) else None
    case Failed => None
  }

  // ---- Reading is determined by the text read: more text behind it changes nothing ----

  /** Characters that could continue a number. */
  predicate NumChar(c: char) {
    Decimal.IsDigit(c) || c == '.' || c == 'e' || c == 'E' || c == '+' || c == '-'
  }

  /** Only a number needs to see what follows it. */
  predicate Closed(v: Json, rest: string) {
    v.Int? || v.Float? ==> rest != "" && !NumChar(rest[0])
  }

  lemma {:induction false} SkipWsMore(s: string, more: string)
    requires SkipWs(s) != ""
    ensures SkipWs(s + more) == SkipWs(s) + more
  {
    if IsWs(s[0]) {
      assert (s + more)[1..] == s[1..] + more;
      SkipWsMore(s[1..], more);
    }
  }

  lemma {:induction false} DigitRunMore(s: string, more: string)
    requires DigitRun(s) < |s|
    ensures DigitRun(s + more) == DigitRun(s) && !Decimal.IsDigit(s[DigitRun(s)])
  {
    if Decimal.IsDigit(s[0]) {
      assert (s + more)[1..] == s[1..] + more;
      DigitRunMore(s[1..], more);
    }
  }

  lemma DropMore(s: string, more: string, i: nat)
    requires i <= |s|
    ensures (s + more)[i..] == s[i..] + more && (s + more)[..i] == s[..i]
  {}

  lemma IntEndMore(s: string, more: string)
    requires IntEnd(s) < |s|
    ensures IntEnd(s + more) == IntEnd(s)
  {
    var body := if s[0] == '-' then s[1..] else s;
    DropMore(s, more, 1);
    if body[0] != '0' { DigitRunMore(body, more); }
  }

  lemma FracLenMore(s: string, more: string)
    requires FracLen(s) < |s| && (FracLen(s) == 0 ==> s[0] != '.')
    ensures FracLen(s + more) == FracLen(s)
  {
    if s[0] == '.' {
      DropMore(s, more, 1);
      DigitRunMore(s[1..], more);
    }
  }

  lemma ExpLenMore(s: string, more: string)
    requires ExpLen(s) < |s| && (ExpLen(s) == 0 ==> s[0] != 'e' && s[0] != 'E')
    ensures ExpLen(s + more) == ExpLen(s)
  {
    if s[0] == 'e' || s[0] == 'E' {
      var sign := if |s| > 1 && (s[1] == '+' || s[1] == '-') then 2 else 1;
      DropMore(s, more, sign);
      DigitRunMore(s[sign..], more);
    }
  }

  lemma FracEndMore(s: string, more: string)
    requires FracEnd(s) < |s| && (FracEnd(s) == IntEnd(s) ==> s[FracEnd(s)] != '.')
    ensures FracEnd(s + more) == FracEnd(s)
  {
    hide IntEnd, FracLen;
    IntEndMore(s, more);
    DropMore(s, more, IntEnd(s));
    FracLenMore(s[IntEnd(s)..], more);
  }

  lemma ExpEndMore(s: string, more: string)
    requires ExpEnd(s) < |s| && s[ExpEnd(s)] !in ".eE"
    ensures ExpEnd(s + more) == ExpEnd(s)
  {
    hide IntEnd, FracLen, FracEnd, ExpLen;
    FracEndMore(s, more) by { NoDotAfter(s); }
    DropMore(s, more, FracEnd(s));
    ExpLenMore(s[FracEnd(s)..], more);
  }

  lemma NoDotAfter(s: string)
    requires ExpEnd(s) < |s| && s[ExpEnd(s)] !in ".eE"
    ensures s[FracEnd(s)] != '.'
  {
    hide IntEnd, FracLen, FracEnd;
  }

  lemma NumberMore(s: string, more: string)
    requires Number(s).Parsed? && Closed(Number(s).value, Number(s).rest)
    ensures Number(s + more) == Parsed(Number(s).value, Number(s).rest + more)
  {
    hide IntEnd, FracEnd, ExpEnd, Decimal.IntValue, Decimal.IsDigit;
    ExpEndMore(s, more);
    IntEndMore(s, more);
    DropMore(s, more, IntEnd(s));
    DropMore(s, more, ExpEnd(s));
  }

  lemma OneCharMore(s: string, more: string)
    requires s != "" && OneChar(s).Parsed?
    ensures OneChar(s + more) == Parsed(OneChar(s).value, OneChar(s).rest + more)
  {
    hide Hex4;
    assert ShortEscape('u').None?;
    DropMore(s, more, |s| - |OneChar(s).rest|);
  }

  lemma {:induction false} CharsMore(s: string, more: string)
    requires Chars(s).Parsed?
    ensures Chars(s + more) == Parsed(Chars(s).value, Chars(s).rest + more)
    decreases |s|
  {
    hide OneChar;
    if s[0] == '"' {
      DropMore(s, more, 1);
    } else {
      OneCharMore(s, more);
      CharsMore(OneChar(s).rest, more);
    }
  }

  lemma KeywordMore(s: string, word: string, v: Json, more: string)
    requires word != "" && Keyword(s, word, v).Parsed?
    ensures Keyword(s, word, v).value == v
    ensures Keyword(s + more, word, v) == Parsed(v, Keyword(s, word, v).rest + more)
  {
    DropMore(s, more, |word|);
  }

  /** What follows an element or a value can start neither another digit nor a fraction. */
  lemma ClosedBy(v: Json, rest: string)
    requires SkipWs(rest) != "" && SkipWs(rest)[0] in ",}]"
    ensures Closed(v, rest)
  {}

  lemma {:induction false} ValueMore(s: string, more: string)
    requires Value(s).Parsed? && Closed(Value(s).value, Value(s).rest)
    ensures Value(s + more) == Parsed(Value(s).value, Value(s).rest + more)
    decreases |s|, 0
  {
    hide Chars, Keyword, Number, SkipWs, Members, Elements;
    DropMore(s, more, 1);
    match s[0]
    case '"' => CharsMore(s[1..], more);
    case '{' =>
      var s1 := SkipWs(s[1..]);
      SkipWsMore(s[1..], more);
      DropMore(s1, more, 1);
      if s1[0] != '}' { MembersMore(s1, more); }
    case '[' =>
      var s1 := SkipWs(s[1..]);
      SkipWsMore(s[1..], more);
      DropMore(s1, more, 1);
      if s1[0] != ']' { ElementsMore(s1, more); }
    case 'n' => KeywordMore(s, "null", Null, more);
    case 't' => KeywordMore(s, "true", Bool(true), more);
    case 'f' => KeywordMore(s, "false", Bool(false), more);
    case 'N' => KeywordMore(s, "NaN", Float("NaN"), more);
    case 'I' => KeywordMore(s, "Infinity", Float("Infinity"), more);
    case _ => NumberOrInfinityMore(s, more);
  }

  lemma NumberOrInfinityMore(s: string, more: string)
    requires s != "" && s[0] !in "\"{[ntfNI"
    requires Value(s).Parsed? && Closed(Value(s).value, Value(s).rest)
    ensures Value(s + more) == Parsed(Value(s).value, Value(s).rest + more)
  {
    hide Number, Keyword, Chars, Members, Elements;
    if "-Infinity" <= s {
      DropMore(s, more, 9);
    } else {
      NumberMore(s, more);
      NumberIsNotInfinity(s);
      assert 1 < |s| && s[0] == '-' ==> (s + more)[1] == s[1];
    }
  }

  lemma NumberIsNotInfinity(s: string)
    requires Number(s).Parsed?
    ensures s[0] == '-' ==> |s| > 1 && s[1] != 'I'
  {
    hide ExpEnd, FracEnd;
  }

  lemma {:induction false} MembersMore(s: string, more: string)
    requires Members(s).Parsed?
    ensures Members(s + more) == Parsed(Members(s).value, Members(s).rest + more)
    decreases |s|, 1
  {
    hide Chars, Value, SkipWs, JoinPairs, Closed;
    DropMore(s, more, 1);
    CharsMore(s[1..], more);
    var s1 := Chars(s[1..]).rest;
    SkipWsMore(s1, more);
    var s2 := SkipWs(s1);
    DropMore(s2, more, 1);
    SkipWsMore(s2[1..], more);
    var s3 := Value(SkipWs(s2[1..])).rest;
    ClosedBy(Value(SkipWs(s2[1..])).value, s3);
    ValueMore(SkipWs(s2[1..]), more);
    SkipWsMore(s3, more);
    var s4 := SkipWs(s3);
    DropMore(s4, more, 1);
    if s4[0] == ',' {
      SkipWsMore(s4[1..], more);
      MembersMore(SkipWs(s4[1..]), more);
    }
  }

  lemma {:induction false} ElementsMore(s: string, more: string)
    requires Elements(s).Parsed?
    ensures Elements(s + more) == Parsed(Elements(s).value, Elements(s).rest + more)
    decreases |s|, 1
  {
    hide Value, SkipWs, Closed;
    var s1 := Value(s).rest;
    ClosedBy(Value(s).value, s1);
    ValueMore(s, more);
    SkipWsMore(s1, more);
    var s2 := SkipWs(s1);
    DropMore(s2, more, 1);
    if s2[0] == ',' {
      SkipWsMore(s2[1..], more);
      ElementsMore(SkipWs(s2[1..]), more);
    }
  }
}
