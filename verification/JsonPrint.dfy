/** `json.dumps` with ASCII escaping, and its round trip through the decoder. */
module JsonPrint {
  import opened PyText
  import opened Json
  import Decimal

  /** The two separator settings in use: `(",", ":")`, and the default `(", ", ": ")`. */
  datatype Style = Compact | Spaced {
    function Item(): string { if Compact? then "," else ", " }
    function Key(): string { if Compact? then ":" else ": " }
  }

  function HexDigit(d: nat): char {
    if d % 16 < 10 then ('0' as int + d % 16) as char else ('a' as int + d % 16 - 10) as char
  }

  /** `\uXXXX` for one UTF-16 code unit. */
  function UnitEscape(u: nat): string {
    ['\\', 'u', HexDigit(u / 0x1000), HexDigit(u / 0x100), HexDigit(u / 16), HexDigit(u)]
  }

  function EscapeUnit(u: nat): (s: string)
    ensures s != "" && s[0] != '"'
  {
    if u == 0x22 then "\\\""
    else if u == 0x5C then "\\\\"
    else if u == 0x08 then "\\b"
    else if u == 0x0C then "\\f"
    else if u == 0x0A then "\\n"
    else if u == 0x0D then "\\r"
    else if u == 0x09 then "\\t"
    else if 0x20 <= u <= 0x7E then [u as char]
    else UnitEscape(u)
  }

  /** The UTF-16 code units of a text. */
  function Units(t: Text): Text {
    if t == [] then []
    else if t[0] < 0x10000 then [t[0]] + Units(t[1..])
    else [0xD800 + (t[0] - 0x10000) / 0x400, 0xDC00 + (t[0] - 0x10000) % 0x400] + Units(t[1..])
  }

  /** The escaped units and the closing quote. */
  function Body(us: Text): string {
    if us == [] then "\"" else EscapeUnit(us[0]) + Body(us[1..])
  }

  function Quote(t: Text): (s: string)
    ensures s != ""
  {
    "\"" + Body(Units(t))
  }

  function Dumps(v: Json, st: Style): string
    decreases v, 1, 0
  {
    match v
    case Null => "null"
    case Bool(b) => if b then "true" else "false"
    case Int(n) => Decimal.Print(n)
    case Float(lexeme) => lexeme
    case Str(t) => Quote(t)
    case Arr(items) => if items == [] then "[]" else "[" + DumpItems(v, 0, st)
    case Obj(ms) => if ms == [] then "{}" else "{" + DumpMembers(v, 0, st)
  }

  function DumpItems(v: Json, i: nat, st: Style): string
    requires v.Arr? && i < |v.items|
    decreases v, 0, |v.items| - i
  {
    Dumps(v.items[i], st) + if i + 1 == |v.items| then "]" else st.Item() + DumpItems(v, i + 1, st)
  }

  function DumpMembers(v: Json, i: nat, st: Style): string
    requires v.Obj? && i < |v.members|
    decreases v, 0, |v.members| - i
  {
    Quote(v.members[i].0) + (st.Key() + (Dumps(v.members[i].1, st)
    + if i + 1 == |v.members| then "}" else st.Item() + DumpMembers(v, i + 1, st)))
  }

  // ---- Round trip ----

  /** Unicode scalar values: code points other than the surrogates. */
  predicate IsScalar(t: Text) {
    forall i :: 0 <= i < |t| ==> t[i] < 0x110000 && !IsHigh(t[i]) && !IsLow(t[i])
  }

  predicate AreUnits(us: Text) {
    forall i :: 0 <= i < |us| ==> us[i] < 0x10000
  }

  /** Values whose printed form is modelled: no floats, text without surrogates. */
  predicate Plain(v: Json) {
    match v
    case Float(_) => false
    case Str(t) => IsScalar(t)
    case Arr(items) => forall i :: 0 <= i < |items| ==> Plain(items[i])
    case Obj(ms) => forall i :: 0 <= i < |ms| ==> IsScalar(ms[i].0) && Plain(ms[i].1)
    case _ => true
  }

  lemma HexReads(d: nat)
    ensures HexValue(HexDigit(d)) == Some(d % 16)
  {}

  lemma Base16(u: nat)
    requires u < 0x10000
    ensures ((u / 0x1000 % 16 * 16 + u / 0x100 % 16) * 16 + u / 16 % 16) * 16 + u % 16 == u
  {}

  lemma Hex4Reads(u: nat)
    requires u < 0x10000
    ensures Hex4(HexDigit(u / 0x1000), HexDigit(u / 0x100), HexDigit(u / 16), HexDigit(u)) == Some(u)
  {
    hide HexValue, HexDigit;
    HexReads(u / 0x1000);
    HexReads(u / 0x100);
    HexReads(u / 16);
    HexReads(u);
    Base16(u);
  }

  lemma UnitEscapeReads(u: nat, rest: string)
    requires u < 0x10000
    ensures OneChar(UnitEscape(u) + rest) == Parsed(u, rest)
  {
    hide HexDigit, Hex4;
    var s := UnitEscape(u) + rest;
    Hex4Reads(u);
    assert s[6..] == rest;
    assert s[2] == HexDigit(u / 0x1000) && s[3] == HexDigit(u / 0x100) && s[4] == HexDigit(u / 16)
        && s[5] == HexDigit(u);
  }

  lemma EscapeReads(u: nat, rest: string)
    requires u < 0x10000
    ensures OneChar(EscapeUnit(u) + rest) == Parsed(u, rest)
  {
    var e := EscapeUnit(u);
    if e == UnitEscape(u) {
      UnitEscapeReads(u, rest);
    } else {
      hide Hex4, UnitEscape;
      assert (e + rest)[0] == e[0] && (e + rest)[|e|..] == rest;
      if |e| == 2 { assert (e + rest)[1] == e[1]; }
    }
  }

  lemma {:induction false} BodyReads(us: Text, rest: string)
    requires AreUnits(us)
    ensures Chars(Body(us) + rest) == Parsed(us, rest)
  {
    hide OneChar, EscapeUnit;
    if us == [] {
      assert (Body(us) + rest)[1..] == rest;
    } else {
      var tail := Body(us[1..]) + rest;
      assert Body(us) + rest == EscapeUnit(us[0]) + tail;
      assert (Body(us) + rest)[0] == EscapeUnit(us[0])[0];
      EscapeReads(us[0], tail);
      BodyReads(us[1..], rest);
      assert [us[0]] + us[1..] == us;
    }
  }

  lemma {:induction false} UnitsInRange(t: Text)
    requires IsScalar(t)
    ensures AreUnits(Units(t))
  {
    if t != [] {
      UnitsInRange(t[1..]);
    }
  }

  lemma {:induction false} PairsJoin(t: Text)
    requires IsScalar(t)
    ensures JoinPairs(Units(t)) == t
  {
    if t != [] {
      PairsJoin(t[1..]);
      var tail := Units(t[1..]);
      if t[0] < 0x10000 {
        assert Units(t)[1..] == tail;
      } else {
        assert Units(t)[2..] == tail;
      }
    }
  }

  /** A printed string reads back, also one that needs surrogate-pair escapes. */
  lemma QuoteReads(t: Text, rest: string)
    requires IsScalar(t)
    ensures Chars((Quote(t) + rest)[1..]) == Parsed(Units(t), rest) && JoinPairs(Units(t)) == t
    ensures (Quote(t) + rest)[0] == '"'
  {
    hide Units, Body, JoinPairs, Chars;
    UnitsInRange(t);
    BodyReads(Units(t), rest);
    assert (Quote(t) + rest)[1..] == Body(Units(t)) + rest;
    PairsJoin(t);
  }

  lemma {:induction false} DigitRunStops(s: string, rest: string)
    requires forall i :: 0 <= i < |s| ==> Decimal.IsDigit(s[i])
    requires rest != "" ==> !Decimal.IsDigit(rest[0])
    ensures DigitRun(s + rest) == |s|
  {
    if s == "" {
      assert s + rest == rest;
    } else {
      assert (s + rest)[1..] == s[1..] + rest;
      DigitRunStops(s[1..], rest);
    }
  }

  predicate Ends(rest: string) {
    rest != "" ==> !NumChar(rest[0])
  }

  lemma DigitsEnd(n: nat, rest: string)
    requires Ends(rest)
    ensures IntLen(Decimal.Digits(n) + rest) == |Decimal.Digits(n)|
  {
    var s := Decimal.Digits(n);
    Decimal.DigitsAreDigits(n);
    forall i | 0 <= i < |s| ensures Decimal.IsDigit(s[i]) { assert s[i] in s; }
    DigitRunStops(s, rest);
    assert (s + rest)[0] == s[0];
  }

  lemma PrintEnds(n: int, rest: string)
    requires Ends(rest)
    ensures var s := Decimal.Print(n) + rest;
            IntEnd(s) == |Decimal.Print(n)| && (s[0] == '-' ==> IntEnd(s) > 1) && s[0] !in "\"{[ntfNI"
            && s[..IntEnd(s)] == Decimal.Print(n) && s[IntEnd(s)..] == rest
  {
    hide Decimal.Digits, IntLen;
    var d := Decimal.Digits(if n < 0 then -n else n);
    DigitsEnd(if n < 0 then -n else n, rest);
    if n < 0 {
      assert (Decimal.Print(n) + rest)[1..] == d + rest;
    }
  }

  lemma NothingAfter(s: string)
    requires Ends(s[IntEnd(s)..])
    ensures ExpEnd(s) == IntEnd(s)
  {
    hide IntEnd;
    assert s[FracEnd(s)..] == s[IntEnd(s)..];
  }

  lemma IntReads(n: int, rest: string)
    requires Ends(rest)
    ensures Value(Decimal.Print(n) + rest) == Parsed(Int(n), rest)
  {
    hide IntEnd, ExpEnd, Decimal.Print, Decimal.IntValue, Keyword;
    var s := Decimal.Print(n) + rest;
    PrintEnds(n, rest);
    NothingAfter(s);
    Decimal.PrintReads(n);
    NumberIsNotInfinity(s);
  }

  lemma DumpsHead(v: Json, st: Style)
    requires Plain(v)
    ensures Dumps(v, st) != "" && !IsWs(Dumps(v, st)[0]) && Dumps(v, st)[0] !in "]}"
  {
    hide DumpItems, DumpMembers;
  }

  lemma SkipBlank(st: Style, s: string)
    requires s != "" && !IsWs(s[0])
    ensures SkipWs((st.Key() + s)[1..]) == s && SkipWs((st.Item() + s)[1..]) == s
    ensures SkipWs(s) == s
  {
    if st.Compact? {
      assert (st.Key() + s)[1..] == s && (st.Item() + s)[1..] == s;
    } else {
      var spaced := " " + s;
      assert (st.Key() + s)[1..] == spaced && (st.Item() + s)[1..] == spaced && spaced[1..] == s;
    }
  }

  lemma FirstAndRest(open: char, body: string)
    ensures ([open] + body)[1..] == body && ([open] + body)[0] == open
  {}

  lemma StrReads(t: Text, rest: string)
    requires IsScalar(t)
    ensures Value(Quote(t) + rest) == Parsed(Str(t), rest)
  {
    hide Chars, Members, Elements, Quote, Number, Keyword, Units, JoinPairs;
    QuoteReads(t, rest);
  }

  lemma WordReads(v: Json, st: Style, rest: string)
    requires v.Null? || v.Bool? || v == Arr([]) || v == Obj([])
    ensures Value(Dumps(v, st) + rest) == Parsed(v, rest)
  {
    hide Chars, Members, Elements, Number;
    var word := Dumps(v, st);
    assert (word + rest)[|word|..] == rest && (word + rest)[0] == word[0];
    if |word| == 2 {
      assert (word + rest)[1..] == [word[1]] + rest;
      FirstAndRest(word[1], rest);
    }
  }

  /** Decoding what `dumps` printed gives the value back, whatever text follows. */
  lemma {:induction false} DumpsReads(v: Json, st: Style, rest: string)
    requires Plain(v) && (v.Int? ==> Ends(rest))
    ensures Value(Dumps(v, st) + rest) == Parsed(v, rest)
    decreases v, 2, 0
  {
    hide Value, DumpItems, DumpMembers, Quote, Decimal.Print;
    match v
    case Int(n) => IntReads(n, rest);
    case Str(t) => StrReads(t, rest);
    case Arr(items) => if items == [] { WordReads(v, st, rest); } else { ArrayReads(v, st, rest); }
    case Obj(ms) => if ms == [] { WordReads(v, st, rest); } else { ObjectReads(v, st, rest); }
    case _ => WordReads(v, st, rest);
  }

  lemma {:induction false} ArrayReads(v: Json, st: Style, rest: string)
    requires v.Arr? && v.items != [] && Plain(v)
    ensures Value(Dumps(v, st) + rest) == Parsed(v, rest)
    decreases v, 1, 0
  {
    hide Elements, DumpItems, Plain;
    var body := DumpItems(v, 0, st) + rest;
    assert Dumps(v, st) + rest == "[" + body;
    FirstAndRest('[', body);
    ItemsHead(v, 0, st);
    SkipBlank(st, body);
    ItemsRead(v, 0, st, rest);
    assert v.items[0..] == v.items;
  }

  lemma {:induction false} ObjectReads(v: Json, st: Style, rest: string)
    requires v.Obj? && v.members != [] && Plain(v)
    ensures Value(Dumps(v, st) + rest) == Parsed(v, rest)
    decreases v, 1, 0
  {
    hide Members, DumpMembers, Plain;
    var body := DumpMembers(v, 0, st) + rest;
    assert Dumps(v, st) + rest == "{" + body;
    FirstAndRest('{', body);
    MembersHead(v, 0, st);
    SkipBlank(st, body);
    MembersRead(v, 0, st, rest);
    assert v.members[0..] == v.members;
  }

  lemma ItemsHead(v: Json, i: nat, st: Style)
    requires v.Arr? && i < |v.items| && Plain(v)
    ensures DumpItems(v, i, st) != "" && !IsWs(DumpItems(v, i, st)[0]) && DumpItems(v, i, st)[0] != ']'
  {
    hide Dumps;
    DumpsHead(v.items[i], st);
  }

  lemma MembersHead(v: Json, i: nat, st: Style)
    requires v.Obj? && i < |v.members|
    ensures DumpMembers(v, i, st) != "" && DumpMembers(v, i, st)[0] == '"'
  {
    hide Dumps;
  }

  lemma OneElement(s: string, x: Json, tail: string, xs: seq<Json>, rest: string)
    requires Value(s) == Parsed(x, tail)
    requires tail != "" && SkipWs(tail) == tail
    requires if xs == [] then tail == "]" + rest else tail[0] == ',' && Elements(SkipWs(tail[1..])) == Parsed(xs, rest)
    ensures Elements(s) == Parsed([x] + xs, rest)
  {
    hide Value, SkipWs;
    if xs == [] { assert [x] + xs == [x] && tail[1..] == rest; }
  }

  lemma OneMember(s: string, k: Text, c: string, x: Json, tail: string, ms: seq<(Text, Json)>, rest: string)
    requires s != "" && s[0] == '"' && Chars(s[1..]) == Parsed(k, c)
    requires c != "" && c[0] == ':' && SkipWs(c) == c && Value(SkipWs(c[1..])) == Parsed(x, tail)
    requires tail != "" && SkipWs(tail) == tail
    requires if ms == [] then tail == "}" + rest else tail[0] == ',' && Members(SkipWs(tail[1..])) == Parsed(ms, rest)
    ensures Members(s) == Parsed([(JoinPairs(k), x)] + ms, rest)
  {
    hide Value, Chars, SkipWs, JoinPairs;
    if ms == [] { assert [(JoinPairs(k), x)] + ms == [(JoinPairs(k), x)] && tail[1..] == rest; }
  }

  lemma {:induction false} ItemsRead(v: Json, i: nat, st: Style, rest: string)
    requires v.Arr? && i < |v.items| && Plain(v)
    ensures Elements(DumpItems(v, i, st) + rest) == Parsed(v.items[i..], rest)
    decreases v, 0, |v.items| - i
  {
    hide Dumps, Value, Elements, Plain;
    PlainItem(v, i);
    var tail := ItemsTail(v, i, st, rest);
    assert DumpItems(v, i, st) + rest == Dumps(v.items[i], st) + tail;
    ItemsTailHead(v, i, st, rest);
    DumpsReads(v.items[i], st, tail);
    if i + 1 < |v.items| { ItemsRead(v, i + 1, st, rest); }
    assert [v.items[i]] + v.items[i + 1..] == v.items[i..];
    OneElement(DumpItems(v, i, st) + rest, v.items[i], tail, v.items[i + 1..], rest);
  }

  /** What follows item i in the printed array. */
  function ItemsTail(v: Json, i: nat, st: Style, rest: string): string
    requires v.Arr? && i < |v.items|
  {
    if i + 1 == |v.items| then "]" + rest else st.Item() + (DumpItems(v, i + 1, st) + rest)
  }

  function MembersTail(v: Json, i: nat, st: Style, rest: string): string
    requires v.Obj? && i < |v.members|
  {
    if i + 1 == |v.members| then "}" + rest else st.Item() + (DumpMembers(v, i + 1, st) + rest)
  }

  lemma ItemsTailHead(v: Json, i: nat, st: Style, rest: string)
    requires v.Arr? && i < |v.items| && Plain(v)
    ensures var tail := ItemsTail(v, i, st, rest);
            && tail != "" && SkipWs(tail) == tail && Ends(tail)
            && (i + 1 < |v.items| ==> tail[0] == ',' && SkipWs(tail[1..]) == DumpItems(v, i + 1, st) + rest)
  {
    hide DumpItems;
    if i + 1 < |v.items| {
      ItemsHead(v, i + 1, st);
      SkipBlank(st, DumpItems(v, i + 1, st) + rest);
    }
  }

  lemma MembersTailHead(v: Json, i: nat, st: Style, rest: string)
    requires v.Obj? && i < |v.members|
    ensures var tail := MembersTail(v, i, st, rest);
            && tail != "" && SkipWs(tail) == tail && Ends(tail)
            && (i + 1 < |v.members| ==> tail[0] == ',' && SkipWs(tail[1..]) == DumpMembers(v, i + 1, st) + rest)
  {
    hide DumpMembers;
    if i + 1 < |v.members| {
      MembersHead(v, i + 1, st);
      SkipBlank(st, DumpMembers(v, i + 1, st) + rest);
    }
  }

  lemma PlainItem(v: Json, i: nat)
    requires v.Arr? && i < |v.items| && Plain(v)
    ensures Plain(v.items[i])
  {}

  lemma PlainMember(v: Json, i: nat)
    requires v.Obj? && i < |v.members| && Plain(v)
    ensures IsScalar(v.members[i].0) && Plain(v.members[i].1)
  {}

  /** A printed member up to its value, with the value and all behind it as `value`. */
  lemma KeyReads(k: Text, st: Style, value: string)
    requires IsScalar(k) && value != "" && !IsWs(value[0])
    ensures var s, c := Quote(k) + (st.Key() + value), st.Key() + value;
            && s[0] == '"' && Chars(s[1..]) == Parsed(Units(k), c) && JoinPairs(Units(k)) == k
            && c[0] == ':' && SkipWs(c) == c && SkipWs(c[1..]) == value
  {
    hide Quote, Chars, Units, JoinPairs;
    QuoteReads(k, st.Key() + value);
    SkipBlank(st, value);
  }

  lemma {:induction false} MembersRead(v: Json, i: nat, st: Style, rest: string)
    requires v.Obj? && i < |v.members| && Plain(v)
    ensures Members(DumpMembers(v, i, st) + rest) == Parsed(v.members[i..], rest)
    decreases v, 0, |v.members| - i
  {
    hide Dumps, Value, Members, Plain, Quote, Chars, JoinPairs, Units, SkipWs, IsWs;
    PlainMember(v, i);
    var k, x := v.members[i].0, v.members[i].1;
    var tail := MembersTail(v, i, st, rest);
    var value := Dumps(x, st) + tail;
    MembersSplit(v, i, st, rest);
    DumpsHead(x, st);
    KeyReads(k, st, value);
    MembersTailHead(v, i, st, rest);
    DumpsReads(x, st, tail);
    if i + 1 < |v.members| { MembersRead(v, i + 1, st, rest); }
    assert [(k, x)] + v.members[i + 1..] == v.members[i..];
    OneMember(Quote(k) + (st.Key() + value), Units(k), st.Key() + value, x, tail, v.members[i + 1..], rest);
  }

  lemma MembersSplit(v: Json, i: nat, st: Style, rest: string)
    requires v.Obj? && i < |v.members|
    ensures DumpMembers(v, i, st) + rest
            == Quote(v.members[i].0) + (st.Key() + (Dumps(v.members[i].1, st) + MembersTail(v, i, st, rest)))
  {
    hide Dumps, Quote;
    var q, x, tail := Quote(v.members[i].0), Dumps(v.members[i].1, st), MembersTail(v, i, st, rest);
    var inner := if i + 1 == |v.members| then "}" else st.Item() + DumpMembers(v, i + 1, st);
    assert inner + rest == tail;
    assert (x + inner) + rest == x + tail;
    assert (st.Key() + (x + inner)) + rest == st.Key() + (x + tail);
  }

  /** `loads(dumps(v)) == v` */
  lemma LoadsDumps(v: Json, st: Style)
    requires Plain(v)
    ensures Loads(Dumps(v, st)) == Some(v)
  {
    hide Value, Dumps, Plain;
    DumpsReads(v, st, "");
    assert Dumps(v, st) + "" == Dumps(v, st);
    DumpsHead(v, st);
    SkipBlank(st, Dumps(v, st));
  }

  // ---- The shape of printed text ----

  predicate Ascii(s: string) {
    forall i :: 0 <= i < |s| ==> 0x20 <= s[i] as int <= 0x7E
  }

  lemma EscapeAscii(u: nat)
    ensures Ascii(EscapeUnit(u))
  {}

  lemma {:induction false} BodyAscii(us: Text)
    ensures Ascii(Body(us))
  {
    hide EscapeUnit;
    if us != [] {
      EscapeAscii(us[0]);
      BodyAscii(us[1..]);
    }
  }

  lemma PrintAscii(n: int)
    ensures Ascii(Decimal.Print(n))
  {
    Decimal.PrintCharacters(n);
    var s := Decimal.Print(n);
    forall i | 0 <= i < |s| ensures 0x20 <= s[i] as int <= 0x7E { assert s[i] in s; }
  }

  predicate NoFloat(v: Json) {
    match v
    case Float(_) => false
    case Arr(items) => forall i :: 0 <= i < |items| ==> NoFloat(items[i])
    case Obj(ms) => forall i :: 0 <= i < |ms| ==> NoFloat(ms[i].1)
    case _ => true
  }

  /** `ensure_ascii`: the printed form is printable ASCII, whatever the text in it. */
  lemma {:induction false} DumpsAscii(v: Json, st: Style)
    requires NoFloat(v)
    ensures Ascii(Dumps(v, st))
    decreases v, 2, 0
  {
    hide Body, Decimal.Print, DumpItems, DumpMembers;
    match v
    case Int(n) => PrintAscii(n);
    case Str(t) => BodyAscii(Units(t));
    case Arr(items) => if items != [] { ItemsAscii(v, 0, st); }
    case Obj(ms) => if ms != [] { MembersAscii(v, 0, st); }
    case _ =>
  }

  lemma {:induction false} ItemsAscii(v: Json, i: nat, st: Style)
    requires v.Arr? && i < |v.items| && NoFloat(v)
    ensures Ascii(DumpItems(v, i, st))
    decreases v, 0, |v.items| - i
  {
    hide Dumps;
    DumpsAscii(v.items[i], st);
    if i + 1 < |v.items| { ItemsAscii(v, i + 1, st); }
  }

  lemma {:induction false} MembersAscii(v: Json, i: nat, st: Style)
    requires v.Obj? && i < |v.members| && NoFloat(v)
    ensures Ascii(DumpMembers(v, i, st))
    decreases v, 0, |v.members| - i
  {
    hide Dumps, Quote, Ascii;
    var q, x := Quote(v.members[i].0), Dumps(v.members[i].1, st);
    QuoteAscii(v.members[i].0);
    DumpsAscii(v.members[i].1, st);
    if i + 1 < |v.members| { MembersAscii(v, i + 1, st); }
    var tail := if i + 1 == |v.members| then "}" else st.Item() + DumpMembers(v, i + 1, st);
    SeparatorsAscii(st);
    if i + 1 < |v.members| { JoinAscii(st.Item(), DumpMembers(v, i + 1, st)); }
    JoinAscii(x, tail);
    JoinAscii(st.Key(), x + tail);
    JoinAscii(q, st.Key() + (x + tail));
  }

  lemma QuoteAscii(t: Text)
    ensures Ascii(Quote(t))
  {
    BodyAscii(Units(t));
  }

  lemma SeparatorsAscii(st: Style)
    ensures Ascii(st.Item()) && Ascii(st.Key()) && Ascii("}")
  {}

  lemma JoinAscii(s: string, t: string)
    requires Ascii(s) && Ascii(t)
    ensures Ascii(s + t)
  {}

  lemma ObjectEnds(v: Json, st: Style)
    requires v.Obj?
    ensures var s := Dumps(v, st); |s| > 1 && s[0] == '{' && s[|s| - 1] == '}'
  {
    hide DumpMembers;
    if v.members != [] { MembersEnd(v, 0, st); }
  }

  lemma {:induction false} MembersEnd(v: Json, i: nat, st: Style)
    requires v.Obj? && i < |v.members|
    ensures var s := DumpMembers(v, i, st); s != "" && s[|s| - 1] == '}'
    decreases |v.members| - i
  {
    hide Dumps, Quote;
    if i + 1 < |v.members| { MembersEnd(v, i + 1, st); }
  }
}
