/** The texts of JSON values, from the writing side: every spelling RFC 8259 and the decoder's three extra words
    allow, with any white space between tokens. The decoder reads exactly these. */
module JsonText {
  import opened PyText
  import opened Json
  import Decimal
  import JsonPrint

  // ---- Strings ----

  const LOWER_HEX := "0123456789abcdef"
  const UPPER_HEX := "0123456789ABCDEF"
  const SHORT_LETTERS := "\"\\/bfnrt"
  const SHORT_CODES := [0x22, 0x5C, 0x2F, 0x08, 0x0C, 0x0A, 0x0D, 0x09]

  /** A hexadecimal digit in either case. */
  datatype HexDigit = HexDigit(d: nat, upper: bool) {
    predicate Fine() { d < 16 }

    function Text(): char
      requires Fine()
    {
      if upper then UPPER_HEX[d] else LOWER_HEX[d]
    }
  }

  /** A `\uXXXX` escape. */
  datatype Unit = Unit(a: HexDigit, b: HexDigit, c: HexDigit, d: HexDigit) {
    predicate Fine() { a.Fine() && b.Fine() && c.Fine() && d.Fine() }

    function Text(): string
      requires Fine()
    {
      ['\\', 'u', a.Text(), b.Text(), c.Text(), d.Text()]
    }

    function Code(): nat { 4096 * a.d + 256 * b.d + 16 * c.d + d.d }

    predicate High() { 0xD800 <= Code() <= 0xDBFF }
    predicate Low() { 0xDC00 <= Code() <= 0xDFFF }
  }

  /** One code point of a string as it is written: itself, a backslash and a letter, one unit, or two. */
  datatype Piece = Raw(c: char) | Short(i: nat) | Escaped(u: Unit) | Pair(hi: Unit, lo: Unit) {
    predicate Fine() {
      match this
      case Raw(c) => c as int >= 32 && c != '"' && c != '\\'
      case Short(i) => i < 8
      case Escaped(u) => u.Fine()
      case Pair(hi, lo) => hi.Fine() && lo.Fine() && hi.High() && lo.Low()
    }

    function Text(): (s: string)
      requires Fine()
      ensures s != ""
    {
      match this
      case Raw(c) => [c]
      case Short(i) => ['\\', SHORT_LETTERS[i]]
      case Escaped(u) => u.Text()
      case Pair(hi, lo) => hi.Text() + lo.Text()
    }

    function Point(): nat
      requires Fine()
    {
      match this
      case Raw(c) => c as int
      case Short(i) => SHORT_CODES[i]
      case Escaped(u) => u.Code()
      case Pair(hi, lo) => 0x10000 + 0x400 * (hi.Code() - 0xD800) + (lo.Code() - 0xDC00)
    }
  }

  /** Two units that would make a pair are written as one. */
  predicate Apart(ps: seq<Piece>) {
    forall i :: 0 <= i < |ps| - 1 ==> !(ps[i].Escaped? && ps[i].u.High() && ps[i + 1].Escaped? && ps[i + 1].u.Low())
  }

  predicate FinePieces(ps: seq<Piece>) {
    (forall i :: 0 <= i < |ps| ==> ps[i].Fine()) && Apart(ps)
  }

  /** The pieces and the closing quote. */
  function BodyText(ps: seq<Piece>): (s: string)
    requires FinePieces(ps)
    ensures s != ""
  {
    if ps == [] then "\"" else ps[0].Text() + BodyText(ps[1..])
  }

  function Points(ps: seq<Piece>): Text
    requires FinePieces(ps)
  {
    if ps == [] then [] else [ps[0].Point()] + Points(ps[1..])
  }

  // ---- Numbers ----

  const DIGITS := "0123456789"

  predicate FineDigits(ds: seq<nat>) {
    ds != [] && forall i :: 0 <= i < |ds| ==> ds[i] < 10
  }

  function DigitText(ds: seq<nat>): (s: string)
    requires FineDigits(ds)
    ensures |s| == |ds|
  {
    seq(|ds|, i requires 0 <= i < |ds| => DIGITS[ds[i]])
  }

  function DigitSum(ds: seq<nat>): nat {
    if ds == [] then 0 else 10 * DigitSum(ds[..|ds| - 1]) + ds[|ds| - 1]
  }

  /** The exponent: `e` or `E`, a sign or none, digits. */
  datatype Exponent = Exponent(upper: bool, sign: string, digits: seq<nat>) {
    predicate Fine() { (sign == "" || sign == "+" || sign == "-") && FineDigits(digits) }

    function Text(): string
      requires Fine()
    {
      (if upper then "E" else "e") + sign + DigitText(digits)
    }
  }

  /** A number; `frac` is empty when there is no fraction. */
  datatype Numeral = Numeral(minus: bool, whole: seq<nat>, frac: seq<nat>, exp: Option<Exponent>) {
    predicate Fine() {
      && FineDigits(whole) && (whole[0] == 0 ==> |whole| == 1)
      && (frac != [] ==> FineDigits(frac)) && (exp.Some? ==> exp.value.Fine())
    }

    function WholeText(): (s: string)
      requires Fine()
      ensures s != ""
    {
      (if minus then "-" else "") + DigitText(whole)
    }

    function FracText(): string
      requires Fine()
    {
      if frac == [] then "" else "." + DigitText(frac)
    }

    function ExpText(): string
      requires Fine()
    {
      if exp.Some? then exp.value.Text() else ""
    }

    function Text(): (s: string)
      requires Fine()
      ensures s != ""
    {
      WholeText() + FracText() + ExpText()
    }

    function Meaning(): Json
      requires Fine()
    {
      var n: int := DigitSum(whole);
      if frac == [] && exp.None? then Int(if minus then -n else n) else Float(Text())
    }
  }

  // ---- Values ----

  const WORDS := ["null", "true", "false", "NaN", "Infinity", "-Infinity"]

  /** A value as it is written; the empty array and object keep the white space between their brackets. */
  datatype Doc =
    | Word(i: nat)
    | Num(n: Numeral)
    | Quoted(ps: seq<Piece>)
    | NoItems(gap: string)
    | Listed(items: ItemList)
    | NoMembers(gap: string)
    | Mapped(members: MemberList)

  /** The items of an array, each with the white space around it. */
  datatype ItemList =
    | LastItem(before: string, item: Doc, after: string)
    | MoreItems(before: string, item: Doc, after: string, rest: ItemList)

  /** The members of an object: white space, key, white space, colon, white space, value, white space. */
  datatype MemberList =
    | LastMember(before: string, key: seq<Piece>, behind: string, ahead: string, value: Doc, after: string)
    | MoreMembers(before: string, key: seq<Piece>, behind: string, ahead: string, value: Doc, after: string,
                  rest: MemberList)

  /** Any run of the four white space characters of RFC 8259, section 2. */
  predicate Blank(w: string) {
    forall i :: 0 <= i < |w| ==> w[i] in " \t\n\r"
  }

  predicate FineDoc(doc: Doc) {
    match doc
    case Word(i) => i < 6
    case Num(n) => n.Fine()
    case Quoted(ps) => FinePieces(ps)
    case NoItems(gap) => Blank(gap)
    case Listed(items) => FineItems(items)
    case NoMembers(gap) => Blank(gap)
    case Mapped(ms) => FineMembers(ms)
  }

  predicate FineItems(items: ItemList) {
    && Blank(items.before) && FineDoc(items.item) && Blank(items.after)
    && (items.MoreItems? ==> FineItems(items.rest))
  }

  predicate FineMembers(ms: MemberList) {
    && Blank(ms.before) && FinePieces(ms.key) && Blank(ms.behind) && Blank(ms.ahead) && FineDoc(ms.value)
    && Blank(ms.after) && (ms.MoreMembers? ==> FineMembers(ms.rest))
  }

  function DocText(doc: Doc): (s: string)
    requires FineDoc(doc)
  {
    match doc
    case Word(i) => WORDS[i]
    case Num(n) => n.Text()
    case Quoted(ps) => "\"" + BodyText(ps)
    case NoItems(gap) => "[" + (gap + "]")
    case Listed(items) => "[" + ItemsText(items)
    case NoMembers(gap) => "{" + (gap + "}")
    case Mapped(ms) => "{" + MembersText(ms)
  }

  function ItemsText(items: ItemList): string
    requires FineItems(items)
  {
    items.before + (DocText(items.item) + (items.after
    + match items case LastItem(_, _, _) => "]" case MoreItems(_, _, _, rest) => "," + ItemsText(rest)))
  }

  function MembersText(ms: MemberList): string
    requires FineMembers(ms)
  {
    ms.before + ("\"" + (BodyText(ms.key) + (ms.behind + (":" + (ms.ahead + (DocText(ms.value) + (ms.after
    + match ms case LastMember(_, _, _, _, _, _) => "}"
               case MoreMembers(_, _, _, _, _, _, rest) => "," + MembersText(rest))))))))
  }

  function DocValue(doc: Doc): Json
    requires FineDoc(doc)
  {
    match doc
    case Word(i) => [Null, Bool(true), Bool(false), Float("NaN"), Float("Infinity"), Float("-Infinity")][i]
    case Num(n) => n.Meaning()
    case Quoted(ps) => Str(Points(ps))
    case NoItems(_) => Arr([])
    case Listed(items) => Arr(ItemValues(items))
    case NoMembers(_) => Obj([])
    case Mapped(ms) => Obj(MemberValues(ms))
  }

  function ItemValues(items: ItemList): seq<Json>
    requires FineItems(items)
  {
    [DocValue(items.item)] + match items case LastItem(_, _, _) => [] case MoreItems(_, _, _, rest) => ItemValues(rest)
  }

  function MemberValues(ms: MemberList): seq<(Text, Json)>
    requires FineMembers(ms)
  {
    [(Points(ms.key), DocValue(ms.value))]
    + match ms case LastMember(_, _, _, _, _, _) => [] case MoreMembers(_, _, _, _, _, _, rest) => MemberValues(rest)
  }

  // ---- Every such text is read as its value ----

  lemma HexRead(h: HexDigit)
    requires h.Fine()
    ensures HexValue(h.Text()) == Some(h.d)
  {
    HexDigits(h.d);
  }

  lemma HexDigits(d: nat)
    requires d < 16
    ensures LOWER_HEX[d] == if d < 10 then ('0' as int + d) as char else ('a' as int + d - 10) as char
    ensures UPPER_HEX[d] == if d < 10 then ('0' as int + d) as char else ('A' as int + d - 10) as char
  {
    assert d == 0 || d == 1 || d == 2 || d == 3 || d == 4 || d == 5 || d == 6 || d == 7 || d == 8 || d == 9 || d == 10
           || d == 11 || d == 12 || d == 13 || d == 14 || d == 15;
  }

  lemma UnitRead(u: Unit, rest: string)
    requires u.Fine()
    ensures OneChar(u.Text() + rest) == Parsed(u.Code(), rest)
  {
    hide HexValue;
    var s := u.Text() + rest;
    HexRead(u.a);
    HexRead(u.b);
    HexRead(u.c);
    HexRead(u.d);
    assert s[0] == '\\' && s[1] == 'u' && s[6..] == rest;
    assert s[2] == u.a.Text() && s[3] == u.b.Text() && s[4] == u.c.Text() && s[5] == u.d.Text();
  }

  lemma ShortRead(i: nat, rest: string)
    requires i < 8
    ensures OneChar(['\\', SHORT_LETTERS[i]] + rest) == Parsed(SHORT_CODES[i], rest)
  {
    hide Hex4;
    assert i == 0 || i == 1 || i == 2 || i == 3 || i == 4 || i == 5 || i == 6 || i == 7;
    var s := ['\\', SHORT_LETTERS[i]] + rest;
    assert s[0] == '\\' && s[1] == SHORT_LETTERS[i] && s[2..] == rest;
  }

  /** The UTF-16 units a piece is written with, a raw character counting as one. */
  function UnitsOf(p: Piece): Text
    requires p.Fine()
  {
    match p
    case Raw(c) => [c as int]
    case Short(i) => [SHORT_CODES[i]]
    case Escaped(u) => [u.Code()]
    case Pair(hi, lo) => [hi.Code(), lo.Code()]
  }

  function AllUnits(ps: seq<Piece>): Text
    requires FinePieces(ps)
  {
    if ps == [] then [] else UnitsOf(ps[0]) + AllUnits(ps[1..])
  }

  lemma {:induction false} PiecesRead(ps: seq<Piece>, rest: string)
    requires FinePieces(ps)
    ensures Chars(BodyText(ps) + rest) == Parsed(AllUnits(ps), rest)
  {
    hide OneChar, Piece.Text, UnitsOf;
    if ps == [] {
      assert (BodyText(ps) + rest)[1..] == rest;
    } else {
      var tail := BodyText(ps[1..]) + rest;
      PiecesRead(ps[1..], rest);
      assert BodyText(ps) + rest == ps[0].Text() + tail;
      PieceRead(ps[0], tail);
    }
  }

  lemma CharsStep(s: string, c: nat, tail: string)
    requires s != "" && s[0] != '"' && OneChar(s) == Parsed(c, tail) && Chars(tail).Parsed?
    ensures Chars(s) == Parsed([c] + Chars(tail).value, Chars(tail).rest)
  {
    hide OneChar;
  }

  /** One piece before a body that is read. */
  lemma PieceRead(p: Piece, tail: string)
    requires p.Fine() && Chars(tail).Parsed?
    ensures Chars(p.Text() + tail) == Parsed(UnitsOf(p) + Chars(tail).value, Chars(tail).rest)
  {
    hide Chars, OneChar, Unit.Text, Unit.Code;
    match p
    case Raw(c) =>
      RawRead(c, tail);
      CharsStep([c] + tail, c as int, tail);
    case Short(i) =>
      ShortRead(i, tail);
      CharsStep(['\\', SHORT_LETTERS[i]] + tail, SHORT_CODES[i], tail);
    case Escaped(u) =>
      UnitStep(u, tail);
    case Pair(hi, lo) =>
      UnitStep(lo, tail);
      UnitStep(hi, lo.Text() + tail);
      assert (hi.Text() + lo.Text()) + tail == hi.Text() + (lo.Text() + tail);
      assert [hi.Code()] + ([lo.Code()] + Chars(tail).value) == UnitsOf(p) + Chars(tail).value;
  }

  lemma RawRead(c: char, tail: string)
    requires Raw(c).Fine()
    ensures OneChar([c] + tail) == Parsed(c as int, tail)
  {
    assert ([c] + tail)[1..] == tail;
  }

  lemma UnitStep(u: Unit, tail: string)
    requires u.Fine() && Chars(tail).Parsed?
    ensures Chars(u.Text() + tail) == Parsed([u.Code()] + Chars(tail).value, Chars(tail).rest)
  {
    hide Chars, OneChar, Unit.Code;
    UnitRead(u, tail);
    UnitHead(u, tail);
    CharsStep(u.Text() + tail, u.Code(), tail);
  }

  lemma UnitHead(u: Unit, tail: string)
    requires u.Fine()
    ensures u.Text() + tail != "" && (u.Text() + tail)[0] == '\\'
  {}

  lemma JoinSingle(c: nat, us: Text)
    requires us != [] ==> !(IsHigh(c) && IsLow(us[0]))
    ensures JoinPairs([c] + us) == [c] + JoinPairs(us)
  {
    assert ([c] + us)[1..] == us;
  }

  lemma JoinNothing()
    ensures JoinPairs([]) == []
  {}

  lemma JoinTwo(hi: nat, lo: nat, us: Text)
    requires 0xD800 <= hi <= 0xDBFF && 0xDC00 <= lo <= 0xDFFF
    ensures JoinPairs([hi, lo] + us) == [0x10000 + 0x400 * (hi - 0xD800) + (lo - 0xDC00)] + JoinPairs(us)
  {
    assert ([hi, lo] + us)[2..] == us;
  }

  lemma {:induction false} UnitsJoined(ps: seq<Piece>)
    requires FinePieces(ps)
    ensures JoinPairs(AllUnits(ps)) == Points(ps)
  {
    JoinNothing();
    hide JoinPairs, Unit.Code, IsHigh, IsLow;
    if ps != [] {
      var us := AllUnits(ps[1..]);
      UnitsJoined(ps[1..]);
      match ps[0]
      case Pair(hi, lo) => JoinTwo(hi.Code(), lo.Code(), us);
      case _ =>
        if |ps| > 1 { FirstUnit(ps); }
        JoinSingle(UnitsOf(ps[0])[0], us);
    }
  }

  /** A single unit and the one behind it are no pair. */
  lemma FirstUnit(ps: seq<Piece>)
    requires FinePieces(ps) && |ps| > 1 && !ps[0].Pair?
    ensures AllUnits(ps[1..]) != [] && !(IsHigh(UnitsOf(ps[0])[0]) && IsLow(AllUnits(ps[1..])[0]))
  {
    assert ps[1..][0] == ps[1] && AllUnits(ps[1..])[0] == UnitsOf(ps[1])[0];
    assert ps[0].Escaped? && ps[0].u.High() && ps[1].Escaped? ==> !ps[1].u.Low();
  }

  lemma Digit(d: nat)
    requires d < 10
    ensures Decimal.IsDigit(DIGITS[d]) && Decimal.DigitValue(DIGITS[d]) == d && (DIGITS[d] == '0' <==> d == 0)
  {
    assert d == 0 || d == 1 || d == 2 || d == 3 || d == 4 || d == 5 || d == 6 || d == 7 || d == 8 || d == 9;
  }

  predicate NoDigit(tail: string) {
    tail != "" ==> !Decimal.IsDigit(tail[0])
  }

  lemma DigitsRun(ds: seq<nat>, tail: string)
    requires FineDigits(ds) && NoDigit(tail)
    ensures DigitRun(DigitText(ds) + tail) == |ds|
    ensures Decimal.IsDigit(DigitText(ds)[0]) && (DigitText(ds)[0] == '0' <==> ds[0] == 0)
  {
    var s := DigitText(ds);
    forall i | 0 <= i < |s| ensures Decimal.IsDigit(s[i]) { Digit(ds[i]); }
    Digit(ds[0]);
    hide Decimal.IsDigit;
    JsonPrint.DigitRunStops(s, tail);
  }

  lemma {:induction false} DigitsSum(ds: seq<nat>)
    requires FineDigits(ds)
    ensures Decimal.NatValue(DigitText(ds)) == DigitSum(ds)
  {
    var last := |ds| - 1;
    Digit(ds[last]);
    if last == 0 {
      assert DigitText(ds)[..0] == "" && ds[..0] == [];
    } else {
      DigitsSum(ds[..last]);
      assert DigitText(ds)[..last] == DigitText(ds[..last]);
    }
  }

  lemma WholeRead(n: Numeral, tail: string)
    requires n.Fine() && NoDigit(tail)
    ensures var s := n.WholeText() + tail;
            && IntEnd(s) == |n.WholeText()| && (s[0] == '-' ==> IntEnd(s) > 1)
            && s[0] !in "\"{[ntfNI" && (|s| > 1 && s[0] == '-' ==> s[1] != 'I')
  {
    var ds := DigitText(n.whole);
    DigitsRun(n.whole, tail);
    hide DigitText;
    assert IntLen(ds + tail) == |ds|;
    if n.minus {
      assert (n.WholeText() + tail)[1..] == ds + tail;
      assert (n.WholeText() + tail)[1] == ds[0];
    } else {
      assert n.WholeText() + tail == ds + tail;
    }
  }

  lemma WholeMeans(n: Numeral)
    requires n.Fine()
    ensures var whole: int := DigitSum(n.whole);
            Decimal.IntValue(n.WholeText()) == if n.minus then -whole else whole
  {
    DigitsSum(n.whole);
    DigitsRun(n.whole, "");
    assert n.minus ==> n.WholeText()[1..] == DigitText(n.whole);
    assert !n.minus ==> n.WholeText() == DigitText(n.whole);
  }

  lemma PointRead(ds: string, tail: string)
    requires DigitRun(ds + tail) == |ds| > 0
    ensures FracLen("." + ds + tail) == 1 + |ds|
  {
    hide DigitRun;
    var s := "." + ds + tail;
    assert s[0] == '.' && s[1..] == ds + tail;
  }

  lemma FracRead(n: Numeral, tail: string)
    requires n.Fine() && NoDigit(tail) && (n.frac == [] && tail != "" ==> tail[0] != '.')
    ensures FracLen(n.FracText() + tail) == |n.FracText()|
  {
    if n.frac == [] {
      assert n.FracText() + tail == tail;
    } else {
      DigitsRun(n.frac, tail);
      hide FracLen, DigitRun, NoDigit;
      PointRead(DigitText(n.frac), tail);
    }
  }

  lemma ExpRead(n: Numeral, rest: string)
    requires n.Fine() && JsonPrint.Ends(rest)
    ensures ExpLen(n.ExpText() + rest) == |n.ExpText()|
  {
    if n.exp.None? {
      assert n.ExpText() + rest == rest;
    } else {
      var e := n.exp.value;
      var s, ds := n.ExpText() + rest, DigitText(e.digits);
      DigitsRun(e.digits, rest);
      var sign := 1 + |e.sign|;
      assert s[sign..] == ds + rest;
      assert s[sign] == ds[0];
      assert e.sign != "" ==> s[1] == e.sign[0];
    }
  }

  /** What stands behind the whole part starts with no digit, and with a point only if there is a fraction. */
  lemma TailHeads(n: Numeral, rest: string)
    requires n.Fine() && JsonPrint.Ends(rest)
    ensures NoDigit(n.ExpText() + rest) && NoDigit(n.FracText() + (n.ExpText() + rest))
    ensures n.ExpText() + rest != "" ==> (n.ExpText() + rest)[0] != '.'
  {
    hide DigitText;
  }

  lemma TextOfParts(n: Numeral, s: string, i: nat, f: nat, e: nat)
    requires n.Fine() && i <= f <= e <= |s|
    requires n.WholeText() == s[..i] && n.FracText() == s[i..f] && n.ExpText() == s[f..e]
    ensures n.Text() == s[..e] && s == n.Text() + s[e..] && (n.FracText() == "" <==> i == f)
            && (n.ExpText() == "" <==> f == e)
  {
    hide Numeral.WholeText, Numeral.FracText, Numeral.ExpText, Numeral.Fine;
    assert s[..i] + s[i..f] + s[f..e] == s[..e];
  }

  lemma Grouped<T>(a: seq<T>, b: seq<T>, c: seq<T>)
    ensures (a + b) + c == a + (b + c)
  {}

  lemma NumRead(n: Numeral, rest: string)
    requires n.Fine() && JsonPrint.Ends(rest)
    ensures Value(n.Text() + rest) == Parsed(n.Meaning(), rest)
  {
    hide Numeral.WholeText, Numeral.FracText, Numeral.ExpText, Decimal.IntValue, DigitSum, Numeral.Fine, Chars, Members,
         Elements, Keyword, IntEnd, FracEnd, ExpEnd, JsonPrint.Ends;
    var s := n.Text() + rest;
    NumEnds(n, s, rest);
    TextOfParts(n, s, IntEnd(s), FracEnd(s), ExpEnd(s));
    WholeMeans(n);
    PartLengths(n);
  }

  /** Where the parts of a number are found to end. */
  lemma NumEnds(n: Numeral, s: string, rest: string)
    requires n.Fine() && JsonPrint.Ends(rest) && s == n.Text() + rest
    ensures var w, f, e := |n.WholeText()|, |n.FracText()|, |n.ExpText()|;
            && IntEnd(s) == w && FracEnd(s) == w + f && ExpEnd(s) == w + f + e && s[w + f + e..] == rest
            && n.WholeText() == s[..w] && n.FracText() == s[w..w + f] && n.ExpText() == s[w + f..w + f + e]
    ensures s != "" && s[0] !in "\"{[ntfNI" && (s[0] == '-' ==> IntEnd(s) > 1) && !("-Infinity" <= s)
  {
    hide Numeral.WholeText, Numeral.FracText, Numeral.ExpText, IntEnd, FracLen, ExpLen, Numeral.Fine, JsonPrint.Ends;
    var w, f, e := n.WholeText(), n.FracText(), n.ExpText();
    Grouped(w, f, e + rest);
    Grouped(w + f, e, rest);
    assert s == w + (f + (e + rest)) && s[|w|..] == f + (e + rest) && s[|w + f|..] == e + rest;
    TailHeads(n, rest);
    WholeRead(n, f + (e + rest));
    FracRead(n, e + rest);
    ExpRead(n, rest);
  }

  lemma PartLengths(n: Numeral)
    requires n.Fine()
    ensures n.FracText() == "" <==> n.frac == []
    ensures n.ExpText() == "" <==> n.exp.None?
  {
    hide DigitText;
  }

  lemma {:induction false} BlankSkipped(w: string, s: string)
    requires Blank(w) && SkipWs(s) == s
    ensures SkipWs(w + s) == s
  {
    if w == "" {
      assert w + s == s;
    } else {
      BlankIsWs(w[0]);
      assert (w + s)[1..] == w[1..] + s;
      BlankSkipped(w[1..], s);
    }
  }

  lemma BlankIsWs(c: char)
    ensures IsWs(c) <==> c in " \t\n\r"
  {}

  /** A token is not skipped. */
  lemma TokenStays(s: string)
    requires s != "" && !IsWs(s[0])
    ensures SkipWs(s) == s
  {}

  lemma NumHead(n: Numeral)
    requires n.Fine()
    ensures n.Text()[0] == '-' || Decimal.IsDigit(n.Text()[0])
  {
    DigitsRun(n.whole, "");
    hide DigitText;
    assert n.WholeText()[0] == n.Text()[0];
  }

  lemma DocHead(doc: Doc, rest: string)
    requires FineDoc(doc)
    ensures DocText(doc) != "" && SkipWs(DocText(doc) + rest) == DocText(doc) + rest
    ensures (DocText(doc) + rest)[0] !in "]},:"
  {
    hide FinePieces, BodyText, ItemsText, MembersText, Numeral.Text, Numeral.Fine;
    if doc.Num? { NumHead(doc.n); }
    if doc.Word? {
      assert doc.i == 0 || doc.i == 1 || doc.i == 2 || doc.i == 3 || doc.i == 4 || doc.i == 5;
    }
  }

  lemma WordRead(i: nat, rest: string)
    requires i < 6
    ensures Value(WORDS[i] + rest) == Parsed(DocValue(Word(i)), rest)
  {
    hide Chars, Members, Elements, Number;
    assert i == 0 || i == 1 || i == 2 || i == 3 || i == 4 || i == 5;
    var word := WORDS[i];
    assert (word + rest)[|word|..] == rest && (word + rest)[0] == word[0];
  }

  lemma QuotedRead(ps: seq<Piece>, rest: string)
    requires FinePieces(ps)
    ensures var s := "\"" + BodyText(ps) + rest;
            s[0] == '"' && Chars(s[1..]) == Parsed(AllUnits(ps), rest) && JoinPairs(AllUnits(ps)) == Points(ps)
  {
    hide Chars, JoinPairs, FinePieces;
    var s := "\"" + BodyText(ps) + rest;
    assert s[1..] == BodyText(ps) + rest;
    PiecesRead(ps, rest);
    UnitsJoined(ps);
  }

  /** A text of a value is read as that value, whatever follows it; behind a number, whatever cannot continue it. */
  lemma {:induction false} DocRead(doc: Doc, rest: string)
    requires FineDoc(doc) && (doc.Num? ==> JsonPrint.Ends(rest))
    ensures Value(DocText(doc) + rest) == Parsed(DocValue(doc), rest)
    decreases doc
  {
    hide Value, FinePieces, BodyText, ItemsText, MembersText, Numeral.Fine, JsonPrint.Ends;
    match doc
    case Word(i) => WordRead(i, rest);
    case Num(n) => NumRead(n, rest);
    case Quoted(ps) => StringRead(ps, rest);
    case NoItems(gap) => EmptyRead(doc, rest);
    case NoMembers(gap) => EmptyRead(doc, rest);
    case Listed(items) =>
      ItemsRead(items, rest);
      ItemsHead(items, rest);
      ArrayRead(items, rest);
    case Mapped(ms) =>
      MembersRead(ms, rest);
      MembersHead(ms, rest);
      ObjectRead(ms, rest);
  }

  lemma StringRead(ps: seq<Piece>, rest: string)
    requires FinePieces(ps)
    ensures Value(("\"" + BodyText(ps)) + rest) == Parsed(Str(Points(ps)), rest)
  {
    hide Chars, JoinPairs, FinePieces, Members, Elements, Number, Keyword;
    QuotedRead(ps, rest);
  }

  lemma EmptyRead(doc: Doc, rest: string)
    requires FineDoc(doc) && (doc.NoItems? || doc.NoMembers?)
    ensures Value(DocText(doc) + rest) == Parsed(DocValue(doc), rest)
  {
    hide Chars, Members, Elements, Number, Keyword, SkipWs;
    var s := DocText(doc) + rest;
    var closed := (if doc.NoItems? then "]" else "}") + rest;
    assert s[1..] == doc.gap + closed && closed[1..] == rest;
    TokenStays(closed);
    BlankSkipped(doc.gap, closed);
  }

  lemma ArrayRead(items: ItemList, rest: string)
    requires FineItems(items)
    requires var s := SkipWs(ItemsText(items) + rest);
             s != "" && s[0] != ']' && Elements(s) == Parsed(ItemValues(items), rest)
    ensures Value(("[" + ItemsText(items)) + rest) == Parsed(Arr(ItemValues(items)), rest)
  {
    hide Elements, ItemsText, ItemValues, FineItems, SkipWs;
    assert (("[" + ItemsText(items)) + rest)[1..] == ItemsText(items) + rest;
  }

  lemma ObjectRead(ms: MemberList, rest: string)
    requires FineMembers(ms)
    requires var s := SkipWs(MembersText(ms) + rest);
             s != "" && s[0] != '}' && Members(s) == Parsed(MemberValues(ms), rest)
    ensures Value(("{" + MembersText(ms)) + rest) == Parsed(Obj(MemberValues(ms)), rest)
  {
    hide Members, MembersText, MemberValues, FineMembers, SkipWs;
    assert (("{" + MembersText(ms)) + rest)[1..] == MembersText(ms) + rest;
  }

  /** What follows an item: white space, and a comma and the next items, or the closing bracket. */
  function ItemsTail(items: ItemList, rest: string): string
    requires FineItems(items)
  {
    if items.LastItem? then "]" + rest else "," + (ItemsText(items.rest) + rest)
  }

  lemma ItemsSplit(items: ItemList, rest: string)
    requires FineItems(items)
    ensures ItemsText(items) + rest
            == items.before + (DocText(items.item) + (items.after + ItemsTail(items, rest)))
  {
    hide DocText;
    var end := if items.LastItem? then "]" else "," + ItemsText(items.rest);
    assert end + rest == ItemsTail(items, rest);
    Regroup(items.before, DocText(items.item), items.after, end, rest);
  }

  lemma Regroup(a: string, b: string, c: string, d: string, rest: string)
    ensures (a + (b + (c + d))) + rest == a + (b + (c + (d + rest)))
  {}

  lemma ItemsHead(items: ItemList, rest: string)
    requires FineItems(items)
    ensures var s := SkipWs(ItemsText(items) + rest); s != "" && s[0] != ']'
  {
    hide SkipWs, DocText, ItemsText;
    ItemsSplit(items, rest);
    var tail := items.after + ItemsTail(items, rest);
    DocHead(items.item, tail);
    BlankSkipped(items.before, DocText(items.item) + tail);
  }

  lemma TailEnds(after: string, tail: string)
    requires Blank(after) && tail != "" && tail[0] in ",]}"
    ensures JsonPrint.Ends(after + tail) && SkipWs(after + tail) == tail
  {
    TokenStays(tail);
    BlankSkipped(after, tail);
    if after != "" { assert (after + tail)[0] == after[0]; }
  }

  lemma {:induction false} ItemsRead(items: ItemList, rest: string)
    requires FineItems(items)
    ensures Elements(SkipWs(ItemsText(items) + rest)) == Parsed(ItemValues(items), rest)
    decreases items
  {
    hide SkipWs, DocText, ItemsText, Elements, Value, JsonPrint.Ends, FineDoc, DocValue;
    ItemsSplit(items, rest);
    var tail := ItemsTail(items, rest);
    var s := DocText(items.item) + (items.after + tail);
    DocHead(items.item, items.after + tail);
    BlankSkipped(items.before, s);
    TailEnds(items.after, tail);
    DocRead(items.item, items.after + tail);
    if items.MoreItems? {
      ItemsRead(items.rest, rest);
      assert tail[1..] == ItemsText(items.rest) + rest;
      OneMore(s, DocValue(items.item), items.after + tail, ItemValues(items.rest), rest);
    } else {
      assert tail[1..] == rest;
      OneLast(s, DocValue(items.item), items.after + tail, rest);
      assert [DocValue(items.item)] + [] == [DocValue(items.item)];
    }
  }

  lemma OneMore(s: string, x: Json, tail: string, xs: seq<Json>, rest: string)
    requires Value(s) == Parsed(x, tail) && SkipWs(tail) != "" && SkipWs(tail)[0] == ','
    requires Elements(SkipWs(SkipWs(tail)[1..])) == Parsed(xs, rest)
    ensures Elements(s) == Parsed([x] + xs, rest)
  {
    hide Value, SkipWs;
  }

  lemma OneLast(s: string, x: Json, tail: string, rest: string)
    requires Value(s) == Parsed(x, tail) && SkipWs(tail) != "" && SkipWs(tail)[0] == ']' && SkipWs(tail)[1..] == rest
    ensures Elements(s) == Parsed([x], rest)
  {
    hide Value, SkipWs;
  }

  function MembersTail(ms: MemberList, rest: string): string
    requires FineMembers(ms)
  {
    if ms.LastMember? then "}" + rest else "," + (MembersText(ms.rest) + rest)
  }

  /** A member from its colon on, and from its value on. */
  function FromValue(ms: MemberList, rest: string): string
    requires FineMembers(ms)
  {
    DocText(ms.value) + (ms.after + MembersTail(ms, rest))
  }

  function FromColon(ms: MemberList, rest: string): string
    requires FineMembers(ms)
  {
    ":" + (ms.ahead + FromValue(ms, rest))
  }

  lemma MembersSplit(ms: MemberList, rest: string)
    requires FineMembers(ms)
    ensures MembersText(ms) + rest
            == ms.before + ("\"" + BodyText(ms.key) + (ms.behind + FromColon(ms, rest)))
  {
    hide DocText, BodyText, FinePieces;
    var end := if ms.LastMember? then "}" else "," + MembersText(ms.rest);
    assert end + rest == MembersTail(ms, rest);
    var v := DocText(ms.value) + (ms.after + end);
    Regroup("", DocText(ms.value), ms.after, end, rest);
    assert "" + v == v && "" + FromValue(ms, rest) == FromValue(ms, rest);
    assert v + rest == FromValue(ms, rest);
    Regroup(ms.behind, ":", ms.ahead, v, rest);
    var c := ms.behind + (":" + (ms.ahead + v));
    assert c + rest == ms.behind + FromColon(ms, rest);
    Regroup(ms.before, "\"", BodyText(ms.key), c, rest);
    assert "\"" + (BodyText(ms.key) + (c + rest)) == "\"" + BodyText(ms.key) + (c + rest);
  }

  lemma MembersHead(ms: MemberList, rest: string)
    requires FineMembers(ms)
    ensures var s := SkipWs(MembersText(ms) + rest);
            s == "\"" + BodyText(ms.key) + (ms.behind + FromColon(ms, rest)) && s[0] == '"'
  {
    hide SkipWs, MembersText, BodyText, FromColon, FinePieces, FineDoc;
    MembersSplit(ms, rest);
    var s := "\"" + BodyText(ms.key) + (ms.behind + FromColon(ms, rest));
    TokenStays(s);
    BlankSkipped(ms.before, s);
  }

  lemma {:induction false} MembersRead(ms: MemberList, rest: string)
    requires FineMembers(ms)
    ensures Members(SkipWs(MembersText(ms) + rest)) == Parsed(MemberValues(ms), rest)
    decreases ms
  {
    hide SkipWs, DocText, MembersText, BodyText, Members, Value, Chars, JoinPairs, JsonPrint.Ends, FineDoc, DocValue,
         FinePieces, Points, AllUnits;
    MembersHead(ms, rest);
    var tail := MembersTail(ms, rest);
    QuotedRead(ms.key, ms.behind + FromColon(ms, rest));
    TokenStays(FromColon(ms, rest));
    BlankSkipped(ms.behind, FromColon(ms, rest));
    DocHead(ms.value, ms.after + tail);
    assert FromColon(ms, rest)[1..] == ms.ahead + FromValue(ms, rest);
    BlankSkipped(ms.ahead, FromValue(ms, rest));
    TailEnds(ms.after, tail);
    DocRead(ms.value, ms.after + tail);
    var s := SkipWs(MembersText(ms) + rest);
    if ms.MoreMembers? {
      MembersRead(ms.rest, rest);
      assert tail[1..] == MembersText(ms.rest) + rest;
      MemberMore(s, AllUnits(ms.key), FromColon(ms, rest), ms.behind, DocValue(ms.value), ms.after + tail,
                 MemberValues(ms.rest), rest);
    } else {
      assert tail[1..] == rest;
      MemberLast(s, AllUnits(ms.key), FromColon(ms, rest), ms.behind, DocValue(ms.value), ms.after + tail, rest);
      assert [(Points(ms.key), DocValue(ms.value))] + [] == [(Points(ms.key), DocValue(ms.value))];
    }
  }

  lemma MemberMore(s: string, k: Text, c: string, behind: string, x: Json, tail: string, xs: seq<(Text, Json)>,
                   rest: string)
    requires s != "" && s[0] == '"' && Chars(s[1..]) == Parsed(k, behind + c) && SkipWs(behind + c) == c
    requires c != "" && c[0] == ':' && Value(SkipWs(c[1..])) == Parsed(x, tail)
    requires SkipWs(tail) != "" && SkipWs(tail)[0] == ',' && Members(SkipWs(SkipWs(tail)[1..])) == Parsed(xs, rest)
    ensures Members(s) == Parsed([(JoinPairs(k), x)] + xs, rest)
  {
    hide Value, SkipWs, Chars, JoinPairs;
  }

  lemma MemberLast(s: string, k: Text, c: string, behind: string, x: Json, tail: string, rest: string)
    requires s != "" && s[0] == '"' && Chars(s[1..]) == Parsed(k, behind + c) && SkipWs(behind + c) == c
    requires c != "" && c[0] == ':' && Value(SkipWs(c[1..])) == Parsed(x, tail)
    requires SkipWs(tail) != "" && SkipWs(tail)[0] == '}' && SkipWs(tail)[1..] == rest
    ensures Members(s) == Parsed([(JoinPairs(k), x)], rest)
  {
    hide Value, SkipWs, Chars, JoinPairs;
  }

  // ---- And nothing else is read ----

  lemma HexWritten(c: char) returns (h: HexDigit)
    requires HexValue(c).Some?
    ensures h.Fine() && h.Text() == c && HexValue(c) == Some(h.d)
  {
    h := HexDigit(HexValue(c).value, 'A' <= c <= 'F');
    HexDigits(h.d);
  }

  lemma ShortWritten(c: char) returns (i: nat)
    requires ShortEscape(c).Some?
    ensures i < 8 && SHORT_LETTERS[i] == c && ShortEscape(c) == Some(SHORT_CODES[i])
  {
    i := match c case '"' => 0 case '\\' => 1 case '/' => 2 case 'b' => 3 case 'f' => 4 case 'n' => 5 case 'r' => 6
                 case _ => 7;
  }

  lemma UnitWritten(s: string) returns (u: Unit)
    requires |s| >= 6 && s[0] == '\\' && s[1] == 'u' && Hex4(s[2], s[3], s[4], s[5]).Some?
    ensures u.Fine() && s == u.Text() + s[6..] && Hex4(s[2], s[3], s[4], s[5]) == Some(u.Code())
  {
    hide HexValue;
    var a := HexWritten(s[2]);
    var b := HexWritten(s[3]);
    var c := HexWritten(s[4]);
    var d := HexWritten(s[5]);
    u := Unit(a, b, c, d);
  }

  /** A character or escape, as a piece of one unit. */
  lemma OneWritten(s: string) returns (p: Piece)
    requires s != "" && s[0] != '"' && OneChar(s).Parsed?
    ensures p.Fine() && !p.Pair? && s == p.Text() + OneChar(s).rest && UnitsOf(p) == [OneChar(s).value]
  {
    hide Hex4, ShortEscape;
    if s[0] != '\\' {
      p := Raw(s[0]);
    } else if |s| >= 6 && s[1] == 'u' && Hex4(s[2], s[3], s[4], s[5]).Some? {
      var u := UnitWritten(s);
      p := Escaped(u);
    } else {
      var i := ShortWritten(s[1]);
      p := Short(i);
    }
  }

  lemma Prepended(p: Piece, ps: seq<Piece>)
    requires p.Fine() && FinePieces(ps)
    requires ps != [] && p.Escaped? && p.u.High() && ps[0].Escaped? ==> !ps[0].u.Low()
    ensures FinePieces([p] + ps)
    ensures BodyText([p] + ps) == p.Text() + BodyText(ps) && AllUnits([p] + ps) == UnitsOf(p) + AllUnits(ps)
  {
    hide Piece.Fine, Unit.High, Unit.Low;
    assert ([p] + ps)[1..] == ps;
    forall i | 0 <= i < |ps|
      ensures !(([p] + ps)[i].Escaped? && ([p] + ps)[i].u.High() && ([p] + ps)[i + 1].Escaped?
                && ([p] + ps)[i + 1].u.Low())
    {
      if i > 0 { assert ([p] + ps)[i] == ps[i - 1] && ([p] + ps)[i + 1] == ps[i]; }
    }
  }

  lemma Behind(ps: seq<Piece>)
    requires FinePieces(ps) && ps != []
    ensures FinePieces(ps[1..]) && ps[0].Fine()
    ensures BodyText(ps) == ps[0].Text() + BodyText(ps[1..]) && AllUnits(ps) == UnitsOf(ps[0]) + AllUnits(ps[1..])
  {
    hide Piece.Fine;
  }

  /** A piece of one unit before others; two units that make a pair become one piece. */
  lemma Merged(p: Piece, more: seq<Piece>) returns (ps: seq<Piece>)
    requires p.Fine() && !p.Pair? && FinePieces(more)
    ensures FinePieces(ps) && BodyText(ps) == p.Text() + BodyText(more) && AllUnits(ps) == UnitsOf(p) + AllUnits(more)
  {
    hide FinePieces, BodyText, AllUnits, Unit.Text, Unit.Code, Unit.High, Unit.Low, Unit.Fine;
    if more != [] && p.Escaped? && p.u.High() && more[0].Escaped? && more[0].u.Low() {
      Behind(more);
      Prepended(Pair(p.u, more[0].u), more[1..]);
      ps := [Pair(p.u, more[0].u)] + more[1..];
      Grouped(p.u.Text(), more[0].u.Text(), BodyText(more[1..]));
      Grouped([p.u.Code()], [more[0].u.Code()], AllUnits(more[1..]));
      assert [p.u.Code()] + [more[0].u.Code()] == [p.u.Code(), more[0].u.Code()];
    } else {
      Prepended(p, more);
      ps := [p] + more;
    }
  }

  lemma {:induction false} CharsWritten(s: string) returns (ps: seq<Piece>)
    requires Chars(s).Parsed?
    ensures FinePieces(ps) && s == BodyText(ps) + Chars(s).rest && AllUnits(ps) == Chars(s).value
    decreases |s|
  {
    hide OneChar, FinePieces, BodyText, AllUnits, Piece.Text, Piece.Fine, UnitsOf;
    if s[0] == '"' {
      ps := [];
      NoPieces(s);
    } else {
      var p := OneWritten(s);
      var more := CharsWritten(OneChar(s).rest);
      ps := Merged(p, more);
      Grouped(p.Text(), BodyText(more), Chars(s).rest);
    }
  }

  lemma NoPieces(s: string)
    requires s != "" && s[0] == '"'
    ensures FinePieces([]) && s == BodyText([]) + s[1..] && AllUnits([]) == []
  {}

  lemma DigitWritten(c: char)
    requires Decimal.IsDigit(c)
    ensures 0 <= Decimal.DigitValue(c) < 10 && DIGITS[Decimal.DigitValue(c)] == c
  {
    Digit(Decimal.DigitValue(c));
  }

  lemma {:induction false} DigitsWritten(s: string, k: nat) returns (ds: seq<nat>)
    requires 0 < k <= |s| && (forall i :: 0 <= i < k ==> Decimal.IsDigit(s[i]))
    ensures FineDigits(ds) && |ds| == k && DigitText(ds) == s[..k] && (ds[0] == 0 <==> s[0] == '0')
  {
    hide Decimal.IsDigit;
    if k == 1 {
      ds := [Decimal.DigitValue(s[0])] by { DigitWritten(s[0]); }
      DigitWritten(s[0]);
      Digit(ds[0]);
      assert DigitText(ds)[0] == s[0];
    } else {
      var front := DigitsWritten(s, k - 1);
      DigitWritten(s[k - 1]);
      ds := front + [Decimal.DigitValue(s[k - 1])];
      forall i | 0 <= i < k ensures DigitText(ds)[i] == s[i] {
        if i < k - 1 { assert DigitText(front)[i] == s[..k - 1][i]; }
      }
    }
  }

  lemma {:induction false} RunIsDigits(s: string, i: nat)
    requires i < DigitRun(s)
    ensures Decimal.IsDigit(s[i])
  {
    if i > 0 { RunIsDigits(s[1..], i - 1); }
  }

  lemma RunWritten(s: string) returns (ds: seq<nat>)
    requires DigitRun(s) > 0
    ensures FineDigits(ds) && DigitText(ds) == s[..DigitRun(s)] && (ds[0] == 0 <==> s[0] == '0')
  {
    forall i | 0 <= i < DigitRun(s) ensures Decimal.IsDigit(s[i]) { RunIsDigits(s, i); }
    ds := DigitsWritten(s, DigitRun(s));
  }

  lemma IntWritten(s: string) returns (ds: seq<nat>)
    requires IntLen(s) > 0
    ensures FineDigits(ds) && DigitText(ds) == s[..IntLen(s)] && (ds[0] == 0 ==> |ds| == 1)
  {
    if s[0] == '0' {
      ds := DigitsWritten(s, 1);
    } else {
      ds := RunWritten(s);
    }
  }

  lemma FracWritten(s: string) returns (ds: seq<nat>)
    ensures (ds != [] ==> FineDigits(ds)) && (ds == [] <==> FracLen(s) == 0)
    ensures s[..FracLen(s)] == if ds == [] then "" else "." + DigitText(ds)
  {
    ds := [];
    if FracLen(s) > 0 {
      ds := RunWritten(s[1..]);
      assert s[..FracLen(s)] == [s[0]] + s[1..][..DigitRun(s[1..])];
    }
  }

  lemma ExpWritten(s: string) returns (exp: Option<Exponent>)
    ensures (exp.Some? ==> exp.value.Fine()) && (exp.None? <==> ExpLen(s) == 0)
    ensures s[..ExpLen(s)] == if exp.Some? then exp.value.Text() else ""
  {
    exp := None;
    if ExpLen(s) > 0 {
      var sign := if |s| > 1 && (s[1] == '+' || s[1] == '-') then 2 else 1;
      var ds := RunWritten(s[sign..]);
      exp := Some(Exponent(s[0] == 'E', s[1..sign], ds));
      assert sign == 2 ==> s[1..2] == [s[1]];
      hide DigitText;
      assert s[..ExpLen(s)] == [s[0]] + s[1..sign] + s[sign..][..DigitRun(s[sign..])];
    }
  }

  lemma NumWritten(s: string) returns (n: Numeral)
    requires Number(s).Parsed?
    ensures n.Fine() && s == n.Text() + Number(s).rest && n.Meaning() == Number(s).value
  {
    n := PartsWritten(s);
    TextOfParts(n, s, IntEnd(s), FracEnd(s), ExpEnd(s));
    PartLengths(n);
    WholeMeans(n);
    hide Numeral.WholeText, Numeral.FracText, Numeral.ExpText, Numeral.Text, IntEnd, FracEnd, ExpEnd, DigitSum,
         Decimal.IntValue, Numeral.Fine;
  }

  lemma PartsWritten(s: string) returns (n: Numeral)
    requires Number(s).Parsed?
    ensures n.Fine() && n.WholeText() == s[..IntEnd(s)] && n.FracText() == s[IntEnd(s)..FracEnd(s)]
    ensures n.ExpText() == s[FracEnd(s)..ExpEnd(s)] && n.minus == (s[0] == '-')
  {
    hide IntLen, FracLen, ExpLen, DigitText, Exponent.Text, Exponent.Fine;
    var i, f := IntEnd(s), FracEnd(s);
    var whole := IntWritten(if s[0] == '-' then s[1..] else s);
    var frac := FracWritten(s[i..]);
    var exp := ExpWritten(s[f..]);
    n := Numeral(s[0] == '-', whole, frac, exp);
    WholeIs(n, s);
    assert s[i..f] == s[i..][..FracLen(s[i..])] && s[f..ExpEnd(s)] == s[f..][..ExpLen(s[f..])];
  }

  lemma WholeIs(n: Numeral, s: string)
    requires n.Fine() && s != "" && n.minus == (s[0] == '-')
    requires var body := if n.minus then s[1..] else s; IntLen(body) > 0 && DigitText(n.whole) == body[..IntLen(body)]
    ensures n.WholeText() == s[..IntEnd(s)]
  {
    hide DigitText, IntLen;
    if n.minus { assert s[..IntEnd(s)] == "-" + s[1..][..IntLen(s[1..])]; }
  }

  lemma {:induction false} BlankBefore(s: string) returns (w: string)
    ensures Blank(w) && s == w + SkipWs(s)
  {
    if s != "" && IsWs(s[0]) {
      var v := BlankBefore(s[1..]);
      BlankIsWs(s[0]);
      w := [s[0]] + v;
    } else {
      w := "";
    }
  }

  lemma Indented(items: ItemList, w: string)
    requires FineItems(items) && items.before == "" && Blank(w)
    ensures var there := items.(before := w);
            FineItems(there) && ItemsText(there) == w + ItemsText(items) && ItemValues(there) == ItemValues(items)
  {
    hide DocText, DocValue, FineDoc, Blank;
  }

  lemma MembersIndented(ms: MemberList, w: string)
    requires FineMembers(ms) && ms.before == "" && Blank(w)
    ensures var there := ms.(before := w);
            FineMembers(there) && MembersText(there) == w + MembersText(ms) && MemberValues(there) == MemberValues(ms)
  {
    hide DocText, DocValue, FineDoc, Blank, BodyText, Points, FinePieces;
  }

  lemma QuotedWritten(s: string) returns (doc: Doc)
    requires Value(s).Parsed? && s[0] == '"'
    ensures FineDoc(doc) && s == DocText(doc) + Value(s).rest && DocValue(doc) == Value(s).value
  {
    hide Chars, JoinPairs, FinePieces;
    var ps := CharsWritten(s[1..]);
    UnitsJoined(ps);
    doc := Quoted(ps);
    hide BodyText, Points;
    assert s == "\"" + s[1..];
  }

  lemma NumberWritten(s: string) returns (doc: Doc)
    requires Value(s).Parsed? && s[0] !in "\"{[" && !IsWord(s)
    ensures FineDoc(doc) && s == DocText(doc) + Value(s).rest && DocValue(doc) == Value(s).value
  {
    hide Chars, Number, Members, Elements, Keyword;
    var n := NumWritten(s);
    doc := Num(n);
  }

  /** Whatever the decoder reads from the head of a text is the text of the value it returns. */
  lemma {:induction false} ValueWritten(s: string) returns (doc: Doc)
    requires Value(s).Parsed?
    ensures FineDoc(doc) && s == DocText(doc) + Value(s).rest && DocValue(doc) == Value(s).value
    decreases |s|, 2
  {
    assert s != "";
    hide *;
    if s[0] == '"' {
      doc := QuotedWritten(s);
    } else if s[0] == '[' {
      doc := ArrayWritten(s);
    } else if s[0] == '{' {
      doc := ObjectWritten(s);
    } else if IsWord(s) {
      doc := WordWritten(s);
    } else {
      doc := NumberWritten(s);
    }
  }

  predicate IsWord(s: string) {
    s != "" && (s[0] in "ntfNI" || "-Infinity" <= s)
  }

  lemma WordWritten(s: string) returns (doc: Doc)
    requires IsWord(s) && Value(s).Parsed?
    ensures FineDoc(doc) && s == DocText(doc) + Value(s).rest && DocValue(doc) == Value(s).value
  {
    hide Chars, Number, Members, Elements;
    doc := Word(match s[0] case 'n' => 0 case 't' => 1 case 'f' => 2 case 'N' => 3 case 'I' => 4 case _ => 5);
    assert s == DocText(doc) + s[|DocText(doc)|..];
  }

  lemma {:induction false} ArrayWritten(s: string) returns (doc: Doc)
    requires Value(s).Parsed? && s[0] == '['
    ensures FineDoc(doc) && s == DocText(doc) + Value(s).rest && DocValue(doc) == Value(s).value
    decreases |s|, 1
  {
    hide Chars, Number, SkipWs, Members, Elements, Keyword, Blank;
    var w := BlankBefore(s[1..]);
    var s1 := SkipWs(s[1..]);
    assert s == "[" + (w + s1);
    if s1 != "" && s1[0] == ']' {
      doc := NoItems(w);
      assert s1 == "]" + s1[1..];
    } else {
      var items := ElementsWritten(s1);
      hide ItemsText, ItemValues, FineItems;
      Indented(items, w);
      doc := Listed(items.(before := w));
      Grouped(w, ItemsText(items), Value(s).rest);
      Grouped("[", w + ItemsText(items), Value(s).rest);
    }
  }

  /** What the decoder does behind an opening brace. */
  lemma BraceRead(s: string, s1: string)
    requires Value(s).Parsed? && s[0] == '{' && s1 == SkipWs(s[1..])
    ensures s1 != "" && s1[0] == '}' ==> Value(s) == Parsed(Obj([]), s1[1..])
    ensures !(s1 != "" && s1[0] == '}')
            ==> Members(s1).Parsed? && Value(s) == Parsed(Obj(Members(s1).value), Members(s1).rest)
  {
    hide Chars, Number, SkipWs, Members, Elements, Keyword;
  }

  lemma MappedDoc(ms: MemberList, w: string, rest: string) returns (doc: Doc)
    requires FineMembers(ms) && ms.before == "" && Blank(w)
    ensures FineDoc(doc) && DocText(doc) + rest == "{" + (w + (MembersText(ms) + rest))
    ensures DocValue(doc) == Obj(MemberValues(ms))
  {
    hide MembersText, MemberValues, FineMembers, Blank;
    MembersIndented(ms, w);
    doc := Mapped(ms.(before := w));
    Grouped(w, MembersText(ms), rest);
    Grouped("{", w + MembersText(ms), rest);
  }

  lemma NoMembersDoc(w: string, rest: string)
    requires Blank(w)
    ensures FineDoc(NoMembers(w)) && DocText(NoMembers(w)) + rest == "{" + (w + ("}" + rest))
    ensures DocValue(NoMembers(w)) == Obj([])
  {
    hide Blank;
  }

  lemma {:induction false} ObjectWritten(s: string) returns (doc: Doc)
    requires Value(s).Parsed? && s[0] == '{'
    ensures FineDoc(doc) && s == DocText(doc) + Value(s).rest && DocValue(doc) == Value(s).value
    decreases |s|, 1
  {
    hide *;
    var w := BlankBefore(s[1..]);
    var s1 := SkipWs(s[1..]);
    BraceRead(s, s1);
    assert s == "{" + (w + s1);
    if s1 != "" && s1[0] == '}' {
      doc := NoMembers(w);
      NoMembersDoc(w, s1[1..]);
      assert s1 == "}" + s1[1..];
    } else {
      var ms := MembersWritten(s1);
      doc := MappedDoc(ms, w, Members(s1).rest);
    }
  }

  lemma {:induction false} ElementsWritten(s: string) returns (items: ItemList)
    requires Elements(s).Parsed?
    ensures FineItems(items) && items.before == ""
    ensures s == ItemsText(items) + Elements(s).rest && ItemValues(items) == Elements(s).value
    decreases |s|, 3
  {
    hide Value, SkipWs, Blank, DocText, DocValue, FineDoc, ItemsText;
    var doc := ValueWritten(s);
    var s1 := Value(s).rest;
    var after := BlankBefore(s1);
    var s2 := SkipWs(s1);
    BlankNothing();
    if s2[0] == ']' {
      items := LastItem("", doc, after);
      ItemTextIs(items, s, s1, s2, "]", s2[1..]);
    } else {
      var w := BlankBefore(s2[1..]);
      var more := ElementsWritten(SkipWs(s2[1..]));
      Indented(more, w);
      var rest := more.(before := w);
      Grouped(w, ItemsText(more), Elements(s).rest);
      items := MoreItems("", doc, after, rest);
      hide FineItems, ItemValues;
      ItemTextIs(items, s, s1, s2, "," + ItemsText(rest), Elements(s).rest);
    }
  }

  lemma ItemTextIs(items: ItemList, s: string, s1: string, s2: string, end: string, rest: string)
    requires FineItems(items) && items.before == "" && s == DocText(items.item) + s1 && s1 == items.after + s2
    requires s2 == end + rest && end == if items.LastItem? then "]" else "," + ItemsText(items.rest)
    ensures s == ItemsText(items) + rest
  {
    hide DocText, FineDoc;
    Regroup("", DocText(items.item), items.after, end, rest);
    assert "" + s == s;
  }

  lemma BlankNothing()
    ensures Blank("")
  {}

  lemma {:induction false} MembersWritten(s: string) returns (ms: MemberList)
    requires Members(s).Parsed?
    ensures FineMembers(ms) && ms.before == ""
    ensures s == MembersText(ms) + Members(s).rest && MemberValues(ms) == Members(s).value
    decreases |s|, 3
  {
    hide Value, SkipWs, Blank, DocText, DocValue, FineDoc, Chars, JoinPairs, FinePieces, BodyText, Points, AllUnits;
    var key := CharsWritten(s[1..]);
    UnitsJoined(key);
    var s1 := Chars(s[1..]).rest;
    var behind := BlankBefore(s1);
    var s2 := SkipWs(s1);
    var ahead := BlankBefore(s2[1..]);
    var v := SkipWs(s2[1..]);
    var doc := ValueWritten(v);
    var s3 := Value(v).rest;
    var after := BlankBefore(s3);
    var s4 := SkipWs(s3);
    BlankNothing();
    if s4[0] == '}' {
      ms := LastMember("", key, behind, ahead, doc, after);
      MemberTextIs(ms, s, s1, s2, v, s3, s4, "}", s4[1..]);
    } else {
      var w := BlankBefore(s4[1..]);
      var more := MembersWritten(SkipWs(s4[1..]));
      MembersIndented(more, w);
      var rest := more.(before := w);
      Grouped(w, MembersText(more), Members(s).rest);
      ms := MoreMembers("", key, behind, ahead, doc, after, rest);
      hide FineMembers, MemberValues;
      MemberTextIs(ms, s, s1, s2, v, s3, s4, "," + MembersText(rest), Members(s).rest);
    }
  }

  lemma Flattened(q: string, k: string, b: string, colon: string, a: string, x: string, f: string, end: string,
                  rest: string)
    ensures (q + (k + (b + (colon + (a + (x + (f + end))))))) + rest
            == q + (k + (b + (colon + (a + (x + (f + (end + rest)))))))
  {
    var c := x + (f + end);
    Grouped(f, end, rest);
    Grouped(x, f + end, rest);
    Grouped(a, c, rest);
    Grouped(colon, a + c, rest);
    Grouped(b, colon + (a + c), rest);
    Grouped(k, b + (colon + (a + c)), rest);
    Grouped(q, k + (b + (colon + (a + c))), rest);
  }

  lemma MemberTextIs(ms: MemberList, s: string, s1: string, s2: string, v: string, s3: string, s4: string, end: string,
                     rest: string)
    requires FineMembers(ms) && ms.before == "" && s != "" && s[0] == '"' && s[1..] == BodyText(ms.key) + s1
    requires s1 == ms.behind + s2 && s2 != "" && s2[0] == ':' && s2[1..] == ms.ahead + v
    requires v == DocText(ms.value) + s3 && s3 == ms.after + s4 && s4 == end + rest
    requires end == if ms.LastMember? then "}" else "," + MembersText(ms.rest)
    ensures s == MembersText(ms) + rest
  {
    hide BodyText, DocText, FinePieces, FineDoc;
    var k, x := BodyText(ms.key), DocText(ms.value);
    var text := "\"" + (k + (ms.behind + (":" + (ms.ahead + (x + (ms.after + end))))));
    assert MembersText(ms) == text by { assert MembersText(ms) == "" + text; }
    hide MembersText, FineMembers;
    FirstCut(s, '"');
    FirstCut(s2, ':');
    Flattened("\"", k, ms.behind, ":", ms.ahead, x, ms.after, end, rest);
  }

  lemma FirstCut(s: string, c: char)
    requires s != "" && s[0] == c
    ensures s == [c] + s[1..]
  {}

  // ---- The decoder, exactly ----

  /** The text is white space, a text of the value, and white space. */
  ghost predicate Spells(s: string, v: Json) {
    exists w, doc, w' ::
      Blank(w) && FineDoc(doc) && Blank(w') && s == w + (DocText(doc) + w') && v == DocValue(doc)
  }

  /** `json.loads` returns a value for exactly the texts that spell it, and raises for every other text. */
  lemma LoadsExactly(s: string, v: Json)
    ensures Loads(s) == Some(v) <==> Spells(s, v)
  {
    hide Value, SkipWs, Blank, DocText, DocValue, FineDoc;
    if Loads(s) == Some(v) {
      var w := BlankBefore(s);
      var doc := ValueWritten(SkipWs(s));
      var w' := BlankBefore(Value(SkipWs(s)).rest);
      assert w' + "" == w';
      assert s == w + (DocText(doc) + w');
    }
    if Spells(s, v) {
      var w, doc, w' :|
        Blank(w) && FineDoc(doc) && Blank(w') && s == w + (DocText(doc) + w') && v == DocValue(doc);
      DocHead(doc, w');
      BlankSkipped(w, DocText(doc) + w');
      OnlyBlank(w');
      DocRead(doc, w');
    }
  }

  lemma OnlyBlank(w: string)
    requires Blank(w)
    ensures JsonPrint.Ends(w) && SkipWs(w) == ""
  {
    assert SkipWs("") == "" && w + "" == w;
    BlankSkipped(w, "");
  }

  // ---- The printed form of a string ----

  /** Four lower-case digits. */
  predicate Printed(x: Unit) {
    x.Fine() && !x.a.upper && !x.b.upper && !x.c.upper && !x.d.upper
  }

  lemma HexPrinted(h: HexDigit, n: nat)
    requires h.Fine() && !h.upper && n % 16 == h.d
    ensures JsonPrint.HexDigit(n) == h.Text()
  {
    HexDigits(h.d);
  }

  lemma UnitPrinted(x: Unit)
    requires Printed(x)
    ensures JsonPrint.UnitEscape(x.Code()) == x.Text()
  {
    var u := x.Code();
    assert u / 4096 == x.a.d && u / 256 == 16 * x.a.d + x.b.d && u / 16 == 256 * x.a.d + 16 * x.b.d + x.c.d;
    HexPrinted(x.a, u / 4096);
    HexPrinted(x.b, u / 256);
    HexPrinted(x.c, u / 16);
    HexPrinted(x.d, u);
  }

  /** `json.dumps` writes a unit with its short escape when it has one, '/' excepted, as itself when it
      is printable ASCII, and with four lower-case digits otherwise. */
  lemma EscapedExactly(u: nat, i: nat, x: Unit)
    ensures i < 8 && u == SHORT_CODES[i] && u != 0x2F ==> JsonPrint.EscapeUnit(u) == Short(i).Text()
    ensures 32 <= u <= 126 && (u == 0x2F || u !in SHORT_CODES) ==> JsonPrint.EscapeUnit(u) == Raw(u as char).Text()
    ensures Printed(x) && u == x.Code() && !(32 <= u <= 126) && u !in SHORT_CODES
            ==> JsonPrint.EscapeUnit(u) == Escaped(x).Text()
  {
    hide JsonPrint.UnitEscape;
    assert i < 8 ==> i == 0 || i == 1 || i == 2 || i == 3 || i == 4 || i == 5 || i == 6 || i == 7;
    assert SHORT_CODES[0] == 0x22 && SHORT_CODES[1] == 0x5C && SHORT_CODES[3] == 8 && SHORT_CODES[4] == 0xC
           && SHORT_CODES[5] == 0xA && SHORT_CODES[6] == 0xD && SHORT_CODES[7] == 9;
    if Printed(x) { UnitPrinted(x); }
  }
}
