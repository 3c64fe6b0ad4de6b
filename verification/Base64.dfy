/** Base64url as src/server/auth.py uses it (RFC 4648, sections 3.2, 3.5 and 5): encoding without
    padding, and decoding through pad-repair and CPython's lenient decoder. */
module Base64 {
  import opened PyText

  type Byte = n: nat | n < 256

  // ---- Encoding ----

  function CharOf(d: nat): (c: char)
    requires d < 64
  {
    if d < 26 then ('A' as int + d) as char
    else if d < 52 then ('a' as int + d - 26) as char
    else if d < 62 then ('0' as int + d - 52) as char
    else if d == 62 then '-' else '_'
  }

  function Digit1(x: Byte): (d: nat) ensures d < 64 { x / 4 }
  function Digit2(x: Byte, y: Byte): (d: nat) ensures d < 64 { x % 4 * 16 + y / 16 }
  function Digit3(y: Byte, z: Byte): (d: nat) ensures d < 64 { y % 16 * 4 + z / 64 }
  function Digit4(z: Byte): (d: nat) ensures d < 64 { z % 64 }

  /** `base64.urlsafe_b64encode`: groups of four characters, the last padded with '='. */
  function Padded(b: seq<Byte>): string {
    if b == [] then ""
    else if |b| == 1 then [CharOf(Digit1(b[0])), CharOf(Digit2(b[0], 0)), '=', '=']
    else if |b| == 2 then [CharOf(Digit1(b[0])), CharOf(Digit2(b[0], b[1])), CharOf(Digit3(b[1], 0)), '=']
    else
      [CharOf(Digit1(b[0])), CharOf(Digit2(b[0], b[1])), CharOf(Digit3(b[1], b[2])), CharOf(Digit4(b[2]))]
      + Padded(b[3..])
  }

  function StripPads(s: string): string {
    if s != "" && s[|s| - 1] == '=' then StripPads(s[..|s| - 1]) else s
  }

  /** `_b64url_encode` */
  function Encode(b: seq<Byte>): string {
    StripPads(Padded(b))
  }

  // ---- Decoding ----

  /** The value of a character after '-' and '_' were translated to '+' and '/'. */
  function DigitOf(c: char): (r: Option<nat>)
    ensures r.Some? ==> r.value < 64
  {
    if 'A' <= c <= 'Z' then Some(c as int - 'A' as int)
    else if 'a' <= c <= 'z' then Some(c as int - 'a' as int + 26)
    else if '0' <= c <= '9' then Some(c as int - '0' as int + 52)
    else if c == '-' || c == '+' then Some(62)
    else if c == '_' || c == '/' then Some(63)
    else None
  }

  /** `binascii.a2b_base64`, not strict, from the state reached before s: `quad` characters of the
      current group read, `left` the bits not yet written, `pads` the '=' seen since. Characters
      outside the alphabet are skipped. None is `binascii.Error`. */
  function Read(s: string, quad: nat, left: nat, pads: nat): Option<seq<Byte>>
    requires quad < 4 && left < 64
  {
    if s == "" then (if quad == 0 then Some([]) else None)
    else if s[0] == '=' then
      if quad >= 2 && quad + pads + 1 >= 4 then Some([])
      else Read(s[1..], quad, left, if quad >= 2 then pads + 1 else pads)
    else match DigitOf(s[0])
      case None => Read(s[1..], quad, left, pads)
      case Some(d) =>
        if quad == 0 then Read(s[1..], 1, d, 0)
        else if quad == 1 then Prepend((left * 4 + d / 16) % 256, Read(s[1..], 2, d % 16, 0))
        else if quad == 2 then Prepend((left * 16 + d / 4) % 256, Read(s[1..], 3, d % 4, 0))
        else Prepend((left * 64 + d) % 256, Read(s[1..], 0, 0, 0))
  }

  function Prepend(x: Byte, r: Option<seq<Byte>>): Option<seq<Byte>> {
    if r.Some? then Some([x] + r.value) else None
  }

  predicate IsAscii(s: string) {
    forall i :: 0 <= i < |s| ==> s[i] as int < 128
  }

  /** The '=' that pad-repair appends to a text of n characters. */
  function Repair(n: nat): string {
    if n % 4 == 0 then "" else if n % 4 == 3 then "=" else if n % 4 == 2 then "==" else "==="
  }

  /** `_b64url_decode`; None stands for the exceptions it raises. */
  function Decode(s: string): Option<seq<Byte>> {
    if IsAscii(s) then Read(s + Repair(|s|), 0, 0, 0) else None
  }

  // ---- Encoding, without its padding ----

  /** Encoding without padding, written directly. */
  function Raw(b: seq<Byte>): string {
    if b == [] then ""
    else if |b| == 1 then [CharOf(Digit1(b[0])), CharOf(Digit2(b[0], 0))]
    else if |b| == 2 then [CharOf(Digit1(b[0])), CharOf(Digit2(b[0], b[1])), CharOf(Digit3(b[1], 0))]
    else Group(b[0], b[1], b[2]) + Raw(b[3..])
  }

  function Group(x: Byte, y: Byte, z: Byte): string {
    [CharOf(Digit1(x)), CharOf(Digit2(x, y)), CharOf(Digit3(y, z)), CharOf(Digit4(z))]
  }

  lemma CharIsDigit(d: nat)
    requires d < 64
    ensures DigitOf(CharOf(d)) == Some(d) && CharOf(d) != '=' && CharOf(d) != '.' && (CharOf(d) as int) < 128
    ensures IsAlphabet(CharOf(d))
  {}

  /** The 64 characters of the url-safe alphabet. */
  predicate IsAlphabet(c: char) {
    'A' <= c <= 'Z' || 'a' <= c <= 'z' || '0' <= c <= '9' || c == '-' || c == '_'
  }

  predicate AllAlphabet(s: string) {
    forall i :: 0 <= i < |s| ==> IsAlphabet(s[i])
  }

  lemma AlphabetHasDigits(c: char)
    requires IsAlphabet(c)
    ensures DigitOf(c).Some? && CharOf(DigitOf(c).value) == c && c != '=' && c != '.' && (c as int) < 128
  {}

  lemma {:induction false} RawLength(b: seq<Byte>)
    ensures |Raw(b)| % 4 == (if |b| % 3 == 0 then 0 else |b| % 3 + 1)
    ensures AllAlphabet(Raw(b))
  {
    hide IsAlphabet, CharOf, Digit1, Digit2, Digit3, Digit4;
    if |b| == 1 {
      CharIsDigit(Digit1(b[0]));
      CharIsDigit(Digit2(b[0], 0));
    } else if |b| == 2 {
      CharIsDigit(Digit1(b[0]));
      CharIsDigit(Digit2(b[0], b[1]));
      CharIsDigit(Digit3(b[1], 0));
    } else if b != [] {
      GroupAlphabet(b[0], b[1], b[2]);
      RawLength(b[3..]);
    }
  }

  lemma GroupAlphabet(x: Byte, y: Byte, z: Byte)
    ensures AllAlphabet(Group(x, y, z)) && |Group(x, y, z)| == 4
  {
    hide IsAlphabet, CharOf, Digit1, Digit2, Digit3, Digit4;
    CharIsDigit(Digit1(x));
    CharIsDigit(Digit2(x, y));
    CharIsDigit(Digit3(y, z));
    CharIsDigit(Digit4(z));
  }

  lemma {:induction false} PaddedIsRepaired(b: seq<Byte>)
    ensures Padded(b) == Raw(b) + Repair(|Raw(b)|)
  {
    hide CharOf, Digit1, Digit2, Digit3, Digit4;
    if |b| > 2 {
      PaddedIsRepaired(b[3..]);
      GroupTail(b);
    }
  }

  lemma RepairAfterGroup(g: string, tail: string)
    requires |g| == 4
    ensures g + tail + Repair(|g + tail|) == g + (tail + Repair(|tail|))
  {
    assert |g + tail| % 4 == |tail| % 4;
  }

  lemma GroupTail(b: seq<Byte>)
    requires |b| > 2
    ensures Raw(b) + Repair(|Raw(b)|) == Group(b[0], b[1], b[2]) + (Raw(b[3..]) + Repair(|Raw(b[3..])|))
  {
    hide Repair, CharOf, Digit1, Digit2, Digit3, Digit4;
    RepairAfterGroup(Group(b[0], b[1], b[2]), Raw(b[3..]));
  }

  lemma {:induction false} PadsStrip(s: string, n: nat)
    requires s != "" ==> s[|s| - 1] != '='
    ensures StripPads(s + Repair(n)) == s
  {
    StripOne(s + "==");
    StripOne(s + "=");
    StripOne(s + "===");
    assert (s + "===")[..|s| + 2] == s + "==";
    assert (s + "==")[..|s| + 1] == s + "=";
    assert (s + "=")[..|s|] == s && s + "" == s;
  }

  lemma StripOne(s: string)
    requires s != "" && s[|s| - 1] == '='
    ensures StripPads(s) == StripPads(s[..|s| - 1])
  {}

  /** Stripping undoes the padding and nothing else. */
  lemma EncodeIsRaw(b: seq<Byte>)
    ensures Encode(b) == Raw(b)
  {
    hide Padded, Raw, StripPads, IsAlphabet;
    PaddedIsRepaired(b);
    RawLength(b);
    if Raw(b) != "" { AlphabetHasDigits(Raw(b)[|Raw(b)| - 1]); }
    PadsStrip(Raw(b), |Raw(b)|);
  }

  /** Every encoded text is made of the 64 alphabet characters; in particular it has no '.'. */
  lemma EncodedAlphabet(b: seq<Byte>)
    ensures AllAlphabet(Encode(b)) && '.' !in Encode(b) && IsAscii(Encode(b))
  {
    hide Encode, IsAlphabet;
    EncodeIsRaw(b);
    RawLength(b);
    var e := Encode(b);
    forall i | 0 <= i < |e| ensures e[i] != '.' && (e[i] as int) < 128 { AlphabetHasDigits(e[i]); }
  }

  // ---- decode(encode(b)) == b ----

  lemma FirstOf(c: char, s: string)
    ensures ([c] + s)[0] == c && ([c] + s)[1..] == s && [c] + s != ""
  {}

  lemma ReadQuad0(d: nat, s: string, pads: nat)
    requires d < 64
    ensures Read([CharOf(d)] + s, 0, 0, pads) == Read(s, 1, d, 0)
  {
    hide CharOf, DigitOf;
    CharIsDigit(d);
    FirstOf(CharOf(d), s);
  }

  lemma ReadQuad1(d: nat, s: string, left: nat)
    requires d < 64 && left < 64
    ensures Read([CharOf(d)] + s, 1, left, 0) == Prepend((left * 4 + d / 16) % 256, Read(s, 2, d % 16, 0))
  {
    hide CharOf, DigitOf, Prepend;
    CharIsDigit(d);
    FirstOf(CharOf(d), s);
  }

  lemma ReadQuad2(d: nat, s: string, left: nat)
    requires d < 64 && left < 64
    ensures Read([CharOf(d)] + s, 2, left, 0) == Prepend((left * 16 + d / 4) % 256, Read(s, 3, d % 4, 0))
  {
    hide CharOf, DigitOf, Prepend;
    CharIsDigit(d);
    FirstOf(CharOf(d), s);
  }

  lemma ReadQuad3(d: nat, s: string, left: nat)
    requires d < 64 && left < 64
    ensures Read([CharOf(d)] + s, 3, left, 0) == Prepend((left * 64 + d) % 256, Read(s, 0, 0, 0))
  {
    hide CharOf, DigitOf, Prepend;
    CharIsDigit(d);
    FirstOf(CharOf(d), s);
  }

  /** Two characters give a byte and leave four bits; a third gives another and leaves two. */
  function Byte1(d1: nat, d2: nat): Byte { (d1 * 4 + d2 / 16) % 256 }
  function Byte2(d2: nat, d3: nat): Byte { (d2 % 16 * 16 + d3 / 4) % 256 }
  function Byte3(d3: nat, d4: nat): Byte { (d3 % 4 * 64 + d4) % 256 }

  lemma ReadTwo(d1: nat, d2: nat, s: string)
    requires d1 < 64 && d2 < 64
    ensures Read([CharOf(d1), CharOf(d2)] + s, 0, 0, 0) == Prepend(Byte1(d1, d2), Read(s, 2, d2 % 16, 0))
  {
    hide CharOf, Read, Prepend;
    ReadQuad0(d1, [CharOf(d2)] + s, 0);
    ReadQuad1(d2, s, d1);
    assert [CharOf(d1), CharOf(d2)] + s == [CharOf(d1)] + ([CharOf(d2)] + s);
  }

  lemma ReadThree(d1: nat, d2: nat, d3: nat, s: string)
    requires d1 < 64 && d2 < 64 && d3 < 64
    ensures Read([CharOf(d1), CharOf(d2), CharOf(d3)] + s, 0, 0, 0)
            == Prepend(Byte1(d1, d2), Prepend(Byte2(d2, d3), Read(s, 3, d3 % 4, 0)))
  {
    hide CharOf, Read, Prepend, Byte1;
    ReadTwo(d1, d2, [CharOf(d3)] + s);
    ReadQuad2(d3, s, d2 % 16);
    assert [CharOf(d1), CharOf(d2), CharOf(d3)] + s == [CharOf(d1), CharOf(d2)] + ([CharOf(d3)] + s);
  }

  lemma ReadFour(d1: nat, d2: nat, d3: nat, d4: nat, s: string)
    requires d1 < 64 && d2 < 64 && d3 < 64 && d4 < 64
    ensures Read([CharOf(d1), CharOf(d2), CharOf(d3), CharOf(d4)] + s, 0, 0, 0)
            == Prepend(Byte1(d1, d2), Prepend(Byte2(d2, d3), Prepend(Byte3(d3, d4), Read(s, 0, 0, 0))))
  {
    hide CharOf, Read, Prepend, Byte1, Byte2;
    ReadThree(d1, d2, d3, [CharOf(d4)] + s);
    ReadQuad3(d4, s, d3 % 4);
    assert [CharOf(d1), CharOf(d2), CharOf(d3), CharOf(d4)] + s
        == [CharOf(d1), CharOf(d2), CharOf(d3)] + ([CharOf(d4)] + s);
  }

  lemma PadsEnd(left: nat)
    requires left < 64
    ensures Read("==", 2, left, 0) == Some([]) && Read("=", 3, left, 0) == Some([])
  {
    assert "=="[1..] == "=";
  }

  lemma Parts4(a: nat, b: nat)
    requires b < 4
    ensures (a * 4 + b) / 4 == a && (a * 4 + b) % 4 == b
  {}

  lemma Parts16(a: nat, b: nat)
    requires b < 16
    ensures (a * 16 + b) / 16 == a && (a * 16 + b) % 16 == b
  {}

  lemma Parts64(a: nat, b: nat)
    requires b < 64
    ensures (a * 64 + b) / 64 == a && (a * 64 + b) % 64 == b
  {}

  lemma Mod256(n: nat)
    requires n < 256
    ensures n % 256 == n
  {}

  /** A byte keeps apart the two digits it is made of. */
  lemma ByteParts(d1: nat, d2: nat)
    requires d1 < 64 && d2 < 64
    ensures Byte1(d1, d2) / 4 == d1 && Byte1(d1, d2) % 4 == d2 / 16
    ensures Byte2(d1, d2) / 16 == d1 % 16 && Byte2(d1, d2) % 16 == d2 / 4
    ensures Byte3(d1, d2) / 64 == d1 % 4 && Byte3(d1, d2) % 64 == d2
  {
    Join4(d1, d2 / 16);
    Join16(d1 % 16, d2 / 4);
    Join64(d1 % 4, d2);
  }

  lemma Join4(a: nat, b: nat)
    requires a < 64 && b < 4
    ensures var n := (a * 4 + b) % 256; n / 4 == a && n % 4 == b
  {
    Mod256(a * 4 + b);
    Parts4(a, b);
  }

  lemma Join16(a: nat, b: nat)
    requires a < 16 && b < 16
    ensures var n := (a * 16 + b) % 256; n / 16 == a && n % 16 == b
  {
    Mod256(a * 16 + b);
    Parts16(a, b);
  }

  lemma Join64(a: nat, b: nat)
    requires a < 4 && b < 64
    ensures var n := (a * 64 + b) % 256; n / 64 == a && n % 64 == b
  {
    Mod256(a * 64 + b);
    Parts64(a, b);
  }

  /** A digit keeps apart the two bytes it is made of. */
  lemma DigitParts(x: Byte, y: Byte)
    ensures Digit2(x, y) / 16 == x % 4 && Digit2(x, y) % 16 == y / 16
    ensures Digit3(x, y) / 4 == x % 16 && Digit3(x, y) % 4 == y / 64
  {
    Parts16(x % 4, y / 16);
    Parts4(x % 16, y / 64);
  }

  lemma SameParts(x: nat, y: nat, k: nat)
    requires k in {4, 16, 64} && x / k == y / k && x % k == y % k
    ensures x == y
  {}

  lemma Bytes(x: Byte, y: Byte, z: Byte)
    ensures Byte1(Digit1(x), Digit2(x, y)) == x
    ensures Byte2(Digit2(x, y), Digit3(y, z)) == y
    ensures Byte3(Digit3(y, z), Digit4(z)) == z
  {
    hide Byte1, Byte2, Byte3, Digit2, Digit3;
    DigitParts(x, y);
    DigitParts(y, z);
    ByteParts(Digit1(x), Digit2(x, y));
    ByteParts(Digit2(x, y), Digit3(y, z));
    ByteParts(Digit3(y, z), Digit4(z));
    SameParts(Byte1(Digit1(x), Digit2(x, y)), x, 4);
    SameParts(Byte2(Digit2(x, y), Digit3(y, z)), y, 16);
    SameParts(Byte3(Digit3(y, z), Digit4(z)), z, 64);
  }

  lemma {:induction false} RawReads(b: seq<Byte>)
    ensures Read(Raw(b) + Repair(|Raw(b)|), 0, 0, 0) == Some(b)
  {
    hide CharOf, Read, Byte1, Byte2, Byte3, Digit1, Digit2, Digit3, Digit4;
    if b == [] {
      ReadNothing();
    } else if |b| == 1 {
      ReadTwo(Digit1(b[0]), Digit2(b[0], 0), "==");
      PadsEnd(Digit2(b[0], 0) % 16);
      Bytes(b[0], 0, 0);
      assert [b[0]] + [] == b;
    } else if |b| == 2 {
      ReadThree(Digit1(b[0]), Digit2(b[0], b[1]), Digit3(b[1], 0), "=");
      PadsEnd(Digit3(b[1], 0) % 4);
      Bytes(b[0], b[1], 0);
      assert [b[0]] + ([b[1]] + []) == b;
    } else {
      RawReads(b[3..]);
      GroupReads(b);
    }
  }

  lemma ReadNothing()
    ensures Read("", 0, 0, 0) == Some([]) && "" + "" == ""
  {}

  lemma GroupReads(b: seq<Byte>)
    requires |b| > 2 && Read(Raw(b[3..]) + Repair(|Raw(b[3..])|), 0, 0, 0) == Some(b[3..])
    ensures Read(Raw(b) + Repair(|Raw(b)|), 0, 0, 0) == Some(b)
  {
    hide CharOf, Read, Byte1, Byte2, Byte3, Digit1, Digit2, Digit3, Digit4;
    hide Raw, Repair;
    GroupTail(b);
    Bytes(b[0], b[1], b[2]);
    ReadFour(Digit1(b[0]), Digit2(b[0], b[1]), Digit3(b[1], b[2]), Digit4(b[2]), Raw(b[3..]) + Repair(|Raw(b[3..])|));
    assert [b[0]] + ([b[1]] + ([b[2]] + b[3..])) == b;
  }

  /** Decoding an encoded byte string gives it back. */
  lemma DecodeEncode(b: seq<Byte>)
    ensures Decode(Encode(b)) == Some(b)
  {
    hide Encode, Raw, Read, Repair, IsAscii;
    EncodedAlphabet(b);
    EncodeIsRaw(b);
    RawReads(b);
  }

  lemma EncodeInjective(a: seq<Byte>, b: seq<Byte>)
    requires Encode(a) == Encode(b)
    ensures a == b
  {
    hide Encode, Decode;
    DecodeEncode(a);
    DecodeEncode(b);
  }

  // ---- encode(decode(s)) == s, exactly for canonical s ----

  function Digit(c: char): (d: nat)
    ensures d < 64
  {
    if DigitOf(c).Some? then DigitOf(c).value else 0
  }

  /** A possible encoding: no single character left over, and the unused trailing bits zero. */
  predicate Canonical(s: string) {
    match |s| % 4
    case 0 => true
    case 1 => false
    case 2 => Digit(s[|s| - 1]) % 16 == 0
    case _ => Digit(s[|s| - 1]) % 4 == 0
  }

  function Decoded(s: string): Option<seq<Byte>> {
    Read(s + Repair(|s|), 0, 0, 0)
  }

  lemma AlphabetChar(c: char)
    requires IsAlphabet(c)
    ensures CharOf(Digit(c)) == c
  {}

  lemma OneIsNotEnough(c: char)
    requires IsAlphabet(c)
    ensures Read([c] + "===", 0, 0, 0) == None
  {
    hide CharOf, Digit;
    AlphabetChar(c);
    ReadQuad0(Digit(c), "===", 0);
    assert "==="[1..] == "==" && "=="[1..] == "=";
    var d := Digit(c);
    assert Read("==", 1, d, 0) == Read("=", 1, d, 0);
  }

  lemma TwoDecoded(s: string)
    requires |s| == 2 && AllAlphabet(s)
    ensures Decoded(s) == Some([Byte1(Digit(s[0]), Digit(s[1]))])
  {
    hide CharOf, Digit, Read, Byte1, IsAlphabet;
    AlphabetChar(s[0]);
    AlphabetChar(s[1]);
    ReadTwo(Digit(s[0]), Digit(s[1]), "==");
    PadsEnd(Digit(s[1]) % 16);
    assert s == [s[0], s[1]];
    var x := Byte1(Digit(s[0]), Digit(s[1]));
    assert [x] + [] == [x];
  }

  lemma ThreeDecoded(s: string)
    requires |s| == 3 && AllAlphabet(s)
    ensures Decoded(s) == Some([Byte1(Digit(s[0]), Digit(s[1])), Byte2(Digit(s[1]), Digit(s[2]))])
  {
    hide CharOf, Digit, Read, Byte1, Byte2, IsAlphabet;
    AlphabetChar(s[0]);
    AlphabetChar(s[1]);
    AlphabetChar(s[2]);
    ReadThree(Digit(s[0]), Digit(s[1]), Digit(s[2]), "=");
    PadsEnd(Digit(s[2]) % 4);
    assert s == [s[0], s[1], s[2]];
    var x, y := Byte1(Digit(s[0]), Digit(s[1])), Byte2(Digit(s[1]), Digit(s[2]));
    assert [x] + ([y] + []) == [x, y];
  }

  lemma FourDecoded(s: string, x: Byte, y: Byte, z: Byte)
    requires |s| >= 4 && AllAlphabet(s) && x == Byte1(Digit(s[0]), Digit(s[1]))
    requires y == Byte2(Digit(s[1]), Digit(s[2])) && z == Byte3(Digit(s[2]), Digit(s[3]))
    ensures Decoded(s) == Prepend(x, Prepend(y, Prepend(z, Decoded(s[4..]))))
  {
    hide CharOf, Digit, Read, Byte1, Byte2, Byte3, IsAlphabet, Prepend;
    AlphabetChar(s[0]);
    AlphabetChar(s[1]);
    AlphabetChar(s[2]);
    AlphabetChar(s[3]);
    var tail := s[4..] + Repair(|s[4..]|);
    ReadFour(Digit(s[0]), Digit(s[1]), Digit(s[2]), Digit(s[3]), tail);
    assert s + Repair(|s|) == [s[0], s[1], s[2], s[3]] + tail;
  }

  lemma FirstDigit(d1: nat, d2: nat)
    requires d1 < 64 && d2 < 64
    ensures Digit1(Byte1(d1, d2)) == d1
  {
    hide Byte1;
    ByteParts(d1, d2);
  }

  lemma SecondDigit(d1: nat, d2: nat, y: Byte)
    requires d1 < 64 && d2 < 64
    ensures Digit2(Byte1(d1, d2), y) == d2 <==> y / 16 == d2 % 16
  {
    hide Byte1, Digit2;
    ByteParts(d1, d2);
    DigitParts(Byte1(d1, d2), y);
    if y / 16 == d2 % 16 { SameParts(Digit2(Byte1(d1, d2), y), d2, 16); }
  }

  lemma ThirdDigit(d2: nat, d3: nat, z: Byte)
    requires d2 < 64 && d3 < 64
    ensures Digit3(Byte2(d2, d3), z) == d3 <==> z / 64 == d3 % 4
  {
    hide Byte2, Digit3;
    ByteParts(d2, d3);
    DigitParts(Byte2(d2, d3), z);
    if z / 64 == d3 % 4 { SameParts(Digit3(Byte2(d2, d3), z), d3, 4); }
  }

  lemma DigitsOfGroup(d1: nat, d2: nat, d3: nat, d4: nat)
    requires d1 < 64 && d2 < 64 && d3 < 64 && d4 < 64
    ensures var x, y, z := Byte1(d1, d2), Byte2(d2, d3), Byte3(d3, d4);
            Digit1(x) == d1 && Digit2(x, y) == d2 && Digit3(y, z) == d3 && Digit4(z) == d4
  {
    hide Byte1, Byte2, Byte3, Digit1, Digit2, Digit3;
    ByteParts(d2, d3);
    ByteParts(d3, d4);
    FirstDigit(d1, d2);
    SecondDigit(d1, d2, Byte2(d2, d3));
    ThirdDigit(d2, d3, Byte3(d3, d4));
  }

  lemma DigitsOfTwo(d1: nat, d2: nat)
    requires d1 < 64 && d2 < 64
    ensures Digit1(Byte1(d1, d2)) == d1
    ensures Digit2(Byte1(d1, d2), 0) == d2 <==> d2 % 16 == 0
  {
    hide Byte1, Digit1, Digit2;
    FirstDigit(d1, d2);
    SecondDigit(d1, d2, 0);
  }

  lemma DigitsOfThree(d1: nat, d2: nat, d3: nat)
    requires d1 < 64 && d2 < 64 && d3 < 64
    ensures var x, y := Byte1(d1, d2), Byte2(d2, d3);
            Digit1(x) == d1 && Digit2(x, y) == d2 && (Digit3(y, 0) == d3 <==> d3 % 4 == 0)
  {
    hide Byte1, Byte2, Digit1, Digit2, Digit3;
    ByteParts(d2, d3);
    FirstDigit(d1, d2);
    SecondDigit(d1, d2, Byte2(d2, d3));
    ThirdDigit(d2, d3, 0);
  }

  lemma CharsDiffer(d: nat, e: nat)
    requires d < 64 && e < 64
    ensures CharOf(d) == CharOf(e) <==> d == e
  {
    CharIsDigit(d);
    CharIsDigit(e);
  }

  lemma TwoCanonical(s: string)
    requires |s| == 2 && AllAlphabet(s)
    ensures Raw([Byte1(Digit(s[0]), Digit(s[1]))]) == s <==> Canonical(s)
  {
    hide CharOf, Digit, Byte1, Digit1, Digit2, IsAlphabet;
    var d1, d2 := Digit(s[0]), Digit(s[1]);
    DigitsOfTwo(d1, d2);
    AlphabetChar(s[0]);
    AlphabetChar(s[1]);
    CharsDiffer(Digit2(Byte1(d1, d2), 0), d2);
  }

  lemma ThreeCanonical(s: string)
    requires |s| == 3 && AllAlphabet(s)
    ensures Raw([Byte1(Digit(s[0]), Digit(s[1])), Byte2(Digit(s[1]), Digit(s[2]))]) == s <==> Canonical(s)
  {
    hide CharOf, Digit, Byte1, Byte2, Digit1, Digit2, Digit3, IsAlphabet;
    var d1, d2, d3 := Digit(s[0]), Digit(s[1]), Digit(s[2]);
    DigitsOfThree(d1, d2, d3);
    AlphabetChar(s[0]);
    AlphabetChar(s[1]);
    AlphabetChar(s[2]);
    CharsDiffer(Digit3(Byte2(d2, d3), 0), d3);
  }

  lemma FourRaw(s: string, b: seq<Byte>)
    requires |s| >= 4 && AllAlphabet(s)
    ensures var full := [Byte1(Digit(s[0]), Digit(s[1]))] + ([Byte2(Digit(s[1]), Digit(s[2]))]
                        + ([Byte3(Digit(s[2]), Digit(s[3]))] + b));
            Raw(full) == s[..4] + Raw(b)
  {
    hide CharOf, Digit, Byte1, Byte2, Byte3, Digit1, Digit2, Digit3, Digit4, IsAlphabet;
    var d1, d2, d3, d4 := Digit(s[0]), Digit(s[1]), Digit(s[2]), Digit(s[3]);
    DigitsOfGroup(d1, d2, d3, d4);
    AlphabetChar(s[0]);
    AlphabetChar(s[1]);
    AlphabetChar(s[2]);
    AlphabetChar(s[3]);
    var full := [Byte1(d1, d2)] + ([Byte2(d2, d3)] + ([Byte3(d3, d4)] + b));
    assert full[0] == Byte1(d1, d2) && full[1] == Byte2(d2, d3) && full[2] == Byte3(d3, d4) && full[3..] == b;
    assert Group(full[0], full[1], full[2]) == s[..4];
  }

  lemma {:induction false} DecodedCanonical(s: string)
    requires AllAlphabet(s)
    ensures Decoded(s).Some? <==> |s| % 4 != 1
    ensures (Decoded(s).Some? && Raw(Decoded(s).value) == s) <==> Canonical(s)
  {
    hide Decoded, Digit, Byte1, Byte2, Byte3, IsAlphabet, Raw;
    if |s| == 0 {
      NothingDecoded(s);
    } else if |s| == 1 {
      OneDecoded(s);
    } else if |s| == 2 {
      TwoDecoded(s);
      TwoCanonical(s);
    } else if |s| == 3 {
      ThreeDecoded(s);
      ThreeCanonical(s);
    } else {
      FourDecoded(s, Byte1(Digit(s[0]), Digit(s[1])), Byte2(Digit(s[1]), Digit(s[2])),
                  Byte3(Digit(s[2]), Digit(s[3])));
      DecodedCanonical(s[4..]);
      CanonicalTail(s);
      if Decoded(s[4..]).Some? {
        FourRaw(s, Decoded(s[4..]).value);
        assert s == s[..4] + s[4..];
      }
    }
  }

  lemma NothingDecoded(s: string)
    requires s == ""
    ensures Decoded(s) == Some([]) && Raw([]) == s
  {}

  lemma OneDecoded(s: string)
    requires |s| == 1 && AllAlphabet(s)
    ensures Decoded(s) == None
  {
    hide Read, IsAlphabet;
    OneIsNotEnough(s[0]);
    assert s == [s[0]];
  }

  lemma CanonicalTail(s: string)
    requires |s| >= 4
    ensures Canonical(s) == Canonical(s[4..]) && |s| % 4 == |s[4..]| % 4
  {}

  /** For text of alphabet characters, decoding succeeds exactly when no single character is left
      over, and encoding the result gives the text back exactly when the text is canonical. */
  lemma EncodeDecode(s: string)
    requires AllAlphabet(s)
    ensures Decode(s).Some? <==> |s| % 4 != 1
    ensures (Decode(s).Some? && Encode(Decode(s).value) == s) <==> Canonical(s)
  {
    hide Encode, Canonical, IsAlphabet;
    forall i | 0 <= i < |s| ensures (s[i] as int) < 128 { AlphabetHasDigits(s[i]); }
    assert Decode(s) == Decoded(s);
    hide Decode, Decoded;
    DecodedCanonical(s);
    if Decoded(s).Some? { EncodeIsRaw(Decoded(s).value); }
  }

  // ---- Lenient decoding, exactly ----

  const DIGIT_CHARS := UPPERS + LOWERS + "0123456789" + "-_"

  lemma DecimalAt(i: nat)
    requires i < 10
    ensures "0123456789"[i] as int == 48 + i
  {
    assert i == 0 || i == 1 || i == 2 || i == 3 || i == 4 || i == 5 || i == 6 || i == 7 || i == 8 || i == 9;
  }

  lemma InParts(a: string, b: string, c: string, d: string, i: nat)
    requires i < |a| + |b| + |c| + |d|
    ensures (a + b + c + d)[i]
            == if i < |a| then a[i] else if i < |a| + |b| then b[i - |a|]
               else if i < |a| + |b| + |c| then c[i - |a| - |b|] else d[i - |a| - |b| - |c|]
  {}

  /** The digits are the 64 characters in this order. */
  lemma DigitsAre(d: nat)
    requires d < 64
    ensures CharOf(d) == DIGIT_CHARS[d]
  {
    var ten, two := "0123456789", "-_";
    InParts(UPPERS, LOWERS, ten, two, d);
    if d < 26 {
      LowerAt(d);
    } else if d < 52 {
      LowerAt(d - 26);
    } else if d < 62 {
      DecimalAt(d - 52);
    }
  }

  /** A character is a digit by its place among the 64; decoding also takes '+' and '/' for the last two. */
  lemma DigitsExactly(c: char, d: nat)
    requires d < 64
    ensures DigitOf(c) == Some(d) <==> c == DIGIT_CHARS[d] || (d == 62 && c == '+') || (d == 63 && c == '/')
  {
    DigitsAre(d);
  }

  predicate AreDigits(ds: seq<nat>) {
    forall i :: 0 <= i < |ds| ==> ds[i] < 64
  }

  /** The digits of a text; every other character is passed over. */
  function DigitsIn(s: string): (ds: seq<nat>)
    ensures AreDigits(ds)
  {
    if s == "" then []
    else
      var front, d := DigitsIn(s[..|s| - 1]), DigitOf(s[|s| - 1]);
      if d.Some? then front + [d.value] else front
  }

  /** How many '=' stand behind the last digit. */
  function PadsBehind(s: string): nat {
    if s == "" || DigitOf(s[|s| - 1]).Some? then 0
    else PadsBehind(s[..|s| - 1]) + if s[|s| - 1] == '=' then 1 else 0
  }

  /** The text ends with a '=' that completes a group of two or three digits. */
  predicate Closes(s: string) {
    s != "" && s[|s| - 1] == '=' && |DigitsIn(s)| % 4 >= 2 && |DigitsIn(s)| % 4 + PadsBehind(s) >= 4
  }

  /** No beginning of the text with fewer than k characters closes. */
  predicate OpenBefore(s: string, k: nat) {
    forall i :: 0 <= i < k && i <= |s| ==> !Closes(s[..i])
  }

  /** The bytes that digits spell, six bits each; bits that make no whole byte are dropped. */
  function BytesOf(ds: seq<nat>): seq<nat> {
    if |ds| < 2 then []
    else if |ds| == 2 then [4 * ds[0] + ds[1] / 16]
    else if |ds| == 3 then [4 * ds[0] + ds[1] / 16, 16 * (ds[1] % 16) + ds[2] / 4]
    else ThreeBytes(ds[0], ds[1], ds[2], ds[3]) + BytesOf(ds[4..])
  }

  function ThreeBytes(a: nat, b: nat, c: nat, d: nat): seq<nat> {
    [4 * a + b / 16, 16 * (b % 16) + c / 4, 64 * (c % 4) + d]
  }

  /** The bits of the group under way that are not in a byte yet. */
  function LeftOf(ds: seq<nat>): (left: nat)
    requires AreDigits(ds)
    ensures left < 64
  {
    if |ds| % 4 == 0 then 0 else if |ds| % 4 == 1 then ds[|ds| - 1] else if |ds| % 4 == 2 then ds[|ds| - 1] % 16
    else ds[|ds| - 1] % 4
  }

  /** The byte that one more digit completes. */
  function NewByte(ds: seq<nat>, d: nat): seq<nat>
    requires AreDigits(ds)
  {
    if |ds| % 4 == 0 then [] else if |ds| % 4 == 1 then [4 * LeftOf(ds) + d / 16]
    else if |ds| % 4 == 2 then [16 * LeftOf(ds) + d / 4] else [64 * LeftOf(ds) + d]
  }

  lemma NewByteOfFew(ds: seq<nat>, d: nat)
    requires AreDigits(ds) && |ds| < 4
    ensures NewByte(ds, d) == if |ds| == 0 then [] else if |ds| == 1 then [4 * ds[0] + d / 16]
                              else if |ds| == 2 then [16 * (ds[1] % 16) + d / 4] else [64 * (ds[2] % 4) + d]
  {}

  lemma BytesOfFour(ds: seq<nat>)
    requires |ds| == 4
    ensures BytesOf(ds) == ThreeBytes(ds[0], ds[1], ds[2], ds[3])
  {
    hide ThreeBytes;
    assert ds[4..] == [] && BytesOf([]) == [];
  }

  lemma BytesOfMore(ds: seq<nat>)
    requires |ds| >= 4
    ensures BytesOf(ds) == ThreeBytes(ds[0], ds[1], ds[2], ds[3]) + BytesOf(ds[4..])
  {
    hide ThreeBytes;
  }

  lemma BytesOfThree(ds: seq<nat>)
    requires |ds| == 3
    ensures BytesOf(ds) == [4 * ds[0] + ds[1] / 16, 16 * (ds[1] % 16) + ds[2] / 4]
  {}

  lemma BytesOfTwo(ds: seq<nat>)
    requires |ds| <= 2
    ensures BytesOf(ds) == if |ds| < 2 then [] else [4 * ds[0] + ds[1] / 16]
  {}

  lemma ThirdByte(ds: seq<nat>, d: nat)
    requires |ds| == 3
    ensures BytesOf(ds + [d]) == BytesOf(ds) + [64 * (ds[2] % 4) + d]
  {
    hide BytesOf;
    BytesOfThree(ds);
    BytesOfFour(ds + [d]);
  }

  lemma SecondByte(ds: seq<nat>, d: nat)
    requires |ds| == 2
    ensures BytesOf(ds + [d]) == BytesOf(ds) + [16 * (ds[1] % 16) + d / 4]
  {
    hide BytesOf;
    BytesOfTwo(ds);
    BytesOfThree(ds + [d]);
  }

  lemma FirstByte(ds: seq<nat>, d: nat)
    requires |ds| <= 1
    ensures BytesOf(ds + [d]) == BytesOf(ds) + if |ds| == 0 then [] else [4 * ds[0] + d / 16]
  {
    hide BytesOf;
    BytesOfTwo(ds);
    BytesOfTwo(ds + [d]);
  }

  lemma FewDigits(ds: seq<nat>, d: nat)
    requires AreDigits(ds) && |ds| < 4
    ensures BytesOf(ds + [d]) == BytesOf(ds) + NewByte(ds, d)
  {
    hide BytesOf, NewByte, AreDigits;
    NewByteOfFew(ds, d);
    if |ds| < 2 {
      FirstByte(ds, d);
    } else if |ds| == 2 {
      SecondByte(ds, d);
    } else {
      ThirdByte(ds, d);
    }
  }

  lemma SkipFour(ds: seq<nat>, d: nat)
    requires AreDigits(ds) && |ds| >= 4
    ensures AreDigits(ds[4..]) && NewByte(ds[4..], d) == NewByte(ds, d)
  {
    assert |ds[4..]| % 4 == |ds| % 4;
    if |ds| > 4 { assert ds[4..][|ds| - 5] == ds[|ds| - 1]; }
  }

  lemma {:induction false} OneDigitMore(ds: seq<nat>, d: nat)
    requires AreDigits(ds) && d < 64
    ensures BytesOf(ds + [d]) == BytesOf(ds) + NewByte(ds, d)
  {
    hide BytesOf, NewByte, AreDigits, ThreeBytes;
    if |ds| < 4 {
      FewDigits(ds, d);
    } else {
      SkipFour(ds, d);
      OneDigitMore(ds[4..], d);
      BytesOfMore(ds);
      BytesOfMore(ds + [d]);
      assert (ds + [d])[4..] == ds[4..] + [d];
    }
  }

  /** Reading s on from the state reached behind p. */
  function ReadBehind(p: string, s: string): Option<seq<Byte>> {
    var ds := DigitsIn(p);
    Read(s, |ds| % 4, LeftOf(ds), if |ds| % 4 >= 2 then PadsBehind(p) else 0)
  }

  lemma NextIs(p: string, s: string)
    requires s != ""
    ensures (p + [s[0]])[..|p|] == p && (p + [s[0]])[|p|] == s[0] && |p + [s[0]]| == |p| + 1
  {}

  lemma PaddingStep(p: string, s: string)
    requires s != "" && s[0] == '='
    ensures DigitsIn(p + [s[0]]) == DigitsIn(p)
    ensures Closes(p + [s[0]]) ==> ReadBehind(p, s) == Some([])
    ensures !Closes(p + [s[0]]) ==> ReadBehind(p, s) == ReadBehind(p + [s[0]], s[1..])
  {
    NextIs(p, s);
  }

  lemma JunkStep(p: string, s: string)
    requires s != "" && s[0] != '=' && DigitOf(s[0]).None?
    ensures DigitsIn(p + [s[0]]) == DigitsIn(p) && !Closes(p + [s[0]])
    ensures ReadBehind(p, s) == ReadBehind(p + [s[0]], s[1..])
  {
    NextIs(p, s);
  }

  lemma DigitBehind(p: string, c: char, d: nat)
    requires DigitOf(c) == Some(d)
    ensures DigitsIn(p + [c]) == DigitsIn(p) + [d] && PadsBehind(p + [c]) == 0 && !Closes(p + [c])
  {
    NextIs(p, [c]);
    assert c != '=';
  }

  predicate Follows(before: Option<seq<Byte>>, bytes: seq<nat>, after: Option<seq<Byte>>) {
    if after.None? then before.None? else before.Some? && before.value == bytes + after.value
  }

  lemma LeftAfter(ds: seq<nat>, d: nat)
    requires AreDigits(ds) && d < 64
    ensures AreDigits(ds + [d]) && |ds + [d]| % 4 == (|ds| % 4 + 1) % 4
    ensures var left := LeftOf(ds + [d]);
            if |ds| % 4 == 3 then left == 0 else if |ds| % 4 == 0 then left == d
            else if |ds| % 4 == 1 then left == d % 16 else left == d % 4
  {
    assert (ds + [d])[|ds|] == d && |ds + [d]| == |ds| + 1;
  }

  lemma NewByteIs(ds: seq<nat>, d: nat)
    requires AreDigits(ds) && d < 64
    ensures var n, left := |ds| % 4, LeftOf(ds);
            NewByte(ds, d) == if n == 0 then [] else if n == 1 then [(left * 4 + d / 16) % 256]
                              else if n == 2 then [(left * 16 + d / 4) % 256] else [(left * 64 + d) % 256]
  {
    if |ds| % 4 == 1 { Mod256(LeftOf(ds) * 4 + d / 16); }
    else if |ds| % 4 == 2 { Mod256(LeftOf(ds) * 16 + d / 4); }
    else if |ds| % 4 == 3 { Mod256(LeftOf(ds) * 64 + d); }
  }

  lemma DigitRead(s: string, ds: seq<nat>, d: nat, pads: nat)
    requires s != "" && s[0] != '=' && DigitOf(s[0]) == Some(d) && d < 64 && AreDigits(ds)
    ensures Follows(Read(s, |ds| % 4, LeftOf(ds), pads), NewByte(ds, d),
                    Read(s[1..], |ds + [d]| % 4, LeftOf(ds + [d]), 0))
  {
    hide DigitOf, LeftOf, NewByte, AreDigits;
    LeftAfter(ds, d);
    NewByteIs(ds, d);
  }

  lemma DigitStep(p: string, s: string, d: nat)
    requires s != "" && DigitOf(s[0]) == Some(d)
    ensures DigitsIn(p + [s[0]]) == DigitsIn(p) + [d] && !Closes(p + [s[0]])
    ensures Follows(ReadBehind(p, s), NewByte(DigitsIn(p), d), ReadBehind(p + [s[0]], s[1..]))
  {
    DigitBehind(p, s[0], d);
    assert s[0] != '=';
    hide DigitOf, DigitsIn, PadsBehind, Read, Follows, NewByte, LeftOf;
    DigitRead(s, DigitsIn(p), d, if |DigitsIn(p)| % 4 >= 2 then PadsBehind(p) else 0);
  }

  lemma NextPart(t: string, i: nat)
    requires i < |t|
    ensures t[i..] != "" && t[i..][0] == t[i] && t[i..][1..] == t[i + 1..] && t[..i] + [t[i]] == t[..i + 1]
  {}

  /** What a decoded rest adds up to. */
  predicate AddsUp(front: seq<nat>, r: Option<seq<Byte>>, ds: seq<nat>) {
    r.Some? && BytesOf(front) + r.value == BytesOf(ds)
  }

  lemma AddsUpBefore(front: seq<nat>, d: nat, r: Option<seq<Byte>>, after: Option<seq<Byte>>, ds: seq<nat>)
    requires AreDigits(front) && d < 64 && Follows(r, NewByte(front, d), after)
    ensures r.Some? == after.Some?
    ensures AddsUp(front + [d], after, ds) ==> AddsUp(front, r, ds)
  {
    hide AreDigits, NewByte, BytesOf;
    OneDigitMore(front, d);
    if after.Some? {
      assert BytesOf(front) + r.value == (BytesOf(front) + NewByte(front, d)) + after.value;
    }
  }

  /** Reading one character on: nothing changes but the digits. */
  lemma ReadOn(t: string, i: nat, ds: seq<nat>)
    requires i < |t| && !Closes(t[..i + 1])
    ensures ReadBehind(t[..i], t[i..]).Some? == ReadBehind(t[..i + 1], t[i + 1..]).Some?
    ensures AddsUp(DigitsIn(t[..i + 1]), ReadBehind(t[..i + 1], t[i + 1..]), ds)
            ==> AddsUp(DigitsIn(t[..i]), ReadBehind(t[..i], t[i..]), ds)
  {
    hide DigitOf, DigitsIn, Closes, ReadBehind, AddsUp, Follows, NewByte;
    NextPart(t, i);
    if t[i] == '=' {
      PaddingStep(t[..i], t[i..]);
    } else if DigitOf(t[i]).None? {
      JunkStep(t[..i], t[i..]);
    } else {
      var d := DigitOf(t[i]).value;
      DigitStep(t[..i], t[i..], d);
      AddsUpBefore(DigitsIn(t[..i]), d, ReadBehind(t[..i], t[i..]), ReadBehind(t[..i + 1], t[i + 1..]), ds);
    }
  }

  /** A text in which nothing closes is read to its end. */
  lemma {:induction false} ReadToEnd(t: string, i: nat)
    requires i <= |t| && OpenBefore(t, |t| + 1)
    ensures ReadBehind(t[..i], t[i..]).Some? <==> |DigitsIn(t)| % 4 == 0
    ensures |DigitsIn(t)| % 4 == 0 ==> AddsUp(DigitsIn(t[..i]), ReadBehind(t[..i], t[i..]), DigitsIn(t))
    decreases |t| - i
  {
    hide DigitsIn, Closes, BytesOf, LeftOf;
    if i == |t| {
      assert t[..i] == t && t[i..] == "";
    } else {
      hide ReadBehind, AddsUp;
      ReadToEnd(t, i + 1);
      ReadOn(t, i, DigitsIn(t));
    }
  }

  /** A text is read up to the first '=' that closes. */
  lemma {:induction false} ReadToClose(t: string, i: nat, k: nat)
    requires i < k <= |t| && OpenBefore(t, k) && Closes(t[..k])
    ensures AddsUp(DigitsIn(t[..i]), ReadBehind(t[..i], t[i..]), DigitsIn(t[..k]))
    decreases k - i
  {
    hide DigitsIn, BytesOf, ReadBehind, DigitOf, PadsBehind;
    if i + 1 == k {
      NextPart(t, i);
      assert t[..k][k - 1] == t[i];
      hide Closes;
      PaddingStep(t[..i], t[i..]);
    } else {
      hide AddsUp, Closes;
      ReadToClose(t, i + 1, k);
      ReadOn(t, i, DigitsIn(t[..k]));
    }
  }

  lemma AddsUpAlone(r: Option<seq<Byte>>, ds: seq<nat>)
    requires AddsUp([], r, ds)
    ensures r == Some(BytesOf(ds))
  {
    assert BytesOf([]) == [];
    hide BytesOf;
    assert BytesOf([]) + r.value == r.value;
  }

  lemma FromTheStart(t: string, k: nat)
    ensures OpenBefore(t, |t| + 1)
            ==> Read(t, 0, 0, 0) == if |DigitsIn(t)| % 4 == 0 then Some(BytesOf(DigitsIn(t))) else None
    ensures k <= |t| && OpenBefore(t, k) && Closes(t[..k]) ==> Read(t, 0, 0, 0) == Some(BytesOf(DigitsIn(t[..k])))
  {
    assert t[..0] == "" && t[0..] == t;
    assert DigitsIn("") == [] && !Closes("");
    hide DigitsIn, BytesOf, Closes, Read, OpenBefore, AddsUp;
    assert ReadBehind("", t) == Read(t, 0, 0, 0);
    hide ReadBehind;
    if OpenBefore(t, |t| + 1) {
      ReadToEnd(t, 0);
      if |DigitsIn(t)| % 4 == 0 { AddsUpAlone(Read(t, 0, 0, 0), DigitsIn(t)); }
    }
    if k <= |t| && OpenBefore(t, k) && Closes(t[..k]) {
      ReadToClose(t, 0, k);
      AddsUpAlone(Read(t, 0, 0, 0), DigitsIn(t[..k]));
    }
  }

  /** Decoding a text of ASCII characters, with the '=' that bring it to a multiple of four behind
      it: when nothing closes, it succeeds exactly when the digits make whole groups, and gives their
      bytes; otherwise it gives the bytes of the digits before the first '=' that closes, whatever
      follows. */
  lemma DecodeExactly(s: string, t: string, k: nat)
    requires t == s + Repair(|s|)
    ensures (exists i :: 0 <= i < |s| && s[i] as int > 127) ==> Decode(s).None?
    ensures (forall i :: 0 <= i < |s| ==> s[i] as int <= 127) && OpenBefore(t, |t| + 1)
            ==> Decode(s) == if |DigitsIn(t)| % 4 == 0 then Some(BytesOf(DigitsIn(t))) else None
    ensures (forall i :: 0 <= i < |s| ==> s[i] as int <= 127) && k <= |t| && OpenBefore(t, k) && Closes(t[..k])
            ==> Decode(s) == Some(BytesOf(DigitsIn(t[..k])))
  {
    hide DigitsIn, BytesOf, Closes, Read, OpenBefore, Repair;
    FromTheStart(t, k);
  }
}
