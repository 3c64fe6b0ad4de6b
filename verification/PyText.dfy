/** Python string operations the codecs rest on: white space, `strip`, `split`. */
module PyText {

  datatype Option<+T> = None | Some(value: T)

  /** The characters `str.strip` removes and `\s` matches. */
  predicate IsSpace(c: char) {
    var n := c as int;
    || 0x09 <= n <= 0x0D || 0x1C <= n <= 0x20 || n == 0x85 || n == 0xA0 || n == 0x1680
    || 0x2000 <= n <= 0x200A || n == 0x2028 || n == 0x2029 || n == 0x202F || n == 0x205F || n == 0x3000
  }

  /** The code points of Python's white space, one by one. */
  const SPACES := [9, 10, 11, 12, 13, 28, 29, 30, 31, 32, 133, 160, 5760, 8192, 8193, 8194, 8195, 8196, 8197, 8198,
                   8199, 8200, 8201, 8202, 8232, 8233, 8239, 8287, 12288]

  lemma SpacesExactly(c: char)
    ensures IsSpace(c) <==> c as int in SPACES
  {}

  // ---- ASCII letters ----

  const LOWERS := "abcdefghijklmnopqrstuvwxyz"
  const UPPERS := "ABCDEFGHIJKLMNOPQRSTUVWXYZ"
  lemma LowerAt(i: nat)
    requires i < 26
    ensures LOWERS[i] as int == 97 + i && UPPERS[i] as int == 65 + i
  {
    assert i == 0 || i == 1 || i == 2 || i == 3 || i == 4 || i == 5 || i == 6 || i == 7 || i == 8 || i == 9 || i == 10
           || i == 11 || i == 12 || i == 13 || i == 14 || i == 15 || i == 16 || i == 17 || i == 18 || i == 19 || i == 20
           || i == 21 || i == 22 || i == 23 || i == 24 || i == 25;
  }

  // ---- Trimming ----

  function TrimLeft(s: string): (r: string)
    ensures |r| <= |s| && r == s[|s| - |r|..]
    ensures r != "" ==> !IsSpace(r[0])
  {
    if s != "" && IsSpace(s[0]) then TrimLeft(s[1..]) else s
  }

  function TrimRight(s: string): (r: string)
    ensures |r| <= |s| && r == s[..|r|]
    ensures r != "" ==> !IsSpace(r[|r| - 1])
  {
    if s != "" && IsSpace(s[|s| - 1]) then TrimRight(s[..|s| - 1]) else s
  }

  lemma {:induction false} TrimLeftSkipsSpace(s: string, i: nat)
    requires i < |s| - |TrimLeft(s)|
    ensures IsSpace(s[i])
  {
    if i > 0 { TrimLeftSkipsSpace(s[1..], i - 1); }
  }

  lemma {:induction false} TrimLeftAt(s: string, n: nat)
    requires n < |s| && !IsSpace(s[n]) && forall i :: 0 <= i < n ==> IsSpace(s[i])
    ensures TrimLeft(s) == s[n..]
  {
    hide IsSpace;
    if n > 0 {
      assert IsSpace(s[0]);
      forall i | 0 <= i < n - 1 ensures IsSpace(s[1..][i]) { assert s[1..][i] == s[i + 1]; }
      TrimLeftAt(s[1..], n - 1);
    }
  }

  /** `str.strip()` */
  function Trim(s: string): string {
    TrimRight(TrimLeft(s))
  }

  lemma SliceOfSlice<T>(s: seq<T>, a: nat, b: nat, c: nat, d: nat)
    requires a <= b <= |s| && c <= d <= b - a
    ensures s[a..b][c..d] == s[a + c..a + d]
  {
    forall k | 0 <= k < d - c ensures s[a..b][c..d][k] == s[a + c..a + d][k] {
      assert s[a..b][c + k] == s[a + (c + k)];
    }
  }

  lemma DropDrop<T>(s: seq<T>, i: nat, j: nat)
    requires i + j <= |s|
    ensures s[i..][j..] == s[i + j..]
  {}

  lemma ThreeCuts<T>(s: seq<T>, i: nat, j: nat, k: nat)
    requires i <= j <= k <= |s|
    ensures s == s[..i] + s[i..j] + s[j..][..k - j] + s[k..]
  {}

  /** The two texts begin with the same k characters. */
  predicate Agree(s: string, u: string, k: nat) {
    k <= |s| && k <= |u| && forall i :: 0 <= i < k ==> s[i] == u[i]
  }

  lemma AgreeDrop(s: string, u: string, k: nat, i: nat)
    requires Agree(s, u, k) && i <= k
    ensures Agree(s[i..], u[i..], k - i)
  {}

  lemma AgreeSlice(s: string, u: string, k: nat, i: nat, j: nat)
    requires Agree(s, u, k) && i <= j <= k
    ensures s[i..j] == u[i..j]
  {}

  ghost predicate Within(sub: string, s: string) {
    exists a, b :: 0 <= a <= b <= |s| && sub == s[a..b]
  }

  lemma TrimIsWithin(s: string)
    ensures Within(Trim(s), s)
  {
    hide IsSpace;
    var l := TrimLeft(s);
    var a := |s| - |l|;
    assert Trim(s) == s[a..a + |Trim(s)|];
  }

  lemma WithinTrans(x: string, y: string, z: string)
    requires Within(x, y) && Within(y, z)
    ensures Within(x, z)
  {
    var a, b :| 0 <= a <= b <= |y| && x == y[a..b];
    var c, d :| 0 <= c <= d <= |z| && y == z[c..d];
    SliceOfSlice(z, c, d, a, b);
  }

  lemma TrimIdempotent(s: string)
    ensures Trim(Trim(s)) == Trim(s)
  {
    var r := Trim(s);
    if r != "" {
      assert r[0] == TrimLeft(s)[0];
      assert TrimLeft(r) == r;
    }
  }

  /** Trimming cannot cut into a core whose two ends are not white space. */
  lemma TrimKeepsCore(p: string, core: string, q: string)
    requires core != "" && !IsSpace(core[0]) && !IsSpace(core[|core| - 1])
    ensures Trim(p + core + q) == TrimLeft(p) + core + TrimRight(q)
  {
    hide IsSpace, TrimLeft, TrimRight;
    var left := TrimLeft(p) + core;
    assert p + core + q == p + (core + q);
    TrimLeftStops(p, core + q);
    assert TrimLeft(p) + (core + q) == left + q;
    TrimRightStops(left, q);
  }

  lemma {:induction false} TrimLeftStops(p: string, core: string)
    requires core != "" && !IsSpace(core[0])
    ensures TrimLeft(p + core) == TrimLeft(p) + core
  {
    if p == "" {
      assert p + core == core;
    } else {
      assert (p + core)[1..] == p[1..] + core;
      TrimLeftStops(p[1..], core);
    }
  }

  lemma {:induction false} TrimRightStops(core: string, q: string)
    requires core != "" && !IsSpace(core[|core| - 1])
    ensures TrimRight(core + q) == core + TrimRight(q)
  {
    if q == "" {
      assert core + q == core;
    } else {
      assert (core + q)[..|core + q| - 1] == core + q[..|q| - 1];
      TrimRightStops(core, q[..|q| - 1]);
    }
  }

  /** `s.split(sep)` for a one-character separator. */
  function Split(s: string, sep: char): (parts: seq<string>)
    ensures |parts| > 0
  {
    if s == "" then [""]
    else
      var rest := Split(s[1..], sep);
      if s[0] == sep then [""] + rest else [[s[0]] + rest[0]] + rest[1..]
  }

  lemma {:induction false} SplitPiece(a: string, b: string, sep: char)
    requires sep !in a
    ensures Split(a + [sep] + b, sep) == [a] + Split(b, sep)
  {
    var s := a + [sep] + b;
    if a == "" {
      assert s[1..] == b;
    } else {
      assert s[1..] == a[1..] + [sep] + b;
      SplitPiece(a[1..], b, sep);
      assert [s[0]] + a[1..] == a;
    }
  }

  lemma {:induction false} SplitLast(a: string, sep: char)
    requires sep !in a
    ensures Split(a, sep) == [a]
  {
    if a != "" {
      SplitLast(a[1..], sep);
      assert [a[0]] + a[1..] == a;
    }
  }

  lemma SplitStep(s: string, sep: char)
    requires s != ""
    ensures var rest, parts := Split(s[1..], sep), Split(s, sep);
            if s[0] == sep then parts[0] == "" && parts[1..] == rest && |parts| == |rest| + 1
            else parts[0] == [s[0]] + rest[0] && parts[1..] == rest[1..] && |parts| == |rest|
  {
    var rest := Split(s[1..], sep);
    if s[0] == sep {
      assert ([""] + rest)[1..] == rest;
    } else {
      assert ([[s[0]] + rest[0]] + rest[1..])[1..] == rest[1..];
    }
  }

  /** Three pieces, joined by the separator, are the text that was split; no piece contains it. */
  lemma {:induction false} SplitPieces(s: string, sep: char)
    ensures |Split(s, sep)| == 1 ==> Split(s, sep)[0] == s && sep !in s
    ensures |Split(s, sep)| > 1 ==> var parts := Split(s, sep);
            && sep !in parts[0] && |parts[0]| < |s| && s == parts[0] + [sep] + s[|parts[0]| + 1..]
            && Split(s[|parts[0]| + 1..], sep) == parts[1..]
  {
    if s != "" {
      SplitStep(s, sep);
      SplitPieces(s[1..], sep);
      var rest, parts := Split(s[1..], sep), Split(s, sep);
      hide Split;
      assert s == [s[0]] + s[1..];
      if s[0] == sep {
        assert s == "" + [sep] + s[1..];
      } else if |parts| > 1 {
        LongerPiece(s, rest[0], sep);
      }
    }
  }

  lemma LongerPiece(s: string, piece: string, sep: char)
    requires s != "" && s[0] != sep && sep !in piece && |piece| < |s| - 1
    requires s[1..] == piece + [sep] + s[1..][|piece| + 1..]
    ensures var longer := [s[0]] + piece;
            && sep !in longer && s == longer + [sep] + s[|longer| + 1..]
            && s[|longer| + 1..] == s[1..][|piece| + 1..]
  {
    var rest := s[1..][|piece| + 1..];
    assert s[|piece| + 2..] == rest;
    assert s == [s[0]] + s[1..] == ([s[0]] + piece) + [sep] + rest;
  }

  lemma SplitThree(s: string, sep: char)
    requires |Split(s, sep)| == 3
    ensures var parts := Split(s, sep); s == parts[0] + [sep] + parts[1] + [sep] + parts[2]
  {
    var parts := Split(s, sep);
    hide Split;
    SplitPieces(s, sep);
    var s1 := s[|parts[0]| + 1..];
    SplitPieces(s1, sep);
    SplitPieces(s1[|parts[1]| + 1..], sep);
  }
}
