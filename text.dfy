/**
 * Text primitives the commit-message helpers rely on: Go's `unicode.IsSpace`
 * and `strings.TrimSpace`, `strings.Cut` at a newline, and the UTF-8 byte view
 * of a string (Go's `len(s)` and `s[0]` count and index bytes, not runes).
 *
 * A Go string is modelled as the sequence of its Unicode scalar values, so
 * the model only covers valid UTF-8 text.
 */
module Text {

  datatype Option<+T> = None | Some(value: T)

  /** Go's `unicode.IsSpace`: the Latin-1 spaces plus the White_Space code points above U+00FF. */
  predicate IsSpace(c: char)
  {
    var v := c as int;
    (0x09 <= v <= 0x0D) || v == 0x20 || v == 0x85 || v == 0xA0
    || v == 0x1680 || (0x2000 <= v <= 0x200A)
    || v == 0x2028 || v == 0x2029 || v == 0x202F || v == 0x205F || v == 0x3000
  }

  /** The end of the run of white space that starts at `i`. */
  function SpaceRunEnd(s: string, i: nat): (k: nat)
    requires i <= |s|
    ensures i <= k <= |s|
    ensures forall j :: i <= j < k ==> IsSpace(s[j])
    ensures k < |s| ==> !IsSpace(s[k])
    decreases |s| - i
  {
    if i < |s| && IsSpace(s[i]) then SpaceRunEnd(s, i + 1) else i
  }

  /** The start of the run of white space that ends at `i`, not going below `lo`. */
  function SpaceRunStart(s: string, lo: nat, i: nat): (k: nat)
    requires lo <= i <= |s|
    ensures lo <= k <= i
    ensures forall j :: k <= j < i ==> IsSpace(s[j])
    ensures k > lo ==> !IsSpace(s[k - 1])
    decreases i
  {
    if i > lo && IsSpace(s[i - 1]) then SpaceRunStart(s, lo, i - 1) else i
  }

  /**
   * Go's `strings.TrimSpace`: the white space at both ends cut off, the
   * trailing run being looked for only after the leading one.
   */
  function TrimSpace(s: string): (r: string)
    ensures r == [] || (!IsSpace(r[0]) && !IsSpace(r[|r| - 1]))
  {
    var a := SpaceRunEnd(s, 0);
    s[a..SpaceRunStart(s, a, |s|)]
  }

  /** What TrimSpace keeps is the infix `s[a..b]`; what it cuts off on either side is white space. */
  lemma TrimSpaceIsInfix(s: string) returns (a: nat, b: nat)
    ensures a <= b <= |s| && TrimSpace(s) == s[a..b]
    ensures forall j :: 0 <= j < a ==> IsSpace(s[j])
    ensures forall j :: b <= j < |s| ==> IsSpace(s[j])
  {
    a := SpaceRunEnd(s, 0);
    b := SpaceRunStart(s, a, |s|);
  }

  /**
   * TrimSpace is the only infix of its kind: an infix that neither starts nor
   * ends with white space and leaves only white space outside it is the
   * trimmed string.
   */
  lemma TrimSpaceUnique(s: string, a: nat, b: nat)
    requires a <= b <= |s|
    requires s[a..b] == [] || (!IsSpace(s[a]) && !IsSpace(s[b - 1]))
    requires forall j :: 0 <= j < a ==> IsSpace(s[j])
    requires forall j :: b <= j < |s| ==> IsSpace(s[j])
    ensures TrimSpace(s) == s[a..b]
  {
    var a' := SpaceRunEnd(s, 0);
    var b' := SpaceRunStart(s, a', |s|);
    if a == b {
      assert forall j :: 0 <= j < |s| ==> IsSpace(s[j]) by {
        forall j | 0 <= j < |s| ensures IsSpace(s[j]) {
          if j >= b { assert IsSpace(s[j]); }
        }
      }
      assert a' == |s|;
    } else {
      assert a' == a;
    }
  }

  lemma TrimSpaceIdempotent(s: string)
    ensures TrimSpace(TrimSpace(s)) == TrimSpace(s)
  {
    var t := TrimSpace(s);
    TrimSpaceUnique(t, 0, |t|);
  }

  /** White space in front of a string is invisible to TrimSpace. */
  lemma TrimSpaceIgnoresLeadingSpace(w: string, s: string)
    requires forall j :: 0 <= j < |w| ==> IsSpace(w[j])
    ensures TrimSpace(w + s) == TrimSpace(s)
  {
    var a, b := TrimSpaceIsInfix(s);
    var ws := w + s;
    assert ws[|w| + a..|w| + b] == s[a..b];
    forall j | 0 <= j < |w| + a
      ensures IsSpace(ws[j])
    {
      if j >= |w| { assert ws[j] == s[j - |w|]; }
    }
    forall j | |w| + b <= j < |ws|
      ensures IsSpace(ws[j])
    {
      assert ws[j] == s[j - |w|];
    }
    TrimSpaceUnique(ws, |w| + a, |w| + b);
  }

  /** The first newline at or after `i`, or `|s|` when there is none. */
  function NewlineFrom(s: string, i: nat): (k: nat)
    requires i <= |s|
    ensures i <= k <= |s|
    ensures forall j :: i <= j < k ==> s[j] != '\n'
    ensures k < |s| ==> s[k] == '\n'
    decreases |s| - i
  {
    if i == |s| || s[i] == '\n' then i else NewlineFrom(s, i + 1)
  }

  /**
   * The index of the first newline of `s`, or `|s|` when there is none: the
   * cut point of Go's `strings.Cut(s, "\n")`.
   */
  function NewlineIndex(s: string): (k: nat)
    ensures k <= |s|
    ensures '\n' !in s[..k]
    ensures k < |s| ==> s[k] == '\n'
  {
    var k := NewlineFrom(s, 0);
    assert forall j :: 0 <= j < k ==> s[..k][j] == s[j];
    k
  }

  /** Number of bytes of the UTF-8 encoding of one code point. */
  function Utf8Len(c: char): (n: nat)
    ensures 1 <= n <= 4
    ensures n == 1 <==> c as int < 0x80
  {
    var v := c as int;
    if v < 0x80 then 1 else if v < 0x800 then 2 else if v < 0x1_0000 then 3 else 4
  }

  /** Go's `len(s)`: the number of bytes of the UTF-8 encoding of `s`. */
  function ByteLen(s: string): (n: nat)
    ensures |s| <= n <= 4 * |s|
  {
    if s == [] then 0 else Utf8Len(s[0]) + ByteLen(s[1..])
  }

  /** The byte length of a one-character string is that character's. */
  lemma ByteLenOfChar(c: char)
    ensures ByteLen([c]) == Utf8Len(c)
  {
    assert [c][1..] == [];
  }

  /** A string of at most one byte is empty or a single ASCII character. */
  lemma ByteLenAtMostOne(s: string)
    requires s != [] && ByteLen(s) <= 1
    ensures |s| == 1 && s[0] as int < 0x80
  {
    assert ByteLen(s) == Utf8Len(s[0]) + ByteLen(s[1..]);
  }

  /** Go's `s[0]` for a string starting with `c`: the first byte of the UTF-8 encoding of `c`. */
  function FirstUtf8Byte(c: char): (b: nat)
    ensures b <= 0xF4
    ensures c as int < 0x80 ==> b == c as int
    ensures c as int >= 0x80 ==> b >= 0xC2
  {
    var v := c as int;
    if v < 0x80 then v
    else if v < 0x800 then 0xC0 + v / 0x40
    else if v < 0x1_0000 then 0xE0 + v / 0x1000
    else 0xF0 + v / 0x4_0000
  }
}
