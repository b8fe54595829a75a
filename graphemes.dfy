/**
 * Extended grapheme clusters (Unicode Standard Annex #29, section 3), as far
 * as the commit-message helpers need them: the first cluster of a string
 * (uniseg's `FirstGraphemeClusterInString`), the rest after it, and the
 * number of clusters (uniseg's `GraphemeClusterCount`).
 *
 * The boundary rules GB3 to GB13 and GB999 are implemented except GB9a
 * (SpacingMark) and GB9b (Prepend); the Grapheme_Cluster_Break and
 * Extended_Pictographic property tables are reduced to the blocks that emoji,
 * combining marks, Hangul and regional indicators live in.
 */
module Graphemes {

  /** The Grapheme_Cluster_Break property values the rules distinguish. */
  datatype Gcb = CR | LF | Control | Extend | ZWJ | RegionalIndicator | L | V | T | LV | LVT | Other

  function Property(c: char): Gcb
  {
    var v := c as int;
    if v == 0x0D then CR
    else if v == 0x0A then LF
    else if v == 0x200D then ZWJ
    else if v < 0x20 || (0x7F <= v <= 0x9F) || v == 0xAD || v == 0x200B || v == 0x200E || v == 0x200F
            || v == 0x2028 || v == 0x2029 || (0x202A <= v <= 0x202E) || (0x2060 <= v <= 0x206F)
            || v == 0xFEFF || (0xFFF0 <= v <= 0xFFFB) then Control
    else if (0x0300 <= v <= 0x036F) || (0x0483 <= v <= 0x0489) || (0x0591 <= v <= 0x05BD)
            || (0x064B <= v <= 0x065F) || (0x1AB0 <= v <= 0x1AFF) || (0x1DC0 <= v <= 0x1DFF)
            || v == 0x200C || (0x20D0 <= v <= 0x20F0) || (0xFE00 <= v <= 0xFE0F) || (0xFE20 <= v <= 0xFE2F)
            || (0x1F3FB <= v <= 0x1F3FF) || (0xE0020 <= v <= 0xE007F) || (0xE0100 <= v <= 0xE01EF) then Extend
    else if 0x1F1E6 <= v <= 0x1F1FF then RegionalIndicator
    else if (0x1100 <= v <= 0x115F) || (0xA960 <= v <= 0xA97C) then L
    else if (0x1160 <= v <= 0x11A7) || (0xD7B0 <= v <= 0xD7C6) then V
    else if (0x11A8 <= v <= 0x11FF) || (0xD7CB <= v <= 0xD7FB) then T
    else if 0xAC00 <= v <= 0xD7A3 then (if (v - 0xAC00) % 28 == 0 then LV else LVT)
    else Other
  }

  /** Extended_Pictographic, approximated by whole blocks around the emoji: it holds a few code points that are not pictographic. */
  predicate IsExtPict(c: char)
  {
    var v := c as int;
    v == 0xA9 || v == 0xAE || v == 0x203C || v == 0x2049 || v == 0x2122 || v == 0x2139
    || (0x2194 <= v <= 0x21AA) || (0x231A <= v <= 0x23FF) || v == 0x24C2 || (0x25AA <= v <= 0x25FE)
    || (0x2600 <= v <= 0x27BF) || v == 0x2934 || v == 0x2935 || (0x2B05 <= v <= 0x2B55)
    || v == 0x3030 || v == 0x303D || v == 0x3297 || v == 0x3299
    || (0x1F000 <= v <= 0x1F1E5) || (0x1F200 <= v <= 0x1F3FA) || (0x1F400 <= v <= 0x1FAFF)
    || (0x1FC00 <= v <= 0x1FFFD)
  }

  /**
   * What the rules need to know about the cluster scanned so far: the
   * property of its last character, whether it ends in ExtPict Extend*
   * (for GB11), whether it ends in ExtPict Extend* ZWJ, and whether it ends
   * in an odd number of regional indicators (for GB12 and GB13).
   */
  datatype ScanState = ScanState(prev: Gcb, pictRun: bool, pictZwj: bool, oddRegional: bool)

  function Start(c: char): ScanState
  {
    ScanState(Property(c), IsExtPict(c), false, Property(c) == RegionalIndicator)
  }

  function Step(st: ScanState, c: char): ScanState
  {
    var p := Property(c);
    ScanState(p,
              IsExtPict(c) || (p == Extend && st.pictRun),
              p == ZWJ && st.pictRun,
              p == RegionalIndicator && !st.oddRegional)
  }

  /** True when there is NO cluster boundary between the scanned text and `c`. */
  predicate Joins(st: ScanState, c: char)
  {
    var p, q := st.prev, Property(c);
    if p == CR && q == LF then true                                      // GB3
    else if p == CR || p == LF || p == Control then false               // GB4
    else if q == CR || q == LF || q == Control then false               // GB5
    else if p == L && (q == L || q == V || q == LV || q == LVT) then true  // GB6
    else if (p == LV || p == V) && (q == V || q == T) then true          // GB7
    else if (p == LVT || p == T) && q == T then true                     // GB8
    else if q == Extend || q == ZWJ then true                             // GB9
    else if st.pictZwj && IsExtPict(c) then true                        // GB11
    else p == RegionalIndicator && q == RegionalIndicator && st.oddRegional  // GB12, GB13, GB999
  }

  /** The end of the cluster that has been scanned up to index `i` in state `st`. */
  function ClusterEnd(s: string, i: nat, st: ScanState): (e: nat)
    requires 1 <= i <= |s|
    ensures i <= e <= |s|
    decreases |s| - i
  {
    if i == |s| then i
    else if Joins(st, s[i]) then ClusterEnd(s, i + 1, Step(st, s[i]))
    else i
  }

  /** uniseg's `FirstGraphemeClusterInString(s, -1)`: the first cluster of `s`. */
  function FirstCluster(s: string): (c: string)
    ensures c <= s
    ensures c == [] <==> s == []
  {
    if s == [] then [] else s[..ClusterEnd(s, 1, Start(s[0]))]
  }

  /** The text after the first cluster. */
  function Rest(s: string): (r: string)
    ensures FirstCluster(s) + r == s
    ensures s != [] ==> |r| < |s|
  {
    s[|FirstCluster(s)|..]
  }

  /** uniseg's `GraphemeClusterCount`. */
  function ClusterCount(s: string): (n: nat)
    ensures n == 0 <==> s == []
    ensures n <= |s|
    decreases |s|
  {
    if s == [] then 0 else 1 + ClusterCount(Rest(s))
  }

  /** Cutting a string inside or at the end of a cluster does not change where the scan stops. */
  lemma {:induction false} ClusterEndOfPrefix(s: string, t: string, i: nat, st: ScanState)
    requires t <= s && 1 <= i <= |t|
    requires ClusterEnd(s, i, st) >= |t|
    ensures ClusterEnd(t, i, st) == |t|
    decreases |t| - i
  {
    if i < |t| {
      assert t[i] == s[i];
      ClusterEndOfPrefix(s, t, i + 1, Step(st, s[i]));
    }
  }

  /** After a character without special break property, only Extend or ZWJ continues the cluster (GB9, GB999). */
  lemma PlainCharBreaks(c: char, d: char)
    requires Property(c) == Other && Property(d) != Extend && Property(d) != ZWJ
    ensures !Joins(Start(c), d)
  {
  }

  /** With no join between the first two characters, the first cluster is the first character. */
  lemma FirstClusterIsFirstChar(s: string)
    requires |s| >= 2 && !Joins(Start(s[0]), s[1])
    ensures FirstCluster(s) == s[..1]
    ensures Rest(s) == s[1..]
  {
    assert ClusterEnd(s, 1, Start(s[0])) == 1;
  }

  /** A single character is one cluster. */
  lemma SingleCharCluster(c: char)
    ensures FirstCluster([c]) == [c]
    ensures ClusterCount([c]) == 1
  {
    assert ClusterEnd([c], 1, Start(c)) == 1;
    assert Rest([c]) == [];
  }

  /** The first cluster of a string is, on its own, exactly one cluster. */
  lemma FirstClusterIsOneCluster(s: string)
    requires s != []
    ensures FirstCluster(FirstCluster(s)) == FirstCluster(s)
    ensures ClusterCount(FirstCluster(s)) == 1
  {
    var c := FirstCluster(s);
    assert c[0] == s[0];
    ClusterEndOfPrefix(s, c, 1, Start(s[0]));
    assert c[..|c|] == c;
    assert Rest(c) == [];
  }

  /** A string is a single cluster exactly when it is non-empty and its own first cluster. */
  lemma ClusterCountOne(s: string)
    ensures ClusterCount(s) == 1 <==> s != [] && FirstCluster(s) == s
  {
    if s != [] {
      assert ClusterCount(s) == 1 + ClusterCount(Rest(s));
    }
  }
}
