/**
 * The hard line break reconciler of the commit description editor: a hard
 * line break that auto-wrapping would have produced at the same spot anyway is
 * turned back into a space (a soft break), all other text stays as it is.
 *
 * The auto-wrapper (gocui's `AutoWrapContent`) is not part of this model; it
 * is a parameter `wrap` that returns, for a text and a width, the `Orig`
 * offset of the first cursor mapping, or `None` when there is no mapping.
 */
module LineBreaks {
  import opened Text

  /** The position after the last newline before `i`, or 0: where the hard line holding position `i` starts. */
  function LineStart(msg: seq<char>, i: nat): (start: nat)
    requires i <= |msg|
    ensures start <= i
    ensures start == 0 || msg[start - 1] == '\n'
  {
    if i == 0 then 0
    else if msg[i - 1] == '\n' then i
    else LineStart(msg, i - 1)
  }

  /** No newline lies between the start of a hard line and any position in it. */
  lemma {:induction false} LineStartHasNoNewline(msg: seq<char>, i: nat, j: nat)
    requires i <= |msg| && LineStart(msg, i) <= j < i
    ensures msg[j] != '\n'
    decreases i
  {
    if msg[i - 1] != '\n' && j < i - 1 {
      LineStartHasNoNewline(msg, i - 1, j);
    }
  }

  /**
   * What the auto-wrapper is shown when the newline at `i` is tried as a
   * space: the text from the start of its hard line to the end of the message,
   * with that newline replaced by a space.
   */
  function TrialText(msg: seq<char>, i: nat): seq<char>
    requires i < |msg|
  {
    var start := LineStart(msg, i);
    msg[start..][i - start := ' ']
  }

  /**
   * The newline at `i` becomes a soft break exactly when wrapping the trial
   * text starts its first wrapped row right after position `i`.
   */
  predicate BecomesSoft(msg: seq<char>, i: nat, width: int, wrap: (seq<char>, int) -> Option<int>)
    requires i < |msg|
  {
    wrap(TrialText(msg, i), width) == Some(i - LineStart(msg, i) + 1)
  }

  /** What the reconciler leaves at position `k`. */
  function ReconciledAt(msg: seq<char>, k: nat, width: int, wrap: (seq<char>, int) -> Option<int>): char
    requires k < |msg|
  {
    if msg[k] == '\n' && BecomesSoft(msg, k, width, wrap) then ' ' else msg[k]
  }

  /** The first `n` characters of the reconciled message. */
  function Reconciled(msg: seq<char>, n: nat, width: int, wrap: (seq<char>, int) -> Option<int>): (r: seq<char>)
    requires n <= |msg|
    ensures |r| == n
  {
    if n == 0 then [] else Reconciled(msg, n - 1, width, wrap) + [ReconciledAt(msg, n - 1, width, wrap)]
  }

  lemma {:induction false} ReconciledIndex(msg: seq<char>, n: nat, k: nat, width: int, wrap: (seq<char>, int) -> Option<int>)
    requires k < n <= |msg|
    ensures Reconciled(msg, n, width, wrap)[k] == ReconciledAt(msg, k, width, wrap)
    decreases n
  {
    if k < n - 1 {
      ReconciledIndex(msg, n - 1, k, width, wrap);
    }
  }

  /**
   * While the newline at `i` is being tried, the runes from its line start on
   * are exactly the trial text: the line itself holds no newline, so nothing
   * in it has been rewritten yet.
   */
  lemma TrialTextInPlace(msg: seq<char>, i: nat, width: int, wrap: (seq<char>, int) -> Option<int>)
    requires i < |msg|
    ensures (Reconciled(msg, i, width, wrap) + msg[i..])[i := ' '][LineStart(msg, i)..] == TrialText(msg, i)
  {
    var start := LineStart(msg, i);
    var cur := (Reconciled(msg, i, width, wrap) + msg[i..])[i := ' '];
    forall k | start <= k < |msg|
      ensures cur[k] == msg[start..][i - start := ' '][k - start]
    {
      if k < i {
        ReconciledIndex(msg, i, k, width, wrap);
        LineStartHasNoNewline(msg, i, k);
      }
    }
  }

  /** Handling position `i` puts its reconciled character in place and leaves the rest of the message as it is. */
  lemma ReconcileStep(msg: seq<char>, i: nat, width: int, wrap: (seq<char>, int) -> Option<int>)
    requires i < |msg|
    ensures (Reconciled(msg, i, width, wrap) + msg[i..])[i := ReconciledAt(msg, i, width, wrap)]
            == Reconciled(msg, i + 1, width, wrap) + msg[i + 1..]
  {
    var before := Reconciled(msg, i, width, wrap) + msg[i..];
    var after := Reconciled(msg, i + 1, width, wrap) + msg[i + 1..];
    assert |before[i := ReconciledAt(msg, i, width, wrap)]| == |after|;
    forall k | 0 <= k < |after|
      ensures before[i := ReconciledAt(msg, i, width, wrap)][k] == after[k]
    {
      if k < i {
        ReconciledIndex(msg, i, k, width, wrap);
        ReconciledIndex(msg, i + 1, k, width, wrap);
      } else if k == i {
        ReconciledIndex(msg, i + 1, k, width, wrap);
      }
    }
  }

  /**
   * One newline of the reconciler: with the newline at `i` written as a
   * space in the buffer `Reconciled(msg, i) + msg[i..]`, the wrapper is shown
   * the trial text, and keeping the space when its first row starts right
   * after `i` (or else writing the newline back) puts the reconciled
   * character in place.
   */
  lemma NewlineStep(msg: seq<char>, i: nat, width: int, wrap: (seq<char>, int) -> Option<int>,
                    cur: seq<char>, start: nat, mapping: Option<int>)
    requires i < |msg| && msg[i] == '\n' && start == LineStart(msg, i)
    requires cur == (Reconciled(msg, i, width, wrap) + msg[i..])[i := ' ']
    requires mapping == wrap(cur[start..], width)
    ensures LineStart(msg, i + 1) == i + 1
    ensures !(mapping.None? || mapping.value != i - start + 1) ==>
              cur == Reconciled(msg, i + 1, width, wrap) + msg[i + 1..]
    ensures (mapping.None? || mapping.value != i - start + 1) ==>
              cur[i := '\n'] == Reconciled(msg, i + 1, width, wrap) + msg[i + 1..]
  {
    var buf := Reconciled(msg, i, width, wrap) + msg[i..];
    ReconcileStep(msg, i, width, wrap);
    TrialTextInPlace(msg, i, width, wrap);
    assert cur[start..] == TrialText(msg, i);
    assert BecomesSoft(msg, i, width, wrap) <==> !(mapping.None? || mapping.value != i - start + 1);
    assert cur[i := '\n'] == buf[i := '\n'];
  }

  /** Any other character stays where it is. */
  lemma OtherStep(msg: seq<char>, i: nat, width: int, wrap: (seq<char>, int) -> Option<int>, cur: seq<char>)
    requires i < |msg| && cur == Reconciled(msg, i, width, wrap) + msg[i..]
    ensures cur[i] == msg[i]
    ensures msg[i] != '\n' ==> LineStart(msg, i + 1) == LineStart(msg, i)
    ensures msg[i] != '\n' ==> cur == Reconciled(msg, i + 1, width, wrap) + msg[i + 1..]
  {
    ReconcileStep(msg, i, width, wrap);
    assert cur[i := msg[i]] == cur;
  }

  /** The whole message reconciled is what the reconciler promises. */
  lemma ReconciledAll(msg: seq<char>, width: int, wrap: (seq<char>, int) -> Option<int>)
    ensures var r := Reconciled(msg, |msg|, width, wrap);
            && (forall k {:trigger r[k]} :: 0 <= k < |msg| && msg[k] != '\n' ==> r[k] == msg[k])
            && (forall k {:trigger r[k]} :: 0 <= k < |msg| && msg[k] == '\n' ==>
                  r[k] == (if BecomesSoft(msg, k, width, wrap) then ' ' else '\n'))
            && ('\n' !in msg ==> r == msg)
  {
    var r := Reconciled(msg, |msg|, width, wrap);
    forall k | 0 <= k < |msg|
      ensures r[k] == ReconciledAt(msg, k, width, wrap)
    {
      ReconciledIndex(msg, |msg|, k, width, wrap);
    }
    if '\n' !in msg {
      assert forall k :: 0 <= k < |msg| ==> r[k] == msg[k];
    }
  }

  /** Go's `[]rune(message)`: a fresh rune buffer holding the message. */
  method RunesOf(message: string) returns (runes: array<char>)
    ensures fresh(runes) && runes[..] == message
  {
    runes := new char[|message|](k requires 0 <= k < |message| => message[k]);
  }

  /** `TryRemoveHardLineBreaks`, over a rune array rewritten in place. */
  method TryRemoveHardLineBreaks(message: string, autoWrapWidth: int, wrap: (seq<char>, int) -> Option<int>)
    returns (r: string)
    ensures |r| == |message|
    ensures forall k {:trigger r[k]} :: 0 <= k < |message| && message[k] != '\n' ==> r[k] == message[k]
    ensures forall k {:trigger r[k]} :: 0 <= k < |message| && message[k] == '\n' ==>
              r[k] == (if BecomesSoft(message, k, autoWrapWidth, wrap) then ' ' else '\n')
    ensures '\n' !in message ==> r == message
  {
    var runes := RunesOf(message);
    ghost var buf := message;
    var lastHardLineStart := 0;
    var i := 0;
    while i < runes.Length
      invariant 0 <= i <= runes.Length == |message|
      invariant lastHardLineStart == LineStart(message, i)
      invariant buf == Reconciled(message, i, autoWrapWidth, wrap) + message[i..]
      invariant runes[..] == buf
    {
      OtherStep(message, i, autoWrapWidth, wrap, buf);
      if runes[i] == '\n' {
        runes[i] := ' ';
        buf := buf[i := ' '];
        assert runes[lastHardLineStart..] == buf[lastHardLineStart..];
        var mapping := wrap(runes[lastHardLineStart..], autoWrapWidth);
        NewlineStep(message, i, autoWrapWidth, wrap, buf, lastHardLineStart, mapping);
        if mapping.None? || mapping.value != i - lastHardLineStart + 1 {
          runes[i] := '\n';
          buf := buf[i := '\n'];
        }
        lastHardLineStart := i + 1;
      }
      i := i + 1;
    }
    r := runes[..];
    ReconciledAll(message, autoWrapWidth, wrap);
  }
}
