/**
 * The emoji test of the commit-message helpers (`isEmoji`) and the rule by
 * which the confirm handler of the "add gitmoji" prompt puts the chosen
 * gitmoji in front of the summary.
 */
module GitmojiInsertion {
  import opened Text
  import opened Graphemes

  /** The code point ranges `isEmoji` compares its value against. */
  predicate InEmojiRanges(r: int): (b: bool)
    ensures b ==> 0x2600 <= r <= 0x1F9FF
  {
    (0x1F600 <= r <= 0x1F64F) || (0x1F300 <= r <= 0x1F5FF) || (0x1F680 <= r <= 0x1F6FF)
    || (0x1F900 <= r <= 0x1F9FF) || (0x2600 <= r <= 0x26FF) || (0x2700 <= r <= 0x27BF)
    || (0x1F1E6 <= r <= 0x1F1FF) || (0xFE00 <= r <= 0xFE0F)
  }

  /**
   * `isEmoji` as written: a value of more than one byte that is a single
   * grapheme cluster, else the range test applied to `rune(value[0])`, which
   * is the first BYTE of the value's UTF-8 encoding. No byte reaches the
   * lowest range bound, so the range test never succeeds. Go indexes `value[0]`
   * unchecked, so the empty value is excluded; every caller guards against it.
   */
  function IsEmoji(value: string): (b: bool)
    requires value != []
    ensures b <==> ByteLen(value) > 1 && ClusterCount(value) == 1
  {
    if ByteLen(value) > 1 && ClusterCount(value) == 1 then true
    else InEmojiRanges(FirstUtf8Byte(value[0]))
  }

  /** `isEmoji` with the range test applied to the first code point, as its comment describes. */
  function IsEmojiIntended(value: string): (b: bool)
    requires value != []
    ensures InEmojiRanges(value[0] as int) ==> b
    ensures ByteLen(value) > 1 && ClusterCount(value) == 1 ==> b
    ensures b ==> ByteLen(value) > 1
  {
    if ByteLen(value) > 1 && ClusterCount(value) == 1 then true
    else
      (assert value[0] as int >= 0x80 ==> Utf8Len(value[0]) > 1;
       assert ByteLen(value) >= Utf8Len(value[0]);
       InEmojiRanges(value[0] as int))
  }

  /** Two fire emojis are two clusters: the written test rejects them although U+1F525 lies in a listed range. */
  lemma IsEmojiFirstByteQuirk(v: string)
    requires v == "\U{1F525}\U{1F525}"
    ensures !IsEmoji(v)
    ensures IsEmojiIntended(v)
  {
    var fire := '\U{1F525}';
    PlainCharBreaks(fire, fire);
    FirstClusterIsFirstChar(v);
    assert Rest(v) == [fire];
    SingleCharCluster(fire);
    assert ClusterCount(v) == 2;
  }

  /** On a single grapheme cluster, the only kind of value the gitmoji handler tests, both versions agree. */
  lemma IsEmojiAgreesOnClusters(value: string)
    requires ClusterCount(value) == 1
    ensures IsEmoji(value) == IsEmojiIntended(value)
  {
    if ByteLen(value) <= 1 {
      ByteLenAtMostOne(value);
    }
  }

  /**
   * The summary the confirm handler of the gitmoji prompt sets, as written:
   * when the summary starts with an emoji, the chosen gitmoji replaces it;
   * otherwise the gitmoji is put in front of the summary AND the summary's
   * first cluster is appended once more at its end.
   */
  function InsertGitmojiAsWritten(summary: string, gitmoji: string): (r: string)
    ensures summary == [] ==> r == gitmoji
  {
    var current := FirstCluster(summary);
    if |current| > 0 && IsEmoji(current) then gitmoji + Rest(summary)
    else gitmoji + summary + current
  }

  /**
   * The summary the handler evidently means to set: the chosen gitmoji
   * replaces a leading emoji, and is otherwise put in front of the summary.
   */
  function InsertGitmoji(summary: string, gitmoji: string): (r: string)
    ensures |gitmoji| <= |r| && r[..|gitmoji|] == gitmoji
    ensures summary == [] ==> r == gitmoji
  {
    var current := FirstCluster(summary);
    if |current| > 0 && IsEmojiIntended(current) then gitmoji + Rest(summary)
    else gitmoji + summary
  }

  /** What follows the inserted gitmoji: the summary after its leading emoji, or the whole summary. */
  lemma InsertGitmojiKeepsText(summary: string, gitmoji: string)
    ensures var current := FirstCluster(summary);
            InsertGitmoji(summary, gitmoji)[|gitmoji|..]
            == if current != [] && IsEmojiIntended(current) then summary[|current|..] else summary
  {
    var r := InsertGitmoji(summary, gitmoji);
    var current := FirstCluster(summary);
    if current != [] && IsEmojiIntended(current) {
      assert r == gitmoji + Rest(summary);
    } else {
      assert r == gitmoji + summary;
    }
  }

  /**
   * Choosing a second gitmoji replaces the first: when the first one is an
   * emoji that stays a cluster of its own in front of the summary, inserting
   * another one gives what inserting only the other one would have given.
   */
  lemma InsertGitmojiTwice(summary: string, first: string, second: string)
    requires first != [] && IsEmojiIntended(first)
    requires FirstCluster(InsertGitmoji(summary, first)) == first
    ensures InsertGitmoji(InsertGitmoji(summary, first), second) == InsertGitmoji(summary, second)
  {
    var once := InsertGitmoji(summary, first);
    InsertGitmojiKeepsText(summary, first);
    assert Rest(once) == once[|first|..];
  }

  /** A summary whose first cluster is one ASCII character: the written rule appends that character again. */
  lemma InsertBeforePlainText(summary: string, gitmoji: string)
    requires |summary| >= 2 && !Joins(Start(summary[0]), summary[1]) && summary[0] as int < 0x80
    ensures InsertGitmojiAsWritten(summary, gitmoji) == gitmoji + summary + summary[..1]
    ensures InsertGitmoji(summary, gitmoji) == gitmoji + summary
  {
    FirstClusterIsFirstChar(summary);
    ByteLenOfChar(summary[0]);
    assert [summary[0]] == summary[..1];
  }

  /**
   * "Fix bug" with the sparkles gitmoji: the written rule gives
   * "✨Fix bugF", the intended one "✨Fix bug".
   */
  lemma InsertGitmojiRepeatsFirstCluster(summary: string, gitmoji: string)
    requires summary == "Fix bug" && gitmoji == "\U{2728}"
    ensures InsertGitmojiAsWritten(summary, gitmoji) == "\U{2728}Fix bugF"
    ensures InsertGitmoji(summary, gitmoji) == "\U{2728}Fix bug"
  {
    PlainCharBreaks('F', 'i');
    InsertBeforePlainText(summary, gitmoji);
    assert summary[..1] == "F";
  }

  /**
   * The two rules differ exactly when the summary does not start with an
   * emoji: the written one then has the first cluster appended once more.
   */
  lemma InsertGitmojiAsWrittenDiffers(summary: string, gitmoji: string)
    ensures var current := FirstCluster(summary);
            InsertGitmojiAsWritten(summary, gitmoji)
            == if current != [] && IsEmoji(current) then InsertGitmoji(summary, gitmoji)
               else InsertGitmoji(summary, gitmoji) + current
  {
    var current := FirstCluster(summary);
    if current != [] {
      FirstClusterIsOneCluster(summary);
      IsEmojiAgreesOnClusters(current);
    }
  }

  /** A leading emoji is replaced by the chosen gitmoji. */
  lemma InsertGitmojiReplacesEmoji(summary: string, gitmoji: string)
    requires summary == "\U{1F525} rest" && gitmoji == "\U{2728}"
    ensures InsertGitmoji(summary, gitmoji) == "\U{2728} rest"
  {
    PlainCharBreaks('\U{1F525}', ' ');
    FirstClusterIsFirstChar(summary);
    SingleCharCluster('\U{1F525}');
    ByteLenOfChar('\U{1F525}');
  }

  /** A gitmoji goes in front of a summary that starts with plain text. */
  lemma InsertGitmojiPrepends(summary: string, gitmoji: string)
    requires summary == "X rest" && gitmoji == "\U{2728}"
    ensures InsertGitmoji(summary, gitmoji) == "\U{2728}X rest"
  {
    PlainCharBreaks('X', ' ');
    InsertBeforePlainText(summary, gitmoji);
  }

  /**
   * The gitmoji the handler inserts for the prompt's value: the value's first
   * cluster when that is an emoji, otherwise the first cluster of the first
   * suggestion's label. Go indexes `suggestions[0]` unchecked, so that list
   * must not be empty on this path. The emoji test is applied to a single
   * cluster, where the written test agrees with the intended one
   * (`IsEmojiAgreesOnClusters`).
   */
  function ChooseGitmoji(value: string, suggestionLabels: seq<string>): (g: string)
    requires value != []
    requires !IsEmoji(FirstCluster(value)) ==> suggestionLabels != []
    ensures g != [] ==> ClusterCount(g) == 1
    ensures IsEmoji(FirstCluster(value)) ==> g == FirstCluster(value) && IsEmojiIntended(g)
    ensures !IsEmoji(FirstCluster(value)) ==> g == FirstCluster(suggestionLabels[0])
  {
    var typed := FirstCluster(value);
    FirstClusterIsOneCluster(value);
    IsEmojiAgreesOnClusters(typed);
    var g := if IsEmoji(typed) then typed else FirstCluster(suggestionLabels[0]);
    if g != [] then
      FirstClusterIsOneCluster(if IsEmoji(typed) then value else suggestionLabels[0]);
      g
    else g
  }
}
