/**
 * The commit message as text: splitting a combined message into its summary
 * line and its trimmed description, joining them back together, and the
 * message written to the file handed to an external editor.
 */
module CommitMessage {
  import opened Text

  /**
   * `SplitCommitMessageAndDescription`: the summary is everything before the
   * first newline, the description is everything after it with the white
   * space around it trimmed; a message without newline is all summary.
   */
  function SplitCommitMessageAndDescription(message: string): (r: (string, string))
    ensures '\n' !in r.0 && r.0 <= message
    ensures |r.0| < |message| ==> message[|r.0|] == '\n' && r.1 == TrimSpace(message[|r.0| + 1..])
    ensures '\n' !in message ==> r == (message, "")
    ensures message == [] ==> r == ([], [])
  {
    var k := NewlineIndex(message);
    if k < |message| then (message[..k], TrimSpace(message[k + 1..]))
    else
      // Go trims the empty description that `strings.Cut` gives, which stays "".
      assert message[..k] == message;
      (message, "")
  }

  /**
   * `JoinCommitMessageAndUnwrappedDescription`: the summary alone when the
   * description is empty, otherwise the two separated by one newline.
   */
  function JoinCommitMessageAndUnwrappedDescription(summary: string, unwrapped: string): (r: string)
    ensures unwrapped == [] ==> r == summary
    ensures unwrapped != [] ==> r == summary + "\n" + unwrapped
  {
    if |unwrapped| == 0 then summary else summary + "\n" + unwrapped
  }

  /**
   * The content `SwitchToEditor` writes to the temporary message file: the
   * summary alone when the description is empty, otherwise summary, a blank
   * line and description.
   */
  function EditorMessage(summary: string, description: string): (r: string)
    ensures description == [] ==> r == summary
    ensures description != [] ==> r == summary + "\n\n" + description
  {
    if |description| == 0 then summary else summary + "\n\n" + description
  }

  /** Splitting a joined message gives back the summary and the trimmed description. */
  lemma SplitJoin(summary: string, unwrapped: string)
    requires '\n' !in summary
    ensures SplitCommitMessageAndDescription(JoinCommitMessageAndUnwrappedDescription(summary, unwrapped))
            == (summary, TrimSpace(unwrapped))
  {
    var m := JoinCommitMessageAndUnwrappedDescription(summary, unwrapped);
    var r := SplitCommitMessageAndDescription(m);
    if unwrapped == [] {
      assert TrimSpace(unwrapped) == [];
    } else {
      assert m[|summary|] == '\n';
      assert '\n' !in m[..|summary|] by { assert m[..|summary|] == summary; }
      assert r.0 == summary;
      assert m[|summary| + 1..] == unwrapped;
    }
  }

  /** A summary with an already trimmed description survives a join followed by a split unchanged. */
  lemma JoinSplitRoundTrip(summary: string, description: string)
    requires '\n' !in summary && TrimSpace(description) == description
    ensures SplitCommitMessageAndDescription(JoinCommitMessageAndUnwrappedDescription(summary, description))
            == (summary, description)
  {
    SplitJoin(summary, description);
  }

  /** The message written for the external editor splits back into the summary and the trimmed description. */
  lemma SplitEditorMessage(summary: string, description: string)
    requires '\n' !in summary
    ensures SplitCommitMessageAndDescription(EditorMessage(summary, description))
            == (summary, TrimSpace(description))
  {
    if description == [] {
      assert TrimSpace(description) == [];
    } else {
      var d := "\n" + description;
      assert EditorMessage(summary, description) == JoinCommitMessageAndUnwrappedDescription(summary, d);
      SplitJoin(summary, d);
      assert IsSpace('\n');
      TrimSpaceIgnoresLeadingSpace("\n", description);
    }
  }

}
