/**
 * The commit message panel as the commits helper drives it: the summary and
 * description views, the panel state of the commit message context (set when
 * the panel opens), the preserved draft, the history message, the two views'
 * visibility and the context stack.
 *
 * Callbacks the caller hands in (`OnConfirm`, `OnSwitchToEditor`) and the
 * outcome of creating the message file or reading the clipboard are
 * modelled as values: functions from their arguments to a status.
 */
module CommitsHelper {
  import opened Text
  import opened Graphemes
  import opened CommitMessage
  import opened GitmojiInsertion

  /** The errors the helper returns; `External` carries one produced outside it. */
  datatype Error = CommitWithoutMessage | External(message: string)

  /** A Go `error` result: `Ok` is nil. */
  datatype Status = Ok | Failed(err: Error)

  /** What reading the clipboard gives. */
  datatype Clipboard = Pasted(text: string) | ReadFailed(err: Error)

  /** The contexts on the context stack; only the commit message context is pushed here. */
  datatype ContextKey = CommitMessageContext | OtherContext(name: string)

  /**
   * `OpenCommitMessagePanelOpts`, which is also the panel state the commit
   * message context keeps once the panel is open.
   */
  datatype OpenOpts = OpenOpts(
    commitIndex: int,
    summaryTitle: string,
    descriptionTitle: string,
    preserveMessage: bool,
    onConfirm: (string, string) -> Status,
    onSwitchToEditor: string -> Status,
    initialMessage: string)

  /** Where `UpdateCommitPanelView` takes the text it shows: the message, else the draft when preserving, else nothing. */
  function PanelSource(message: string, preserveMessage: bool, preservedDraft: string): (source: string)
    ensures message != [] ==> source == message
    ensures message == [] && preserveMessage ==> source == preservedDraft
    ensures message == [] && !preserveMessage ==> source == []
  {
    if message != "" then message
    else if preserveMessage then preservedDraft
    else ""
  }

  /**
   * The draft after the panel closes: the joined message when preserving and
   * it differs from the initial message, otherwise the draft as it was.
   */
  function DraftOnClose(preserveMessage: bool, joined: string, initialMessage: string, draft: string): (d: string)
    ensures preserveMessage && joined != initialMessage ==> d == joined
    ensures !(preserveMessage && joined != initialMessage) ==> d == draft
  {
    if preserveMessage && joined != initialMessage then joined else draft
  }

  class CommitMessageSession {
    /** The summary view's text (`getCommitSummary` / `setCommitSummary`). */
    var summary: string
    /** The description view's text (`getCommitDescription` / `setCommitDescription`). */
    var description: string

    /** The panel state of the commit message context, set when the panel opens. */
    var panel: OpenOpts

    /** The draft kept across closing the panel. */
    var preservedDraft: string
    var historyMessage: string
    var summaryViewVisible: bool
    var descriptionViewVisible: bool
    var contextStack: seq<ContextKey>

    /** A closed panel over an existing draft and context stack. */
    constructor(draft: string, stack: seq<ContextKey>)
      ensures summary == [] && description == []
      ensures preservedDraft == draft && historyMessage == []
      ensures !summaryViewVisible && !descriptionViewVisible
      ensures contextStack == stack
      ensures !panel.preserveMessage && panel.initialMessage == []
    {
      summary := [];
      description := [];
      panel := OpenOpts(0, [], [], false, (s: string, d: string) => Ok, (path: string) => Ok, []);
      preservedDraft := draft;
      historyMessage := [];
      summaryViewVisible := false;
      descriptionViewVisible := false;
      contextStack := stack;
    }

    /** `JoinCommitMessageAndUnwrappedDescription` on the views' current text: empty exactly when both views are. */
    function JoinedMessage(): (m: string)
      reads this
      ensures m == [] <==> summary == [] && description == []
    {
      JoinCommitMessageAndUnwrappedDescription(summary, description)
    }

    /** The joined message splits back into the views' summary and trimmed description. */
    lemma JoinedMessageSplits()
      requires '\n' !in summary
      ensures SplitCommitMessageAndDescription(JoinedMessage()) == (summary, TrimSpace(description))
    {
      SplitJoin(summary, description);
    }

    /** `setCommitSummary`. */
    method SetSummary(s: string)
      modifies this
      ensures summary == s
      ensures description == old(description) && OnlyViewsChanged()
    {
      summary := s;
    }

    /** `setCommitDescription`. */
    method SetDescription(d: string)
      modifies this
      ensures description == d
      ensures summary == old(summary) && OnlyViewsChanged()
    {
      description := d;
    }

    /** Everything but the two views' text is as it was. */
    twostate predicate OnlyViewsChanged()
      reads this
    {
      && panel == old(panel) && preservedDraft == old(preservedDraft)
      && historyMessage == old(historyMessage) && summaryViewVisible == old(summaryViewVisible)
      && descriptionViewVisible == old(descriptionViewVisible) && contextStack == old(contextStack)
    }

    /** `SetMessageAndDescriptionInView`: the views show the split of `message`. */
    method SetMessageAndDescriptionInView(message: string)
      modifies this
      ensures (summary, description) == SplitCommitMessageAndDescription(message)
      ensures '\n' !in summary
      ensures OnlyViewsChanged()
    {
      var (s, d) := SplitCommitMessageAndDescription(message);
      SetSummary(s);
      SetDescription(d);
    }

    /** `UpdateCommitPanelView`. */
    method UpdateCommitPanelView(message: string)
      modifies this
      ensures (summary, description)
              == SplitCommitMessageAndDescription(PanelSource(message, old(panel.preserveMessage), old(preservedDraft)))
      ensures OnlyViewsChanged()
    {
      if message != "" {
        SetMessageAndDescriptionInView(message);
        return;
      }
      if panel.preserveMessage {
        SetMessageAndDescriptionInView(preservedDraft);
        return;
      }
      SetMessageAndDescriptionInView("");
    }

    /**
     * `OpenCommitMessagePanel`: stores the panel state, shows the initial
     * message (or the draft) and pushes the commit message context.
     */
    method OpenCommitMessagePanel(opts: OpenOpts)
      modifies this
      ensures panel == opts
      ensures (summary, description)
              == SplitCommitMessageAndDescription(PanelSource(opts.initialMessage, opts.preserveMessage, old(preservedDraft)))
      ensures preservedDraft == old(preservedDraft) && historyMessage == old(historyMessage)
      ensures summaryViewVisible == old(summaryViewVisible) && descriptionViewVisible == old(descriptionViewVisible)
      ensures contextStack == old(contextStack) + [CommitMessageContext]
    {
      panel := opts;
      UpdateCommitPanelView(opts.initialMessage);
      contextStack := contextStack + [CommitMessageContext];
    }

    /**
     * The state closing the panel leaves behind, from the state before: the
     * joined message becomes the draft when preserving and it differs from
     * the initial message; the views are cleared when not preserving; the
     * history message is cleared; both views are hidden; the top context is
     * popped; the panel state stays.
     */
    twostate predicate ClosedFrom()
      reads this
    {
      && preservedDraft
         == DraftOnClose(old(panel.preserveMessage), old(JoinedMessage()), old(panel.initialMessage), old(preservedDraft))
      && (summary, description) == (if old(panel.preserveMessage) then old((summary, description)) else ([], []))
      && historyMessage == []
      && !summaryViewVisible && !descriptionViewVisible
      && contextStack == (if old(contextStack) == [] then [] else old(contextStack)[..|old(contextStack)| - 1])
      && panel == old(panel)
    }

    /** `CloseCommitMessagePanel`. */
    method CloseCommitMessagePanel()
      modifies this
      ensures ClosedFrom()
    {
      ghost var draft := DraftOnClose(panel.preserveMessage, JoinedMessage(), panel.initialMessage, preservedDraft);
      if panel.preserveMessage {
        var message := JoinedMessage();
        if message != panel.initialMessage {
          preservedDraft := message;
        }
      } else {
        SetMessageAndDescriptionInView("");
      }
      assert preservedDraft == draft;
      historyMessage := "";
      summaryViewVisible := false;
      descriptionViewVisible := false;
      PopContext();
    }

    /** The context manager's `Pop`: removes the top context. */
    method PopContext()
      modifies this
      ensures contextStack == if old(contextStack) == [] then [] else old(contextStack)[..|old(contextStack)| - 1]
      ensures summary == old(summary) && description == old(description)
      ensures preservedDraft == old(preservedDraft) && historyMessage == old(historyMessage)
      ensures summaryViewVisible == old(summaryViewVisible) && descriptionViewVisible == old(descriptionViewVisible)
      ensures panel == old(panel)
    {
      if contextStack != [] {
        contextStack := contextStack[..|contextStack| - 1];
      }
    }

    /**
     * The confirm callback `OpenCommitMessagePanel` installs: it closes the
     * panel first and then returns the caller's callback result unchanged.
     */
    method ConfirmAndClose(s: string, d: string) returns (status: Status)
      modifies this
      ensures status == old(panel.onConfirm)(s, d)
      ensures ClosedFrom()
    {
      CloseCommitMessagePanel();
      status := panel.onConfirm(s, d);
    }

    /**
     * `HandleCommitConfirm`: an empty summary is refused with nothing
     * touched; otherwise the installed confirm callback runs on the views' text.
     */
    method HandleCommitConfirm() returns (status: Status)
      modifies this
      ensures old(summary) == [] ==> status == Failed(CommitWithoutMessage)
      ensures old(summary) == [] ==> summary == old(summary) && description == old(description) && OnlyViewsChanged()
      ensures old(summary) != [] ==> status == old(panel.onConfirm)(old(summary), old(description))
      ensures old(summary) != [] ==> ClosedFrom()
    {
      if summary == "" {
        return Failed(CommitWithoutMessage);
      }
      status := ConfirmAndClose(summary, description);
    }

    /** `OnCommitSuccess`: a preserved draft is cleared once the commit has been made. */
    method OnCommitSuccess()
      modifies this
      ensures preservedDraft == if old(panel.preserveMessage) then [] else old(preservedDraft)
      ensures summary == old(summary) && description == old(description)
      ensures historyMessage == old(historyMessage) && contextStack == old(contextStack)
      ensures summaryViewVisible == old(summaryViewVisible) && descriptionViewVisible == old(descriptionViewVisible)
      ensures panel == old(panel)
    {
      if panel.preserveMessage {
        preservedDraft := "";
      }
    }

    /**
     * `SwitchToEditor`: writes the editor message to the file at `path` (whose
     * outcome `createFile` gives); a failure is returned before anything is
     * closed, otherwise the panel closes and the editor callback runs on `path`.
     */
    method SwitchToEditor(path: string, createFile: (string, string) -> Status) returns (status: Status)
      modifies this
      ensures createFile(path, EditorMessage(old(summary), old(description))).Failed? ==>
                status == createFile(path, EditorMessage(old(summary), old(description)))
                && summary == old(summary) && description == old(description) && OnlyViewsChanged()
      ensures createFile(path, EditorMessage(old(summary), old(description))).Ok? ==>
                status == old(panel.onSwitchToEditor)(path) && ClosedFrom()
    {
      var message := EditorMessage(summary, description);
      var err := createFile(path, message);
      if err.Failed? {
        return err;
      }
      CloseCommitMessagePanel();
      status := panel.onSwitchToEditor(path);
    }

    /**
     * The confirm handler of the "add gitmoji" prompt, for the typed `value`
     * and the labels suggested for it: an empty value changes nothing;
     * otherwise the chosen gitmoji replaces a leading emoji of the summary,
     * or goes in front of a summary without one, which then also gets its
     * old first cluster appended (see `InsertGitmojiAsWritten`).
     */
    method AddGitmoji(value: string, suggestionLabels: seq<string>)
      modifies this
      requires value != [] && !IsEmoji(FirstCluster(value)) ==> suggestionLabels != []
      ensures value == [] ==> summary == old(summary)
      ensures value != [] ==> summary == InsertGitmojiAsWritten(old(summary), ChooseGitmoji(value, suggestionLabels))
      ensures var current := FirstCluster(old(summary));
              value != [] && current != [] && !IsEmoji(current) ==>
                summary == InsertGitmoji(old(summary), ChooseGitmoji(value, suggestionLabels)) + current
      ensures description == old(description) && OnlyViewsChanged()
    {
      if |value| == 0 {
        return;
      }
      var gitmoji := ChooseGitmoji(value, suggestionLabels);
      InsertGitmojiAsWrittenDiffers(summary, gitmoji);
      SetSummary(InsertGitmojiAsWritten(summary, gitmoji));
    }

    /** The handler with the insertion rule it evidently means: the old first cluster is not appended again. */
    method AddGitmojiIntended(value: string, suggestionLabels: seq<string>)
      modifies this
      requires value != [] && !IsEmoji(FirstCluster(value)) ==> suggestionLabels != []
      ensures value == [] ==> summary == old(summary)
      ensures value != [] ==> summary == InsertGitmoji(old(summary), ChooseGitmoji(value, suggestionLabels))
      ensures description == old(description) && OnlyViewsChanged()
    {
      if |value| == 0 {
        return;
      }
      var gitmoji := ChooseGitmoji(value, suggestionLabels);
      SetSummary(InsertGitmoji(summary, gitmoji));
    }

    /**
     * `pasteCommitMessageFromClipboard`: a read error is returned, an empty
     * clipboard changes nothing, an empty panel takes the clipboard text at
     * once, and a non-empty one only when the user confirms overwriting it.
     */
    method PasteCommitMessageFromClipboard(clipboard: Clipboard, confirmed: bool) returns (status: Status)
      modifies this
      ensures clipboard.ReadFailed? ==> status == Failed(clipboard.err)
      ensures clipboard.Pasted? ==> status == Ok
      ensures var replace := clipboard.Pasted? && clipboard.text != [] && (old(JoinedMessage()) == [] || confirmed);
              (replace ==> (summary, description) == SplitCommitMessageAndDescription(clipboard.text))
              && (!replace ==> summary == old(summary) && description == old(description))
      ensures OnlyViewsChanged()
    {
      if clipboard.ReadFailed? {
        return Failed(clipboard.err);
      }
      var message := clipboard.text;
      if message == "" {
        return Ok;
      }
      var currentMessage := JoinedMessage();
      if currentMessage == "" {
        SetMessageAndDescriptionInView(message);
        return Ok;
      }
      if confirmed {
        SetMessageAndDescriptionInView(message);
      }
      return Ok;
    }
  }

  /**
   * Cancelling a preserving panel whose text was edited and opening it again
   * with no initial message restores the edited text.
   */
  method CancelAndReopen(session: CommitMessageSession, opts: OpenOpts)
    modifies session
    requires session.panel.preserveMessage && opts.preserveMessage && opts.initialMessage == []
    requires '\n' !in session.summary && TrimSpace(session.description) == session.description
    requires session.JoinedMessage() != session.panel.initialMessage
    ensures session.summary == old(session.summary) && session.description == old(session.description)
    ensures session.preservedDraft == old(session.JoinedMessage())
  {
    ghost var joined := session.JoinedMessage();
    session.CloseCommitMessagePanel();
    session.OpenCommitMessagePanel(opts);
    JoinSplitRoundTrip(old(session.summary), old(session.description));
  }

  /** Opening with "A", editing the summary to "B" and cancelling leaves "B" as the draft. */
  method EditedDraftScenario() returns (draft: string)
    ensures draft == "B"
  {
    var opts := OpenOpts(0, "Summary", "Description", true,
                         (s: string, d: string) => Ok, (path: string) => Ok, "A");
    var session := new CommitMessageSession("old draft", []);
    session.OpenCommitMessagePanel(opts);
    session.SetSummary("B");
    assert session.JoinedMessage() == "B";
    session.CloseCommitMessagePanel();
    draft := session.preservedDraft;
  }

  /** Opening with "A" and cancelling without an edit leaves the draft as it was. */
  method UneditedDraftScenario() returns (draft: string)
    ensures draft == "old draft"
  {
    var opts := OpenOpts(0, "Summary", "Description", true,
                         (s: string, d: string) => Ok, (path: string) => Ok, "A");
    var session := new CommitMessageSession("old draft", []);
    session.OpenCommitMessagePanel(opts);
    assert (session.summary, session.description) == ("A", "");
    session.CloseCommitMessagePanel();
    draft := session.preservedDraft;
  }

  /**
   * Confirming "x" on a preserving panel opened with no initial message
   * closes it: the commit message context is popped and "x" is kept as the draft.
   */
  method ConfirmedDraftScenario() returns (draft: string, stack: seq<ContextKey>, status: Status)
    ensures draft == "x" && stack == [] && status == Ok
  {
    var opts := OpenOpts(0, "Summary", "Description", true,
                         (s: string, d: string) => Ok, (path: string) => Ok, "");
    var session := new CommitMessageSession("", []);
    session.OpenCommitMessagePanel(opts);
    session.SetSummary("x");
    assert session.JoinedMessage() == "x";
    status := session.HandleCommitConfirm();
    draft := session.preservedDraft;
    stack := session.contextStack;
  }
}
