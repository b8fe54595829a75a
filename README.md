# Commit message helpers and the gitmoji catalog, in Dafny

This project models the commit-message side of lazygit's GUI:

- the commits helper (`pkg/gui/controllers/helpers/commits_helper.go`), which
  - splits a commit message into its summary line and trimmed description, and joins the two back together;
  - reconciles hard line breaks with the description view's soft wrapping;
  - opens, confirms and closes the commit message panel, and keeps an unsent message as a preserved draft;
  - writes the message file for an external editor;
  - puts a gitmoji in front of the summary;
  - pastes a message from the clipboard;
- the gitmoji catalog (`pkg/utils/gitmoji.go`), an ordered table of (emoji, label) pairs with a filtered label list, a membership test and a lookup by label.

Files and modules:

| file | module | what it holds |
|---|---|---|
| `text.dfy` | `Text` | Go's `unicode.IsSpace` and `strings.TrimSpace`, the cut point of `strings.Cut(s, "\n")`, and the UTF-8 byte view of a string (`len(s)`, `s[0]`) |
| `graphemes.dfy` | `Graphemes` | extended grapheme clusters (Unicode Standard Annex #29, section 3): first cluster, rest, cluster count |
| `gitmoji.dfy` | `GitmojiCatalog` | the 73-entry table, `GetGitmojiActions`, `IsGitmoji`, `GetGitmojiByLabel` |
| `commit_message.dfy` | `CommitMessage` | split, join, and the editor-file message, with their round trips |
| `line_breaks.dfy` | `LineBreaks` | `TryRemoveHardLineBreaks` over a rune array rewritten in place |
| `gitmoji_insertion.dfy` | `GitmojiInsertion` | `isEmoji`, and the gitmoji insertion rule of the "add gitmoji" prompt |
| `session.dfy` | `CommitsHelper` | the class `CommitMessageSession`: the views, the panel state, the draft, the history message, view visibility and the context stack |

A Go string is a sequence of Unicode scalar values here (`string` is `seq<char>`). Go's byte length and first byte are computed from the UTF-8 encoding (`Text.ByteLen`, `Text.FirstUtf8Byte`). The auto-wrapper of the text area (`gocui.AutoWrapContent`) is a function parameter. It gives the `Orig` offset of the first cursor mapping, or `None` when there is no mapping. The caller's callbacks, and the outcomes of creating the editor file and of reading the clipboard, are parameters too. A confirmation dialog is a boolean saying whether the user confirmed.

The code has two defects, which the model keeps as written and pairs with the evidently intended behaviour:

- `isEmoji` (commits_helper.go:346-394) applies its code point ranges to `rune(value[0])`, the first byte of the value, so only the cluster test at its top ever says yes. Its comment says the ranges are meant for the first character.
- The insertion rule of the "add gitmoji" prompt (commits_helper.go:412-416) appends the summary's old first cluster again when that cluster is not an emoji. The emoji branch at line 413 puts the gitmoji in front of `rest`, the summary without its first cluster, so nothing is lost or repeated. The other branch already keeps the whole summary, and appending `currentGitmoji` to it repeats the first character: "Fix bug" becomes "✨Fix bugF".

The session's handler (`CommitsHelper.CommitMessageSession.AddGitmoji`) follows the code. `AddGitmojiIntended` is the same handler with the corrected rule.

Both points are under "## Findings".

## Model

| member | source | states |
|---|---|---|
| Text.TrimSpace | pkg/gui/controllers/helpers/commits_helper.go:53 | the trimmed description neither starts nor ends with white space |
| Text.TrimSpaceIsInfix | pkg/gui/controllers/helpers/commits_helper.go:53 | the trimmed description is an infix of the text, with only white space cut off on either side |
| Text.TrimSpaceUnique | pkg/gui/controllers/helpers/commits_helper.go:53 | any infix that neither starts nor ends with white space and leaves only white space outside it is the trimmed text |
| Text.TrimSpaceIdempotent | pkg/gui/controllers/helpers/commits_helper.go:53 | trimming a trimmed description changes nothing |
| Text.TrimSpaceIgnoresLeadingSpace | pkg/gui/controllers/helpers/commits_helper.go:53 | white space put in front of a text does not change its trimmed form |
| Text.NewlineIndex | pkg/gui/controllers/helpers/commits_helper.go:52 | the cut point of `strings.Cut` at "\n": no newline before it, and a newline at it unless it is the end |
| Text.ByteLen | pkg/gui/controllers/helpers/commits_helper.go:347 | `len(value)` is at least the number of code points and at most four times it |
| Text.FirstUtf8Byte | pkg/gui/controllers/helpers/commits_helper.go:352 | `rune(value[0])` is a byte: at most 0xF4, the character itself for ASCII, at least 0xC2 otherwise |
| Graphemes.FirstCluster | pkg/gui/controllers/helpers/commits_helper.go:405-406 | the first grapheme cluster is a prefix of the text, empty exactly for the empty text |
| Graphemes.Rest | pkg/gui/controllers/helpers/commits_helper.go:405 | the first cluster followed by the rest is the text, and the rest is shorter for a non-empty text |
| Graphemes.ClusterCount | pkg/gui/controllers/helpers/commits_helper.go:348 | zero clusters exactly for the empty text, and never more clusters than characters |
| Graphemes.FirstClusterIsOneCluster | pkg/gui/controllers/helpers/commits_helper.go:405-406 | the first cluster of a text is itself exactly one cluster |
| Graphemes.FirstClusterIsFirstChar | pkg/gui/controllers/helpers/commits_helper.go:405 | when the second character does not join the first, the first cluster is the first character and the rest is everything after it |
| Graphemes.SingleCharCluster | pkg/gui/controllers/helpers/commits_helper.go:348 | a single character is one cluster |
| Graphemes.ClusterCountOne | pkg/gui/controllers/helpers/commits_helper.go:348 | a text is one cluster exactly when it is non-empty and is its own first cluster |
| GitmojiCatalog.Entry | pkg/utils/gitmoji.go:13-87 | every emoji of the table is non-empty |
| GitmojiCatalog.Gitmojis | pkg/utils/gitmoji.go:13-87 | the table has 73 entries, each with a non-empty emoji |
| GitmojiCatalog.SingleRune | pkg/utils/gitmoji.go:94-96 | an entry passes the filter exactly when its first grapheme cluster is its first code point alone |
| GitmojiCatalog.ActionLabels | pkg/utils/gitmoji.go:90-100 | every label the filter-then-map lists is the label of some entry |
| GitmojiCatalog.Labels | pkg/utils/gitmoji.go:98-100 | one label per entry, the i-th label being the i-th entry's |
| GitmojiCatalog.ActionLabelsAppend | pkg/utils/gitmoji.go:90-97 | the filter works entry by entry: filtering two tables one after the other is filtering their concatenation |
| GitmojiCatalog.EntryContribution | pkg/utils/gitmoji.go:90-97 | entry i's label appears, in its place, exactly when multi-character gitmojis are shown or its first cluster has at most one code point |
| GitmojiCatalog.ActionLabelsShowAll | pkg/utils/gitmoji.go:91-93 | with multi-character gitmojis shown, every label is listed in table order |
| GitmojiCatalog.ActionLabelsSubsequence | pkg/utils/gitmoji.go:89-101 | the filtered labels are a subsequence of all labels and no more numerous than the entries |
| GitmojiCatalog.GetGitmojiActions | pkg/utils/gitmoji.go:89-101 | all labels in order when asked for multi-character gitmojis, otherwise a subsequence of them |
| GitmojiCatalog.GitmojiActionsExamples | pkg/utils/gitmoji.go:14-57 | "➕" (line 14) passes the filter; "📦️" (line 26, with U+FE0F) and the ZWJ sequence of line 57 do not |
| GitmojiCatalog.FirstActionIsAddADependency | pkg/utils/gitmoji.go:14 | the filtered list starts with "Add a dependency" |
| GitmojiCatalog.FindFirst | pkg/utils/gitmoji.go:104-107 | `lo.Find`: the index found satisfies the predicate and no earlier one does; none found means none satisfies it |
| GitmojiCatalog.IsGitmoji | pkg/utils/gitmoji.go:103-108 | true exactly when some entry's emoji equals the text |
| GitmojiCatalog.GetGitmojiByLabel | pkg/utils/gitmoji.go:110-118 | "" when no label matches, otherwise the emoji of the first entry with exactly that label |
| GitmojiCatalog.GetGitmojiByLabelEmptyIff | pkg/utils/gitmoji.go:110-118 | the lookup gives "" exactly when the label is not in the table |
| GitmojiCatalog.GetGitmojiByLabelIsGitmoji | pkg/utils/gitmoji.go:103-118 | a non-empty lookup result is a gitmoji |
| GitmojiCatalog.GetGitmojiByLabelExample | pkg/utils/gitmoji.go:14 | "Add a dependency" looks up "➕", which is a gitmoji |
| CommitMessage.SplitCommitMessageAndDescription | pkg/gui/controllers/helpers/commits_helper.go:51-54 | the summary is the newline-free text before the first newline; the description is what follows, trimmed; no newline means (message, "") |
| CommitMessage.JoinCommitMessageAndUnwrappedDescription | pkg/gui/controllers/helpers/commits_helper.go:64-69 | the summary alone for an empty description, else summary, newline, description |
| CommitMessage.EditorMessage | pkg/gui/controllers/helpers/commits_helper.go:97-99 | the summary alone for an empty description, else summary, blank line, description |
| CommitMessage.SplitJoin | pkg/gui/controllers/helpers/commits_helper.go:51-69 | splitting a joined message gives back the summary and the trimmed description |
| CommitMessage.JoinSplitRoundTrip | pkg/gui/controllers/helpers/commits_helper.go:51-69 | a newline-free summary with a trimmed description survives join then split unchanged |
| CommitMessage.SplitEditorMessage | pkg/gui/controllers/helpers/commits_helper.go:97-99 | the editor-file message splits back into the summary and the trimmed description |
| LineBreaks.LineStart | pkg/gui/controllers/helpers/commits_helper.go:72-88 | `lastHardLineStart` at position i: at or before i, and just after a newline unless it is 0 |
| LineBreaks.LineStartHasNoNewline | pkg/gui/controllers/helpers/commits_helper.go:72-88 | no newline lies between `lastHardLineStart` and the position being handled |
| LineBreaks.ReconciledIndex | pkg/gui/controllers/helpers/commits_helper.go:73-90 | the reconciled prefix holds, at every position, the character the reconciler leaves there |
| LineBreaks.TrialTextInPlace | pkg/gui/controllers/helpers/commits_helper.go:77-79 | while the newline at i is tried as a space, the runes from the line start on are the original text with only that newline replaced |
| LineBreaks.ReconcileStep | pkg/gui/controllers/helpers/commits_helper.go:73-90 | putting the reconciled character at i into the buffer extends the reconciled prefix by one |
| LineBreaks.NewlineStep | pkg/gui/controllers/helpers/commits_helper.go:74-88 | for a newline, keeping the space when the wrapper's first mapping is one past it, and writing the newline back otherwise, extends the reconciled prefix; the next line starts after it |
| LineBreaks.OtherStep | pkg/gui/controllers/helpers/commits_helper.go:73-74 | any other rune is already its reconciled self, and the line start does not move |
| LineBreaks.ReconciledAll | pkg/gui/controllers/helpers/commits_helper.go:70-92 | the fully reconciled message keeps every other rune, turns exactly the newlines that become soft into spaces, and is the message itself when it has no newline |
| LineBreaks.RunesOf | pkg/gui/controllers/helpers/commits_helper.go:71 | `[]rune(message)` is a fresh buffer holding the message |
| LineBreaks.TryRemoveHardLineBreaks | pkg/gui/controllers/helpers/commits_helper.go:70-92 | same length; every other rune unchanged; each newline becomes a space exactly when the wrapper's first mapping of the trial text is one past it, else stays; no newline means unchanged |
| GitmojiInsertion.InEmojiRanges | pkg/gui/controllers/helpers/commits_helper.go:353-389 | a value in one of the listed ranges is at least 0x2600, above every byte, and at most 0x1F9FF |
| GitmojiInsertion.IsEmoji | pkg/gui/controllers/helpers/commits_helper.go:346-394 | as written: true exactly for a value of more than one byte that is one grapheme cluster; the range tests never succeed |
| GitmojiInsertion.IsEmojiIntended | pkg/gui/controllers/helpers/commits_helper.go:345-394 | the range test on the first code point: a one-cluster value of more than one byte, or a first code point in the listed ranges, is an emoji, and an emoji has more than one byte |
| GitmojiInsertion.IsEmojiFirstByteQuirk | pkg/gui/controllers/helpers/commits_helper.go:352-360 | "🔥🔥" is rejected as written although U+1F525 lies in a listed range |
| GitmojiInsertion.IsEmojiAgreesOnClusters | pkg/gui/controllers/helpers/commits_helper.go:405-412 | on a single grapheme cluster, the only values the handler tests, both emoji tests agree |
| GitmojiInsertion.InsertGitmojiAsWritten | pkg/gui/controllers/helpers/commits_helper.go:412-416 | as written, an empty summary becomes the gitmoji |
| GitmojiInsertion.InsertGitmoji | pkg/gui/controllers/helpers/commits_helper.go:412-416 | the new summary starts with the gitmoji; an empty summary becomes the gitmoji |
| GitmojiInsertion.InsertGitmojiKeepsText | pkg/gui/controllers/helpers/commits_helper.go:412-416 | after the gitmoji comes the summary without its leading emoji, or the whole summary when it has none |
| GitmojiInsertion.InsertGitmojiTwice | pkg/gui/controllers/helpers/commits_helper.go:412-416 | choosing a second gitmoji replaces the first, when the first stays a cluster of its own |
| GitmojiInsertion.InsertBeforePlainText | pkg/gui/controllers/helpers/commits_helper.go:412-416 | a summary whose first cluster is one ASCII character gets that character appended again by the written rule, and only the gitmoji put in front by the intended one |
| GitmojiInsertion.InsertGitmojiRepeatsFirstCluster | pkg/gui/controllers/helpers/commits_helper.go:415 | "Fix bug" with "✨" gives "✨Fix bugF" as written, "✨Fix bug" as intended |
| GitmojiInsertion.InsertGitmojiAsWrittenDiffers | pkg/gui/controllers/helpers/commits_helper.go:412-416 | the written rule equals the intended one after a leading emoji, and otherwise has the old first cluster appended |
| GitmojiInsertion.InsertGitmojiReplacesEmoji | pkg/gui/controllers/helpers/commits_helper.go:412-413 | "🔥 rest" with "✨" gives "✨ rest" |
| GitmojiInsertion.InsertGitmojiPrepends | pkg/gui/controllers/helpers/commits_helper.go:414-416 | "X rest" with "✨" gives "✨X rest" |
| GitmojiInsertion.ChooseGitmoji | pkg/gui/controllers/helpers/commits_helper.go:405-411 | the typed value's first cluster when it is an emoji (then an emoji by the intended test as well), else the first cluster of the first suggestion's label; one cluster either way |
| CommitsHelper.PanelSource | pkg/gui/controllers/helpers/commits_helper.go:111-124 | the text shown is the message when non-empty, else the preserved draft when preserving, else "" |
| CommitsHelper.CommitMessageSession.JoinedMessageSplits | pkg/gui/controllers/helpers/commits_helper.go:64-69 | the views' joined message splits back into the summary and the trimmed description |
| CommitsHelper.CommitMessageSession.SetSummary | pkg/gui/controllers/helpers/commits_helper.go:25 | sets the summary and nothing else |
| CommitsHelper.CommitMessageSession.SetDescription | pkg/gui/controllers/helpers/commits_helper.go:28 | sets the description and nothing else |
| CommitsHelper.CommitMessageSession.SetMessageAndDescriptionInView | pkg/gui/controllers/helpers/commits_helper.go:56-62 | the views show the split of the message, the summary free of newlines; nothing else changes |
| CommitsHelper.CommitMessageSession.UpdateCommitPanelView | pkg/gui/controllers/helpers/commits_helper.go:111-124 | the views show the split of the message, else of the draft when preserving, else of ""; nothing else changes |
| CommitsHelper.CommitMessageSession.OpenCommitMessagePanel | pkg/gui/controllers/helpers/commits_helper.go:136-156 | the panel state is the options', the views show the initial message or the draft, and the commit message context is pushed once |
| CommitsHelper.CommitMessageSession.CloseCommitMessagePanel | pkg/gui/controllers/helpers/commits_helper.go:180-196 | the closed state (`ClosedFrom`): the draft becomes the joined message only when preserving and it differs from the initial message; not preserving clears the views; the history is ""; both views are hidden; one context is popped; the panel state stays |
| CommitsHelper.CommitMessageSession.PopContext | pkg/gui/controllers/helpers/commits_helper.go:195 | the top context is removed and nothing else changes |
| CommitsHelper.CommitMessageSession.ConfirmAndClose | pkg/gui/controllers/helpers/commits_helper.go:137-141 | the panel is closed, with the whole closed state of `CloseCommitMessagePanel`, and the caller's callback result is returned unchanged |
| CommitsHelper.CommitMessageSession.HandleCommitConfirm | pkg/gui/controllers/helpers/commits_helper.go:165-178 | an empty summary gives the "commit without message" error with nothing changed; otherwise the panel closes, with the whole closed state of `CloseCommitMessagePanel`, and the callback's result on the views' text is returned |
| CommitsHelper.CommitMessageSession.OnCommitSuccess | pkg/gui/controllers/helpers/commits_helper.go:158-163 | the draft is cleared when preserving, otherwise nothing changes |
| CommitsHelper.CommitMessageSession.SwitchToEditor | pkg/gui/controllers/helpers/commits_helper.go:96-109 | the editor message is what is written; a write failure is returned with nothing changed; otherwise the panel closes, with the whole closed state of `CloseCommitMessagePanel`, and the editor callback's result on the path is returned |
| CommitsHelper.CommitMessageSession.AddGitmoji | pkg/gui/controllers/helpers/commits_helper.go:400-419 | an empty value changes nothing; otherwise the summary becomes the chosen gitmoji inserted by the rule as written, which after a summary not starting with an emoji is the intended result with the old first cluster appended; nothing else changes |
| CommitsHelper.CommitMessageSession.AddGitmojiIntended | pkg/gui/controllers/helpers/commits_helper.go:400-419 | the handler with the corrected rule: the chosen gitmoji replaces a leading emoji or goes in front of the summary, nothing appended; nothing else changes |
| CommitsHelper.CommitMessageSession.PasteCommitMessageFromClipboard | pkg/gui/controllers/helpers/commits_helper.go:425-450 | a read error is returned; the views take the clipboard's split exactly when it is non-empty and the panel is empty or the user confirms; nothing else changes |
| CommitsHelper.CancelAndReopen | pkg/gui/controllers/helpers/commits_helper.go:180-188 | with preservation on, cancelling an edited panel and reopening it with no initial message shows the same summary and description again |
| CommitsHelper.EditedDraftScenario | pkg/gui/controllers/helpers/commits_helper.go:181-185 | opening with "A", editing the summary to "B" and cancelling leaves "B" as the draft |
| CommitsHelper.UneditedDraftScenario | pkg/gui/controllers/helpers/commits_helper.go:181-185 | opening with "A" and cancelling without an edit leaves the old draft |
| CommitsHelper.ConfirmedDraftScenario | pkg/gui/controllers/helpers/commits_helper.go:137-141 | confirming "x" on a preserving panel opened with no initial message pops the commit message context and keeps "x" as the draft |
| CommitsHelper.DraftOnClose | pkg/gui/controllers/helpers/commits_helper.go:181-185 | the draft after closing is the joined message exactly when preserving and it differs from the initial message, else the old draft |
| CommitsHelper.CommitMessageSession.JoinedMessage | pkg/gui/controllers/helpers/commits_helper.go:434 | the joined message of the views is empty exactly when both views are, the test the paste handler makes |

## Left out

- The credentials panel (`pkg/gui/credentials_panel.go`) is not part of this model. It is a rendezvous on an unbuffered channel with work scheduled onto the UI thread, so what matters about it is concurrency.
- `addCoAuthor` is not modelled, because `git_commands.AddCoAuthorToDescription` is not part of this model.
- Suggestion filtering is not modelled: `gitmojiSuggestions`, `utils.FilterStrings` and `matchesToSuggestions`. The suggestion labels for the typed value are a parameter of `AddGitmoji`.
- The menu of `OpenCommitMenu`, translations, the `Prompt`/`Confirm` dialogs, `RenderCommitLength` and logging are not modelled. A confirmation is a boolean parameter.
- I/O is not modelled:
  - the temporary file's path (temp directory, repository name, timestamp) is a parameter of `SwitchToEditor`;
  - `CreateFileWithContent` and `PasteFromClipboard` appear only through their outcome;
  - a failure to read or write the preserved draft is not modelled; reading it gives the stored value.
- `gocui.AutoWrapContent` is a function parameter. Nothing is claimed about its behaviour, so the reconciler's idempotence and its keeping of blank lines are not proved.
- Grapheme segmentation implements the rules GB3 to GB13 and GB999 of Unicode Standard Annex #29 except GB9a and GB9b (SpacingMark, Prepend). The Grapheme_Cluster_Break and Extended_Pictographic tables are approximated by whole blocks around emoji, combining marks, Hangul and regional indicators, so a block may hold a few code points the Unicode tables leave out (U+219A–U+21A8 count as Extended_Pictographic, for instance). Characters outside them count as Other.
- Invalid UTF-8 is not modelled: strings are sequences of Unicode scalar values.
- CommitsHelper.CommitMessageSession.SetDescription: the description view's soft wrapping is not modelled, so `getCommitDescription` and `getUnwrappedCommitDescription` both read the same `description` field.
- CommitsHelper.CommitMessageSession.PopContext: the context manager is not part of this model. Its pop removes the top context when there is one; any guard it keeps for the bottom context is not modelled.
- CommitsHelper.CommitMessageSession.OpenCommitMessagePanel: the views are made visible by the context manager when the context is pushed; that is not modelled, so visibility is left as it was.
- GitmojiInsertion.IsEmoji requires a non-empty value, because Go's `value[0]` panics on "". Every caller guards against that.
- CommitsHelper.CommitMessageSession.AddGitmoji requires a non-empty suggestion list when the typed value's first cluster is not an emoji, because Go's `suggestions[0]` panics otherwise.
- CommitsHelper.CommitMessageSession.AddGitmojiIntended requires a non-empty suggestion list on the same path, for the same reason.

## Findings

| source | as written | input that shows it | evidently intended | confidence | as-written member | corrected member |
|---|---|---|---|---|---|---|
| pkg/gui/controllers/helpers/commits_helper.go:415 | a summary that does not start with an emoji becomes gitmoji + summary + the summary's first cluster | summary "Fix bug", gitmoji "✨" gives "✨Fix bugF" | gitmoji + summary, "✨Fix bug" | high; not executed | GitmojiInsertion.InsertGitmojiAsWritten | GitmojiInsertion.InsertGitmoji |
| pkg/gui/controllers/helpers/commits_helper.go:352 | `rune(value[0])` is the first byte, so none of the code point ranges can match | "🔥🔥" (two clusters, U+1F525 in 1F300–1F5FF) is not an emoji | the range test applies to the first code point | high; not executed | GitmojiInsertion.IsEmoji | GitmojiInsertion.IsEmojiIntended |
