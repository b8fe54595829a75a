/**
 * The gitmoji catalog: an immutable, ordered table of (emoji, label) pairs,
 * read only through filtering, mapping and a first-match search.
 */
module GitmojiCatalog {
  import opened Text
  import opened Graphemes

  datatype Gitmoji = Gitmoji(emoji: string, labelText: string)

  /**
   * Entry `i` (0 to 72) of the table, in source order. Emojis are written as
   * code points: U+FE0F is the emoji variation selector, U+200D the zero-width joiner.
   */
  function Entry(i: int): (g: Gitmoji)
    ensures g.emoji != []
  {
    if i == 0 then Gitmoji("\U{2795}", "Add a dependency")
    else if i == 1 then Gitmoji("\U{1F9EA}", "Add a failing test")
    else if i == 2 then Gitmoji("\U{1F477}", "Add or update CI build system")
    else if i == 3 then Gitmoji("\U{1F648}", "Add or update a .gitignore file")
    else if i == 4 then Gitmoji("\U{1F95A}", "Add or update an easter egg")
    else if i == 5 then Gitmoji("\U{1F4C8}", "Add or update analytics or track code")
    else if i == 6 then Gitmoji("\U{1F4AB}", "Add or update animations and transitions")
    else if i == 7 then Gitmoji("\U{1F371}", "Add or update assets")
    else if i == 8 then Gitmoji("\U{1F454}", "Add or update business logic")
    else if i == 9 then Gitmoji("\U{1F9F5}", "Add or update code related to multithreading or concurrency")
    else if i == 10 then Gitmoji("\U{1F9BA}", "Add or update code related to validation")
    else if i == 11 then Gitmoji("\U{1F4A1}", "Add or update comments in source code")
    else if i == 12 then Gitmoji("\U{1F4E6}\U{FE0F}", "Add or update compiled files or packages")
    else if i == 13 then Gitmoji("\U{1F527}", "Add or update configuration files")
    else if i == 14 then Gitmoji("\U{1F465}", "Add or update contributor(s)")
    else if i == 15 then Gitmoji("\U{1F528}", "Add or update development scripts")
    else if i == 16 then Gitmoji("\U{1F4DD}", "Add or update documentation")
    else if i == 17 then Gitmoji("\U{1FA7A}", "Add or update healthcheck")
    else if i == 18 then Gitmoji("\U{1F4C4}", "Add or update license")
    else if i == 19 then Gitmoji("\U{1F50A}", "Add or update logs")
    else if i == 20 then Gitmoji("\U{1F510}", "Add or update secrets")
    else if i == 21 then Gitmoji("\U{1F331}", "Add or update seed files")
    else if i == 22 then Gitmoji("\U{1F4F8}", "Add or update snapshots")
    else if i == 23 then Gitmoji("\U{1F4AC}", "Add or update text and literals")
    else if i == 24 then Gitmoji("\U{1F484}", "Add or update the UI and style files")
    else if i == 25 then Gitmoji("\U{1F3F7}\U{FE0F}", "Add or update types")
    else if i == 26 then Gitmoji("\U{1F4B8}", "Add sponsorships or money related infrastructure")
    else if i == 27 then Gitmoji("\U{2705}", "Add, update, or pass tests")
    else if i == 28 then Gitmoji("\U{1F6A9}", "Add, update, or remove feature flags")
    else if i == 29 then Gitmoji("\U{1F389}", "Begin a project")
    else if i == 30 then Gitmoji("\U{1F945}", "Catch errors")
    else if i == 31 then Gitmoji("\U{1F691}\U{FE0F}", "Critical hotfix")
    else if i == 32 then Gitmoji("\U{1F9D0}", "Data exploration/inspection")
    else if i == 33 then Gitmoji("\U{1F680}", "Deploy stuff")
    else if i == 34 then Gitmoji("\U{1F5D1}\U{FE0F}", "Deprecate code that needs to be cleaned up")
    else if i == 35 then Gitmoji("\U{2B07}\U{FE0F}", "Downgrade dependencies")
    else if i == 36 then Gitmoji("\U{1F49A}", "Fix CI Build")
    else if i == 37 then Gitmoji("\U{1F41B}", "Fix a bug")
    else if i == 38 then Gitmoji("\U{1F6A8}", "Fix compiler / linter warnings")
    else if i == 39 then Gitmoji("\U{1F512}\U{FE0F}", "Fix security or privacy issues")
    else if i == 40 then Gitmoji("\U{270F}\U{FE0F}", "Fix typos")
    else if i == 41 then Gitmoji("\U{1F50D}\U{FE0F}", "Improve SEO")
    else if i == 42 then Gitmoji("\U{267F}\U{FE0F}", "Improve accessibility")
    else if i == 43 then Gitmoji("\U{1F9D1}\U{200D}\U{1F4BB}", "Improve developer experience")
    else if i == 44 then Gitmoji("\U{26A1}\U{FE0F}", "Improve performance")
    else if i == 45 then Gitmoji("\U{1F3A8}", "Improve structure / format of the code")
    else if i == 46 then Gitmoji("\U{1F6B8}", "Improve user experience / usability")
    else if i == 47 then Gitmoji("\U{1F9F1}", "Infrastructure related changes")
    else if i == 48 then Gitmoji("\U{1F310}", "Internationalization and localization")
    else if i == 49 then Gitmoji("\U{1F4A5}", "Introduce breaking changes")
    else if i == 50 then Gitmoji("\U{2728}", "Introduce new features")
    else if i == 51 then Gitmoji("\U{1F3D7}\U{FE0F}", "Make architectural changes")
    else if i == 52 then Gitmoji("\U{1F500}", "Merge branches")
    else if i == 53 then Gitmoji("\U{1F921}", "Mock things")
    else if i == 54 then Gitmoji("\U{1F69A}", "Move or rename resources (e.g.: files, paths, routes)")
    else if i == 55 then Gitmoji("\U{1F5C3}\U{FE0F}", "Perform database related changes")
    else if i == 56 then Gitmoji("\U{2697}\U{FE0F}", "Perform experiments")
    else if i == 57 then Gitmoji("\U{1F4CC}", "Pin dependencies to specific versions")
    else if i == 58 then Gitmoji("\U{267B}\U{FE0F}", "Refactor code")
    else if i == 59 then Gitmoji("\U{1F516}", "Release / Version tags")
    else if i == 60 then Gitmoji("\U{2796}", "Remove a dependency")
    else if i == 61 then Gitmoji("\U{1F525}", "Remove code or files")
    else if i == 62 then Gitmoji("\U{26B0}\U{FE0F}", "Remove dead code")
    else if i == 63 then Gitmoji("\U{1F507}", "Remove logs")
    else if i == 64 then Gitmoji("\U{23EA}\U{FE0F}", "Revert changes")
    else if i == 65 then Gitmoji("\U{1FA79}", "Simple fix for a non-critical issue")
    else if i == 66 then Gitmoji("\U{1F47D}\U{FE0F}", "Update code due to external API changes")
    else if i == 67 then Gitmoji("\U{2B06}\U{FE0F}", "Upgrade dependencies")
    else if i == 68 then Gitmoji("\U{1F6A7}", "Work in progress")
    else if i == 69 then Gitmoji("\U{1F6C2}", "Work on code related to authorization, roles and permissions")
    else if i == 70 then Gitmoji("\U{1F4F1}", "Work on responsive design")
    else if i == 71 then Gitmoji("\U{1F4A9}", "Write bad code that needs to be improved")
    else Gitmoji("\U{1F37B}", "Write code drunkenly")  // i == 72 and beyond
  }

  /** The table: 73 entries, none with an empty emoji. */
  function Gitmojis(): (t: seq<Gitmoji>)
    ensures |t| == 73
    ensures forall i :: 0 <= i < |t| ==> t[i].emoji != []
  {
    seq(73, Entry)
  }

  /** A table entry kept when multi-character gitmojis are hidden: its first grapheme cluster has at most one code point. */
  predicate SingleRune(g: Gitmoji): (b: bool)
    ensures b <==> g.emoji == [] || FirstCluster(g.emoji) == g.emoji[..1]
  {
    |FirstCluster(g.emoji)| <= 1
  }

  /** The labels of a table, in order. */
  function Labels(t: seq<Gitmoji>): (r: seq<string>)
    ensures |r| == |t|
    ensures forall i :: 0 <= i < |t| ==> r[i] == t[i].labelText
  {
    if t == [] then [] else [t[0].labelText] + Labels(t[1..])
  }

  /** The filter-then-map of `GetGitmojiActions`, over any table. */
  function ActionLabels(t: seq<Gitmoji>, showMultiCharacter: bool): (r: seq<string>)
    ensures forall k :: 0 <= k < |r| ==> exists i :: 0 <= i < |t| && t[i].labelText == r[k]
  {
    if t == [] then []
    else if showMultiCharacter || SingleRune(t[0]) then [t[0].labelText] + ActionLabels(t[1..], showMultiCharacter)
    else ActionLabels(t[1..], showMultiCharacter)
  }

  /** `a` is `b` with some elements left out, the rest in order. */
  predicate IsSubsequence(a: seq<string>, b: seq<string>)
  {
    if a == [] then true
    else if b == [] then false
    else (a[0] == b[0] && IsSubsequence(a[1..], b[1..])) || IsSubsequence(a, b[1..])
  }

  /** The filter works entry by entry: it distributes over concatenation of tables. */
  lemma {:induction false} ActionLabelsAppend(a: seq<Gitmoji>, c: seq<Gitmoji>, showMultiCharacter: bool)
    ensures ActionLabels(a + c, showMultiCharacter) == ActionLabels(a, showMultiCharacter) + ActionLabels(c, showMultiCharacter)
  {
    if a == [] {
      assert a + c == c;
    } else {
      assert (a + c)[0] == a[0];
      assert (a + c)[1..] == a[1..] + c;
      ActionLabelsAppend(a[1..], c, showMultiCharacter);
    }
  }

  /**
   * Entry `i` contributes its label, in its place between the labels kept
   * from the entries before and after it, exactly when it is shown: always,
   * or when its first grapheme cluster is one code point.
   */
  lemma EntryContribution(t: seq<Gitmoji>, showMultiCharacter: bool, i: nat)
    requires i < |t|
    ensures ActionLabels(t, showMultiCharacter)
            == ActionLabels(t[..i], showMultiCharacter)
               + (if showMultiCharacter || SingleRune(t[i]) then [t[i].labelText] else [])
               + ActionLabels(t[i + 1..], showMultiCharacter)
  {
    assert t == t[..i] + ([t[i]] + t[i + 1..]);
    ActionLabelsAppend(t[..i], [t[i]] + t[i + 1..], showMultiCharacter);
    ActionLabelsAppend([t[i]], t[i + 1..], showMultiCharacter);
    assert ([t[i]] + t[i + 1..])[1..] == t[i + 1..];
  }

  /** Showing everything lists every label, in table order. */
  lemma {:induction false} ActionLabelsShowAll(t: seq<Gitmoji>)
    ensures ActionLabels(t, true) == Labels(t)
  {
    if t != [] {
      ActionLabelsShowAll(t[1..]);
    }
  }

  /** Hiding multi-character gitmojis only drops labels: the rest keep their order. */
  lemma {:induction false} ActionLabelsSubsequence(t: seq<Gitmoji>, showMultiCharacter: bool)
    ensures IsSubsequence(ActionLabels(t, showMultiCharacter), Labels(t))
    ensures |ActionLabels(t, showMultiCharacter)| <= |t|
  {
    if t != [] {
      ActionLabelsSubsequence(t[1..], showMultiCharacter);
      assert Labels(t)[1..] == Labels(t[1..]);
    }
  }

  /** `GetGitmojiActions`: the labels of the table, without the multi-character gitmojis unless asked for. */
  function GetGitmojiActions(showMultiCharacter: bool): (r: seq<string>)
    ensures showMultiCharacter ==> r == Labels(Gitmojis())
    ensures IsSubsequence(r, Labels(Gitmojis())) && |r| <= |Gitmojis()|
  {
    ActionLabelsShowAll(Gitmojis());
    ActionLabelsSubsequence(Gitmojis(), showMultiCharacter);
    ActionLabels(Gitmojis(), showMultiCharacter)
  }

  /**
   * Under the grapheme rules, "➕" ("Add a dependency") is shown, while "📦️"
   * ("Add or update compiled files or packages", with U+FE0F) and "🧑‍💻"
   * ("Improve developer experience", a ZWJ sequence) are hidden when
   * multi-character gitmojis are.
   */
  lemma GitmojiActionsExamples()
    ensures SingleRune(Gitmojis()[0])
    ensures !SingleRune(Gitmojis()[12])
    ensures !SingleRune(Gitmojis()[43])
  {
    assert Gitmojis()[0] == Gitmoji("\U{2795}", "Add a dependency");
    assert Gitmojis()[12] == Gitmoji("\U{1F4E6}\U{FE0F}", "Add or update compiled files or packages");
    assert Gitmojis()[43] == Gitmoji("\U{1F9D1}\U{200D}\U{1F4BB}", "Improve developer experience");
  }

  /** The first label of the filtered list is the first entry's. */
  lemma FirstActionIsAddADependency()
    ensures GetGitmojiActions(false)[0] == "Add a dependency"
  {
    GitmojiActionsExamples();
    EntryContribution(Gitmojis(), false, 0);
  }

  /** `lo.Find`: the index of the first entry satisfying `p`, if any. */
  function FindFirst(t: seq<Gitmoji>, p: Gitmoji -> bool): (r: Option<nat>)
    ensures r.Some? ==> r.value < |t| && p(t[r.value]) && forall j :: 0 <= j < r.value ==> !p(t[j])
    ensures r.None? ==> forall j :: 0 <= j < |t| ==> !p(t[j])
  {
    if t == [] then None
    else if p(t[0]) then Some(0)
    else match FindFirst(t[1..], p)
      case None => None
      case Some(k) => Some(k + 1)
  }

  /** True when `grapheme` is exactly the emoji of some table entry. */
  function IsGitmoji(grapheme: string): (b: bool)
    ensures b <==> exists i :: 0 <= i < |Gitmojis()| && Gitmojis()[i].emoji == grapheme
  {
    FindFirst(Gitmojis(), (g: Gitmoji) => g.emoji == grapheme).Some?
  }

  /** The emoji of the first entry labelled exactly `wanted`, or "" when there is none. */
  function GetGitmojiByLabel(wanted: string): (r: string)
    ensures (forall i :: 0 <= i < |Gitmojis()| ==> Gitmojis()[i].labelText != wanted) ==> r == ""
    ensures (exists i :: 0 <= i < |Gitmojis()| && Gitmojis()[i].labelText == wanted) ==>
              exists i :: 0 <= i < |Gitmojis()| && Gitmojis()[i].labelText == wanted && r == Gitmojis()[i].emoji
                          && forall j :: 0 <= j < i ==> Gitmojis()[j].labelText != wanted
  {
    match FindFirst(Gitmojis(), (g: Gitmoji) => g.labelText == wanted)
    case None => ""
    case Some(i) => Gitmojis()[i].emoji
  }

  /** Every emoji in the table is non-empty, so "" from the label lookup means exactly "no such label". */
  lemma GetGitmojiByLabelEmptyIff(wanted: string)
    ensures GetGitmojiByLabel(wanted) == "" <==> forall i :: 0 <= i < |Gitmojis()| ==> Gitmojis()[i].labelText != wanted
  {
    if exists i :: 0 <= i < |Gitmojis()| && Gitmojis()[i].labelText == wanted {
      var i :| 0 <= i < |Gitmojis()| && Gitmojis()[i].labelText == wanted && GetGitmojiByLabel(wanted) == Gitmojis()[i].emoji;
      assert Gitmojis()[i] == Entry(i);
    }
  }

  /** Whatever the label lookup finds is a gitmoji. */
  lemma GetGitmojiByLabelIsGitmoji(wanted: string)
    ensures GetGitmojiByLabel(wanted) != "" ==> IsGitmoji(GetGitmojiByLabel(wanted))
  {
    if GetGitmojiByLabel(wanted) != "" {
      var i :| 0 <= i < |Gitmojis()| && Gitmojis()[i].labelText == wanted && GetGitmojiByLabel(wanted) == Gitmojis()[i].emoji;
    }
  }

  lemma GetGitmojiByLabelExample()
    ensures GetGitmojiByLabel("Add a dependency") == "\U{2795}"
    ensures IsGitmoji("\U{2795}")
  {
    assert Gitmojis()[0] == Gitmoji("\U{2795}", "Add a dependency");
  }
}
