/**
 From pull requests to package changelogs: the block that update_changelog.py writes is read back by
 releaser.py, and every pull request reaches exactly the packages it concerns.
 */
module ChangelogRoundTrip {
  import opened Outcomes
  import opened Strings
  import opened PyText
  import opened OlderReleases
  import W = ChangelogWriter
  import R = Releaser

  predicate PlainPr(pr: W.Pr) {
    W.OrderOk(pr) && OneLine(pr.title) && OneLine(pr.author) && OneLine(pr.url)
  }

  predicate PlainPrs(prs: seq<W.Pr>) {
    forall i | 0 <= i < |prs| :: PlainPr(prs[i])
  }

  /** The pull request concerns the package, or all, or none in particular. */
  predicate Concerns(pr: W.Pr, name: string) {
    W.ForAll(pr.files) || name + "/" in W.Concerned(pr.files)
  }

  function Packages(): seq<string> {
    ["libmamba", "libmambapy", "micromamba"]
  }

  // ---------- What each package should get ----------

  function Wanted(prs: seq<W.Pr>, name: string): seq<string> {
    if prs == [] then []
    else Wanted(prs[..|prs| - 1], name)
         + WantedText(prs[|prs| - 1], name)
  }

  /** The line of a pull request in the changelog of a package it concerns. */
  function WantedText(pr: W.Pr, name: string): seq<string> {
    if Concerns(pr, name) then ["- " + Strip(pr.title + " by @" + pr.author + " in " + pr.url)] else []
  }

  /** Under the heading, with an empty line before it unless it is the first of the release. */
  function WantedOf(heading: string, prs: seq<W.Pr>, name: string, first: bool): seq<string> {
    if Wanted(prs, name) == [] then [] else [(if first then "" else "\n") + heading] + Wanted(prs, name)
  }

  function WantedAll(s: W.Sorted, name: string): seq<string> {
    WantedOf("Enhancements:", s.enhancements, name, true)
    + WantedOf("Bug fixes:", s.bugFixes, name, s.enhancements == [])
    + WantedOf("CI fixes and doc:", s.ciDocs, name, s.enhancements == [] && s.bugFixes == [])
  }

  // ---------- Labels ----------

  lemma RefsAre(r: string)
    requires r in W.Refs()
    ensures r[..|r| - 1] in Packages() && r == r[..|r| - 1] + "/"
  {
    assert "libmamba/"[..8] == "libmamba" && "libmambapy/"[..10] == "libmambapy" && "micromamba/"[..10] == "micromamba";
  }

  /** A package name can stand in a label: it is a word without comma and bracket. */
  predicate PlainName(n: string) {
    Word(n) && ',' !in n && '[' !in n && ']' !in n && '\n' !in n
  }

  lemma PlainNames(n: string)
    requires n in Packages() || n == "all"
    ensures PlainName(n)
  {}

  lemma LabelPlain(pr: W.Pr)
    requires W.OrderOk(pr)
    ensures W.Label(pr) != [] && forall i | 0 <= i < |W.Label(pr)| :: PlainName(W.Label(pr)[i])
  {
    W.OrderNonEmpty(pr);
    if !W.ForAll(pr.files) {
      forall i | 0 <= i < |pr.order| ensures PlainName(W.Label(pr)[i]) {
        RefsAre(pr.order[i]);
        PlainNames(W.Label(pr)[i]);
      }
      var r :| r in W.Concerned(pr.files);
      assert r in pr.order;
    } else {
      PlainNames("all");
    }
  }

  function Pad(names: seq<string>): (r: seq<string>)
    ensures |r| == |names| && forall i | 0 <= i < |names| :: r[i] == " " + names[i]
  {
    seq(|names|, i requires 0 <= i < |names| => " " + names[i])
  }

  lemma JoinPrefix(p: string, x: string, rest: seq<string>, sep: string)
    ensures p + Join([x] + rest, sep) == Join([p + x] + rest, sep)
  {
    assert ([x] + rest)[1..] == rest && ([p + x] + rest)[1..] == rest;
    if rest != [] {
      assert p + (x + sep + Join(rest, sep)) == (p + x) + sep + Join(rest, sep);
    }
  }

  /** A comma and a space, or a comma and a padded name. */
  lemma {:induction false} JoinPadded(names: seq<string>)
    requires names != []
    ensures Join(names, ", ") == Join([names[0]] + Pad(names[1..]), ",")
  {
    var padded := Pad(names[1..]);
    assert ([names[0]] + padded)[1..] == padded;
    if |names| <= 1 {
    } else {
      JoinPadded(names[1..]);
      var next := Pad(names[1..][1..]);
      JoinPrefix(" ", names[1], next, ",");
      assert padded == [" " + names[1]] + next;
      assert names[0] + ", " + Join(names[1..], ", ") == names[0] + "," + (" " + Join(names[1..], ", "));
    }
  }

  /** Reading a label back gives its names. */
  lemma NamesOfJoin(names: seq<string>)
    requires names != [] && forall i | 0 <= i < |names| :: PlainName(names[i])
    ensures R.Names(Join(names, ", ")) == names
  {
    hide Split, Join, Strip, Separable, PlainName, R.StripAll;
    var parts := [names[0]] + Pad(names[1..]);
    JoinPadded(names);
    PartsOf(names);
    JoinLength(parts, ",");
    SplitJoin(parts, ",", |Join(parts, ",")|);
    StripParts(parts, names);
  }

  lemma PartsOf(names: seq<string>)
    requires names != [] && forall i | 0 <= i < |names| :: PlainName(names[i])
    ensures var parts := [names[0]] + Pad(names[1..]);
            |parts| == |names| && forall i | 0 <= i < |parts| :: Separable(parts[i], ",") && Strip(parts[i]) == names[i]
  {
    hide Strip, Separable, PlainName;
    var parts := [names[0]] + Pad(names[1..]);
    forall i | 0 <= i < |parts| ensures Separable(parts[i], ",") && Strip(parts[i]) == names[i] {
      NamePart(names[i]);
      assert parts[i] == if i == 0 then names[0] else " " + names[i];
    }
  }

  lemma StripParts(parts: seq<string>, names: seq<string>)
    requires |parts| == |names| && forall i | 0 <= i < |parts| :: Strip(parts[i]) == names[i]
    ensures R.StripAll(parts) == names
  {
    hide Strip;
  }

  lemma NamePart(n: string)
    requires PlainName(n)
    ensures Separable(n, ",") && Strip(n) == n
    ensures Separable(" " + n, ",") && Strip(" " + n) == n
  {
    SeparableChar(n, ',');
    SeparableChar(" " + n, ',');
    StripOfTrim(n);
    StripSides(n);
  }

  predicate Lacks(s: string, c: char) {
    forall i | 0 <= i < |s| :: s[i] != c
  }

  lemma {:induction false} JoinLacks(parts: seq<string>, sep: string, c: char)
    requires Lacks(sep, c) && forall i | 0 <= i < |parts| :: Lacks(parts[i], c)
    ensures Lacks(Join(parts, sep), c)
  {
    if |parts| <= 1 {
    } else {
      JoinLacks(parts[1..], sep, c);
    }
  }

  lemma LabelLacks(pr: W.Pr)
    requires W.OrderOk(pr)
    ensures Lacks(Join(W.Label(pr), ", "), ']') && Lacks(Join(W.Label(pr), ", "), '\n')
  {
    LabelPlain(pr);
    var tag := W.Label(pr);
    forall i | 0 <= i < |tag| ensures Lacks(tag[i], ']') && Lacks(tag[i], '\n') {
      assert PlainName(tag[i]);
    }
    JoinLacks(tag, ", ", ']');
    JoinLacks(tag, ", ", '\n');
  }

  /** A label names a package exactly when its pull request concerns it. */
  lemma LabelApplies(pr: W.Pr, name: string)
    requires W.OrderOk(pr) && name in Packages()
    ensures R.Applies(W.Label(pr), name) <==> Concerns(pr, name)
  {
    hide W.Concerned, Packages, W.Refs, PlainName;
    W.OrderNonEmpty(pr);
    if !W.ForAll(pr.files) {
      var tag := W.Label(pr);
      forall i | 0 <= i < |tag| ensures tag[i] in Packages() && pr.order[i] == tag[i] + "/" {
        RefsAre(pr.order[i]);
      }
      AllIsNoPackage();
      if name + "/" in W.Concerned(pr.files) {
        assert name + "/" in pr.order;
        var i :| 0 <= i < |pr.order| && pr.order[i] == name + "/";
        assert (name + "/")[..|name|] == name;
      }
      if name in tag {
        var i :| 0 <= i < |tag| && tag[i] == name;
        assert pr.order[i] in pr.order;
      }
    }
  }

  lemma AllIsNoPackage()
    ensures "all" !in Packages()
  {}

  // ---------- Rows ----------

  lemma FindCharFrom(s: string, c: char, from: nat, i: nat)
    requires from <= i < |s| && s[i] == c && forall k | from <= k < i :: s[k] != c
    ensures Find(s, [c], from) == Some(i)
  {
    assert s[i..i + 1] == [c];
    assert OccursAt(s, [c], i);
    forall k | from <= k < i ensures !OccursAt(s, [c], k) {
      assert s[k..k + 1][0] == s[k];
    }
  }

  lemma BracketOfRow(inner: string, tail: string)
    requires Lacks(inner, ']')
    ensures R.Bracket("- [" + inner + "]" + tail) == Some((inner, |inner| + 4))
    ensures ("- [" + inner + "]" + tail)[|inner| + 4..] == tail
  {
    var s := "- [" + inner + "]" + tail;
    assert s[2] == '[' && s[0] == '-' && s[1] == ' ';
    FindCharFrom(s, '[', 0, 2);
    assert s[3..3 + |inner|] == inner;
    forall k | 3 <= k < 3 + |inner| ensures s[k] != ']' {
      assert s[k] == inner[k - 3];
    }
    FindCharFrom(s, ']', 3, 3 + |inner|);
  }

  lemma LStripFeed(s: string)
    ensures LStrip(s + "\n") == if LStrip(s) == "" then "" else LStrip(s) + "\n"
  {
    if s == "" {
      assert ("\n")[1..] == "";
    } else {
      assert (s + "\n")[1..] == s[1..] + "\n";
    }
  }

  /** Padding is stripped off whatever it surrounds. */
  lemma StripPad(s: string)
    ensures Strip(" " + s + "\n") == Strip(s)
  {
    assert (" " + s + "\n")[1..] == s + "\n";
    LStripFeed(s);
    var t := LStrip(s);
    assert (t + "\n")[..|t|] == t;
  }

  function ItemFor(pr: W.Pr): R.Item
    requires W.OrderOk(pr)
  {
    R.Item(Strip(W.Description(pr)), W.Label(pr))
  }

  lemma ItemOfRow(pr: W.Pr)
    requires W.OrderOk(pr)
    ensures R.ItemOf(W.Row(pr)) == ItemFor(pr)
    ensures StartsWith(W.Row(pr), "- [")
  {
    var inner, desc := Join(W.Label(pr), ", "), W.Description(pr);
    LabelLacks(pr);
    LabelPlain(pr);
    NamesOfJoin(W.Label(pr));
    hide Join, W.Label, W.Description, R.Names, Strip, R.Bracket, Lacks;
    var tail := " " + desc + "\n";
    assert W.Row(pr) == "- [" + inner + "]" + tail;
    BracketOfRow(inner, tail);
    StripPad(desc);
  }

  lemma RowIsLine(pr: W.Pr)
    requires PlainPr(pr)
    ensures IsLine(W.Row(pr))
  {
    LabelLacks(pr);
    var inner := Join(W.Label(pr), ", ");
    DescriptionOneLine(pr);
    hide Join, W.Label, W.Description;
    assert W.Row(pr) == ("- [" + inner + "] " + W.Description(pr)) + "\n";
  }

  lemma DescriptionOneLine(pr: W.Pr)
    requires PlainPr(pr)
    ensures OneLine(W.Description(pr))
  {
    assert W.Description(pr) == pr.title + (" by @" + (pr.author + (" in " + pr.url)));
  }

  lemma DashLine(c: string)
    requires StartsWith(c, "-")
    ensures Strip(c) != "" && !StartsWith(c, "Releases") && !StartsWith(c, "====")
  {
    assert c[0] == c[..1][0] == '-';
    assert LStrip(c) == c;
    RStripKeepsHead(c);
    NotPrefix(c, "Releases");
    NotPrefix(c, "====");
  }

  lemma NotPrefix(c: string, prefix: string)
    requires c != "" && prefix != "" && c[0] != prefix[0]
    ensures !StartsWith(c, prefix)
  {
    if |prefix| <= |c| {
      assert c[..|prefix|][0] == c[0];
    }
  }

  // ---------- The parser over the written lines ----------

  function Items(prs: seq<W.Pr>): (r: seq<R.Item>)
    requires W.OrdersOk(prs)
    ensures |r| == |prs| && forall i | 0 <= i < |prs| :: r[i] == ItemFor(prs[i])
  {
    seq(|prs|, i requires 0 <= i < |prs| => ItemFor(prs[i]))
  }

  /** The line does not start the next release's mark. */
  predicate NoMark(lines: seq<string>) {
    lines != [] && !StartsWith(lines[0], "====")
  }

  lemma LoopStep(st: R.State, c: string, rest: seq<string>)
    requires R.StateOk(st) && !StartsWith(c, "Releases") && NoMark(rest) && R.Step(st, c).Ok?
    ensures R.Loop(st, [c] + rest) == R.Loop(R.Step(st, c).value, rest)
  {
    hide StartsWith, R.Step;
    assert ([c] + rest)[1..] == rest;
  }

  lemma RowStep(st: R.State, pr: W.Pr)
    requires st.sections != [] && !st.inSection && W.OrderOk(pr)
    ensures !StartsWith(W.Row(pr), "Releases") && !StartsWith(W.Row(pr), "====")
    ensures R.Step(st, W.Row(pr)) == Ok(WithItems(st, [ItemFor(pr)]))
  {
    ItemOfRow(pr);
    DashStart(W.Row(pr));
    DashLine(W.Row(pr));
    hide Strip, R.ItemOf, W.Row, StartsWith;
  }

  lemma DashStart(c: string)
    requires StartsWith(c, "- [")
    ensures StartsWith(c, "-")
  {
    assert c[..3][..1] == c[..1];
  }

  function WithItems(st: R.State, items: seq<R.Item>): R.State
    requires st.sections != []
  {
    var s := R.Last(st.sections);
    st.(sections := R.WithLast(st.sections, s.(items := s.items + items)))
  }

  lemma WithItemsTwice(st: R.State, a: seq<R.Item>, b: seq<R.Item>)
    requires st.sections != []
    ensures WithItems(WithItems(st, a), b) == WithItems(st, a + b)
  {
    var s := R.Last(st.sections);
    assert (s.items + a) + b == s.items + (a + b);
    assert WithItems(st, a).sections[..|st.sections| - 1] == st.sections[..|st.sections| - 1];
  }

  lemma {:induction false} LoopRows(st: R.State, prs: seq<W.Pr>, rest: seq<string>)
    requires st.sections != [] && !st.inSection && W.OrdersOk(prs) && NoMark(rest)
    ensures R.Loop(st, W.Rows(prs) + rest) == R.Loop(WithItems(st, Items(prs)), rest)
    decreases |prs|
  {
    hide R.Loop, R.Step, W.Row, ItemFor, StartsWith;
    if prs == [] {
      assert W.Rows(prs) + rest == rest;
      var s := R.Last(st.sections);
      assert s.items + [] == s.items;
      assert WithItems(st, []) == st;
    } else {
      var pr, tail := prs[0], W.Rows(prs[1..]) + rest;
      assert W.OrderOk(pr);
      RowStep(st, pr);
      assert W.Rows(prs) + rest == [W.Row(pr)] + tail;
      if |prs| > 1 {
        assert tail[0] == W.Row(prs[1]);
        assert W.OrderOk(prs[1]);
        RowStep(st, prs[1]);
      } else {
        assert tail == rest;
      }
      LoopStep(st, W.Row(pr), tail);
      LoopRows(WithItems(st, [ItemFor(pr)]), prs[1..], rest);
      WithItemsTwice(st, [ItemFor(pr)], Items(prs[1..]));
      assert Items(prs) == [ItemFor(pr)] + Items(prs[1..]);
    }
  }

  lemma FeedLine(st: R.State)
    requires R.StateOk(st)
    ensures !StartsWith("\n", "Releases") && !StartsWith("\n", "====")
    ensures R.Step(st, "\n") == Ok(st.(inSection := false))
  {
    assert LStrip("\n") == LStrip("\n"[1..]) == "";
  }

  lemma HeadingText(c: W.Category)
    ensures var n := W.CategoryName(c); |n| > 1 && n[0] in "EBC" && Lacks(n, '[') && Lacks(n, '\n')
  {}

  lemma HeadingLine(c: W.Category)
    ensures var h := W.CategoryName(c) + ":\n";
            && !StartsWith(h, "Releases") && !StartsWith(h, "====") && !StartsWith(h, "-") && !StartsWith(h, " ")
            && IsLine(h) && Strip(h) == W.CategoryName(c) + ":" && R.Bracket(h) == None
  {
    hide W.CategoryName;
    HeadingText(c);
    var n := W.CategoryName(c);
    var h := n + ":\n";
    assert h == (n + ":") + "\n";
    NotPrefix(h, "Releases");
    NotPrefix(h, "====");
    NotPrefix(h, "-");
    NotPrefix(h, " ");
    StripSides(n + ":");
    NoBracket(h);
  }

  lemma HeadingStep(st: R.State, c: W.Category)
    requires R.StateOk(st) && !st.inSection
    ensures R.Step(st, W.CategoryName(c) + ":\n")
         == Ok(R.State(st.versions,
                       st.sections + [R.SectionValue(W.CategoryName(c) + ":\n", ["all"], [])],
                       true))
  {
    HeadingLine(c);
    hide StartsWith, Strip, R.Bracket, W.CategoryName;
    var h := W.CategoryName(c) + ":\n";
    assert "" + h == h;
  }

  lemma NoBracket(h: string)
    requires Lacks(h, '[')
    ensures R.Bracket(h) == None
  {
    forall k | 0 <= k ensures !OccursAt(h, "[", k) {
      if k + 1 <= |h| {
        assert h[k..k + 1][0] == h[k];
      }
    }
    FindNone(h, "[");
  }

  function SectionFor(c: W.Category, prs: seq<W.Pr>): R.SectionValue
    requires W.OrdersOk(prs)
  {
    R.SectionValue(W.CategoryName(c) + ":\n", ["all"], Items(prs))
  }

  function SectionsFor(c: W.Category, prs: seq<W.Pr>): seq<R.SectionValue>
    requires W.OrdersOk(prs)
  {
    if prs == [] then [] else [SectionFor(c, prs)]
  }

  lemma LoopCategory(st: R.State, c: W.Category, prs: seq<W.Pr>, rest: seq<string>)
    requires !st.inSection && W.OrdersOk(prs) && NoMark(rest)
    ensures R.Loop(st, W.CategoryLines(c, prs) + rest)
         == R.Loop(st.(sections := st.sections + SectionsFor(c, prs)), rest)
    ensures NoMark(W.CategoryLines(c, prs) + rest)
  {
    hide R.Loop, R.Step, W.Row, StartsWith, W.CategoryName, ItemFor;
    if prs == [] {
      assert W.CategoryLines(c, prs) + rest == rest;
      assert st.sections + [] == st.sections;
    } else {
      var h, rows := W.CategoryName(c) + ":\n", W.Rows(prs) + rest;
      var begun := st.(sections := st.sections + [R.SectionValue(h, ["all"], [])]);
      assert W.CategoryLines(c, prs) + rest == ["\n"] + ([h] + (["\n"] + rows));
      FeedLine(st);
      HeadingLine(c);
      HeadingStep(st, c);
      FeedLine(begun.(inSection := true));
      assert rows[0] == W.Row(prs[0]);
      assert W.OrderOk(prs[0]);
      RowStep(begun, prs[0]);
      LoopStep(st, "\n", [h] + (["\n"] + rows));
      LoopStep(st, h, ["\n"] + rows);
      LoopStep(begun.(inSection := true), "\n", rows);
      LoopRows(begun, prs, rest);
      assert [] + Items(prs) == Items(prs);
      assert WithItems(begun, Items(prs)).sections == st.sections + SectionsFor(c, prs);
    }
  }

  // ---------- The head of the block ----------

  function VersionMap(version: string): map<string, string> {
    map["libmamba" := version, "libmambapy" := version, "micromamba" := version]
  }

  /** A version can be read back: one word without a comma. */
  predicate PlainVersion(version: string) {
    Word(version) && Lacks(version, ',')
  }

  function NameAndVersion(name: string, version: string): string {
    name + " " + version
  }

  function ReleaseTexts(a: string, b: string, c: string): seq<string> {
    [a, " " + b, " " + c + "\n"]
  }

  lemma JoinTexts(a: string, b: string, c: string)
    ensures Join(ReleaseTexts(a, b, c), ",") == a + (", " + (b + (", " + (c + "\n"))))
  {
    var texts := ReleaseTexts(a, b, c);
    assert texts[1..] == [texts[1], texts[2]] && texts[1..][1..] == [texts[2]];
    assert Join(texts[1..], ",") == texts[1] + "," + texts[2];
    assert texts[1] + "," + texts[2] == " " + (b + (", " + (c + "\n")));
  }

  lemma ReleasesTail(version: string)
    ensures var line := W.ReleasesLine(version);
            && |line| >= 10 && line[..10] == "Releases: "
            && line[10..] == Join(ReleaseTexts(NameAndVersion("libmamba", version),
                                               NameAndVersion("libmambapy", version),
                                               NameAndVersion("micromamba", version)), ",")
  {
    var a, b, c := NameAndVersion("libmamba", version), NameAndVersion("libmambapy", version),
                   NameAndVersion("micromamba", version);
    JoinTexts(a, b, c);
    ReleasesLineNested(version);
    hide Join, W.ReleasesLine, ReleaseTexts, NameAndVersion;
    var line := "Releases: " + (a + (", " + (b + (", " + (c + "\n")))));
    assert |line| >= 10 && line[..10] == "Releases: ";
  }

  lemma ReleasesLineNested(version: string)
    ensures W.ReleasesLine(version)
         == "Releases: " + (NameAndVersion("libmamba", version) + (", " + (NameAndVersion("libmambapy", version)
            + (", " + (NameAndVersion("micromamba", version) + "\n")))))
  {}

  lemma ReleaseText(name: string, version: string)
    requires name in Packages() && PlainVersion(version)
    ensures var t := NameAndVersion(name, version); Trim(t) && Lacks(t, ',') && Words(t) == [name, version]
  {
    PlainNames(name);
    var t := name + " " + version;
    assert t[0] == name[0] && t[|t| - 1] == version[|version| - 1];
    hide Packages;
    WordsTwo(name, version);
  }

  /** Splitting at the commas and stripping gives the three texts back. */
  lemma ThreeTextsRead(a: string, b: string, c: string)
    requires Trim(a) && Trim(b) && Trim(c) && Lacks(a, ',') && Lacks(b, ',') && Lacks(c, ',')
    ensures var tail := Join(ReleaseTexts(a, b, c), ",");
            R.StripAll(Split(tail, ",", |tail|)) == [a, b, c]
  {
    var texts := ReleaseTexts(a, b, c);
    StripOfTrim(a);
    StripSides(b);
    StripSides(c);
    SeparableChar(texts[0], ',');
    SeparableChar(texts[1], ',');
    SeparableChar(texts[2], ',');
    hide Strip, Split, Join, Separable;
    JoinLength(texts, ",");
    SplitJoin(texts, ",", |Join(texts, ",")|);
    StripParts(texts, [a, b, c]);
  }

  lemma PackageNames()
    ensures "libmamba" in Packages() && "libmambapy" in Packages() && "micromamba" in Packages()
  {
    assert Packages()[0] == "libmamba" && Packages()[1] == "libmambapy" && Packages()[2] == "micromamba";
  }

  lemma ReleasesRead(version: string)
    requires PlainVersion(version)
    ensures R.Releases(R.ReleaseParts(W.ReleasesLine(version)), map[]) == Ok(VersionMap(version))
  {
    hide NameAndVersion, W.ReleasesLine, Words, Strip, Split, Join, ReleaseTexts, Packages, Lacks, PlainVersion, Trim,
         R.Releases, R.StripAll;
    PackageNames();
    ReleaseText("libmamba", version);
    ReleaseText("libmambapy", version);
    ReleaseText("micromamba", version);
    ReleasesTail(version);
    var a, b, c := NameAndVersion("libmamba", version), NameAndVersion("libmambapy", version),
                   NameAndVersion("micromamba", version);
    ThreeTextsRead(a, b, c);
    ReadThree(a, b, c);
  }

  lemma ReadThree(a: string, b: string, c: string)
    requires |Words(a)| == 2 && |Words(b)| == 2 && |Words(c)| == 2
    ensures R.Releases([a, b, c], map[])
         == Ok(map[Words(a)[0] := Words(a)[1]][Words(b)[0] := Words(b)[1]][Words(c)[0] := Words(c)[1]])
  {
    hide Words;
    var one := map[][Words(a)[0] := Words(a)[1]];
    var two := one[Words(b)[0] := Words(b)[1]];
    assert [a, b, c][1..] == [b, c] && [b, c][1..] == [c] && [c][1..] == [];
    assert R.Releases([c], two) == Ok(two[Words(c)[0] := Words(c)[1]]);
    assert R.Releases([b, c], one) == R.Releases([c], two);
  }

  lemma ReleasesStep(st: R.State, version: string, rest: seq<string>)
    requires PlainVersion(version) && R.StateOk(st) && st.versions == map[]
    ensures R.Loop(st, [W.ReleasesLine(version)] + rest) == R.Loop(st.(versions := VersionMap(version)), rest)
    ensures !StartsWith(W.ReleasesLine(version), "====")
  {
    ReleasesTail(version);
    ReleasesRead(version);
    var line := W.ReleasesLine(version);
    assert line[..10][..8] == line[..8] == "Releases";
    assert line[0] == line[..8][0];
    NotPrefix(line, "====");
    hide StartsWith, W.ReleasesLine, R.Releases, R.ReleaseParts, R.Step;
    assert ([line] + rest)[1..] == rest;
  }

  // ---------- The sections the parser ends with ----------

  function Sections(s: W.Sorted): seq<R.SectionValue>
    requires PlainSorted(s)
  {
    SectionsFor(W.Enhancements, s.enhancements) + SectionsFor(W.BugFixes, s.bugFixes)
    + SectionsFor(W.CiDocs, s.ciDocs)
  }

  predicate PlainSorted(s: W.Sorted) {
    PlainPrs(s.enhancements) && PlainPrs(s.bugFixes) && PlainPrs(s.ciDocs)
  }

  /** What follows the line of releases. */
  function Body(s: W.Sorted, older: seq<string>): seq<string>
    requires PlainSorted(s)
  {
    W.CategoryLines(W.Enhancements, s.enhancements) + W.CategoryLines(W.BugFixes, s.bugFixes)
    + W.CategoryLines(W.CiDocs, s.ciDocs) + ["\n"] + older
  }

  lemma LoopBlock(version: string, s: W.Sorted, older: seq<string>)
    requires PlainVersion(version) && PlainSorted(s)
    ensures R.Loop(R.START, ["\n", W.ReleasesLine(version)] + Body(s, older))
         == R.Loop(R.State(VersionMap(version), Sections(s), false), ["\n"] + older)
  {
    hide R.Loop, R.Step, W.CategoryLines, W.ReleasesLine, StartsWith, SectionsFor, PlainVersion, VersionMap;
    var e, b, d := W.CategoryLines(W.Enhancements, s.enhancements), W.CategoryLines(W.BugFixes, s.bugFixes),
                   W.CategoryLines(W.CiDocs, s.ciDocs);
    var three := ["\n"] + older;
    FeedLine(R.START);
    var two := d + three;
    var one := b + two;
    var line := W.ReleasesLine(version);
    assert ["\n", line] + Body(s, older) == ["\n"] + ([line] + (e + one));
    var st0 := R.START.(versions := VersionMap(version));
    var st1 := st0.(sections := SectionsFor(W.Enhancements, s.enhancements));
    var st2 := st1.(sections := st1.sections + SectionsFor(W.BugFixes, s.bugFixes));
    var st3 := st2.(sections := st2.sections + SectionsFor(W.CiDocs, s.ciDocs));
    ReleasesStep(R.START, version, e + one);
    LoopStep(R.START, "\n", [line] + (e + one));
    assert [] + SectionsFor(W.Enhancements, s.enhancements) == SectionsFor(W.Enhancements, s.enhancements);
    LoopCategory(st2, W.CiDocs, s.ciDocs, three);
    LoopCategory(st1, W.BugFixes, s.bugFixes, two);
    LoopCategory(st0, W.Enhancements, s.enhancements, one);
  }

  lemma AfterMarkOfBlock(date: string, rest: seq<string>)
    requires !StartsWith(date + "\n", "=====")
    ensures R.AfterMark([date + "\n", "==========\n"] + rest) == Some(rest)
  {
    var lines := [date + "\n", "==========\n"] + rest;
    assert lines[1..] == ["==========\n"] + rest;
    assert (["==========\n"] + rest)[1..] == rest;
    assert "==========\n"[..5] == "=====";
  }

  // ---------- What the packages get from those sections ----------

  lemma WantedIffConcerned(prs: seq<W.Pr>, name: string)
    ensures Wanted(prs, name) != [] <==> exists i :: 0 <= i < |prs| && Concerns(prs[i], name)
  {
    hide Concerns;
    if prs == [] {
    } else {
      var n := |prs| - 1;
      WantedIffConcerned(prs[..n], name);
      if exists i :: 0 <= i < |prs| && Concerns(prs[i], name) {
        var i :| 0 <= i < |prs| && Concerns(prs[i], name);
        assert i < n ==> prs[..n][i] == prs[i];
      }
      if Wanted(prs[..n], name) != [] {
        var i :| 0 <= i < n && Concerns(prs[..n][i], name);
        assert prs[i] == prs[..n][i];
      }
    }
  }

  lemma {:induction false} EntriesOfItems(prs: seq<W.Pr>, name: string)
    requires W.OrdersOk(prs) && name in Packages()
    ensures R.ItemEntries(Items(prs), name) == Wanted(prs, name)
    decreases |prs|
  {
    hide Concerns, R.Applies, Strip, Packages, W.Label;
    if prs == [] {
    } else {
      var n := |prs| - 1;
      assert W.OrderOk(prs[n]);
      EntriesOfItems(prs[..n], name);
      assert Items(prs)[..n] == Items(prs[..n]);
      LabelApplies(prs[n], name);
      StripTwice(W.Description(prs[n]));
    }
  }

  lemma SomeAppliesIff(prs: seq<W.Pr>, name: string)
    requires W.OrdersOk(prs) && name in Packages()
    ensures R.SomeApplies(Items(prs), name) <==> Wanted(prs, name) != []
  {
    hide Concerns, R.Applies, Packages, W.Label, Strip, Wanted;
    WantedIffConcerned(prs, name);
    forall i | 0 <= i < |prs| ensures R.Applies(Items(prs)[i].appliesTo, name) <==> Concerns(prs[i], name) {
      assert W.OrderOk(prs[i]);
      LabelApplies(prs[i], name);
    }
  }

  lemma AllApplies(name: string)
    ensures R.Applies(["all"], name)
  {
    assert ["all"][0] == "all";
  }

  lemma EntriesOfSection(c: W.Category, prs: seq<W.Pr>, name: string, first: bool)
    requires W.OrdersOk(prs) && prs != [] && name in Packages()
    ensures R.SectionEntries(SectionFor(c, prs), name, first) == WantedOf(W.CategoryName(c) + ":", prs, name, first)
  {
    EntriesOfItems(prs, name);
    SomeAppliesIff(prs, name);
    HeadingLine(c);
    hide Strip, Packages, W.CategoryName, R.ItemEntries, Wanted, R.SomeApplies, Items, ItemFor, StartsWith, IsLine;
    AllApplies(name);
    hide R.Applies;
    assert |Items(prs)| == |prs|;
  }

  lemma EntriesStep(before: seq<R.SectionValue>, c: W.Category, prs: seq<W.Pr>, name: string)
    requires W.OrdersOk(prs) && name in Packages()
    ensures R.Entries(before + SectionsFor(c, prs), name)
         == R.Entries(before, name) + WantedOf(W.CategoryName(c) + ":", prs, name, before == [])
  {
    hide R.SectionEntries, SectionFor, Packages;
    if prs == [] {
      assert before + [] == before;
      assert Wanted(prs, name) == [];
    } else {
      EntriesOfSection(c, prs, name, before == []);
      assert (before + [SectionFor(c, prs)])[..|before|] == before;
    }
  }

  lemma Headings()
    ensures W.CategoryName(W.Enhancements) + ":" == "Enhancements:"
    ensures W.CategoryName(W.BugFixes) + ":" == "Bug fixes:" && W.CategoryName(W.CiDocs) + ":" == "CI fixes and doc:"
  {}

  lemma EntriesOfSections(s: W.Sorted, name: string)
    requires PlainSorted(s) && name in Packages()
    ensures R.Entries(Sections(s), name) == WantedAll(s, name)
  {
    hide W.CategoryName;
    var e := SectionsFor(W.Enhancements, s.enhancements);
    assert [] + e == e;
    EntriesStep([], W.Enhancements, s.enhancements, name);
    EntriesStep(e, W.BugFixes, s.bugFixes, name);
    EntriesStep(e + SectionsFor(W.BugFixes, s.bugFixes), W.CiDocs, s.ciDocs, name);
    hide WantedOf, R.Entries;
    Headings();
    assert R.Entries([], name) + WantedOf("Enhancements:", s.enhancements, name, true)
        == WantedOf("Enhancements:", s.enhancements, name, true);
  }

  // ---------- The round trip ----------

  lemma FeedIsLine()
    ensures IsLine("\n")
  {}

  lemma CategoryLinesAreLines(c: W.Category, prs: seq<W.Pr>)
    requires PlainPrs(prs)
    ensures forall i | 0 <= i < |W.CategoryLines(c, prs)| :: IsLine(W.CategoryLines(c, prs)[i])
  {
    HeadingLine(c);
    hide StartsWith, Strip, R.Bracket, IsLine, W.Row, W.CategoryName;
    FeedIsLine();
    forall i | 0 <= i < |prs| ensures IsLine(W.Row(prs[i])) {
      assert PlainPr(prs[i]);
      RowIsLine(prs[i]);
    }
  }

  lemma ReleasesIsLine(version: string)
    requires PlainVersion(version)
    ensures IsLine(W.ReleasesLine(version))
  {
    var a := "Releases: libmamba " + version;
    var b := a + ", libmambapy " + version;
    var c := b + ", micromamba " + version;
    assert Lacks(version, '\n') && Lacks(a, '\n') && Lacks(b, '\n') && Lacks(c, '\n');
    assert W.ReleasesLine(version) == c + "\n";
  }

  lemma BlockReadBack(date: string, version: string, s: W.Sorted, previous: string)
    requires OneLine(date) && PlainVersion(version) && PlainSorted(s)
    ensures ReadLines(Concat(W.BlockLines(date, version, s)) + previous)
         == W.BlockLines(date, version, s) + ReadLines(previous)
  {
    CategoryLinesAreLines(W.Enhancements, s.enhancements);
    CategoryLinesAreLines(W.BugFixes, s.bugFixes);
    CategoryLinesAreLines(W.CiDocs, s.ciDocs);
    ReleasesIsLine(version);
    assert IsLine(date + "\n") && IsLine("==========\n") && IsLine("\n");
    hide IsLine, W.CategoryLines, W.ReleasesLine, ReadLines, Concat;
    ReadWrittenLines(W.BlockLines(date, version, s), previous);
  }

  /** What the parser sees of the old content: the line feed that ends the block, and the lines. */
  function Below(previous: string): seq<string> {
    ["\n"] + ReadLines(previous)
  }

  function Parsed(date: string, version: string, s: W.Sorted, previous: string): Result<R.State, R.Error>
    requires PlainSorted(s)
  {
    R.ParseLines(ReadLines(Concat(W.BlockLines(date, version, s)) + previous))
  }

  /**
   The file written for any sorted pull requests on top of an older release is parsed without error
   into the version of each package, and each package gets exactly its wanted entries: in every category
   the pull requests that concern it, in order, under a heading that is there when one of them is.
   */
  lemma ChangelogsFromPrs(date: string, version: string, s: W.Sorted, previous: string)
    requires OneLine(date) && !StartsWith(date + "\n", "=====")
    requires PlainVersion(version) && PlainSorted(s) && OlderRelease(Below(previous), VersionMap(version))
    ensures var parsed := Parsed(date, version, s, previous);
            && parsed.Ok? && parsed.value.versions == VersionMap(version)
            && forall name | name in Packages() :: R.Entries(parsed.value.sections, name) == WantedAll(s, name)
  {
    BlockParsed(date, version, s, previous);
    hide ReadLines, Concat, R.Loop, R.ParseLines, StartsWith, PlainVersion;
    hide Sections, R.Entries, WantedAll, OneLine, OlderRelease, Packages;
    BlockAloneIff(date, version, s, previous);
    forall name | name in Packages() ensures R.Entries(Sections(s), name) == WantedAll(s, name) {
      EntriesOfSections(s, name);
    }
  }

  /**
   From the pull requests as they come: sorted, written on top of an older release, parsed and handed out. Each package
   gets, over the three categories, the entry of every pull request that concerns it as often as it came, and no other.
   */
  lemma ChangelogsFromUnsorted(date: string, version: string, prs: seq<W.Pr>, previous: string)
    requires OneLine(date) && !StartsWith(date + "\n", "=====") && PlainVersion(version) && PlainPrs(prs)
    requires forall i | 0 <= i < |prs| :: W.HasCategory(prs[i].labels)
    requires OlderRelease(Below(previous), VersionMap(version))
    ensures var s := W.SortedBy(prs);
            && PlainSorted(s)
            && Parsed(date, version, s, previous).Ok?
            && multiset(s.enhancements) + multiset(s.bugFixes) + multiset(s.ciDocs) == multiset(prs)
            && (forall pr :: pr in s.enhancements <==> pr in prs && W.OneLabel(pr.labels, "release::enhancements"))
            && (forall pr :: pr in s.bugFixes <==> pr in prs && W.OneLabel(pr.labels, "release::bug_fixes"))
            && (forall pr :: pr in s.ciDocs <==> pr in prs && W.OneLabel(pr.labels, "release::ci_docs"))
            && (forall name | name in Packages() ::
                  && R.Entries(Parsed(date, version, s, previous).value.sections, name) == WantedAll(s, name)
                  && multiset(Wanted(s.enhancements, name)) + multiset(Wanted(s.bugFixes, name))
                     + multiset(Wanted(s.ciDocs, name)) == multiset(Wanted(prs, name)))
  {
    hide W.CategoryOf, Parsed, OlderRelease, PlainVersion, OneLine, StartsWith, WantedAll, R.Entries, W.Only;
    hide Wanted, Packages, PlainSorted, PlainPrs, W.OneLabel;
    SortedArePlain(prs);
    forall i | 0 <= i < |prs| ensures W.CategoryOf(prs[i]).Ok? {
      W.CategoryIff(prs[i]);
    }
    W.SortingConserves(prs);
    ChangelogsFromPrs(date, version, W.SortedBy(prs), previous);
    forall name | name in Packages() {
      WantedConserved(prs, name);
    }
    forall pr {
      W.SortedByLabel(prs, pr);
    }
  }

  lemma SortedArePlain(prs: seq<W.Pr>)
    requires PlainPrs(prs)
    ensures PlainSorted(W.SortedBy(prs))
  {
    hide W.CategoryOf, W.Only, PlainPr;
    forall c, i | 0 <= i < |W.Only(prs, c)| ensures PlainPr(W.Only(prs, c)[i]) {
      W.OnlyAre(prs, c, W.Only(prs, c)[i]);
    }
  }

  lemma WantedStep(prs: seq<W.Pr>, pr: W.Pr, name: string)
    ensures Wanted(prs + [pr], name)
         == Wanted(prs, name) + WantedText(pr, name)
  {
    assert (prs + [pr])[..|prs|] == prs;
  }

  lemma {:induction false} WantedConserved(prs: seq<W.Pr>, name: string)
    requires forall i | 0 <= i < |prs| :: W.CategoryOf(prs[i]).Ok?
    ensures multiset(Wanted(W.Only(prs, W.Enhancements), name)) + multiset(Wanted(W.Only(prs, W.BugFixes), name))
            + multiset(Wanted(W.Only(prs, W.CiDocs), name)) == multiset(Wanted(prs, name))
  {
    hide W.CategoryOf, W.Only, Wanted, Concerns, Strip;
    if prs == [] {
      W.OnlyNone(prs);
      assert prs[..0] == prs;
      WantedNone(name);
    } else {
      var n := |prs| - 1;
      var pr, c := prs[n], W.CategoryOf(prs[n]).value;
      WantedConserved(prs[..n], name);
      assert prs == prs[..n] + [pr];
      WantedStep(prs[..n], pr, name);
      OnlyWanted(prs, name, W.Enhancements);
      OnlyWanted(prs, name, W.BugFixes);
      OnlyWanted(prs, name, W.CiDocs);
      W.ConservesStep(Wanted(W.Only(prs[..n], W.Enhancements), name), Wanted(W.Only(prs[..n], W.BugFixes), name),
                      Wanted(W.Only(prs[..n], W.CiDocs), name), WantedText(pr, name), c);
    }
  }

  lemma OnlyWanted(prs: seq<W.Pr>, name: string, c: W.Category)
    requires prs != [] && W.CategoryOf(prs[|prs| - 1]).Ok?
    ensures var n := |prs| - 1;
            Wanted(W.Only(prs, c), name)
            == Wanted(W.Only(prs[..n], c), name)
               + if c == W.CategoryOf(prs[n]).value then WantedText(prs[n], name) else []
  {
    hide W.CategoryOf, W.Only, Wanted, Concerns, Strip;
    var n := |prs| - 1;
    assert prs[..n + 1] == prs;
    W.OnlyStep(prs, n, c);
    WantedStep(W.Only(prs[..n], c), prs[n], name);
    assert W.Only(prs[..n], c) + [] == W.Only(prs[..n], c);
  }

  lemma WantedNone(name: string)
    ensures Wanted([], name) == []
  {}

  /** What the writer makes is itself an older release for the next one, whatever stood below it. */
  lemma WrittenIsOlder(date: string, version: string, s: W.Sorted, previous: string, versions: map<string, string>)
    requires OneLine(date) && PlainVersion(version) && PlainSorted(s) && !StartsWith(date + "\n", "Releases")
    ensures OlderRelease(Below(Concat(W.BlockLines(date, version, s)) + previous), versions)
  {
    BlockReadBack(date, version, s, previous);
    var written := Concat(W.BlockLines(date, version, s)) + previous;
    var lines := Below(written);
    hide ReadLines, Concat, W.CategoryLines, W.ReleasesLine, Strip;
    FeedIsBlank();
    assert lines[0] == "\n" && lines[1] == date + "\n" && lines[2] == "==========\n";
    assert lines[2][..4] == "====";
    assert QuietAt(lines, 2);
    assert lines[..2] == ["\n", date + "\n"];
    VersionsStep(lines, 1, versions);
    VersionsStep(lines[1..], 0, versions);
    assert lines[1..][1..][..0] == [];
  }

  /** So from the second release on the parser reads exactly the newest one. */
  lemma ReleaseAfterRelease(date: string, version: string, s: W.Sorted,
                            date1: string, version1: string, s1: W.Sorted, previous: string)
    requires OneLine(date) && !StartsWith(date + "\n", "=====") && PlainVersion(version) && PlainSorted(s)
    requires OneLine(date1) && !StartsWith(date1 + "\n", "Releases") && PlainVersion(version1) && PlainSorted(s1)
    ensures Parsed(date, version, s, Concat(W.BlockLines(date1, version1, s1)) + previous)
         == Ok(R.State(VersionMap(version), Sections(s), false))
  {
    hide Parsed, OlderRelease, Sections, VersionMap, PlainVersion, Concat, OneLine, StartsWith;
    WrittenIsOlder(date1, version1, s1, previous, VersionMap(version));
    BlockAloneIff(date, version, s, Concat(W.BlockLines(date1, version1, s1)) + previous);
  }

  lemma BlockParsed(date: string, version: string, s: W.Sorted, previous: string)
    requires OneLine(date) && !StartsWith(date + "\n", "=====")
    requires PlainVersion(version) && PlainSorted(s)
    ensures R.ParseLines(ReadLines(Concat(W.BlockLines(date, version, s)) + previous))
         == R.Loop(R.State(VersionMap(version), Sections(s), false), ["\n"] + ReadLines(previous))
  {
    hide W.CategoryLines, W.ReleasesLine, ReadLines, Concat, R.Loop, R.AfterMark, StartsWith, PlainVersion;
    hide Sections, OneLine;
    var older := ReadLines(previous);
    BlockReadBack(date, version, s, previous);
    var rest := ["\n", W.ReleasesLine(version)] + Body(s, older);
    assert W.BlockLines(date, version, s) + older == [date + "\n", "==========\n"] + rest;
    AfterMarkOfBlock(date, rest);
    LoopBlock(version, s, older);
  }

  /** Parsing gives back exactly the printed block if and only if the old content starts with a release. */
  lemma BlockAloneIff(date: string, version: string, s: W.Sorted, previous: string)
    requires OneLine(date) && !StartsWith(date + "\n", "=====") && PlainVersion(version) && PlainSorted(s)
    ensures Parsed(date, version, s, previous) == Ok(R.State(VersionMap(version), Sections(s), false))
       <==> OlderRelease(Below(previous), VersionMap(version))
  {
    hide Sections, R.ParseLines, Concat, OlderRelease, R.Loop, ReadLines, PlainVersion, OneLine, StartsWith;
    BlockParsed(date, version, s, previous);
    LoopUnchangedIff(R.State(VersionMap(version), Sections(s), false), Below(previous));
  }

  /** For every old content: parsing succeeds if and only if the loop is stopped in it; all failures are one. */
  lemma ParsesIff(date: string, version: string, s: W.Sorted, previous: string)
    requires OneLine(date) && !StartsWith(date + "\n", "=====") && PlainVersion(version) && PlainSorted(s)
    ensures var parsed := Parsed(date, version, s, previous);
            && (parsed.Ok? <==> Ends(Sections(s) != [], Below(previous)))
            && (parsed.Err? ==> parsed == Err(R.IndexError))
  {
    hide Sections, R.ParseLines, Concat, R.Loop, ReadLines, PlainVersion, OneLine, StartsWith, PlainSorted, Ends;
    BlockParsed(date, version, s, previous);
    LoopEndsIff(R.State(VersionMap(version), Sections(s), false), Below(previous));
  }

  /**
   With at least one pull request, on top of content whose first mark comes before its first line of releases, as in
   every file the writer made: some old line is a mark, or the parser looks for a line behind the last one.
   */
  lemma NoOlderRelease(date: string, version: string, s: W.Sorted, previous: string)
    requires OneLine(date) && !StartsWith(date + "\n", "=====") && PlainVersion(version) && PlainSorted(s)
    requires s.enhancements != [] || s.bugFixes != [] || s.ciDocs != []
    requires ReleasesBehindMarks(Below(previous))
    ensures var older, parsed := ReadLines(previous), Parsed(date, version, s, previous);
            && (parsed.Ok? <==> HasMark(older, 0))
            && (parsed.Err? ==> parsed == Err(R.IndexError))
  {
    hide R.ParseLines, Concat, ReadLines, PlainVersion, OneLine, StartsWith, SectionFor, PlainPrs, Ends;
    hide ReleasesBehindMarks, HasMark, Parsed;
    ParsesIff(date, version, s, previous);
    EndsIffMark(Below(previous));
    HasMarkBehind("\n", ReadLines(previous));
  }

  /** No pull request is lost: each concerns some package. */
  lemma EveryPrReachesAPackage(pr: W.Pr)
    ensures exists name :: name in Packages() && Concerns(pr, name)
  {
    PackageNames();
    if !W.ForAll(pr.files) {
      var r :| r in W.Concerned(pr.files);
      W.ConcernedNonEmpty(pr.files, r);
      RefsAre(r);
      assert Concerns(pr, r[..|r| - 1]);
    } else {
      assert Concerns(pr, "libmamba");
    }
  }

  /** A pull request that touches a package's directory, or none of the three, or all, is in its changelog. */
  lemma ConcernsByFiles(pr: W.Pr, name: string)
    requires name in Packages()
    ensures Concerns(pr, name) <==>
              || W.SomeFileUnder(pr.files, name + "/")
              || forall r | r in W.Refs() :: !W.SomeFileUnder(pr.files, r)
  {
    var all := set r | r in W.Refs();
    forall r ensures r in W.Concerned(pr.files) <==> r in all && W.SomeFileUnder(pr.files, r) {
      W.ConcernedIff(pr.files, r);
    }
    PackageNames();
    assert name + "/" in W.Refs() by {
      var refs := W.Refs();
      assert refs[0] == "libmamba" + "/" && refs[1] == "libmambapy" + "/" && refs[2] == "micromamba" + "/";
    }
  }
}
