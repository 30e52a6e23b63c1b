/** update_changelog.py: sorts the pull requests by release label and writes the new changelog block. */
module ChangelogWriter {
  import opened Outcomes
  import opened Strings
  import opened PyText

  function Refs(): (r: seq<string>)
    ensures "" !in r && |r| == 3
  {
    ["libmamba/", "libmambapy/", "micromamba/"]
  }

  /**
   What the scripts learn of a pull request. `order` is the order in which Python happens to go
   through the set of packages it concerns.
   */
  datatype Pr = Pr(
    title: string, author: string, url: string, files: seq<string>, labels: seq<string>, order: seq<string>)

  datatype Error = NoReleaseLabel | SeveralReleaseLabels | UnknownReleaseLabel

  datatype Category = Enhancements | BugFixes | CiDocs

  datatype Sorted = Sorted(enhancements: seq<Pr>, bugFixes: seq<Pr>, ciDocs: seq<Pr>)

  // ---------- Which packages a pull request concerns ----------

  function Touched(file: string): set<string> {
    set r | r in Refs() && StartsWith(file, r)
  }

  function Concerned(files: seq<string>): set<string> {
    if files == [] then {} else Concerned(files[..|files| - 1]) + Touched(files[|files| - 1])
  }

  ghost predicate SomeFileUnder(files: seq<string>, r: string) {
    exists i :: 0 <= i < |files| && StartsWith(files[i], r)
  }

  lemma {:induction false} ConcernedIff(files: seq<string>, r: string)
    ensures r in Concerned(files) <==> r in Refs() && SomeFileUnder(files, r)
  {
    hide StartsWith, Refs;
    if files == [] {
    } else {
      var n := |files| - 1;
      ConcernedIff(files[..n], r);
      assert SomeFileUnder(files, r) <==> SomeFileUnder(files[..n], r) || StartsWith(files[n], r) by {
        if SomeFileUnder(files[..n], r) {
          var i :| 0 <= i < n && StartsWith(files[..n][i], r);
          assert StartsWith(files[i], r);
        }
        if SomeFileUnder(files, r) {
          var i :| 0 <= i < |files| && StartsWith(files[i], r);
          assert i < n ==> StartsWith(files[..n][i], r);
        }
      }
    }
  }

  method ConcernedPackages(files: seq<string>) returns (pkgs: set<string>)
    ensures pkgs == Concerned(files)
  {
    hide StartsWith, Refs;
    pkgs := {};
    for n := 0 to |files|
      invariant pkgs == Concerned(files[..n])
    {
      ghost var before := pkgs;
      for k := 0 to |Refs()|
        invariant pkgs == before + set r | r in Refs()[..k] && StartsWith(files[n], r)
      {
        assert Refs()[..k + 1] == Refs()[..k] + [Refs()[k]];
        if StartsWith(files[n], Refs()[k]) {
          pkgs := pkgs + {Refs()[k]};
        }
      }
      assert Refs()[..|Refs()|] == Refs();
      assert files[..n + 1][..n] == files[..n];
    }
    assert files[..|files|] == files;
  }

  /** All three packages, or none, are written as "all". */
  predicate ForAll(files: seq<string>) {
    Concerned(files) == {} || Concerned(files) == set r | r in Refs()
  }

  predicate OrderOk(pr: Pr) {
    && (set r | r in pr.order) == Concerned(pr.files)
    && (forall i, j | 0 <= i < j < |pr.order| :: pr.order[i] != pr.order[j])
  }

  function Names(refs: seq<string>): (r: seq<string>)
    requires forall i | 0 <= i < |refs| :: refs[i] != ""
    ensures |r| == |refs| && forall i | 0 <= i < |refs| :: r[i] == refs[i][..|refs[i]| - 1]
  {
    seq(|refs|, i requires 0 <= i < |refs| => refs[i][..|refs[i]| - 1])
  }

  lemma ConcernedNonEmpty(files: seq<string>, r: string)
    requires r in Concerned(files)
    ensures r in Refs() && r != ""
  {
    hide Refs, Concerned;
    ConcernedIff(files, r);
  }

  lemma OrderNonEmpty(pr: Pr)
    requires OrderOk(pr)
    ensures forall i | 0 <= i < |pr.order| :: pr.order[i] in Refs() && pr.order[i] != ""
  {
    hide Refs, Concerned;
    forall i | 0 <= i < |pr.order| ensures pr.order[i] in Refs() && pr.order[i] != "" {
      ConcernedNonEmpty(pr.files, pr.order[i]);
    }
  }

  function Label(pr: Pr): seq<string>
    requires OrderOk(pr)
  {
    OrderNonEmpty(pr);
    if ForAll(pr.files) then ["all"] else Names(pr.order)
  }

  // ---------- What is written ----------

  function Description(pr: Pr): string {
    pr.title + " by @" + pr.author + " in " + pr.url
  }

  function Row(pr: Pr): string
    requires OrderOk(pr)
  {
    "- [" + Join(Label(pr), ", ") + "] " + Description(pr) + "\n"
  }

  predicate OrdersOk(prs: seq<Pr>) {
    forall i | 0 <= i < |prs| :: OrderOk(prs[i])
  }

  function Rows(prs: seq<Pr>): (r: seq<string>)
    requires OrdersOk(prs)
    ensures |r| == |prs| && forall i | 0 <= i < |prs| :: r[i] == Row(prs[i])
  {
    seq(|prs|, i requires 0 <= i < |prs| => Row(prs[i]))
  }

  function CategoryName(c: Category): string {
    match c
    case Enhancements => "Enhancements"
    case BugFixes => "Bug fixes"
    case CiDocs => "CI fixes and doc"
  }

  /** Heading and rows of one category; nothing is written for an empty one. */
  function CategoryLines(c: Category, prs: seq<Pr>): seq<string>
    requires OrdersOk(prs)
  {
    if prs == [] then [] else ["\n", CategoryName(c) + ":\n", "\n"] + Rows(prs)
  }

  function ReleasesLine(version: string): string {
    "Releases: libmamba " + version + ", libmambapy " + version + ", micromamba " + version + "\n"
  }

  function HeadLines(date: string, version: string): seq<string> {
    [date + "\n", "==========\n", "\n", ReleasesLine(version)]
  }

  function BlockLines(date: string, version: string, s: Sorted): seq<string>
    requires OrdersOk(s.enhancements) && OrdersOk(s.bugFixes) && OrdersOk(s.ciDocs)
  {
    HeadLines(date, version)
    + CategoryLines(Enhancements, s.enhancements) + CategoryLines(BugFixes, s.bugFixes)
    + CategoryLines(CiDocs, s.ciDocs) + ["\n"]
  }

  method AppendToFile(c: Category, prs: seq<Pr>, out: string) returns (r: string)
    requires OrdersOk(prs) && prs != []
    ensures r == out + Concat(CategoryLines(c, prs))
  {
    hide Concat, CategoryName, Row;
    var heading := "\n" + CategoryName(c) + ":\n\n";
    r := out + heading;
    NoRows(prs);
    for n := 0 to |prs|
      invariant r == out + heading + Concat(Rows(prs)[..n])
    {
      var row := FormatRow(prs[n]);
      RowsStep(prs, n);
      SeqAssoc(out + heading, Concat(Rows(prs)[..n]), row);
      r := r + row;
    }
    CategoryText(c, prs);
    assert Rows(prs)[..|prs|] == Rows(prs);
    SeqAssoc(out, heading, Concat(Rows(prs)));
  }

  method FormatRow(pr: Pr) returns (row: string)
    requires OrderOk(pr)
    ensures row == Row(pr)
  {
    hide Join, Concerned, Refs;
    var pkgs := ConcernedPackages(pr.files);
    OrderNonEmpty(pr);
    var all := set r | r in Refs();
    var tag := if pkgs == all || pkgs == {} then ["all"] else Names(pr.order);
    row := "- [" + Join(tag, ", ") + "] " + (pr.title + " by @" + pr.author + " in " + pr.url) + "\n";
  }

  lemma NoRows(prs: seq<Pr>)
    requires OrdersOk(prs)
    ensures Concat(Rows(prs)[..0]) == ""
  {}

  lemma CategoryText(c: Category, prs: seq<Pr>)
    requires OrdersOk(prs) && prs != []
    ensures Concat(CategoryLines(c, prs)) == "\n" + CategoryName(c) + ":\n\n" + Concat(Rows(prs))
  {
    hide CategoryName, Row;
    var heading := ["\n", CategoryName(c) + ":\n", "\n"];
    HeadingText(c);
    ConcatAppend(heading, Rows(prs));
  }

  lemma RowsStep(prs: seq<Pr>, n: nat)
    requires OrdersOk(prs) && n < |prs|
    ensures Concat(Rows(prs)[..n + 1]) == Concat(Rows(prs)[..n]) + Row(prs[n])
  {
    hide Row;
    assert Rows(prs)[..n + 1] == Rows(prs)[..n] + [Row(prs[n])];
    ConcatAppend(Rows(prs)[..n], [Row(prs[n])]);
    assert Concat([Row(prs[n])]) == Row(prs[n]);
  }

  lemma HeadingText(c: Category)
    ensures Concat(["\n", CategoryName(c) + ":\n", "\n"]) == "\n" + CategoryName(c) + ":\n\n"
  {
    var lines := ["\n", CategoryName(c) + ":\n", "\n"];
    assert lines[1..] == [CategoryName(c) + ":\n", "\n"];
    assert lines[1..][1..] == ["\n"];
    assert Concat(["\n"]) == "\n";
  }

  /** The new content of the file: the block, then what was there before. */
  method WriteChangelog(date: string, version: string, s: Sorted, previous: string) returns (text: string)
    requires OrdersOk(s.enhancements) && OrdersOk(s.bugFixes) && OrdersOk(s.ciDocs)
    ensures text == Concat(BlockLines(date, version, s)) + previous
  {
    hide CategoryLines, ReleasesLine, Concat, HeadLines;
    text := date + "\n" + "==========\n"
            + ("\n" + ReleasesLine(version));
    HeadText(date, version);
    text := WriteCategory(Enhancements, s.enhancements, text);
    text := WriteCategory(BugFixes, s.bugFixes, text);
    text := WriteCategory(CiDocs, s.ciDocs, text);
    BlockText(HeadLines(date, version), CategoryLines(Enhancements, s.enhancements),
              CategoryLines(BugFixes, s.bugFixes), CategoryLines(CiDocs, s.ciDocs));
    SeqAssoc(text, "\n", previous);
    text := text + ("\n" + previous);
  }

  method WriteCategory(c: Category, prs: seq<Pr>, out: string) returns (r: string)
    requires OrdersOk(prs)
    ensures r == out + Concat(CategoryLines(c, prs))
  {
    r := out;
    if prs != [] {
      r := AppendToFile(c, prs, out);
    } else {
      assert Concat(CategoryLines(c, [])) == "";
    }
  }

  lemma HeadText(date: string, version: string)
    ensures Concat(HeadLines(date, version))
         == date + "\n" + "==========\n"
            + ("\n" + ReleasesLine(version))
  {
    hide ReleasesLine;
    var lines, last := HeadLines(date, version), ReleasesLine(version);
    assert lines[1..] == ["==========\n", "\n", last];
    assert lines[1..][1..] == ["\n", last];
    assert lines[1..][1..][1..] == [last];
    assert Concat([last]) == last;
    assert Concat(["\n", last]) == "\n" + last;
    assert Concat(["==========\n", "\n", last]) == "==========\n" + ("\n" + last);
    SeqAssoc(date + "\n", "==========\n", "\n" + last);
  }

  lemma BlockText(head: seq<string>, a: seq<string>, b: seq<string>, c: seq<string>)
    ensures Concat(head + a + b + c + ["\n"]) == Concat(head) + Concat(a) + Concat(b) + Concat(c) + "\n"
  {
    assert Concat(["\n"]) == "\n";
    ConcatAppend(head + a + b + c, ["\n"]);
    ConcatAppend(head + a + b, c);
    ConcatAppend(head + a, b);
    ConcatAppend(head, a);
  }

  // ---------- Sorting by release label ----------

  function ReleaseLabels(labels: seq<string>): seq<string> {
    if labels == [] then []
    else ReleaseLabels(labels[..|labels| - 1])
         + if StartsWith(labels[|labels| - 1], "release::") then [labels[|labels| - 1]] else []
  }

  function Classify(count: nat, tag: string): Result<Category, Error> {
    if count == 0 then Err(NoReleaseLabel)
    else if count > 1 then Err(SeveralReleaseLabels)
    else if tag == "release::enhancements" then Ok(Enhancements)
    else if tag == "release::bug_fixes" then Ok(BugFixes)
    else if tag == "release::ci_docs" then Ok(CiDocs)
    else Err(UnknownReleaseLabel)
  }

  function CategoryOf(pr: Pr): Result<Category, Error> {
    var found := ReleaseLabels(pr.labels);
    Classify(|found|, if found == [] then "" else found[|found| - 1])
  }

  /** The pull requests of one category, in the order they came. */
  function Only(prs: seq<Pr>, c: Category): seq<Pr> {
    if prs == [] then []
    else Only(prs[..|prs| - 1], c) + if CategoryOf(prs[|prs| - 1]) == Ok(c) then [prs[|prs| - 1]] else []
  }

  function SortedBy(prs: seq<Pr>): Sorted {
    Sorted(Only(prs, Enhancements), Only(prs, BugFixes), Only(prs, CiDocs))
  }

  method ReleaseLabel(labels: seq<string>) returns (count: nat, tag: string)
    ensures count == |ReleaseLabels(labels)|
    ensures tag == if count == 0 then "" else ReleaseLabels(labels)[count - 1]
  {
    hide StartsWith;
    count, tag := 0, "";
    for k := 0 to |labels|
      invariant count == |ReleaseLabels(labels[..k])|
      invariant tag == if count == 0 then "" else ReleaseLabels(labels[..k])[count - 1]
    {
      assert labels[..k + 1][..k] == labels[..k];
      if StartsWith(labels[k], "release::") {
        count := count + 1;
        tag := labels[k];
      }
    }
    assert labels[..|labels|] == labels;
  }

  // ---------- What the labels say ----------

  predicate IsRelease(tag: string) {
    StartsWith(tag, "release::")
  }

  /** The tag is the only release label. */
  ghost predicate OneLabel(labels: seq<string>, tag: string) {
    exists i | 0 <= i < |labels| ::
      labels[i] == tag && IsRelease(tag) && forall j | 0 <= j < |labels| && j != i :: !IsRelease(labels[j])
  }

  ghost predicate HasCategory(labels: seq<string>) {
    || OneLabel(labels, "release::enhancements")
    || OneLabel(labels, "release::bug_fixes")
    || OneLabel(labels, "release::ci_docs")
  }

  /** Why labels are refused: no release label, two, or one that is unknown. */
  ghost predicate Wrong(labels: seq<string>, e: Error) {
    match e
    case NoReleaseLabel => forall i | 0 <= i < |labels| :: !IsRelease(labels[i])
    case SeveralReleaseLabels => exists i, j | 0 <= i < j < |labels| :: IsRelease(labels[i]) && IsRelease(labels[j])
    case UnknownReleaseLabel =>
      exists tag ::
        OneLabel(labels, tag) && tag !in {"release::enhancements", "release::bug_fixes", "release::ci_docs"}
  }

  lemma ReleaseLabelsStep(labels: seq<string>)
    requires labels != []
    ensures var last := labels[|labels| - 1];
            ReleaseLabels(labels) == ReleaseLabels(labels[..|labels| - 1]) + if IsRelease(last) then [last] else []
  {}

  lemma {:induction false} ReleaseLabelsAre(labels: seq<string>)
    ensures ReleaseLabels(labels) == [] <==> Wrong(labels, NoReleaseLabel)
    ensures |ReleaseLabels(labels)| > 1 <==> Wrong(labels, SeveralReleaseLabels)
    ensures forall tag :: ReleaseLabels(labels) == [tag] <==> OneLabel(labels, tag)
  {
    hide IsRelease;
    if labels == [] {
    } else {
      var n := |labels| - 1;
      var front, last := labels[..n], labels[n];
      ReleaseLabelsAre(front);
      ReleaseLabelsStep(labels);
      assert forall i | 0 <= i < n :: front[i] == labels[i];
      forall tag ensures ReleaseLabels(labels) == [tag] <==> OneLabel(labels, tag) {
        OneLabelStep(labels, tag);
        var before := ReleaseLabels(front);
        assert IsRelease(last) ==> (before + [last] == [tag] <==> before == [] && last == tag) by {
          assert before + [last] == [tag] ==> |before| == 0 && (before + [last])[0] == tag;
        }
      }
    }
  }

  lemma OneLabelStep(labels: seq<string>, tag: string)
    requires labels != []
    ensures var n := |labels| - 1;
            OneLabel(labels, tag) <==> if IsRelease(labels[n]) then tag == labels[n] && Wrong(labels[..n], NoReleaseLabel)
                                       else OneLabel(labels[..n], tag)
  {
    hide IsRelease;
    var n := |labels| - 1;
    var front := labels[..n];
    assert forall i | 0 <= i < n :: front[i] == labels[i];
    if OneLabel(labels, tag) {
      var i :| 0 <= i < |labels| && labels[i] == tag && IsRelease(tag)
               && forall j | 0 <= j < |labels| && j != i :: !IsRelease(labels[j]);
      assert i < n ==> front[i] == tag;
    }
    if !IsRelease(labels[n]) && OneLabel(front, tag) {
      var i :| 0 <= i < n && front[i] == tag && IsRelease(tag)
               && forall j | 0 <= j < n && j != i :: !IsRelease(front[j]);
      assert labels[i] == tag;
    }
    if IsRelease(labels[n]) && tag == labels[n] && Wrong(front, NoReleaseLabel) {
      assert labels[n] == tag && forall j | 0 <= j < |labels| && j != n :: !IsRelease(labels[j]);
    }
  }

  /** The category of a pull request, or the reason it has none, from its labels alone. */
  lemma CategoryIff(pr: Pr)
    ensures CategoryOf(pr) == Ok(Enhancements) <==> OneLabel(pr.labels, "release::enhancements")
    ensures CategoryOf(pr) == Ok(BugFixes) <==> OneLabel(pr.labels, "release::bug_fixes")
    ensures CategoryOf(pr) == Ok(CiDocs) <==> OneLabel(pr.labels, "release::ci_docs")
    ensures CategoryOf(pr) == Err(NoReleaseLabel) <==> Wrong(pr.labels, NoReleaseLabel)
    ensures CategoryOf(pr) == Err(SeveralReleaseLabels) <==> Wrong(pr.labels, SeveralReleaseLabels)
    ensures CategoryOf(pr) == Err(UnknownReleaseLabel) <==> Wrong(pr.labels, UnknownReleaseLabel)
    ensures CategoryOf(pr).Ok? <==> HasCategory(pr.labels)
    ensures CategoryOf(pr).Err? ==> Wrong(pr.labels, CategoryOf(pr).error)
  {
    hide OneLabel, ReleaseLabels;
    ReleaseLabelsAre(pr.labels);
    var found := ReleaseLabels(pr.labels);
    if |found| == 1 {
      assert found == [found[0]] && OneLabel(pr.labels, found[0]);
    }
  }

  /**
   Sorting fails at the first pull request whose labels are wrong, and otherwise puts each into the list of its label.
   */
  method SortPrs(prs: seq<Pr>) returns (r: Result<Sorted, Error>)
    ensures r.Err? ==> exists i :: 0 <= i < |prs| && Wrong(prs[i].labels, r.error)
                                && forall k | 0 <= k < i :: HasCategory(prs[k].labels)
    ensures r.Ok? ==> forall i | 0 <= i < |prs| :: HasCategory(prs[i].labels)
    ensures r.Ok? ==> r.value == SortedBy(prs)
  {
    hide CategoryOf, Classify, ReleaseLabels, Only, OneLabel, IsRelease;
    var s := Sorted([], [], []);
    OnlyNone(prs);
    for n := 0 to |prs|
      invariant s == Sorted(Only(prs[..n], Enhancements), Only(prs[..n], BugFixes), Only(prs[..n], CiDocs))
      invariant forall i | 0 <= i < n :: HasCategory(prs[i].labels)
    {
      CategoryIff(prs[n]);
      var count, tag := ReleaseLabel(prs[n].labels);
      CategoryByLabel(prs[n], count, tag);
      OnlyStep(prs, n, Enhancements);
      OnlyStep(prs, n, BugFixes);
      OnlyStep(prs, n, CiDocs);
      match Classify(count, tag)
      case Err(e) =>
        assert Wrong(prs[n].labels, e);
        return Err(e);
      case Ok(Enhancements) => s := s.(enhancements := s.enhancements + [prs[n]]);
      case Ok(BugFixes) => s := s.(bugFixes := s.bugFixes + [prs[n]]);
      case Ok(CiDocs) => s := s.(ciDocs := s.ciDocs + [prs[n]]);
    }
    assert prs[..|prs|] == prs;
    return Ok(s);
  }

  /** The three lists by their labels. */
  lemma SortedByLabel(prs: seq<Pr>, pr: Pr)
    ensures pr in SortedBy(prs).enhancements <==> pr in prs && OneLabel(pr.labels, "release::enhancements")
    ensures pr in SortedBy(prs).bugFixes <==> pr in prs && OneLabel(pr.labels, "release::bug_fixes")
    ensures pr in SortedBy(prs).ciDocs <==> pr in prs && OneLabel(pr.labels, "release::ci_docs")
  {
    hide CategoryOf, Only, OneLabel;
    OnlyAre(prs, Enhancements, pr);
    OnlyAre(prs, BugFixes, pr);
    OnlyAre(prs, CiDocs, pr);
    CategoryIff(pr);
  }

  lemma CategoryByLabel(pr: Pr, count: nat, tag: string)
    requires count == |ReleaseLabels(pr.labels)|
    requires tag == if count == 0 then "" else ReleaseLabels(pr.labels)[count - 1]
    ensures CategoryOf(pr) == Classify(count, tag)
  {
    hide Classify;
  }

  lemma OnlyNone(prs: seq<Pr>)
    ensures forall c :: Only(prs[..0], c) == []
  {}

  lemma OnlyStep(prs: seq<Pr>, n: nat, c: Category)
    requires n < |prs|
    ensures Only(prs[..n + 1], c) == Only(prs[..n], c) + if CategoryOf(prs[n]) == Ok(c) then [prs[n]] else []
  {
    hide CategoryOf;
    assert prs[..n + 1][..n] == prs[..n];
  }

  /** The three lists hold every pull request exactly as often as it came. */
  lemma {:induction false} SortingConserves(prs: seq<Pr>)
    requires forall i | 0 <= i < |prs| :: CategoryOf(prs[i]).Ok?
    ensures multiset(Only(prs, Enhancements)) + multiset(Only(prs, BugFixes)) + multiset(Only(prs, CiDocs))
         == multiset(prs)
  {
    hide CategoryOf, Only;
    if prs == [] {
      OnlyNone(prs);
      assert prs[..0] == prs;
    } else {
      var n := |prs| - 1;
      SortingConserves(prs[..n]);
      assert prs == prs[..n] + [prs[n]] && prs[..n + 1] == prs;
      OnlyStep(prs, n, Enhancements);
      OnlyStep(prs, n, BugFixes);
      OnlyStep(prs, n, CiDocs);
      ConservesStep(Only(prs[..n], Enhancements), Only(prs[..n], BugFixes), Only(prs[..n], CiDocs),
                    [prs[n]], CategoryOf(prs[n]).value);
    }
  }

  lemma ConservesStep<T>(e: seq<T>, b: seq<T>, d: seq<T>, more: seq<T>, c: Category)
    ensures multiset(e + if c == Enhancements then more else []) + multiset(b + if c == BugFixes then more else [])
            + multiset(d + if c == CiDocs then more else [])
         == multiset(e) + multiset(b) + multiset(d) + multiset(more)
  {
    assert e + [] == e && b + [] == b && d + [] == d;
  }

  /** Each list holds pull requests of its own category only. */
  lemma {:induction false} OnlyAre(prs: seq<Pr>, c: Category, pr: Pr)
    ensures pr in Only(prs, c) <==> pr in prs && CategoryOf(pr) == Ok(c)
  {
    hide CategoryOf;
    if prs == [] {
    } else {
      var n := |prs| - 1;
      OnlyAre(prs[..n], c, pr);
      assert prs == prs[..n] + [prs[n]];
    }
  }
}
