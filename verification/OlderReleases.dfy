/** When the parser of releaser.py finds the end of the newest release among the older lines (releaser.py:136-178). */
module OlderReleases {
  import opened Outcomes
  import opened Strings
  import opened PyText
  import opened Releaser

  predicate IsMark(c: string) {
    StartsWith(c, "====")
  }

  predicate IsReleases(c: string) {
    StartsWith(c, "Releases")
  }

  /** Every release of the line has a name and a version. */
  predicate ReleasesOk(c: string) {
    forall i | 0 <= i < |ReleaseParts(c)| :: |Words(ReleaseParts(c)[i])| >= 2
  }

  lemma {:induction false} ReleasesOkIff(parts: seq<string>, versions: map<string, string>)
    ensures Releases(parts, versions).Ok? <==> forall i | 0 <= i < |parts| :: |Words(parts[i])| >= 2
    ensures Releases(parts, versions).Err? ==> Releases(parts, versions) == Err(IndexError)
    decreases |parts|
  {
    hide Words;
    if parts == [] {
    } else {
      var words := Words(parts[0]);
      assert forall i | 0 < i < |parts| :: parts[i] == parts[1..][i - 1];
      assert forall i | 0 <= i < |parts| - 1 :: parts[1..][i] == parts[i + 1];
      if |words| >= 2 {
        ReleasesOkIff(parts[1..], versions[words[0] := words[1]]);
      }
    }
  }

  /** A line that opens a section where none is open. */
  predicate IsHeading(c: string) {
    Strip(c) != "" && !StartsWith(c, "-") && !IsReleases(c)
  }

  predicate IsItem(c: string) {
    Strip(c) != "" && StartsWith(c, "-")
  }

  // ---------- When the loop succeeds ----------

  /**
   A mark stops the loop at the line in front of it, unless that is a line of releases; without a mark the loop gets
   past the last line only if that is one.
   */
  predicate StopsAt(lines: seq<string>, i: nat) {
    && 1 <= i <= |lines|
    && if i < |lines| then IsMark(lines[i]) && !IsReleases(lines[i - 1]) else IsReleases(lines[i - 1])
  }

  /**
   Nothing goes wrong before: the releases can be read, and no item comes ahead of the first heading, if none was
   there to begin with.
   */
  predicate EndsAt(begun: bool, lines: seq<string>, i: nat) {
    && StopsAt(lines, i)
    && (forall k | 0 <= k < i && IsReleases(lines[k]) :: ReleasesOk(lines[k]))
    && (begun || forall k | 0 <= k < i - 1 && IsItem(lines[k]) :: exists j :: 0 <= j < k && IsHeading(lines[j]))
  }

  ghost predicate Ends(begun: bool, lines: seq<string>) {
    exists i: nat :: EndsAt(begun, lines, i)
  }

  /** The first line lets the loop go on. */
  predicate Passes(begun: bool, c: string) {
    (IsReleases(c) ==> ReleasesOk(c)) && (begun || !IsItem(c))
  }

  lemma EndsLater(begun: bool, lines: seq<string>, i: nat)
    requires lines != [] && i >= 1
    ensures EndsAt(begun, lines, i + 1) <==>
            Passes(begun, lines[0]) && EndsAt(begun || IsHeading(lines[0]), lines[1..], i)
  {
    hide IsItem, IsHeading, IsReleases, ReleasesOk, IsMark;
    var rest := lines[1..];
    assert forall k | 0 <= k < |rest| :: rest[k] == lines[k + 1];
    assert forall k | 0 < k < |lines| :: lines[k] == rest[k - 1];
    ItemIsNoHeading(lines[0]);
    if EndsAt(begun, lines, i + 1) && !begun && !IsHeading(lines[0]) {
      forall k | 0 <= k < i - 1 && IsItem(rest[k]) ensures exists j :: 0 <= j < k && IsHeading(rest[j]) {
        assert IsItem(lines[k + 1]);
        var j :| 0 <= j < k + 1 && IsHeading(lines[j]);
        assert IsHeading(rest[j - 1]);
      }
    }
    if Passes(begun, lines[0]) && EndsAt(begun || IsHeading(lines[0]), rest, i) && !begun {
      forall k | 0 <= k < i && IsItem(lines[k]) ensures exists j :: 0 <= j < k && IsHeading(lines[j]) {
        assert k > 0 && IsItem(rest[k - 1]);
        if !IsHeading(lines[0]) {
          var j :| 0 <= j < k - 1 && IsHeading(rest[j]);
          assert IsHeading(lines[j + 1]);
        }
      }
    }
  }

  lemma ItemIsNoHeading(c: string)
    ensures IsItem(c) ==> !IsHeading(c) && !IsReleases(c)
    ensures IsMark(c) ==> !IsReleases(c)
  {
    assert StartsWith(c, "-") ==> c[0] == c[..1][0];
    assert IsReleases(c) ==> c[0] == c[..8][0];
    assert IsMark(c) ==> c[0] == c[..4][0];
    hide Strip;
  }

  lemma EndsStep(begun: bool, lines: seq<string>)
    requires lines != []
    ensures Ends(begun, lines) <==>
            || (IsReleases(lines[0]) && |lines| == 1 && ReleasesOk(lines[0]))
            || (!IsReleases(lines[0]) && |lines| > 1 && IsMark(lines[1]))
            || (Passes(begun, lines[0]) && Ends(begun || IsHeading(lines[0]), lines[1..]))
  {
    hide IsHeading, IsItem, IsReleases, ReleasesOk, IsMark, Passes;
    assert EndsAt(begun, lines, 1) <==>
           || (IsReleases(lines[0]) && |lines| == 1 && ReleasesOk(lines[0]))
           || (!IsReleases(lines[0]) && |lines| > 1 && IsMark(lines[1]));
    if Ends(begun, lines) && !EndsAt(begun, lines, 1) {
      var i: nat :| EndsAt(begun, lines, i);
      EndsLater(begun, lines, i - 1);
    }
    if Passes(begun, lines[0]) && Ends(begun || IsHeading(lines[0]), lines[1..]) {
      var i: nat :| EndsAt(begun || IsHeading(lines[0]), lines[1..], i);
      EndsLater(begun, lines, i);
      assert EndsAt(begun, lines, i + 1);
    }
  }

  /** The loop succeeds exactly when it is stopped before anything goes wrong; every failure is an IndexError. */
  lemma {:induction false} LoopEndsIff(st: State, lines: seq<string>)
    requires StateOk(st) && lines != []
    ensures Loop(st, lines).Ok? <==> Ends(st.sections != [], lines)
    ensures Loop(st, lines).Err? ==> Loop(st, lines) == Err(IndexError)
    decreases |lines|
  {
    hide Strip, StartsWith, ItemOf, HeadingSection, Releases, ReleaseParts, Words, ReleasesOk, Ends;
    var c, rest := lines[0], lines[1..];
    EndsStep(st.sections != [], lines);
    ItemIsNoHeading(c);
    ReadReleases(c, st.versions);
    if rest == [] {
      NothingEnds(st.sections != [] || IsHeading(c));
    } else if IsReleases(c) {
      if ReleasesOk(c) {
        LoopEndsIff(st.(versions := Releases(ReleaseParts(c), st.versions).value), rest);
      }
    } else if !IsMark(rest[0]) {
      var step := Step(st, c);
      assert step.Ok? <==> Passes(st.sections != [], c);
      if step.Ok? {
        assert step.value.sections != [] <==> st.sections != [] || IsHeading(c);
        LoopEndsIff(step.value, rest);
      }
    }
  }

  lemma ReadReleases(c: string, versions: map<string, string>)
    ensures Releases(ReleaseParts(c), versions).Ok? <==> ReleasesOk(c)
    ensures Releases(ReleaseParts(c), versions).Err? ==> Releases(ReleaseParts(c), versions) == Err(IndexError)
  {
    ReleasesOkIff(ReleaseParts(c), versions);
  }

  lemma NothingEnds(begun: bool)
    ensures !Ends(begun, [])
  {}

  // ---------- Once a section is there ----------

  /** No line of releases comes before the first mark. */
  predicate ReleasesBehindMarks(lines: seq<string>) {
    forall k | 0 <= k < |lines| && IsReleases(lines[k]) :: exists i :: 1 <= i <= k && IsMark(lines[i])
  }

  lemma {:induction false} FirstMark(lines: seq<string>, i: nat) returns (m: nat)
    requires 1 <= i < |lines| && IsMark(lines[i])
    ensures 1 <= m <= i && IsMark(lines[m]) && forall k | 1 <= k < m :: !IsMark(lines[k])
    decreases i
  {
    hide IsMark;
    if j: nat :| 1 <= j < i && IsMark(lines[j]) {
      m := FirstMark(lines, j);
    } else {
      m := i;
    }
  }

  predicate HasMark(lines: seq<string>, from: nat) {
    exists i :: from <= i < |lines| && IsMark(lines[i])
  }

  lemma HasMarkBehind(c: string, lines: seq<string>)
    ensures HasMark([c] + lines, 1) <==> HasMark(lines, 0)
  {
    hide IsMark;
    var all := [c] + lines;
    if i :| 0 <= i < |lines| && IsMark(lines[i]) {
      assert all[i + 1] == lines[i];
    }
    if i :| 1 <= i < |all| && IsMark(all[i]) {
      assert all[i] == lines[i - 1];
    }
  }

  /** Then any mark will do. */
  lemma EndsIffMark(lines: seq<string>)
    requires ReleasesBehindMarks(lines)
    ensures Ends(true, lines) <==> HasMark(lines, 1)
  {
    hide IsMark, IsReleases, ReleasesOk;
    if exists i :: 1 <= i < |lines| && IsMark(lines[i]) {
      var i :| 1 <= i < |lines| && IsMark(lines[i]);
      var m := FirstMark(lines, i);
      assert EndsAt(true, lines, m);
    }
    if Ends(true, lines) {
      var i: nat :| EndsAt(true, lines, i);
    }
  }

  // ---------- When the lines leave no trace ----------

  /** Blank lines and lines of releases, at most one other line, and then the loop stops. */
  predicate QuietAt(lines: seq<string>, i: nat) {
    && StopsAt(lines, i)
    && (forall k | 0 <= k < i && IsReleases(lines[k]) :: ReleasesOk(lines[k]))
    && forall k | 0 <= k < i - 1 :: Strip(lines[k]) == "" || IsReleases(lines[k])
  }

  /** The versions after the lines of releases among these. */
  function Versions(lines: seq<string>, versions: map<string, string>): map<string, string>
    decreases |lines|
  {
    if lines == [] then versions
    else
      var read := Releases(ReleaseParts(lines[0]), versions);
      Versions(lines[1..], if IsReleases(lines[0]) && read.Ok? then read.value else versions)
  }

  /**
   The lines start with a release: blank lines, its name, the mark. Lines of releases may stand among them if they
   change no version.
   */
  ghost predicate OlderRelease(lines: seq<string>, versions: map<string, string>) {
    exists i: nat :: QuietAt(lines, i) && Versions(lines[..i], versions) == versions
  }

  lemma QuietLater(lines: seq<string>, i: nat)
    requires lines != [] && i >= 1
    ensures QuietAt(lines, i + 1) <==>
            (Strip(lines[0]) == "" || IsReleases(lines[0])) && (IsReleases(lines[0]) ==> ReleasesOk(lines[0]))
            && QuietAt(lines[1..], i)
  {
    hide Strip, IsReleases, ReleasesOk, IsMark;
    var rest := lines[1..];
    assert forall k | 0 <= k < |rest| :: rest[k] == lines[k + 1];
    assert forall k | 0 < k < |lines| :: lines[k] == rest[k - 1];
  }

  lemma VersionsStep(lines: seq<string>, i: nat, versions: map<string, string>)
    requires lines != [] && i + 1 <= |lines|
    ensures var read := Releases(ReleaseParts(lines[0]), versions);
            Versions(lines[..i + 1], versions)
            == Versions(lines[1..][..i], if IsReleases(lines[0]) && read.Ok? then read.value else versions)
  {
    hide IsReleases, Releases, ReleaseParts;
    assert lines[..i + 1][1..] == lines[1..][..i];
  }

  lemma VersionsNone(versions: map<string, string>)
    ensures Versions([], versions) == versions
  {}

  /** Such lines change nothing but the versions. */
  lemma {:induction false} QuietRuns(st: State, lines: seq<string>, i: nat)
    requires !st.inSection && QuietAt(lines, i)
    ensures Loop(st, lines) == Ok(st.(versions := Versions(lines[..i], st.versions)))
    decreases |lines|
  {
    hide Strip, StartsWith, Releases, ReleaseParts, ReleasesOk, Versions;
    var c, rest := lines[0], lines[1..];
    ReadReleases(c, st.versions);
    VersionsStep(lines, i - 1, st.versions);
    VersionsNone(st.versions);
    assert rest[..0] == [];
    if IsReleases(c) {
      var read := Releases(ReleaseParts(c), st.versions).value;
      if i == 1 {
        VersionsNone(read);
      } else {
        QuietLater(lines, i - 1);
        QuietRuns(st.(versions := read), rest, i - 1);
      }
    } else if IsMark(lines[1]) {
      MarkIsNext(lines, i, st.versions);
    } else {
      QuietLater(lines, i - 1);
      QuietRuns(st, rest, i - 1);
    }
  }

  lemma MarkIsNext(lines: seq<string>, i: nat, versions: map<string, string>)
    requires |lines| > 1 && !IsReleases(lines[0]) && IsMark(lines[1]) && QuietAt(lines, i)
    ensures Versions(lines[..i], versions) == versions
  {
    hide StartsWith, Releases, ReleaseParts, ReleasesOk;
    MarkIsNotBlank(lines[1]);
    ItemIsNoHeading(lines[1]);
    assert i <= 2;
    VersionsStep(lines, i - 1, versions);
    if i == 1 {
      assert lines[1..][..0] == [];
    } else {
      VersionsStep(lines[1..], 0, versions);
      assert lines[1..][1..][..0] == [];
    }
  }

  lemma MarkIsNotBlank(c: string)
    ensures IsMark(c) ==> Strip(c) != ""
  {
    if IsMark(c) {
      assert c[0] == c[..4][0] == '=';
      RStripKeepsHead(c);
    }
  }

  /** How much the sections hold; it only grows. */
  function Weight(sections: seq<SectionValue>): nat {
    if sections == [] then 0
    else
      var last := sections[|sections| - 1];
      Weight(sections[..|sections| - 1]) + 1 + |last.text| + |last.items|
  }

  lemma WeightOfLast(sections: seq<SectionValue>, s: SectionValue)
    ensures Weight(sections + [s]) == Weight(sections) + 1 + |s.text| + |s.items|
  {
    assert (sections + [s])[..|sections|] == sections;
  }

  lemma WeightReplaced(sections: seq<SectionValue>, s: SectionValue)
    requires sections != []
    ensures Weight(WithLast(sections, s)) - |s.text| - |s.items|
         == Weight(sections) - |Last(sections).text| - |Last(sections).items|
  {
    hide Weight;
    var front := sections[..|sections| - 1];
    assert sections == front + [Last(sections)];
    WeightOfLast(front, Last(sections));
    WeightOfLast(front, s);
  }

  lemma StepWeighs(st: State, c: string)
    requires StateOk(st) && Step(st, c).Ok?
    ensures var next := Step(st, c).value;
            if Strip(c) == "" then next.sections == st.sections && !next.inSection
            else Weight(next.sections) > Weight(st.sections)
  {
    hide Strip, StartsWith, ItemOf, HeadingSection, Weight, WithLast;
    if Strip(c) != "" {
      NotBlank(c);
      HeadingGrows(NEW_SECTION, c);
      WeightOfLast(st.sections, HeadingSection(NEW_SECTION, c));
      if st.sections != [] {
        HeadingGrows(Last(st.sections), c);
        WeightReplaced(st.sections, AddTo(Last(st.sections), ItemOf(c)));
        WeightReplaced(st.sections, HeadingSection(Last(st.sections), c));
      }
    }
  }

  lemma HeadingGrows(s: SectionValue, c: string)
    ensures |HeadingSection(s, c).text| >= |s.text| + |c| && HeadingSection(s, c).items == s.items
  {
    hide Strip, StartsWith, Bracket, Names;
  }

  lemma NotBlank(c: string)
    requires Strip(c) != ""
    ensures |c| > 0
  {}

  lemma {:induction false} LoopGrows(st: State, lines: seq<string>)
    requires StateOk(st) && Loop(st, lines).Ok?
    ensures Weight(Loop(st, lines).value.sections) >= Weight(st.sections)
    decreases |lines|
  {
    hide Strip, StartsWith, Step, Weight, Releases, ReleaseParts;
    if lines == [] {
    } else if IsReleases(lines[0]) {
      LoopGrows(st.(versions := Releases(ReleaseParts(lines[0]), st.versions).value), lines[1..]);
    } else if !IsMark(lines[1]) {
      StepWeighs(st, lines[0]);
      LoopGrows(Step(st, lines[0]).value, lines[1..]);
    }
  }

  /** Any other line in front of the mark is taken into the newest release. */
  lemma {:induction false} UnchangedIsQuiet(st: State, lines: seq<string>) returns (i: nat)
    requires !st.inSection && lines != [] && Loop(st, lines).Ok? && Loop(st, lines).value.sections == st.sections
    ensures QuietAt(lines, i)
    decreases |lines|
  {
    hide Strip, StartsWith, Step, Weight, Releases, ReleaseParts, ReleasesOk;
    var c, rest := lines[0], lines[1..];
    i := 1;
    if IsReleases(c) {
      ReadReleases(c, st.versions);
      if rest != [] {
        i := UnchangedIsQuiet(st.(versions := Releases(ReleaseParts(c), st.versions).value), rest);
        QuietLater(lines, i);
        i := i + 1;
      }
    } else if !IsMark(rest[0]) {
      StepWeighs(st, c);
      LoopGrows(Step(st, c).value, rest);
      i := UnchangedIsQuiet(Step(st, c).value, rest);
      QuietLater(lines, i);
      i := i + 1;
    }
  }

  /** The loop comes back to where it was exactly when the lines start with a release. */
  lemma LoopUnchangedIff(st: State, lines: seq<string>)
    requires !st.inSection && lines != []
    ensures Loop(st, lines) == Ok(st) <==> OlderRelease(lines, st.versions)
  {
    hide Loop, Versions, IsMark, IsReleases, ReleasesOk, Strip;
    if OlderRelease(lines, st.versions) {
      var i: nat :| QuietAt(lines, i) && Versions(lines[..i], st.versions) == st.versions;
      QuietRuns(st, lines, i);
    }
    if Loop(st, lines) == Ok(st) {
      var i := UnchangedIsQuiet(st, lines);
      QuietRuns(st, lines, i);
    }
  }

  lemma FeedIsBlank()
    ensures Strip("\n") == "" && !IsReleases("\n") && !IsMark("\n")
  {
    assert LStrip("\n") == LStrip("\n"[1..]) == "";
  }
}
