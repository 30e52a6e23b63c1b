/** What releaser.py makes of lines that the other script does not write (releaser.py:98-178). */
module ReleaserLaws {
  import opened Outcomes
  import opened Strings
  import opened Lists
  import opened PyText
  import opened Releaser
  import C = ChangelogRoundTrip

  // ---------- Brackets ----------

  /** A line with a pair of brackets, the first that is opened. */
  predicate Bracketed(line: string, before: string, inner: string, after: string) {
    line == before + "[" + inner + "]" + after && '[' !in before && ']' !in inner
  }

  lemma BracketFound(line: string, before: string, inner: string, after: string)
    requires Bracketed(line, before, inner, after)
    ensures Bracket(line) == Some((inner, |before| + |inner| + 2)) && line[|before| + |inner| + 2..] == after
  {
    hide Find;
    var open, close := |before|, |before| + 1 + |inner|;
    assert line[open] == '[' && line[close] == ']' && line[open + 1..close] == inner;
    forall k | 0 <= k < open ensures line[k] != '[' {
      assert line[k] == before[k];
    }
    forall k | open + 1 <= k < close ensures line[k] != ']' {
      assert line[k] == inner[k - open - 1];
    }
    C.FindCharFrom(line, '[', 0, open);
    C.FindCharFrom(line, ']', open + 1, close);
  }

  lemma NoBracket(line: string)
    requires '[' !in line
    ensures Bracket(line) == None
  {
    NotHere(line, '[');
  }

  // ---------- Items ----------

  /** An item with brackets: its text is what stands behind them, for the packages named in them. */
  lemma BracketedItem(st: State, line: string, before: string, names: seq<string>, after: string)
    requires StateOk(st) && StartsWith(line, "-") && Strip(line) != ""
    requires Bracketed(line, before, Join(names, ", "), after)
    requires names != [] && forall i | 0 <= i < |names| :: C.PlainName(names[i])
    ensures if st.sections == [] then Step(st, line) == Err(IndexError)
            else
              var last := Last(st.sections);
              Step(st, line)
              == Ok(State(st.versions,
                          WithLast(st.sections, last.(items := last.items + [Item(Strip(after), names)])), false))
  {
    hide Strip, Join, Bracket, Split;
    BracketFound(line, before, Join(names, ", "), after);
    C.NamesOfJoin(names);
  }

  /** An item without brackets is for all packages, and keeps its dash. */
  lemma PlainItem(st: State, line: string)
    requires StateOk(st) && StartsWith(line, "-") && Strip(line) != "" && '[' !in line && st.sections != []
    ensures var last := Last(st.sections);
            Step(st, line)
            == Ok(State(st.versions,
                        WithLast(st.sections, last.(items := last.items + [Item(Strip(line), ["all"])])), false))
  {
    hide Strip;
    NoBracket(line);
  }

  // ---------- Headings ----------

  /** The first line of a section: for all packages, unless it names some in brackets. */
  lemma NewSection(st: State, line: string)
    requires StateOk(st) && !st.inSection && Strip(line) != "" && !StartsWith(line, "-") && !StartsWith(line, " ")
    requires '[' !in line
    ensures Step(st, line) == Ok(State(st.versions, st.sections + [SectionValue(line, ["all"], [])], true))
  {
    hide Strip;
    NoBracket(line);
    assert "" + line == line;
  }

  lemma NewSectionFor(st: State, line: string, before: string, names: seq<string>, after: string)
    requires StateOk(st) && !st.inSection && Strip(line) != "" && !StartsWith(line, "-")
    requires Bracketed(line, before, Join(names, ", "), after)
    requires names != [] && forall i | 0 <= i < |names| :: C.PlainName(names[i])
    ensures Step(st, line) == Ok(State(st.versions, st.sections + [SectionValue(line, names, [])], true))
  {
    hide Strip, Join, Bracket, Split;
    BracketFound(line, before, Join(names, ", "), after);
    C.NamesOfJoin(names);
    assert "" + line == line;
  }

  /** A later line of a heading joins its text, once more when it is indented; brackets in it name the packages. */
  lemma HeadingGoesOn(st: State, line: string)
    requires StateOk(st) && st.inSection && Strip(line) != "" && !StartsWith(line, "-") && '[' !in line
    ensures var last := Last(st.sections);
            var text := if StartsWith(line, " ") then last.text + line + " " + Strip(line) else last.text + line;
            Step(st, line) == Ok(State(st.versions, WithLast(st.sections, last.(text := text)), true))
  {
    hide Strip, StartsWith;
    NoBracket(line);
  }

  lemma HeadingGoesOnFor(st: State, line: string, before: string, names: seq<string>, after: string)
    requires StateOk(st) && st.inSection && Strip(line) != "" && !StartsWith(line, "-")
    requires Bracketed(line, before, Join(names, ", "), after)
    requires names != [] && forall i | 0 <= i < |names| :: C.PlainName(names[i])
    ensures var last := Last(st.sections);
            Step(st, line)
            == Ok(State(st.versions, WithLast(st.sections, last.(text := last.text + line, appliesTo := names)), true))
  {
    hide Strip, Join, Bracket, Split, StartsWith;
    BracketFound(line, before, Join(names, ", "), after);
    C.NamesOfJoin(names);
  }

  /** A blank line ends a heading and changes nothing else. */
  lemma BlankEndsHeading(st: State, line: string)
    requires StateOk(st) && Strip(line) == ""
    ensures Step(st, line) == Ok(State(st.versions, st.sections, false))
  {}

  /** Without a mark there is nothing to parse. */
  lemma {:induction false} NoReleaseIff(lines: seq<string>)
    ensures ParseLines(lines) == Err(NoRelease) <==> forall i | 0 <= i < |lines| :: !StartsWith(lines[i], "=====")
  {
    hide Loop, StartsWith;
    NoMarkIff(lines);
    if AfterMark(lines).Some? {
      LoopHasMark(START, AfterMark(lines).value);
    }
  }

  lemma {:induction false} NoMarkIff(lines: seq<string>)
    ensures AfterMark(lines).None? <==> forall i | 0 <= i < |lines| :: !StartsWith(lines[i], "=====")
    decreases |lines|
  {
    hide StartsWith;
    if lines == [] {
    } else {
      NoMarkIff(lines[1..]);
      assert forall i | 0 < i < |lines| :: lines[i] == lines[1..][i - 1];
      assert forall i | 0 <= i < |lines| - 1 :: lines[1..][i] == lines[i + 1];
    }
  }

  lemma {:induction false} ReleasesErr(parts: seq<string>, versions: map<string, string>)
    ensures Releases(parts, versions) != Err(NoRelease)
    decreases |parts|
  {
    hide Words;
    if parts == [] {
    } else if |Words(parts[0])| >= 2 {
      ReleasesErr(parts[1..], versions[Words(parts[0])[0] := Words(parts[0])[1]]);
    }
  }

  lemma {:induction false} LoopHasMark(st: State, lines: seq<string>)
    requires StateOk(st)
    ensures Loop(st, lines) != Err(NoRelease)
    decreases |lines|
  {
    hide StartsWith, Strip, ItemOf, HeadingSection, Releases, ReleaseParts;
    if lines == [] {
    } else {
      var read := Releases(ReleaseParts(lines[0]), st.versions);
      ReleasesErr(ReleaseParts(lines[0]), st.versions);
      if read.Ok? {
        LoopHasMark(st.(versions := read.value), lines[1..]);
      }
      if Step(st, lines[0]).Ok? {
        LoopHasMark(Step(st, lines[0]).value, lines[1..]);
      }
    }
  }

  // ---------- What a package gets ----------

  predicate For(names: seq<string>, package: string) {
    "all" in names || package in names
  }

  /** A section is for the package, and so is one of its items if it has any. */
  predicate Shown(s: SectionValue, package: string) {
    For(s.appliesTo, package) && (s.items == [] || exists i | 0 <= i < |s.items| :: For(s.items[i].appliesTo, package))
  }

  function ItemTexts(items: seq<Item>, package: string): seq<seq<string>> {
    seq(|items|, i requires 0 <= i < |items| =>
      if For(items[i].appliesTo, package) then ["- " + Strip(items[i].text)] else [])
  }

  function SectionTexts(sections: seq<SectionValue>, package: string): seq<seq<string>> {
    seq(|sections|, i requires 0 <= i < |sections| =>
      if !Shown(sections[i], package) then []
      else [(if i == 0 then "" else "\n") + Strip(sections[i].text)] + Flatten(ItemTexts(sections[i].items, package)))
  }

  lemma {:induction false} ItemEntriesAre(items: seq<Item>, package: string)
    ensures ItemEntries(items, package) == Flatten(ItemTexts(items, package))
  {
    hide Strip;
    if items == [] {
    } else {
      var n := |items| - 1;
      ItemEntriesAre(items[..n], package);
      assert ItemTexts(items, package)[..n] == ItemTexts(items[..n], package);
    }
  }

  /** Every section shown, each with the texts of its items for the package, in order; only the first without a feed. */
  lemma {:induction false} EntriesAre(sections: seq<SectionValue>, package: string)
    ensures Entries(sections, package) == Flatten(SectionTexts(sections, package))
  {
    hide Strip, ItemEntries;
    if sections == [] {
    } else {
      var n := |sections| - 1;
      EntriesAre(sections[..n], package);
      assert SectionTexts(sections, package)[..n] == SectionTexts(sections[..n], package);
      ItemEntriesAre(sections[n].items, package);
    }
  }
}
