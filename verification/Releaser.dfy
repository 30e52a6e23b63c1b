/**
 releaser.py: reads the newest block of the changelog line by line and hands each section and item
 to the packages it applies to.
 */
module Releaser {
  import opened Outcomes
  import opened Strings
  import opened PyText

  /** NoRelease: no line of equal signs. IndexError: what Python raises for a missing element. */
  datatype Error = NoRelease | IndexError

  datatype Item = Item(text: string, appliesTo: seq<string>)

  datatype SectionValue = SectionValue(text: string, appliesTo: seq<string>, items: seq<Item>)

  /** `versions` is the `changes` dictionary, whose change lists are filled only after the last line. */
  datatype State = State(versions: map<string, string>, sections: seq<SectionValue>, inSection: bool)

  predicate StateOk(st: State) {
    st.inSection ==> st.sections != []
  }

  // ---------- What one line does ----------

  /**
   The first bracketed text of a line and the position behind it: when the first `[` is not closed,
   none is.
   */
  function Bracket(c: string): (r: Option<(string, nat)>)
    ensures r.Some? ==> r.value.1 <= |c|
  {
    var open := Find(c, "[", 0);
    if open.None? then None
    else
      var close := Find(c, "]", open.value + 1);
      if close.None? then None else Some((c[open.value + 1..close.value], close.value + 1))
  }

  function StripAll(parts: seq<string>): (r: seq<string>)
    ensures |r| == |parts| && forall i | 0 <= i < |parts| :: r[i] == Strip(parts[i])
  {
    seq(|parts|, i requires 0 <= i < |parts| => Strip(parts[i]))
  }

  function Names(inner: string): seq<string> {
    StripAll(Split(inner, ",", |inner|))
  }

  function ItemOf(c: string): Item {
    match Bracket(c)
    case Some((inner, end)) => Item(Strip(c[end..]), Names(inner))
    case None => Item(Strip(c), ["all"])
  }

  function AddTo(s: SectionValue, item: Item): SectionValue {
    s.(items := s.items + [item])
  }

  function WithLast(sections: seq<SectionValue>, s: SectionValue): seq<SectionValue>
    requires sections != []
  {
    sections[..|sections| - 1] + [s]
  }

  function Last(sections: seq<SectionValue>): SectionValue
    requires sections != []
  {
    sections[|sections| - 1]
  }

  lemma LastOfAppended(before: seq<SectionValue>, s: SectionValue, t: SectionValue)
    ensures Last(before + [s]) == s && WithLast(before + [s], t) == before + [t]
  {}

  /** A heading line joins the section it continues, or opens one. */
  function HeadingSection(before: SectionValue, c: string): SectionValue {
    var s := before.(text := before.text + c);
    match Bracket(c)
    case Some((inner, _)) => s.(appliesTo := Names(inner))
    case None => if StartsWith(c, " ") then s.(text := s.text + " " + Strip(c)) else s
  }

  const NEW_SECTION := SectionValue("", ["all"], [])

  function Step(st: State, c: string): (r: Result<State, Error>)
    requires StateOk(st)
    ensures r.Ok? ==> StateOk(r.value)
  {
    if Strip(c) == "" then Ok(st.(inSection := false))
    else if StartsWith(c, "-") then
      if st.sections == [] then Err(IndexError)
      else
        Ok(st.(sections := WithLast(st.sections, AddTo(Last(st.sections), ItemOf(c))), inSection := false))
    else if st.inSection then Ok(st.(sections := WithLast(st.sections, HeadingSection(Last(st.sections), c))))
    else Ok(st.(sections := st.sections + [HeadingSection(NEW_SECTION, c)], inSection := true))
  }

  /** `name version` pairs; a later pair of the same name replaces an earlier one. */
  function Releases(parts: seq<string>, versions: map<string, string>): Result<map<string, string>, Error>
    decreases |parts|
  {
    if parts == [] then Ok(versions)
    else
      var words := Words(parts[0]);
      if |words| < 2 then Err(IndexError) else Releases(parts[1..], versions[words[0] := words[1]])
  }

  function ReleaseParts(c: string): seq<string> {
    var tail := if |c| >= 10 then c[10..] else "";
    StripAll(Split(tail, ",", |tail|))
  }

  /** The lines from the release mark up to the next release. */
  function Loop(st: State, lines: seq<string>): Result<State, Error>
    requires StateOk(st)
    decreases |lines|
  {
    if lines == [] then Ok(st)
    else if StartsWith(lines[0], "Releases") then
      match Releases(ReleaseParts(lines[0]), st.versions)
      case Err(e) => Err(e)
      case Ok(versions) => Loop(st.(versions := versions), lines[1..])
    else if |lines| == 1 then Err(IndexError)
    else if StartsWith(lines[1], "====") then Ok(st)
    else
      match Step(st, lines[0])
      case Err(e) => Err(e)
      case Ok(next) => Loop(next, lines[1..])
  }

  const START := State(map[], [], false)

  function AfterMark(lines: seq<string>): Option<seq<string>>
    decreases |lines|
  {
    if lines == [] then None
    else if StartsWith(lines[0], "=====") then Some(lines[1..])
    else AfterMark(lines[1..])
  }

  function ParseLines(lines: seq<string>): Result<State, Error> {
    match AfterMark(lines)
    case None => Err(NoRelease)
    case Some(rest) => Loop(START, rest)
  }

  // ---------- What a package gets ----------

  predicate Applies(appliesTo: seq<string>, name: string) {
    "all" in appliesTo || name in appliesTo
  }

  predicate SomeApplies(items: seq<Item>, name: string) {
    exists i :: 0 <= i < |items| && Applies(items[i].appliesTo, name)
  }

  function ItemEntries(items: seq<Item>, name: string): seq<string> {
    if items == [] then []
    else ItemEntries(items[..|items| - 1], name)
         + if Applies(items[|items| - 1].appliesTo, name) then ["- " + Strip(items[|items| - 1].text)] else []
  }

  /** Heading and items; every heading but the first of the release has an empty line before it. */
  function SectionEntries(s: SectionValue, name: string, first: bool): seq<string> {
    if Applies(s.appliesTo, name) && (s.items == [] || SomeApplies(s.items, name)) then
      [(if first then "" else "\n") + Strip(s.text)] + ItemEntries(s.items, name)
    else []
  }

  function Entries(sections: seq<SectionValue>, name: string): seq<string> {
    if sections == [] then []
    else Entries(sections[..|sections| - 1], name)
         + SectionEntries(sections[|sections| - 1], name, |sections| == 1)
  }

  // ---------- The state machine, step by step ----------

  class Section {
    var items: seq<Item>
    var appliesTo: seq<string>
    var text: string

    constructor ()
      ensures Value() == NEW_SECTION
    {
      items, appliesTo, text := [], ["all"], "";
    }

    ghost function Value(): SectionValue
      reads this
    {
      SectionValue(text, appliesTo, items)
    }

    /** The entries of this section for a package: one turn of the loop in populate_changes. */
    method Changes(name: string, first: bool) returns (changes: seq<string>)
      ensures changes == SectionEntries(Value(), name, first)
    {
      hide Strip, Applies, SomeApplies;
      changes := [];
      var applies := Applies(appliesTo, name);
      if applies && |items| > 0 {
        applies := AnyApplies(items, name);
      }
      if applies {
        var heading := (if first then "" else "\n") + Strip(text);
        changes := [heading];
        for k := 0 to |items|
          invariant changes == [heading] + ItemEntries(items[..k], name)
        {
          assert items[..k + 1][..k] == items[..k];
          if Applies(items[k].appliesTo, name) {
            changes := changes + ["- " + Strip(items[k].text)];
          }
        }
        assert items[..|items|] == items;
      }
    }
  }

  class Reader {
    var versions: map<string, string>
    var sections: seq<Section>
    var inSection: bool

    ghost predicate Valid()
      reads this
    {
      && (inSection ==> sections != [])
      && forall i, j | 0 <= i < j < |sections| :: sections[i] != sections[j]
    }

    ghost function Values(): (r: seq<SectionValue>)
      reads this, sections
      ensures |r| == |sections| && forall i | 0 <= i < |sections| :: r[i] == sections[i].Value()
    {
      seq(|sections|, i requires 0 <= i < |sections| reads this, sections => sections[i].Value())
    }

    ghost function Now(): State
      reads this, sections
    {
      State(versions, Values(), inSection)
    }

    constructor ()
      ensures Valid() && Now() == START
    {
      versions, sections, inSection := map[], [], false;
    }

    /** `sections.append(Section())` */
    method AddSection()
      requires Valid()
      modifies this`sections
      ensures Valid() && sections != [] && fresh(sections[|sections| - 1])
      ensures sections[..|sections| - 1] == old(sections) && Values() == old(Values()) + [NEW_SECTION]
    {
      var s := new Section();
      sections := sections + [s];
    }

    /** The fields of `sections[-1]` change, and nothing else. */
    method SetLast(text: string, appliesTo: seq<string>, items: seq<Item>)
      requires Valid() && sections != []
      modifies sections[|sections| - 1]
      ensures Valid() && Values() == WithLast(old(Values()), SectionValue(text, appliesTo, items))
    {
      var last := sections[|sections| - 1];
      last.text, last.appliesTo, last.items := text, appliesTo, items;
      assert forall i | 0 <= i < |sections| - 1 :: sections[i] != last;
    }

    /** The new item of `sections[-1]`. */
    method AddItem(item: Item) returns (r: Result<(), Error>)
      requires Valid()
      modifies sections
      ensures Valid()
      ensures if Values() == [] then r == Err(IndexError) && Values() == old(Values())
              else r == Ok(()) && Values() == WithLast(old(Values()), AddTo(Last(old(Values())), item))
    {
      if sections == [] {
        return Err(IndexError);
      }
      var last := sections[|sections| - 1];
      assert last.Value() == Last(Values());
      SetLast(last.text, last.appliesTo, last.items + [item]);
      return Ok(());
    }

    /** `sections[-1]` gets the line, and a bracket names the packages it applies to. */
    method AddHeading(c: string)
      requires Valid() && sections != []
      modifies sections
      ensures Valid() && Values() == WithLast(old(Values()), HeadingSection(Last(old(Values())), c))
    {
      hide Strip, Bracket, Names, StartsWith;
      var last := sections[|sections| - 1];
      assert last.Value() == Last(Values());
      var text, appliesTo := last.text + c, last.appliesTo;
      var found := Bracket(c);
      if found.Some? {
        appliesTo := Names(found.value.0);
      } else if StartsWith(c, " ") {
        text := text + " " + Strip(c);
      }
      SetLast(text, appliesTo, last.items);
    }

    /** One turn of the loop, for a line that is not the line of releases. */
    method TakeLine(c: string) returns (r: Result<(), Error>)
      requires Valid()
      modifies this`sections, this`inSection, sections
      ensures Valid() && forall i | 0 <= i < |sections| :: sections[i] in old(sections) || fresh(sections[i])
      ensures var next := Step(old(Now()), c); if next.Ok? then r == Ok(()) && Now() == next.value else r == Err(next.error)
    {
      hide Strip, StartsWith, HeadingSection, ItemOf, Bracket, Names, WithLast, Last, AddTo;
      if Strip(c) == "" || StartsWith(c, "-") {
        inSection := false;
        assert Values() == old(Values());
      }
      if Strip(c) == "" {
        return Ok(());
      }
      if StartsWith(c, "-") {
        r := AddItem(ItemOf(c));
      } else {
        if !inSection {
          AddSection();
          inSection := true;
          assert Values() == old(Values()) + [NEW_SECTION];
          LastOfAppended(old(Values()), NEW_SECTION, HeadingSection(NEW_SECTION, c));
        }
        AddHeading(c);
        r := Ok(());
      }
    }

    method TakeReleases(c: string) returns (r: Result<(), Error>)
      modifies this`versions
      ensures var all := Releases(ReleaseParts(c), old(versions));
              if all.Ok? then r == Ok(()) && versions == all.value else r == Err(all.error)
      ensures Values() == old(Values())
    {
      hide Words;
      var parts := ReleaseParts(c);
      for n := 0 to |parts|
        invariant Releases(parts[n..], versions) == Releases(parts, old(versions))
        invariant Values() == old(Values())
      {
        assert parts[n..][1..] == parts[n + 1..];
        var words := Words(parts[n]);
        if |words| < 2 {
          return Err(IndexError);
        }
        versions := versions[words[0] := words[1]];
      }
      return Ok(());
    }

    method Read(contents: seq<string>) returns (r: Result<(), Error>)
      requires Valid() && Now() == START
      modifies this
      ensures var all := ParseLines(contents);
              if all.Ok? then r == Ok(()) && Now() == all.value && Valid() else r == Err(all.error)
    {
      hide StartsWith, Step, Releases, ReleaseParts;
      assert |sections| == |Values()| == 0;
      var start := 0;
      while start < |contents| && !StartsWith(contents[start], "=====")
        invariant start <= |contents|
        invariant AfterMark(contents[start..]) == AfterMark(contents)
      {
        assert contents[start..][1..] == contents[start + 1..];
        start := start + 1;
      }
      if start == |contents| {
        return Err(NoRelease);
      }
      assert contents[start..][1..] == contents[start + 1..];
      var lines := contents[start + 1..];
      for n := 0 to |lines|
        invariant Valid() && forall i | 0 <= i < |sections| :: fresh(sections[i])
        invariant Loop(Now(), lines[n..]) == Loop(START, lines)
      {
        assert lines[n..][0] == lines[n] && lines[n..][1..] == lines[n + 1..];
        assert n + 1 < |lines| ==> lines[n..][1] == lines[n + 1];
        if StartsWith(lines[n], "Releases") {
          var done := TakeReleases(lines[n]);
          if done.Err? {
            return done;
          }
        } else {
          if n + 1 == |lines| {
            return Err(IndexError);
          }
          if StartsWith(lines[n + 1], "====") {
            return Ok(());
          }
          var done := TakeLine(lines[n]);
          if done.Err? {
            return done;
          }
        }
      }
      return Ok(());
    }

    /** populate_changes: what the package `name` gets. */
    method PopulateChanges(name: string) returns (changes: seq<string>)
      requires Valid()
      ensures changes == Entries(Values(), name)
    {
      hide SectionEntries;
      changes := [];
      for n := 0 to |sections|
        invariant changes == Entries(Values()[..n], name)
      {
        assert Values()[..n + 1][..n] == Values()[..n];
        assert Values()[n] == sections[n].Value();
        var more := sections[n].Changes(name, n == 0);
        changes := changes + more;
      }
      assert Values()[..|sections|] == Values();
    }
  }

  method AnyApplies(items: seq<Item>, name: string) returns (r: bool)
    ensures r == SomeApplies(items, name)
  {
    for k := 0 to |items|
      invariant forall i | 0 <= i < k :: !Applies(items[i].appliesTo, name)
    {
      if Applies(items[k].appliesTo, name) {
        return true;
      }
    }
    return false;
  }
}
