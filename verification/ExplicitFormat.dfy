/**
 The explicit environment format: the printer of `env export --explicit`
 (micromamba/src/env.cpp:132-165) and the reading of one text spec file
 (libmamba/src/api/install.cpp:884-937).
 */
module ExplicitFormat {
  import opened Outcomes
  import opened Strings
  import opened Lists

  // ---------- Printing ----------

  datatype Record = Record(packageUrl: string, md5: string)

  /** `clean` parses a URL and writes it without credentials; None when it does not parse. */
  datatype Printer = Printer(clean: string -> Option<string>, noMd5: int)

  function Url(p: Printer, r: Record): string {
    match p.clean(r.packageUrl)
    case Some(url) => url
    case None => r.packageUrl
  }

  function RecordLine(p: Printer, r: Record): string {
    Url(p, r) + if p.noMd5 != 1 then "#" + r.md5 else ""
  }

  function RecordLines(p: Printer, records: seq<Record>): (lines: seq<string>)
    ensures |lines| == |records| && forall i | 0 <= i < |lines| :: lines[i] == RecordLine(p, records[i])
  {
    seq(|records|, i requires 0 <= i < |records| => RecordLine(p, records[i]))
  }

  // In pieces, because the verifier does not look deep into one long literal.
  const TITLE := "# This file may " + "be used to create " + "an environment using:"
  const USAGE := "# $ conda create " + "--name <env> " + "--file <this file>"
  const PLATFORM := "# platform: "
  const EXPLICIT := "@EXPLICIT"

  function Header(platform: string): seq<string> {
    [TITLE, USAGE, PLATFORM + platform, EXPLICIT]
  }

  /** The lines, each with its line feed. */
  function Text(lines: seq<string>): string {
    if lines == [] then "" else Text(lines[..|lines| - 1]) + lines[|lines| - 1] + "\n"
  }

  method Export(platform: string, records: seq<Record>, p: Printer) returns (out: string)
    ensures out == Text(Header(platform) + RecordLines(p, records))
  {
    hide Text;
    out := TITLE + "\n" + USAGE + "\n" + PLATFORM + platform + "\n" + EXPLICIT + "\n";
    ghost var lines := RecordLines(p, records);
    HeaderText(platform);
    assert lines[..0] == [] && Header(platform) + [] == Header(platform);
    for i := 0 to |records|
      invariant out == Text(Header(platform) + lines[..i])
    {
      match p.clean(records[i].packageUrl) {
        case Some(url) => out := out + url;
        case None => out := out + records[i].packageUrl;
      }
      if p.noMd5 != 1 {
        out := out + "#" + records[i].md5;
      }
      out := out + "\n";
      TextStep(Header(platform) + lines[..i], lines[i]);
      assert Header(platform) + lines[..i] + [lines[i]] == Header(platform) + lines[..i + 1];
      LineBuilds(Text(Header(platform) + lines[..i]), p, records[i]);
    }
    assert lines[..|records|] == lines;
  }

  lemma LineBuilds(before: string, p: Printer, r: Record)
    ensures var url := Url(p, r);
            before + RecordLine(p, r) + "\n"
            == (if p.noMd5 != 1 then before + url + "#" + r.md5 else before + url) + "\n"
  {
    var url := Url(p, r);
    assert before + (url + ("#" + r.md5)) == before + url + "#" + r.md5;
    assert url + "" == url;
  }

  lemma TextStep(lines: seq<string>, l: string)
    ensures Text(lines + [l]) == Text(lines) + l + "\n"
  {
    assert (lines + [l])[..|lines|] == lines;
  }

  lemma HeaderText(platform: string)
    ensures Text(Header(platform))
         == TITLE + "\n" + USAGE + "\n" + PLATFORM + platform + "\n" + EXPLICIT + "\n"
  {
    TextOfFour(TITLE, USAGE, PLATFORM + platform, EXPLICIT);
    var before := TITLE + "\n" + USAGE + "\n";
    assert before + (PLATFORM + platform) == before + PLATFORM + platform;
  }

  lemma TextOfFour(a: string, b: string, c: string, d: string)
    ensures Text([a, b, c, d]) == a + "\n" + b + "\n" + c + "\n" + d + "\n"
  {
    assert [] + [a] == [a] && [a] + [b] == [a, b] && [a, b] + [c] == [a, b, c] && [a, b, c] + [d] == [a, b, c, d];
    TextStep([], a);
    TextStep([a], b);
    TextStep([a, b], c);
    TextStep([a, b, c], d);
    assert "" + a == a;
  }

  // ---------- Lines ----------

  /** Without one trailing carriage return. */
  function Chomp(line: string): string {
    if line != "" && line[|line| - 1] == '\r' then line[..|line| - 1] else line
  }

  function LinesOf(text: string): seq<string>
    decreases |text|
  {
    if text == "" then []
    else
      match Find(text, "\n", 0)
      case None => [Chomp(text)]
      case Some(i) => [Chomp(text[..i])] + LinesOf(text[i + 1..])
  }

  method ReadLines(text: string) returns (lines: seq<string>)
    ensures lines == LinesOf(text)
  {
    hide Find;
    lines := [];
    var rest := text;
    while rest != ""
      invariant lines + LinesOf(rest) == LinesOf(text)
      decreases |rest|
    {
      var line, tail := GetLine(rest);
      SeqAssoc(lines, [Chomp(line)], LinesOf(tail));
      rest := tail;
      if line != "" && line[|line| - 1] == '\r' {
        line := line[..|line| - 1];
      }
      lines := lines + [line];
    }
    assert lines + [] == lines;
  }

  /** `std::getline`: up to the first line feed, which is dropped. */
  method GetLine(rest: string) returns (line: string, tail: string)
    requires rest != ""
    ensures |tail| < |rest| && LinesOf(rest) == [Chomp(line)] + LinesOf(tail)
  {
    var feed := Find(rest, "\n", 0);
    line := if feed.None? then rest else rest[..feed.value];
    tail := if feed.None? then "" else rest[feed.value + 1..];
  }

  lemma ReadFirst(line: string, rest: string)
    requires '\n' !in line
    ensures LinesOf(line + "\n" + rest) == [Chomp(line)] + LinesOf(rest)
  {
    hide Find;
    var text := line + "\n" + rest;
    SeparableChar(line, '\n');
    SeparableFind(line, "\n", rest);
    assert text[..|line|] == line && text[|line| + 1..] == rest;
  }

  function Chomped(lines: seq<string>): (r: seq<string>)
    ensures |r| == |lines| && forall i | 0 <= i < |r| :: r[i] == Chomp(lines[i])
  {
    seq(|lines|, i requires 0 <= i < |lines| => Chomp(lines[i]))
  }

  lemma {:induction false} ReadPrinted(lines: seq<string>, rest: string)
    requires forall i | 0 <= i < |lines| :: '\n' !in lines[i]
    ensures LinesOf(Text(lines) + rest) == Chomped(lines) + LinesOf(rest)
  {
    hide LinesOf, Chomp;
    if lines == [] {
      assert Text(lines) + rest == rest;
    } else {
      var n := |lines| - 1;
      var l := lines[n];
      ReadPrinted(lines[..n], l + "\n" + rest);
      assert Text(lines) + rest == Text(lines[..n]) + (l + "\n" + rest);
      ReadFirst(l, rest);
      assert Chomped(lines) == Chomped(lines[..n]) + [Chomp(l)];
    }
  }

  lemma HeadHasNoFeed(text: string)
    ensures var feed := Find(text, "\n", 0);
            if feed.None? then '\n' !in text else feed.value < |text| && '\n' !in text[..feed.value]
  {
    hide Find;
    NotHere(text, '\n');
    var feed := Find(text, "\n", 0);
    if feed.Some? {
      forall k | 0 <= k < feed.value ensures text[k] != '\n' {
        assert !OccursAt(text, "\n", k) && text[k..k + 1] == [text[k]];
      }
    }
  }

  lemma {:induction false} LinesHaveNoFeed(text: string, i: nat)
    requires i < |LinesOf(text)|
    ensures '\n' !in LinesOf(text)[i]
    decreases |text|
  {
    hide Find;
    HeadHasNoFeed(text);
    var feed := Find(text, "\n", 0);
    if feed.None? || i == 0 {
    } else {
      LinesHaveNoFeed(text[feed.value + 1..], i - 1);
    }
  }

  // ---------- Reading one text file ----------

  predicate Graphic(c: char) {
    0x21 <= c as int <= 0x7E
  }

  /** Without the characters at both ends that are not graphic. */
  function Strip(s: string): string {
    if s == "" then ""
    else if !Graphic(s[0]) then Strip(s[1..])
    else if !Graphic(s[|s| - 1]) then Strip(s[..|s| - 1])
    else s
  }

  predicate IsSpec(line: string) {
    Strip(line) != "" && Strip(line)[0] != '#'
  }

  function SpecsIn(lines: seq<string>): seq<string> {
    if lines == [] then []
    else SpecsIn(lines[..|lines| - 1]) + if IsSpec(lines[|lines| - 1]) then [lines[|lines| - 1]] else []
  }

  /** An empty line starts with the terminating NUL of the string, so it is kept. */
  predicate IsPlain(line: string) {
    line == "" || (line[0] != '#' && line[0] != '@')
  }

  function PlainIn(lines: seq<string>): seq<string> {
    if lines == [] then []
    else PlainIn(lines[..|lines| - 1]) + if IsPlain(lines[|lines| - 1]) then [lines[|lines| - 1]] else []
  }

  /** The first line that starts with the marker; the number of lines when there is none. */
  function Marker(lines: seq<string>): (i: nat)
    ensures i <= |lines| && (i < |lines| ==> StartsWith(lines[i], EXPLICIT))
    ensures forall j | 0 <= j < i :: !StartsWith(lines[j], EXPLICIT)
  {
    if lines == [] || StartsWith(lines[0], EXPLICIT) then 0 else 1 + Marker(lines[1..])
  }

  /** The platform the reader reports: from the first platform line, else the whole line before the marker. */
  function Platform(before: seq<string>): string {
    if before == [] then ""
    else if StartsWith(before[0], PLATFORM) then before[0][|PLATFORM|..]
    else if |before| == 1 then before[0]
    else Platform(before[1..])
  }

  datatype Reading = Explicit(platform: string, specs: seq<string>) | Plain(specs: seq<string>)

  function Read(lines: seq<string>): Reading {
    var i := Marker(lines);
    if i < |lines| then Explicit(Platform(lines[..i]), SpecsIn(lines[i + 1..])) else Plain(PlainIn(lines))
  }

  method FindPlatform(lines: seq<string>, i: nat) returns (platform: string)
    requires i <= |lines|
    ensures platform == Platform(lines[..i])
  {
    platform := "";
    var j := 0;
    assert lines[..i] == lines[0..i];
    while j < i
      invariant j <= i
      invariant Platform(lines[..i]) == if j < i then Platform(lines[j..i]) else platform
    {
      platform := lines[j];
      assert lines[j..i][1..] == lines[j + 1..i];
      if StartsWith(platform, PLATFORM) {
        return platform[|PLATFORM|..];
      }
      j := j + 1;
    }
  }

  method CollectExplicit(lines: seq<string>) returns (specs: seq<string>)
    ensures specs == SpecsIn(lines)
  {
    hide Strip;
    specs := [];
    for i := 0 to |lines|
      invariant specs == SpecsIn(lines[..i])
    {
      assert lines[..i + 1][..i] == lines[..i];
      var spec := Strip(lines[i]);
      if spec != "" && spec[0] != '#' {
        specs := specs + [lines[i]];
      }
    }
    assert lines[..|lines|] == lines;
  }

  /** The body of the source's loop over one text file, up to what it does with the result. */
  method ReadSpecs(lines: seq<string>) returns (r: Reading)
    ensures r == Read(lines)
  {
    hide SpecsIn, Platform, Marker;
    for i := 0 to |lines|
      invariant forall j | 0 <= j < i :: !StartsWith(lines[j], EXPLICIT)
    {
      if StartsWith(lines[i], EXPLICIT) {
        MarkerIs(lines, i);
        var platform := FindPlatform(lines, i);
        var specs := CollectExplicit(lines[i + 1..]);
        return Explicit(platform, specs);
      }
    }
    MarkerIs(lines, |lines|);
    var plain: seq<string> := [];
    for i := 0 to |lines|
      invariant plain == PlainIn(lines[..i])
    {
      assert lines[..i + 1][..i] == lines[..i];
      if IsPlain(lines[i]) {
        plain := plain + [lines[i]];
      }
    }
    assert lines[..|lines|] == lines;
    return Plain(plain);
  }

  lemma MarkerIs(lines: seq<string>, i: nat)
    requires i <= |lines| && (i < |lines| ==> StartsWith(lines[i], EXPLICIT))
    requires forall j | 0 <= j < i :: !StartsWith(lines[j], EXPLICIT)
    ensures Marker(lines) == i
  {
    hide StartsWith;
  }

  // ---------- Round trip ----------

  /** Non-blank, and the first character that shows is not '#'. */
  lemma {:induction false} IsSpecIff(line: string)
    ensures IsSpec(line)
       <==> exists k | 0 <= k < |line| ::
              '!' <= line[k] <= '~' && line[k] != '#' && forall j | 0 <= j < k :: !('!' <= line[j] <= '~')
    decreases |line|
  {
    if line == "" {
    } else {
      if !Graphic(line[0]) {
        IsSpecIff(line[1..]);
        assert forall k | 0 < k < |line| :: line[k] == line[1..][k - 1];
        assert forall k | 0 <= k < |line| - 1 :: line[1..][k] == line[k + 1];
      } else {
        StripKeepsHead(line);
      }
    }
  }

  lemma {:induction false} StripKeepsHead(s: string)
    requires s != "" && Graphic(s[0])
    ensures Strip(s) != "" && Strip(s)[0] == s[0]
  {
    if !Graphic(s[|s| - 1]) {
      StripKeepsHead(s[..|s| - 1]);
    }
  }

  /** A line that the reader gives back as it was printed. */
  predicate Survives(line: string) {
    '\n' !in line && (line == "" || line[|line| - 1] != '\r') && IsSpec(line)
  }

  lemma {:induction false} SpecsInAll(lines: seq<string>)
    ensures |SpecsIn(lines)| <= |lines|
    ensures |SpecsIn(lines)| == |lines| <==> forall i | 0 <= i < |lines| :: IsSpec(lines[i])
    ensures |SpecsIn(lines)| == |lines| ==> SpecsIn(lines) == lines
  {
    hide IsSpec;
    if lines == [] {
    } else {
      var n := |lines| - 1;
      SpecsInAll(lines[..n]);
      assert lines == lines[..n] + [lines[n]];
    }
  }

  lemma {:induction false} SpecsAreLines(lines: seq<string>, s: string)
    ensures s in SpecsIn(lines) ==> s in lines
  {
    if lines == [] {
    } else {
      SpecsAreLines(lines[..|lines| - 1], s);
    }
  }

  lemma HeaderRead(platform: string, lines: seq<string>)
    requires '\n' !in platform
    ensures var all := LinesOf(Text(Header(platform) + lines));
            |all| >= 4 && Marker(all) == 3 && Platform(all[..3]) == Chomp(PLATFORM + platform)[|PLATFORM|..]
            && all[4..] == LinesOf(Text(lines))
  {
    hide LinesOf, Marker, Chomp;
    var head := Header(platform);
    TextAppend(head, lines);
    HeaderLinesClean(platform);
    ReadPrinted(head, Text(lines));
    var all := LinesOf(Text(head + lines));
    var line := Chomp(PLATFORM + platform);
    assert all == [TITLE, USAGE, line, EXPLICIT] + LinesOf(Text(lines)) && all[4..] == LinesOf(Text(lines));
    assert all[0] == TITLE && all[1] == USAGE && all[2] == line && all[3] == EXPLICIT;
    TitlesDiffer();
    PlatformLineStarts(platform);
    MarkerIs(all, 3);
    assert all[..3] == [TITLE, USAGE, line];
    PlatformOfThree(TITLE, USAGE, line);
  }

  lemma ChompTail(platform: string)
    ensures |Chomp(PLATFORM + platform)| >= |PLATFORM| && Chomp(PLATFORM + platform)[..|PLATFORM|] == PLATFORM
    ensures Chomp(PLATFORM + platform)[|PLATFORM|..] == Chomp(platform)
  {
    var line := PLATFORM + platform;
    assert |PLATFORM| == 12 && PLATFORM[11] == ' ' && line[11] == ' ';
    assert line[|PLATFORM|..] == platform;
  }

  lemma PlatformOfThree(a: string, b: string, c: string)
    requires !StartsWith(a, PLATFORM) && !StartsWith(b, PLATFORM) && StartsWith(c, PLATFORM)
    ensures Platform([a, b, c]) == c[|PLATFORM|..]
  {
    assert [a, b, c][1..] == [b, c] && [b, c][1..] == [c];
    assert Platform([c]) == c[|PLATFORM|..];
    assert Platform([b, c]) == Platform([c]);
  }

  lemma Titles()
    ensures '\n' !in TITLE && Chomp(TITLE) == TITLE
    ensures '\n' !in USAGE && Chomp(USAGE) == USAGE
    ensures '\n' !in PLATFORM && '\n' !in EXPLICIT && Chomp(EXPLICIT) == EXPLICIT
  {}

  lemma TitlesDiffer()
    ensures !StartsWith(TITLE, PLATFORM) && !StartsWith(USAGE, PLATFORM)
    ensures !StartsWith(TITLE, EXPLICIT) && !StartsWith(USAGE, EXPLICIT)
    ensures StartsWith(EXPLICIT, EXPLICIT)
  {
    assert TITLE[2] == 'T' && USAGE[2] == '$' && PLATFORM[2] == 'p';
    assert TITLE[..|PLATFORM|][2] == 'T' && USAGE[..|PLATFORM|][2] == '$';
    assert TITLE[..|EXPLICIT|][0] == '#' && USAGE[..|EXPLICIT|][0] == '#' && EXPLICIT[0] == '@';
    assert EXPLICIT[..|EXPLICIT|] == EXPLICIT;
  }

  lemma PlatformLineStarts(platform: string)
    ensures var line := Chomp(PLATFORM + platform); StartsWith(line, PLATFORM) && !StartsWith(line, EXPLICIT)
  {
    ChompTail(platform);
    var line := Chomp(PLATFORM + platform);
    assert line[0] == line[..|PLATFORM|][0] == '#';
    assert line[..|EXPLICIT|][0] == line[0] && EXPLICIT[0] == '@';
  }

  lemma HeaderLinesClean(platform: string)
    requires '\n' !in platform
    ensures forall i | 0 <= i < 4 :: '\n' !in Header(platform)[i]
    ensures Chomped(Header(platform)) == [TITLE, USAGE, Chomp(PLATFORM + platform), EXPLICIT]
  {
    Titles();
  }

  lemma {:induction false} TextAppend(a: seq<string>, b: seq<string>)
    ensures Text(a + b) == Text(a) + Text(b)
  {
    if b == [] {
      assert a + b == a;
    } else {
      var n := |b| - 1;
      assert (a + b)[..|a + b| - 1] == a + b[..n];
      TextAppend(a, b[..n]);
      assert Text(a) + (Text(b[..n]) + b[n] + "\n") == Text(a) + Text(b[..n]) + b[n] + "\n";
    }
  }

  lemma ChompKeepsIff(line: string)
    ensures Chomp(line) == line <==> line == "" || line[|line| - 1] != '\r'
    ensures Chomp(line + "\r") == line
  {
    assert (line + "\r")[..|line|] == line;
  }

  /** What the reader makes of printed lines is those lines exactly when each of them survives. */
  lemma LinesBackIff(lines: seq<string>)
    ensures SpecsIn(LinesOf(Text(lines))) == lines <==> forall i | 0 <= i < |lines| :: Survives(lines[i])
  {
    hide SpecsIn, LinesOf, Text, IsSpec, Chomp;
    var read := LinesOf(Text(lines));
    if SpecsIn(read) == lines {
      forall i | 0 <= i < |lines| ensures '\n' !in lines[i] {
        SpecsAreLines(read, lines[i]);
        var k :| 0 <= k < |read| && read[k] == lines[i];
        LinesHaveNoFeed(Text(lines), k);
      }
    }
    if forall i | 0 <= i < |lines| :: '\n' !in lines[i] {
      PrintedLines(lines);
      SpecsInAll(Chomped(lines));
      forall i | 0 <= i < |lines|
        ensures Chomp(lines[i]) == lines[i] <==> lines[i] == "" || lines[i][|lines[i]| - 1] != '\r'
      {
        ChompKeepsIff(lines[i]);
      }
    }
  }

  lemma PrintedLines(lines: seq<string>)
    requires forall i | 0 <= i < |lines| :: '\n' !in lines[i]
    ensures LinesOf(Text(lines)) == Chomped(lines)
  {
    hide Chomp;
    ReadPrinted(lines, "");
    assert Text(lines) + "" == Text(lines) && LinesOf("") == [];
  }

  /** The export is read as explicit; its lines come back in order exactly when each of them survives. */
  lemma ExportReadBackIff(platform: string, records: seq<Record>, p: Printer)
    requires '\n' !in platform
    ensures var lines := RecordLines(p, records);
            var read := Read(LinesOf(Text(Header(platform) + lines)));
            && read.Explicit?
            && (read.platform == platform <==> platform == "" || platform[|platform| - 1] != '\r')
            && (read.specs == lines <==> forall i | 0 <= i < |lines| :: Survives(lines[i]))
  {
    hide LinesOf, Text, SpecsIn, Survives, Marker, Platform, Header;
    var lines := RecordLines(p, records);
    HeaderRead(platform, lines);
    LinesBackIff(lines);
    ChompTail(platform);
  }

  // ---------- What is printed, to the letter ----------

  /** The URL without credentials, or as it is if it does not parse; then the md5 unless that was declined once. */
  lemma PrintedLine(p: Printer, r: Record)
    ensures p.noMd5 == 1 && p.clean(r.packageUrl).Some? ==> RecordLine(p, r) == p.clean(r.packageUrl).value
    ensures p.noMd5 == 1 && p.clean(r.packageUrl).None? ==> RecordLine(p, r) == r.packageUrl
    ensures p.noMd5 != 1 && p.clean(r.packageUrl).Some? ==>
              RecordLine(p, r) == p.clean(r.packageUrl).value + "#" + r.md5
    ensures p.noMd5 != 1 && p.clean(r.packageUrl).None? ==> RecordLine(p, r) == r.packageUrl + "#" + r.md5
  {
    assert r.packageUrl + ("#" + r.md5) == r.packageUrl + "#" + r.md5;
    assert Url(p, r) + "" == Url(p, r);
    assert Url(p, r) + ("#" + r.md5) == Url(p, r) + "#" + r.md5;
  }

  lemma PrintedHeader(platform: string)
    ensures |Header(platform)| == 4 && Header(platform)[3] == "@EXPLICIT"
    ensures Header(platform)[2] == "# platform: " + platform
    ensures Header(platform)[0] == "# This file may " + "be used to create " + "an environment using:"
    ensures Header(platform)[1] == "# $ conda create " + "--name <env> " + "--file <this file>"
  {}

  // ---------- What is read, to the letter ----------

  /** A line that ends in a carriage return and a line feed loses both, and only the last of its carriage returns. */
  lemma ReadsCrlf(line: string, rest: string)
    requires '\n' !in line
    ensures LinesOf(line + "\r\n" + rest) == [line] + LinesOf(rest)
    ensures line == "" || line[|line| - 1] != '\r' ==> LinesOf(line + "\n" + rest) == [line] + LinesOf(rest)
  {
    hide LinesOf, Chomp;
    ReadFirst(line, rest);
    ReadFirst(line + "\r", rest);
    ChompKeepsIff(line);
    CrlfText(line, rest);
  }

  lemma CrlfText(line: string, rest: string)
    ensures (line + "\r") + "\n" + rest == line + "\r\n" + rest
  {
    assert "\r" + "\n" == "\r\n";
    SeqAssoc(line, "\r", "\n");
  }

  function EachPlain(lines: seq<string>): (r: seq<seq<string>>)
    ensures |r| == |lines|
    ensures forall i | 0 <= i < |r| ::
              r[i] == if lines[i] == "" || lines[i][0] !in {'#', '@'} then [lines[i]] else []
  {
    seq(|lines|, i requires 0 <= i < |lines| =>
      if lines[i] == "" || lines[i][0] !in {'#', '@'} then [lines[i]] else [])
  }

  lemma {:induction false} PlainAre(lines: seq<string>)
    ensures PlainIn(lines) == Flatten(EachPlain(lines))
  {
    if lines == [] {
    } else {
      var n := |lines| - 1;
      PlainAre(lines[..n]);
      assert EachPlain(lines)[..n] == EachPlain(lines[..n]);
    }
  }

  lemma {:induction false} PlatformIs(before: seq<string>)
    ensures (forall i | 0 <= i < |before| :: !StartsWith(before[i], "# platform: ")) ==>
              Platform(before) == if before == [] then "" else before[|before| - 1]
    ensures forall i | 0 <= i < |before| && StartsWith(before[i], "# platform: ")
                       && forall k | 0 <= k < i :: !StartsWith(before[k], "# platform: ") ::
              Platform(before) == before[i][12..]
  {
    hide StartsWith;
    assert PLATFORM == "# platform: " && |PLATFORM| == 12;
    if before == [] {
    } else if |before| > 1 {
      PlatformIs(before[1..]);
      assert forall i | 0 < i < |before| :: before[i] == before[1..][i - 1];
      assert forall i | 0 <= i < |before| - 1 :: before[1..][i] == before[i + 1];
    }
  }

  /**
   A file without a line that starts with the marker is plain: all its lines but those that start with '#' or '@'. With
   one it is explicit: what is a spec behind the first such line, and the platform of the first platform line before it,
   else the whole line in front of it.
   */
  lemma ReadIs(lines: seq<string>, i: nat)
    requires i <= |lines| && forall k | 0 <= k < i :: !StartsWith(lines[k], "@EXPLICIT")
    ensures i == |lines| ==> Read(lines) == Plain(Flatten(EachPlain(lines)))
    ensures i < |lines| && StartsWith(lines[i], "@EXPLICIT") ==>
              Read(lines) == Explicit(Platform(lines[..i]), SpecsIn(lines[i + 1..]))
  {
    hide StartsWith, SpecsIn, Platform, PlainIn, Flatten, Marker;
    assert EXPLICIT == "@EXPLICIT";
    if i == |lines| || StartsWith(lines[i], EXPLICIT) {
      MarkerIs(lines, i);
    }
    PlainAre(lines);
  }
}
