/** What a run of the spec-file hook leaves behind, for each kind of file, and the explicit round trip. */
module SpecFileLaws {
  import opened Outcomes
  import opened Strings
  import opened Lists
  import opened ConfigValue
  import opened SpecFiles
  import Y = YamlSpecs
  import E = ExplicitFormat

  // ---------- Kinds ----------

  lemma {:induction false} NeverMixedLater(w: World, files: seq<string>, st: State)
    ensures IngestAll(w, files, st).1 != Throw(MixedKinds)
  {
    hide KindOf, Y.ReadDocument, Y.DocumentAsks, E.LinesOf, E.Read;
    if files == [] {
    } else {
      NeverMixedLater(w, files[1..], IngestFile(w, files[0], st).0);
    }
  }

  /** Files of two kinds are refused before any of them is read, and only then with that error. */
  lemma MixedRefusedIff(w: World, files: seq<string>, st: State)
    ensures Ingest(w, files, st).1 == Throw(MixedKinds)
       <==> exists i, j | 0 <= i < |files| && 0 <= j < |files| :: KindOf(files[i]) != KindOf(files[j])
    ensures Ingest(w, files, st).1 == Throw(MixedKinds) ==> Ingest(w, files, st).0 == st
  {
    hide KindOf, IngestAll;
    NeverMixedLater(w, files, st);
    if Mixed(files) {
      var i :| 0 <= i < |files| && KindOf(files[i]) != KindOf(files[0]);
    } else {
      assert forall i | 0 <= i < |files| :: KindOf(files[i]) == KindOf(files[0]);
    }
  }

  /** The kind goes by the ending alone, and a lock file is told before a YAML file. */
  lemma KindByEnding(stem: string)
    ensures KindOf(stem + "-lock.yml") == Lockfile && KindOf(stem + "-lock.yaml") == Lockfile
    ensures !EndsWith(stem, "-lock") ==> KindOf(stem + ".yml") == Yaml && KindOf(stem + ".yaml") == Yaml
  {
    forall ending | ending in {"-lock.yml", "-lock.yaml", ".yml", ".yaml"} ensures EndsWith(stem + ending, ending) {}
    LongerEnding(stem, "-lock", ".yml");
    LongerEnding(stem, "-lock", ".yaml");
    OtherEnding(stem + ".yml", ".yml", "-lock.yaml");
    OtherEnding(stem + ".yaml", ".yaml", "-lock.yml");
    assert "-lock" + ".yml" == "-lock.yml" && "-lock" + ".yaml" == "-lock.yaml";
    hide EndsWith;
  }

  lemma LongerEnding(stem: string, a: string, b: string)
    ensures EndsWith(stem + b, a + b) <==> EndsWith(stem, a)
  {
    if |a| <= |stem| {
      var k := |stem| - |a|;
      assert (stem + b)[k..] == stem[k..] + b;
      assert stem[k..] + b == a + b ==> (stem[k..] + b)[..|a|] == stem[k..] && (a + b)[..|a|] == a;
    }
  }

  lemma OtherEnding(s: string, a: string, b: string)
    requires EndsWith(s, a) && |a| >= 4 && |b| >= 4 && a[|a| - 3] != b[|b| - 3]
    ensures !EndsWith(s, b)
  {
    assert s[|s| - 3] == s[|s| - |a|..][|a| - 3];
    if |b| <= |s| {
      assert s[|s| - 3] == s[|s| - |b|..][|b| - 3];
    }
  }

  /** Any other ending is that of a text file. */
  lemma OtherIff(file: string)
    ensures KindOf(file) == Other <==> !EndsWith(file, ".yml") && !EndsWith(file, ".yaml")
  {
    forall stem, ending | ending in {".yml", ".yaml"} ensures EndsWith(stem + ending, ending) {}
    if EndsWith(file, "-lock.yml") {
      ShorterEnding(file, "-lock.yml", ".yml");
    }
    if EndsWith(file, "-lock.yaml") {
      ShorterEnding(file, "-lock.yaml", ".yaml");
    }
    hide EndsWith;
  }

  lemma ShorterEnding(s: string, a: string, b: string)
    requires EndsWith(s, a) && EndsWith(a, b)
    ensures EndsWith(s, b)
  {
    assert s[|s| - |b|..] == s[|s| - |a|..][|a| - |b|..];
  }

  /** A lock file is only noted: a URL as it is, anything else by its absolute path. */
  lemma LockfileOutcome(w: World, file: string, st: State)
    requires KindOf(file) == Lockfile
    ensures IngestFile(w, file, st)
         == (st.(lockfile := Some(if StartsWith(file, "http") then file else w.absolute(file))), Next)
  {}

  /** The two errors of a text file, and that of a name set from elsewhere. */
  lemma FileErrorsAre(w: World, file: string, st: State)
    ensures KindOf(file) == Other ==>
              && (IngestFile(w, file, st).1 == Throw(CannotOpen) <==> w.read(file).None?)
              && (IngestFile(w, file, st).1 == Throw(EmptyFile) <==> w.read(file) == Some(""))
    ensures KindOf(file) == Yaml ==>
              && (forall e :: IngestFile(w, file, st).1 == Throw(InYaml(e)) <==> YamlOf(w, file, st.seen) == Err(e))
              && (IngestFile(w, file, st).1 == Throw(UnsetName) <==>
                    YamlOf(w, file, st.seen).Ok? && YamlOf(w, file, st.seen).value.name != ""
                    && st.envName.None? && w.nameFromApi)
  {
    hide KindOf, E.Read, Y.ReadDocument, Y.DocumentAsks, PipSpecs;
    if w.read(file).Some? {
      NoLinesIff(w.read(file).value);
    }
  }

  lemma NoLinesIff(text: string)
    ensures E.LinesOf(text) == [] <==> text == ""
  {}

  // ---------- Text files ----------

  /** What reading the file gives; None when it cannot be opened or is empty. */
  function Reading(w: World, file: string): Option<E.Reading> {
    match w.read(file)
    case None => None
    case Some(text) => if E.LinesOf(text) == [] then None else Some(E.Read(E.LinesOf(text)))
  }

  predicate PlainFile(w: World, file: string) {
    Reading(w, file).Some? && Reading(w, file).value.Plain?
  }

  predicate ExplicitFile(w: World, file: string) {
    Reading(w, file).Some? && Reading(w, file).value.Explicit?
  }

  predicate AllText(files: seq<string>) {
    forall i | 0 <= i < |files| :: KindOf(files[i]) == Other
  }

  /** The file at `k` is the first explicit one, and every earlier one can be read. */
  predicate FirstExplicitAt(w: World, files: seq<string>, k: nat) {
    k < |files| && ExplicitFile(w, files[k]) && forall i | 0 <= i < k :: PlainFile(w, files[i])
  }

  function Replaced(st: State, specs: seq<string>): State {
    st.(specs := Setting(true, None, [], [], specs), explicitInstall := true)
  }

  lemma TextFileOutcome(w: World, file: string, st: State)
    requires KindOf(file) == Other
    ensures var after := IngestFile(w, file, st);
            && (ExplicitFile(w, file) ==> after == (Replaced(st, Reading(w, file).value.specs), Return))
            && (PlainFile(w, file)
                ==> after == (st.(specs := AddCli(st.specs, Reading(w, file).value.specs)), Next))
            && (Reading(w, file).None? ==> after.1.Throw? && after.0 == st)
  {
    hide E.LinesOf, E.Read;
  }

  /**
   The first explicit file decides: the specs are its list alone, whatever the command line and the
   plain files before it gave, and the files after it are never looked at.
   */
  lemma {:induction false} FirstExplicitWins(w: World, files: seq<string>, k: nat, st: State)
    requires AllText(files) && FirstExplicitAt(w, files, k)
    ensures Ingest(w, files, st) == (Replaced(st, Reading(w, files[k]).value.specs), Return)
  {
    FirstExplicitEndsLoop(w, files, k, st);
  }

  lemma {:induction false} FirstExplicitEndsLoop(w: World, files: seq<string>, k: nat, st: State)
    requires AllText(files) && FirstExplicitAt(w, files, k)
    ensures IngestAll(w, files, st) == (Replaced(st, Reading(w, files[k]).value.specs), Return)
  {
    hide KindOf, Reading, IngestFile;
    TextFileOutcome(w, files[0], st);
    if k == 0 {
    } else {
      var rest := files[1..];
      assert rest[k - 1] == files[k] && PlainFile(w, files[0]);
      assert forall i | 0 <= i < k - 1 :: rest[i] == files[i + 1];
      FirstExplicitEndsLoop(w, rest, k - 1, IngestFile(w, files[0], st).0);
    }
  }

  /** An explicit install is chosen exactly when the readable files lead up to an explicit one. */
  lemma {:induction false} ExplicitIff(w: World, files: seq<string>, st: State)
    requires AllText(files)
    ensures Ingest(w, files, st).1.Return? <==> exists k: nat :: FirstExplicitAt(w, files, k)
  {
    ExplicitLoopIff(w, files, st);
  }

  lemma {:induction false} ExplicitLoopIff(w: World, files: seq<string>, st: State)
    requires AllText(files)
    ensures IngestAll(w, files, st).1.Return? <==> exists k: nat :: FirstExplicitAt(w, files, k)
  {
    hide KindOf, Reading, IngestFile;
    if files == [] {
    } else {
      TextFileOutcome(w, files[0], st);
      if ExplicitFile(w, files[0]) {
        assert FirstExplicitAt(w, files, 0);
      } else {
        ExplicitLoopIff(w, files[1..], IngestFile(w, files[0], st).0);
        FirstExplicitLater(w, files);
      }
    }
  }

  lemma FirstExplicitNext(w: World, files: seq<string>, k: nat)
    requires files != []
    ensures FirstExplicitAt(w, files, k + 1) <==> PlainFile(w, files[0]) && FirstExplicitAt(w, files[1..], k)
  {
    hide PlainFile, ExplicitFile;
    var rest := files[1..];
    assert k < |rest| ==> rest[k] == files[k + 1];
    assert forall i | 0 <= i < k && i < |rest| :: rest[i] == files[i + 1];
    assert forall i | 0 < i <= k && i < |files| :: files[i] == rest[i - 1];
  }

  lemma FirstExplicitLater(w: World, files: seq<string>)
    requires files != [] && !ExplicitFile(w, files[0])
    ensures (exists k: nat :: FirstExplicitAt(w, files, k))
       <==> PlainFile(w, files[0]) && exists k: nat :: FirstExplicitAt(w, files[1..], k)
  {
    if exists k: nat :: FirstExplicitAt(w, files, k) {
      var k: nat :| FirstExplicitAt(w, files, k);
      FirstExplicitNext(w, files, k - 1);
    }
    if PlainFile(w, files[0]) && exists k: nat :: FirstExplicitAt(w, files[1..], k) {
      var k: nat :| FirstExplicitAt(w, files[1..], k);
      FirstExplicitNext(w, files, k);
      assert FirstExplicitAt(w, files, k + 1);
    }
  }

  function PlainSpecs(w: World, files: seq<string>): seq<string>
    requires forall i | 0 <= i < |files| :: PlainFile(w, files[i])
  {
    if files == [] then []
    else
      assert PlainFile(w, files[0]);
      Reading(w, files[0]).value.specs + PlainSpecs(w, files[1..])
  }

  /** Plain files only: their lines are appended to the CLI specs in order, and nothing else changes. */
  lemma {:induction false} PlainFilesAppend(w: World, files: seq<string>, st: State)
    requires AllText(files) && forall i | 0 <= i < |files| :: PlainFile(w, files[i])
    ensures Ingest(w, files, st) == (st.(specs := AddCli(st.specs, PlainSpecs(w, files))), Next)
  {
    PlainLoopAppends(w, files, st);
  }

  lemma {:induction false} PlainLoopAppends(w: World, files: seq<string>, st: State)
    requires AllText(files) && forall i | 0 <= i < |files| :: PlainFile(w, files[i])
    ensures IngestAll(w, files, st) == (st.(specs := AddCli(st.specs, PlainSpecs(w, files))), Next)
  {
    hide KindOf, Reading, IngestFile;
    if files == [] {
    } else {
      TextFileOutcome(w, files[0], st);
      PlainLoopAppends(w, files[1..], IngestFile(w, files[0], st).0);
      AddedTwice(st.specs.cli, Reading(w, files[0]).value.specs, PlainSpecs(w, files[1..]));
    }
  }

  lemma AddedTwice<T>(cli: Option<seq<T>>, a: seq<T>, b: seq<T>)
    ensures Added(Added(cli, a), b) == Added(cli, a + b)
  {
    var start := if cli.Some? then cli.value else [];
    assert start + a + b == start + (a + b);
    assert a == [] ==> a + b == b;
    assert b == [] ==> a + b == a;
  }

  // ---------- YAML files ----------

  /** All files of a run are read under one table: what was asked before, and this platform. */
  function YamlOf(w: World, file: string, seen: set<string>): Result<Y.YamlFile, Y.Error> {
    Y.ReadDocument(w.load(file), seen + {w.platform})
  }

  predicate AllYaml(files: seq<string>) {
    forall i | 0 <= i < |files| :: KindOf(files[i]) == Yaml
  }

  predicate AllRead(w: World, files: seq<string>, seen: set<string>) {
    forall i | 0 <= i < |files| :: YamlOf(w, files[i], seen).Ok?
  }

  function FileChannels(w: World, files: seq<string>, seen: set<string>): seq<string>
    requires AllRead(w, files, seen)
  {
    if files == [] then [] else YamlOf(w, files[0], seen).value.channels + FileChannels(w, files[1..], seen)
  }

  function FileSpecs(w: World, files: seq<string>, seen: set<string>): seq<string>
    requires AllRead(w, files, seen)
  {
    if files == [] then []
    else YamlOf(w, files[0], seen).value.contents.dependencies + FileSpecs(w, files[1..], seen)
  }

  function FilePips(w: World, files: seq<string>, seen: set<string>): seq<PipSpec>
    requires AllRead(w, files, seen)
  {
    if files == [] then []
    else PipSpecs(YamlOf(w, files[0], seen).value.contents.pips, w.parent(files[0])) + FilePips(w, files[1..], seen)
  }

  /** The first name that is not empty. */
  function FirstName(w: World, files: seq<string>, seen: set<string>): Option<string>
    requires AllRead(w, files, seen)
  {
    if files == [] then None
    else
      var name := YamlOf(w, files[0], seen).value.name;
      if name != "" then Some(name) else FirstName(w, files[1..], seen)
  }

  lemma YamlFileOutcome(w: World, file: string, st: State)
    requires KindOf(file) == Yaml
    ensures var (after, outcome) := IngestFile(w, file, st);
            && st.seen <= after.seen <= st.seen + {w.platform}
            && (outcome.Next? <==>
                && YamlOf(w, file, st.seen).Ok?
                && (YamlOf(w, file, st.seen).value.name == "" || st.envName.Some? || !w.nameFromApi))
            && (outcome.Next? ==>
                var y := YamlOf(w, file, st.seen).value;
                && after.channels == AddCli(st.channels, y.channels)
                && after.specs == AddCli(st.specs, y.contents.dependencies)
                && after.others == Added(st.others, PipSpecs(y.contents.pips, w.parent(file)))
                && after.explicitInstall == st.explicitInstall && after.lockfile == st.lockfile
                && after.envName == (if st.envName.Some? || y.name == "" then st.envName else Some(y.name)))
  {
    hide Y.ReadDocument, Y.DocumentAsks, PipSpecs;
  }

  /**
   YAML files only. The run succeeds exactly when every file can be read and no name clashes with one
   set from elsewhere; then channels and dependencies are appended in file order, and the first name wins.
   */
  lemma {:induction false} YamlFilesAppend(w: World, files: seq<string>, st: State)
    requires AllYaml(files)
    ensures var (after, outcome) := Ingest(w, files, st);
            && (outcome.Next? <==>
                && AllRead(w, files, st.seen)
                && (st.envName.Some? || !w.nameFromApi || FirstName(w, files, st.seen).None?))
            && (outcome.Next? ==>
                && after.channels == AddCli(st.channels, FileChannels(w, files, st.seen))
                && after.specs == AddCli(st.specs, FileSpecs(w, files, st.seen))
                && after.others == Added(st.others, FilePips(w, files, st.seen))
                && after.explicitInstall == st.explicitInstall && after.lockfile == st.lockfile
                && after.envName == (if st.envName.Some? then st.envName else FirstName(w, files, st.seen)))
  {
    YamlLoopAppends(w, files, st);
  }

  lemma {:induction false} YamlLoopAppends(w: World, files: seq<string>, st: State)
    requires AllYaml(files)
    ensures var (after, outcome) := IngestAll(w, files, st);
            && (outcome.Next? <==>
                && AllRead(w, files, st.seen)
                && (st.envName.Some? || !w.nameFromApi || FirstName(w, files, st.seen).None?))
            && (outcome.Next? ==>
                && after.channels == AddCli(st.channels, FileChannels(w, files, st.seen))
                && after.specs == AddCli(st.specs, FileSpecs(w, files, st.seen))
                && after.others == Added(st.others, FilePips(w, files, st.seen))
                && after.explicitInstall == st.explicitInstall && after.lockfile == st.lockfile
                && after.envName == (if st.envName.Some? then st.envName else FirstName(w, files, st.seen)))
  {
    hide KindOf, IngestFile, YamlOf, AddCli, Added, PipSpecs;
    if files == [] {
      NothingAdded(st.channels);
      NothingAdded(st.specs);
      AddedNothing(st.others);
    } else {
      var rest := files[1..];
      var (after, outcome) := IngestFile(w, files[0], st);
      YamlFileOutcome(w, files[0], st);
      if outcome.Next? {
        SameSeen(w, rest, st.seen, after.seen);
        YamlLoopAppends(w, rest, after);
        assert AllRead(w, files, st.seen) <==> AllRead(w, rest, st.seen) by {
          assert forall i | 0 < i < |files| :: files[i] == rest[i - 1];
          assert forall i | 0 <= i < |rest| :: rest[i] == files[i + 1];
        }
        if AllRead(w, rest, st.seen) {
          var y := YamlOf(w, files[0], st.seen).value;
          AddCliTwice(st.channels, y.channels, FileChannels(w, rest, st.seen));
          AddCliTwice(st.specs, y.contents.dependencies, FileSpecs(w, rest, st.seen));
          AddedTwice(st.others, PipSpecs(y.contents.pips, w.parent(files[0])), FilePips(w, rest, st.seen));
        }
      }
    }
  }

  lemma AddedNothing<T>(cli: Option<seq<T>>)
    ensures Added(cli, []) == cli
  {}

  lemma NothingAdded(s: Setting)
    ensures AddCli(s, []) == s
  {}

  lemma AddCliTwice(s: Setting, a: seq<string>, b: seq<string>)
    ensures AddCli(AddCli(s, a), b) == AddCli(s, a + b)
  {
    AddedTwice(s.cli, a, b);
  }

  lemma {:induction false} SameSeen(w: World, files: seq<string>, seen: set<string>, later: set<string>)
    requires seen <= later <= seen + {w.platform}
    ensures AllRead(w, files, seen) <==> AllRead(w, files, later)
    ensures AllRead(w, files, seen) ==>
              && FileChannels(w, files, seen) == FileChannels(w, files, later)
              && FileSpecs(w, files, seen) == FileSpecs(w, files, later)
              && FilePips(w, files, seen) == FilePips(w, files, later)
              && FirstName(w, files, seen) == FirstName(w, files, later)
  {
    hide Y.ReadDocument;
    assert seen + {w.platform} == later + {w.platform};
    assert forall file :: YamlOf(w, file, seen) == YamlOf(w, file, later);
    if files != [] && AllRead(w, files, seen) {
      SameSeen(w, files[1..], seen, later);
    }
  }

  // ---------- Export, then ingest ----------

  /**
   The round trip. The specs that an install from an exported file works with, after the merge of the
   setting, are the printed lines in order exactly when every line survives reading and none repeats.
   */
  lemma ExportThenIngestIff(platform: string, records: seq<E.Record>, p: E.Printer, w: World,
                            file: string, rest: seq<string>, st: State, noRc: bool, preset: seq<string>)
    requires '\n' !in platform && AllText([file] + rest)
    requires w.read(file) == Some(E.Text(E.Header(platform) + E.RecordLines(p, records)))
    ensures var lines := E.RecordLines(p, records);
            var (after, outcome) := Ingest(w, [file] + rest, st);
            && outcome.Return? && after.explicitInstall
            && (Computed(after.specs, noRc, preset) == lines
                <==> NoDup(lines) && forall i | 0 <= i < |lines| :: E.Survives(lines[i]))
  {
    hide E.LinesOf, E.Text, E.Read, E.Header, E.Survives, Ingest, KindOf, Dedup;
    var lines := E.RecordLines(p, records);
    var text := E.Text(E.Header(platform) + lines);
    E.ExportReadBackIff(platform, records, p);
    ReadingIs(w, file, text);
    FirstExplicitWins(w, [file] + rest, 0, st);
    var after := Ingest(w, [file] + rest, st).0;
    var read := E.Read(E.LinesOf(text)).specs;
    OnlyApi(read, noRc, preset);
    DedupedLinesIff(platform, lines);
  }

  lemma ReadingIs(w: World, file: string, text: string)
    requires w.read(file) == Some(text) && E.Read(E.LinesOf(text)).Explicit?
    ensures Reading(w, file) == Some(E.Read(E.LinesOf(text)))
  {
    hide E.LinesOf;
    assert E.Read([]) == E.Plain([]);
  }

  lemma OnlyApi(specs: seq<string>, noRc: bool, preset: seq<string>)
    ensures Computed(Setting(true, None, [], [], specs), noRc, preset) == Dedup(specs)
  {
    var given := Given(Setting(true, None, [], [], specs), noRc);
    assert given == [specs];
    assert [specs][..0] == [] && [] + specs == specs;
    assert Flatten([specs]) == specs;
  }

  /** No list of fewer or repeated specs can merge into all the printed lines. */
  lemma DedupedLinesIff(platform: string, lines: seq<string>)
    requires '\n' !in platform
    ensures var read := E.Read(E.LinesOf(E.Text(E.Header(platform) + lines)));
            read.Explicit? && (Dedup(read.specs) == lines <==> read.specs == lines && NoDup(lines))
  {
    hide E.LinesOf, E.Text, E.Marker, E.Platform, E.SpecsIn, E.Header, E.IsSpec, Dedup;
    E.HeaderRead(platform, lines);
    var back := E.LinesOf(E.Text(lines));
    var read := E.SpecsIn(back);
    DedupUnchangedIff(read);
    if Dedup(read) == lines {
      DedupNoDup(read);
      forall i | 0 <= i < |lines| ensures '\n' !in lines[i] {
        DedupElements(read, lines[i]);
        E.SpecsAreLines(back, lines[i]);
        var k :| 0 <= k < |back| && back[k] == lines[i];
        E.LinesHaveNoFeed(E.Text(lines), k);
      }
      E.PrintedLines(lines);
      E.SpecsInAll(back);
      DedupLength(read);
    }
  }
}
