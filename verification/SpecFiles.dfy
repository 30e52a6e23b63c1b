/**
 Spec files on the command line (libmamba/src/api/install.cpp:764-952): YAML, explicit or plain text
 files, folded one after the other into the settings.
 */
module SpecFiles {
  import opened Outcomes
  import opened Strings
  import opened ConfigValue
  import Y = YamlSpecs
  import E = ExplicitFormat

  datatype PipSpec = PipSpec(deps: seq<string>, cwd: string)

  /** The settings the hook reads and writes; `seen` are the platforms asked of the selector table. */
  datatype State = State(
    specs: Setting,
    channels: Setting,
    others: Option<seq<PipSpec>>,
    envName: Option<string>,
    explicitInstall: bool,
    lockfile: Option<string>,
    seen: set<string>)

  /** The files, the platform, and whether the environment name was set from elsewhere. */
  datatype World = World(
    read: string -> Option<string>,
    load: string -> Result<Y.Document, Y.Error>,
    absolute: string -> string,
    parent: string -> string,
    platform: string,
    nameFromApi: bool)

  datatype Kind = Lockfile | Yaml | Other

  datatype Error = MixedKinds | CannotOpen | EmptyFile | UnsetName | InYaml(error: Y.Error)

  /** How a file leaves the loop: with the next file, with an early return, or with an exception. */
  datatype Outcome = Next | Return | Throw(error: Error)

  function KindOf(file: string): Kind {
    if EndsWith(file, "-lock.yml") || EndsWith(file, "-lock.yaml") then Lockfile
    else if EndsWith(file, ".yml") || EndsWith(file, ".yaml") then Yaml
    else Other
  }

  predicate Mixed(files: seq<string>) {
    exists i | 0 <= i < |files| :: KindOf(files[i]) != KindOf(files[0])
  }

  // ---------- What one file does ----------

  function Added<T>(cli: Option<seq<T>>, values: seq<T>): Option<seq<T>> {
    if values == [] then cli else Some((if cli.Some? then cli.value else []) + values)
  }

  function AddCli(s: Setting, values: seq<string>): Setting {
    s.(cli := Added(s.cli, values))
  }

  function PipSpecs(pips: seq<seq<string>>, cwd: string): (r: seq<PipSpec>)
    ensures |r| == |pips|
  {
    seq(|pips|, i requires 0 <= i < |pips| => PipSpec(pips[i], cwd))
  }

  function TakeYaml(w: World, file: string, y: Y.YamlFile, st: State): (State, Outcome) {
    var named := st.envName.Some? || w.nameFromApi;
    var withChannels := st.(channels := AddCli(st.channels, y.channels));
    if y.name != "" && named && st.envName.None? then (withChannels, Throw(UnsetName))
    else (withChannels.(
            envName := if y.name != "" && !named then Some(y.name) else st.envName,
            specs := AddCli(st.specs, y.contents.dependencies),
            others := Added(st.others, PipSpecs(y.contents.pips, w.parent(file)))), Next)
  }

  function IngestYaml(w: World, file: string, st: State): (State, Outcome) {
    var asked := Y.AskedFor(Y.DocumentAsks(w.load(file), st.seen + {w.platform}), w.platform);
    var after := st.(seen := st.seen + asked);
    match Y.ReadDocument(w.load(file), st.seen + {w.platform})
    case Err(e) => (after, Throw(InYaml(e)))
    case Ok(y) => TakeYaml(w, file, y, after)
  }

  function IngestText(w: World, file: string, st: State): (State, Outcome) {
    match w.read(file)
    case None => (st, Throw(CannotOpen))
    case Some(text) =>
      if E.LinesOf(text) == [] then (st, Throw(EmptyFile))
      else
        match E.Read(E.LinesOf(text))
        case Explicit(_, specs) =>
          (st.(specs := Setting(true, None, [], [], specs), explicitInstall := true), Return)
        case Plain(specs) => (st.(specs := AddCli(st.specs, specs)), Next)
  }

  function IngestFile(w: World, file: string, st: State): (State, Outcome) {
    match KindOf(file)
    case Lockfile =>
      (st.(lockfile := Some(if StartsWith(file, "http") then file else w.absolute(file))), Next)
    case Yaml => IngestYaml(w, file, st)
    case Other => IngestText(w, file, st)
  }

  function IngestAll(w: World, files: seq<string>, st: State): (State, Outcome) {
    if files == [] then (st, Next)
    else
      var first := IngestFile(w, files[0], st);
      if first.1.Next? then IngestAll(w, files[1..], first.0) else first
  }

  function Ingest(w: World, files: seq<string>, st: State): (State, Outcome) {
    if Mixed(files) then (st, Throw(MixedKinds)) else IngestAll(w, files, st)
  }

  // ---------- The hook ----------

  /** Appends to the CLI value; nothing to append leaves the setting as it is. */
  method AddTo(setting: Configurable, values: seq<string>)
    modifies setting
    ensures setting.View() == AddCli(old(setting.View()), values)
  {
    if |values| != 0 {
      setting.AddCli(values);
    }
  }

  class Config {
    const specs: Configurable
    const channels: Configurable
    const table: Y.Selectors
    var others: Option<seq<PipSpec>>
    var envName: Option<string>
    var explicitInstall: bool
    var lockfile: Option<string>

    constructor (specs: Configurable, channels: Configurable, table: Y.Selectors)
      ensures this.specs == specs && this.channels == channels && this.table == table
      ensures others == None && envName == None && !explicitInstall && lockfile == None
    {
      this.specs, this.channels, this.table := specs, channels, table;
      others, envName, explicitInstall, lockfile := None, None, false, None;
    }

    ghost function View(): State
      reads this, specs, channels, table
    {
      State(specs.View(), channels.View(), others, envName, explicitInstall, lockfile, table.seen)
    }

    ghost predicate Valid()
      reads table
    {
      specs != channels && table.Valid()
    }

    method TakeYamlFile(w: World, file: string, y: Y.YamlFile) returns (outcome: Outcome)
      requires Valid()
      modifies this, specs, channels
      ensures Valid() && (View(), outcome) == TakeYaml(w, file, y, old(View()))
    {
      hide EndsWith;
      AddTo(channels, y.channels);
      if y.name != "" && !(envName.Some? || w.nameFromApi) {
        envName := Some(y.name);
      } else if y.name != "" && envName.None? {
        return Throw(UnsetName);
      }
      AddTo(specs, y.contents.dependencies);
      if |y.contents.pips| != 0 {
        var updated := if others.Some? then others.value else [];
        others := Some(updated + PipSpecs(y.contents.pips, w.parent(file)));
      }
      return Next;
    }

    method IngestTextFile(w: World, file: string) returns (outcome: Outcome)
      requires Valid()
      modifies this, specs
      ensures Valid() && (View(), outcome) == IngestText(w, file, old(View()))
    {
      hide E.LinesOf, E.Read;
      var content := w.read(file);
      if content.None? {
        return Throw(CannotOpen);
      }
      var lines := E.ReadLines(content.value);
      if |lines| == 0 {
        return Throw(EmptyFile);
      }
      var reading := E.ReadSpecs(lines);
      match reading {
        case Explicit(_, explicitSpecs) =>
          specs.ClearValues();
          specs.SetValue(explicitSpecs);
          explicitInstall := true;
          return Return;
        case Plain(plain) =>
          AddTo(specs, plain);
          return Next;
      }
    }

    method IngestOne(w: World, file: string) returns (outcome: Outcome)
      requires Valid()
      modifies this, specs, channels, table
      ensures Valid() && (View(), outcome) == IngestFile(w, file, old(View()))
    {
      hide Y.ReadDocument, Y.DocumentAsks, IngestText, TakeYaml;
      match KindOf(file) {
        case Lockfile =>
          lockfile := Some(if StartsWith(file, "http") then file else w.absolute(file));
          return Next;
        case Yaml =>
          var read := Y.ReadYamlFile(w.load(file), w.platform, table);
          match read {
            case Err(e) =>
              return Throw(InYaml(e));
            case Ok(y) =>
              outcome := TakeYamlFile(w, file, y);
          }
        case Other =>
          outcome := IngestTextFile(w, file);
      }
    }

    method FileSpecsHook(w: World, files: seq<string>) returns (outcome: Outcome)
      requires Valid()
      modifies this, specs, channels, table
      ensures Valid() && (View(), outcome) == Ingest(w, files, old(View()))
    {
      hide IngestFile, KindOf;
      var kind: Option<Kind> := None;
      for i := 0 to |files|
        invariant kind == if i == 0 then None else Some(KindOf(files[0]))
        invariant forall j | 0 <= j < i :: KindOf(files[j]) == KindOf(files[0])
      {
        if kind.Some? && kind.value != KindOf(files[i]) {
          return Throw(MixedKinds);
        }
        kind := Some(KindOf(files[i]));
      }
      ghost var st := View();
      for i := 0 to |files|
        invariant Valid() && IngestAll(w, files, st) == IngestAll(w, files[i..], View())
      {
        assert files[i..][0] == files[i] && files[i..][1..] == files[i + 1..];
        outcome := IngestOne(w, files[i]);
        if !outcome.Next? {
          return;
        }
      }
      return Next;
    }
  }
}
