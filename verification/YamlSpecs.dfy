/**
 YAML spec files (libmamba/src/api/install.cpp:34-209): platform selectors, whose table is kept
 between calls, and the merge of the `dependencies` list.
 */
module YamlSpecs {
  import opened Outcomes
  import opened Strings

  datatype Node =
    | Scalar(text: string)
    | Sequence(items: seq<Node>)
    | Mapping(entries: seq<(string, Node)>)

  datatype Error =
    | FileNotFound
    | BadYaml
    | NoDependencies
    | BadSelector
    | UnknownSelector
    | ComplicatedMerge
    | BadConversion

  // ---------- Selectors ----------

  const KEYS: set<string> := {"win", "unix", "osx", "linux"}

  /** The keys that a platform turns on. */
  function Implied(platform: string): set<string> {
    if StartsWith(platform, "win") then {"win"}
    else if StartsWith(platform, "linux") then {"unix", "linux"}
    else if StartsWith(platform, "osx") then {"unix", "osx"}
    else {"unix"}
  }

  /** The keys that some platform of the history turns on. */
  predicate On(seen: set<string>, key: string) {
    exists platform | platform in seen :: key in Implied(platform)
  }

  predicate IsSelector(s: string) {
    StartsWith(s, "sel(") && s[|s| - 1] == ')'
  }

  function KeyOf(selector: string): string
    requires IsSelector(selector)
  {
    selector[4..|selector| - 1]
  }

  function Selected(selector: string, seen: set<string>): Result<bool, Error> {
    if !IsSelector(selector) then Err(BadSelector)
    else if KeyOf(selector) !in KEYS then Err(UnknownSelector)
    else Ok(On(seen, KeyOf(selector)))
  }

  /** The static table of `truthy_values`. */
  class Selectors {
    var vals: map<string, bool>
    ghost var seen: set<string>

    ghost predicate Valid()
      reads this
    {
      vals.Keys == KEYS && forall key | key in vals :: vals[key] <==> On(seen, key)
    }

    constructor ()
      ensures Valid() && seen == {}
    {
      vals := map["win" := false, "unix" := false, "osx" := false, "linux" := false];
      seen := {};
    }

    method TruthyValues(platform: string) returns (values: map<string, bool>)
      requires Valid()
      modifies this
      ensures Valid() && seen == old(seen) + {platform} && values == vals
      ensures values.Keys == {"win", "unix", "osx", "linux"}
      ensures values["win"] <==> exists p | p in seen :: StartsWith(p, "win")
      ensures values["unix"] <==> exists p | p in seen :: !StartsWith(p, "win")
      ensures values["linux"] <==> exists p | p in seen :: StartsWith(p, "linux")
      ensures values["osx"] <==> exists p | p in seen :: StartsWith(p, "osx")
    {
      if StartsWith(platform, "win") {
        vals := vals["win" := true];
      } else {
        vals := vals["unix" := true];
        if StartsWith(platform, "linux") {
          vals := vals["linux" := true];
        } else if StartsWith(platform, "osx") {
          vals := vals["osx" := true];
        }
      }
      ImpliedBySeenAnd(seen, platform);
      seen := seen + {platform};
      values := vals;
      TableIs(seen);
    }

    /** A selector that does not parse is refused before the platform is looked at. */
    method EvalSelector(selector: string, platform: string) returns (r: Result<bool, Error>)
      requires Valid()
      modifies this
      ensures Valid() && seen == old(seen) + if IsSelector(selector) then {platform} else {}
      ensures r == Selected(selector, old(seen) + {platform})
    {
      if !IsSelector(selector) {
        return Err(BadSelector);
      }
      var key := KeyOf(selector);
      var values := TruthyValues(platform);
      if key !in values {
        return Err(UnknownSelector);
      }
      return Ok(values[key]);
    }
  }

  lemma StartsApart(platform: string)
    ensures StartsWith(platform, "win") ==> !StartsWith(platform, "linux") && !StartsWith(platform, "osx")
    ensures StartsWith(platform, "linux") ==> !StartsWith(platform, "osx")
  {
    assert StartsWith(platform, "win") ==> platform[0] == platform[..3][0] == 'w';
    assert StartsWith(platform, "linux") ==> platform[0] == platform[..5][0] == 'l';
    assert StartsWith(platform, "osx") ==> platform[0] == platform[..3][0] == 'o';
  }

  /** The four keys, by the platforms themselves. */
  lemma ImpliedAre(platform: string)
    ensures "win" in Implied(platform) <==> StartsWith(platform, "win")
    ensures "unix" in Implied(platform) <==> !StartsWith(platform, "win")
    ensures "linux" in Implied(platform) <==> StartsWith(platform, "linux")
    ensures "osx" in Implied(platform) <==> StartsWith(platform, "osx")
  {
    StartsApart(platform);
    hide StartsWith;
  }

  /** After every history a key is on exactly when some platform seen has it. */
  lemma TableIs(seen: set<string>)
    ensures On(seen, "win") <==> exists p | p in seen :: StartsWith(p, "win")
    ensures On(seen, "unix") <==> exists p | p in seen :: !StartsWith(p, "win")
    ensures On(seen, "linux") <==> exists p | p in seen :: StartsWith(p, "linux")
    ensures On(seen, "osx") <==> exists p | p in seen :: StartsWith(p, "osx")
  {
    hide Implied, StartsWith;
    forall p ensures "win" in Implied(p) <==> StartsWith(p, "win")
             ensures "unix" in Implied(p) <==> !StartsWith(p, "win")
             ensures "linux" in Implied(p) <==> StartsWith(p, "linux")
             ensures "osx" in Implied(p) <==> StartsWith(p, "osx")
    {
      ImpliedAre(p);
    }
  }

  /** The two ways a selector is refused. */
  lemma SelectorRefusedIff(s: string, seen: set<string>)
    ensures Selected(s, seen) == Err(BadSelector) <==> !(StartsWith(s, "sel(") && s[|s| - 1] == ')')
    ensures Selected(s, seen) == Err(UnknownSelector) <==>
            StartsWith(s, "sel(") && s[|s| - 1] == ')' && s[4..|s| - 1] !in {"win", "unix", "osx", "linux"}
  {}

  lemma ImpliedBySeenAnd(seen: set<string>, platform: string)
    ensures forall key :: On(seen + {platform}, key) <==> On(seen, key) || key in Implied(platform)
  {
    forall key ensures On(seen + {platform}, key) <==> On(seen, key) || key in Implied(platform) {
      assert platform in seen + {platform};
      assert forall p | p in seen :: p in seen + {platform};
    }
  }

  /** After calls for one platform only, the table says exactly what that platform implies. */
  lemma OnePlatformIsExact(seen: set<string>, platform: string, key: string)
    requires forall p | p in seen :: p == platform
    ensures On(seen + {platform}, key) <==> key in Implied(platform)
  {
    ImpliedBySeenAnd(seen, platform);
  }

  /** Windows first, Linux next, in one process: the second call still selects `win`. */
  lemma WindowsLeaksIntoLinux()
    ensures Selected("sel(win)", {} + {"linux-64"}) == Ok(false)
    ensures Selected("sel(win)", {"win-64"} + {"linux-64"}) == Ok(true)
  {
    assert "linux-64"[0] == 'l' && "win-64"[..3] == "win" && "linux-64"[..5] == "linux";
    assert KeyOf("sel(win)") == "win";
    ImpliedBySeenAnd({}, "linux-64");
    ImpliedBySeenAnd({"win-64"}, "linux-64");
    assert "win-64" in {"win-64"};
    assert On({"win-64"}, "win");
  }

  // ---------- Dependencies ----------

  /** What one scalar, or one entry of a map, adds to the result. */
  datatype Piece = Keep(text: string) | Skip | Pip(deps: seq<string>) | Fail(error: Error)

  /** A piece, and whether the selector table was asked for it. */
  datatype Step = Step(asks: bool, piece: Piece)

  function AsStrings(node: Node): Option<seq<string>> {
    if node.Sequence? && forall i | 0 <= i < |node.items| :: node.items[i].Scalar?
    then Some(seq(|node.items|, i requires 0 <= i < |node.items| => node.items[i].text))
    else None
  }

  /** What a map entry adds when the platforms of `seen` have been asked for. */
  function EntryStep(key: string, value: Node, seen: set<string>): Step {
    if StartsWith(key, "sel(") then
      Step(IsSelector(key),
           match Selected(key, seen)
           case Err(e) => Fail(e)
           case Ok(on) => if !on then Skip else if value.Scalar? then Keep(value.text) else Fail(ComplicatedMerge))
    else if key == "pip" then
      Step(false, if AsStrings(value).Some? then Pip(AsStrings(value).value) else Fail(BadConversion))
    else Step(false, Skip)
  }

  function EntrySteps(entries: seq<(string, Node)>, seen: set<string>): (r: seq<Step>)
    ensures |r| == |entries|
  {
    seq(|entries|, i requires 0 <= i < |entries| => EntryStep(entries[i].0, entries[i].1, seen))
  }

  function NodeSteps(node: Node, seen: set<string>): seq<Step> {
    match node
    case Scalar(text) => [Step(false, Keep(text))]
    case Sequence(_) => []
    case Mapping(entries) => EntrySteps(entries, seen)
  }

  function Steps(deps: seq<Node>, seen: set<string>): seq<Step> {
    if deps == [] then [] else Steps(deps[..|deps| - 1], seen) + NodeSteps(deps[|deps| - 1], seen)
  }

  predicate Clean(steps: seq<Step>) {
    forall i | 0 <= i < |steps| :: !steps[i].piece.Fail?
  }

  function Texts(steps: seq<Step>): seq<string> {
    if steps == [] then []
    else
      var last := steps[|steps| - 1].piece;
      Texts(steps[..|steps| - 1]) + if last.Keep? then [last.text] else []
  }

  function Pips(steps: seq<Step>): seq<seq<string>> {
    if steps == [] then []
    else
      var last := steps[|steps| - 1].piece;
      Pips(steps[..|steps| - 1]) + if last.Pip? then [last.deps] else []
  }

  /** The first step that fails; the number of steps when none does. */
  function FirstFail(steps: seq<Step>): (i: nat)
    ensures i <= |steps| && Clean(steps[..i]) && (i < |steps| ==> steps[i].piece.Fail?)
  {
    if steps == [] then 0
    else
      var init := steps[..|steps| - 1];
      var i := FirstFail(init);
      assert init[..i] == steps[..i];
      if i < |init| then i else if steps[|init|].piece.Fail? then |init| else |steps|
  }

  predicate AskedIn(steps: seq<Step>) {
    exists i | 0 <= i < |steps| :: steps[i].asks
  }

  /** The table is asked by some step that is reached. */
  predicate Asks(steps: seq<Step>) {
    var n := FirstFail(steps);
    AskedIn(if n < |steps| then steps[..n + 1] else steps)
  }

  datatype Contents = Contents(dependencies: seq<string>, pips: seq<seq<string>>)

  function WithPip(texts: seq<string>, pips: seq<seq<string>>): seq<string> {
    if pips != [] && "pip" !in texts then texts + ["pip"] else texts
  }

  /** An empty merge is no sequence for the YAML library: its conversion fails, pip section or not. */
  function Merged(steps: seq<Step>): Result<Contents, Error> {
    if FirstFail(steps) < |steps| then Err(steps[FirstFail(steps)].piece.error)
    else if Texts(steps) == [] then Err(BadConversion)
    else Ok(Contents(WithPip(Texts(steps), Pips(steps)), Pips(steps)))
  }

  lemma StepAppend(steps: seq<Step>, x: Step)
    ensures Texts(steps + [x]) == Texts(steps) + if x.piece.Keep? then [x.piece.text] else []
    ensures Pips(steps + [x]) == Pips(steps) + if x.piece.Pip? then [x.piece.deps] else []
  {
    assert (steps + [x])[..|steps|] == steps;
  }

  lemma FirstFailIs(steps: seq<Step>, i: nat)
    requires i <= |steps| && Clean(steps[..i]) && (i < |steps| ==> steps[i].piece.Fail?)
    ensures FirstFail(steps) == i
  {
    var k := FirstFail(steps);
    assert forall j | 0 <= j < i :: steps[..i][j] == steps[j];
    assert forall j | 0 <= j < k :: steps[..k][j] == steps[j];
  }

  lemma {:induction false} StepsSplit(deps: seq<Node>, n: nat, seen: set<string>)
    requires n <= |deps|
    ensures Steps(deps[..n], seen) <= Steps(deps, seen)
    decreases |deps| - n
  {
    if n < |deps| {
      assert deps[..n + 1][..n] == deps[..n];
      StepsSplit(deps, n + 1, seen);
    } else {
      assert deps[..n] == deps;
    }
  }

  lemma FailsAt(all: seq<Step>, done: seq<Step>, x: Step)
    requires Clean(done) && done + [x] <= all && x.piece.Fail?
    ensures Merged(all) == Err(x.piece.error)
    ensures Asks(all) <==> AskedIn(done) || x.asks
  {
    hide Texts, Pips, FirstFail;
    var n := |done|;
    assert all[..n + 1] == done + [x] && all[n] == x && all[..n] == done;
    FirstFailIs(all, n);
    AskedInAppend(done, x);
  }

  lemma AskedInAppend(steps: seq<Step>, x: Step)
    ensures AskedIn(steps + [x]) <==> AskedIn(steps) || x.asks
  {
    var longer := steps + [x];
    assert longer[|steps|] == x;
    assert forall i | 0 <= i < |steps| :: longer[i] == steps[i];
  }

  lemma NoFailure(steps: seq<Step>)
    requires Clean(steps)
    ensures FirstFail(steps) == |steps| && (Asks(steps) <==> AskedIn(steps))
  {
    hide FirstFail;
    assert steps[..|steps|] == steps;
    FirstFailIs(steps, |steps|);
  }

  // ---------- Reading ----------

  function AskedFor(asked: bool, platform: string): set<string> {
    if asked then {platform} else {}
  }

  method VisitEntry(key: string, value: Node, platform: string, table: Selectors) returns (piece: Piece)
    requires table.Valid()
    modifies table
    ensures table.Valid()
    ensures var step := EntryStep(key, value, old(table.seen) + {platform});
            piece == step.piece && table.seen == old(table.seen) + AskedFor(step.asks, platform)
  {
    hide On;
    if StartsWith(key, "sel(") {
      var selected := table.EvalSelector(key, platform);
      match selected {
        case Err(e) => piece := Fail(e);
        case Ok(on) =>
          piece := if !on then Skip else if value.Scalar? then Keep(value.text) else Fail(ComplicatedMerge);
      }
    } else if key == "pip" {
      piece := if AsStrings(value).Some? then Pip(AsStrings(value).value) else Fail(BadConversion);
    } else {
      piece := Skip;
    }
  }

  method MergeDependencies(deps: seq<Node>, platform: string, table: Selectors)
    returns (r: Result<Contents, Error>)
    requires table.Valid()
    modifies table
    ensures table.Valid()
    ensures var steps := Steps(deps, old(table.seen) + {platform});
            r == Merged(steps) && table.seen == old(table.seen) + AskedFor(Asks(steps), platform)
  {
    hide Steps, Texts, Pips, EntryStep, Merged, FirstFail, Asks, AskedIn;
    ghost var seen := table.seen + {platform};
    ghost var all := Steps(deps, seen);
    ghost var done: seq<Step> := [];
    var texts: seq<string>, pips: seq<seq<string>> := [], [];
    Nothing(seen);
    assert deps[..0] == [];
    for i := 0 to |deps|
      invariant table.Valid() && done == Steps(deps[..i], seen) && Clean(done)
      invariant texts == Texts(done) && pips == Pips(done)
      invariant table.seen == old(table.seen) + AskedFor(AskedIn(done), platform)
    {
      NextNode(deps, i, seen);
      match deps[i] {
        case Scalar(text) =>
          StepAppend(done, Step(false, Keep(text)));
          AskedInAppend(done, Step(false, Keep(text)));
          texts := texts + [text];
          done := done + [Step(false, Keep(text))];
        case Sequence(_) =>
        case Mapping(entries) =>
          ghost var before, added := done, EntrySteps(entries, seen);
          for j := 0 to |entries|
            invariant table.Valid() && done == before + added[..j] && Clean(done)
            invariant texts == Texts(done) && pips == Pips(done)
            invariant table.seen == old(table.seen) + AskedFor(AskedIn(done), platform)
          {
            ghost var step := added[j];
            assert table.seen + {platform} == seen;
            var piece := VisitEntry(entries[j].0, entries[j].1, platform, table);
            assert piece == step.piece && done + [step] == before + added[..j + 1];
            StepAppend(done, step);
            AskedInAppend(done, step);
            match piece {
              case Keep(text) => texts := texts + [text];
              case Skip =>
              case Pip(list) => pips := pips + [list];
              case Fail(e) =>
                assert done + [step] <= before + added <= all;
                FailsAt(all, done, step);
                return Err(e);
            }
            done := done + [step];
          }
      }
    }
    assert deps[..|deps|] == deps;
    NoFailure(all);
    r := Finish(all, texts, pips);
  }

  lemma Nothing(seen: set<string>)
    ensures Steps([], seen) == [] && Texts([]) == [] && Pips([]) == [] && !AskedIn([])
  {}

  lemma NextNode(deps: seq<Node>, i: nat, seen: set<string>)
    requires i < |deps|
    ensures Steps(deps[..i + 1], seen) == Steps(deps[..i], seen) + NodeSteps(deps[i], seen)
    ensures Steps(deps[..i], seen) + NodeSteps(deps[i], seen) <= Steps(deps, seen)
  {
    assert deps[..i + 1][..i] == deps[..i];
    StepsSplit(deps, i + 1, seen);
  }

  method Finish(ghost steps: seq<Step>, texts: seq<string>, pips: seq<seq<string>>)
    returns (r: Result<Contents, Error>)
    requires Clean(steps) && texts == Texts(steps) && pips == Pips(steps)
    ensures r == Merged(steps)
  {
    hide Texts, Pips;
    NoFailure(steps);
    if texts == [] {
      return Err(BadConversion);
    }
    var dependencies := texts;
    if pips != [] && "pip" !in texts {
      dependencies := dependencies + ["pip"];
    }
    return Ok(Contents(dependencies, pips));
  }

  /** The parts of a YAML file that are read; `channels` and `name` may be missing. */
  datatype Document = Document(dependencies: Option<Node>, channels: Option<Node>, name: Option<Node>)

  datatype YamlFile = YamlFile(contents: Contents, channels: seq<string>, name: string)

  predicate HasDependencies(doc: Document) {
    doc.dependencies.Some? && doc.dependencies.value.Sequence? && doc.dependencies.value.items != []
  }

  function Channels(doc: Document): Option<seq<string>> {
    if doc.channels.Some? then AsStrings(doc.channels.value) else Some([])
  }

  function FileName(doc: Document): Option<string> {
    if doc.name.None? then Some("") else if doc.name.value.Scalar? then Some(doc.name.value.text) else None
  }

  /** What reading gives once the platforms of `seen` have been asked for. */
  function ReadDocument(loaded: Result<Document, Error>, seen: set<string>): Result<YamlFile, Error> {
    match loaded
    case Err(e) => Err(e)
    case Ok(doc) =>
      if !HasDependencies(doc) then Err(NoDependencies)
      else
        match Merged(Steps(doc.dependencies.value.items, seen))
        case Err(e) => Err(e)
        case Ok(contents) =>
          if Channels(doc).None? || FileName(doc).None? then Err(BadConversion)
          else Ok(YamlFile(contents, Channels(doc).value, FileName(doc).value))
  }

  predicate DocumentAsks(loaded: Result<Document, Error>, seen: set<string>) {
    loaded.Ok? && HasDependencies(loaded.value) && Asks(Steps(loaded.value.dependencies.value.items, seen))
  }

  method ReadYamlFile(loaded: Result<Document, Error>, platform: string, table: Selectors)
    returns (r: Result<YamlFile, Error>)
    requires table.Valid()
    modifies table
    ensures table.Valid()
    ensures r == ReadDocument(loaded, old(table.seen) + {platform})
    ensures table.seen
         == old(table.seen) + AskedFor(DocumentAsks(loaded, old(table.seen) + {platform}), platform)
  {
    hide Steps, Merged, Asks, AsStrings;
    if loaded.Err? {
      return Err(loaded.error);
    }
    var doc := loaded.value;
    if !HasDependencies(doc) {
      return Err(NoDependencies);
    }
    var contents := MergeDependencies(doc.dependencies.value.items, platform, table);
    if contents.Err? {
      return Err(contents.error);
    }
    if Channels(doc).None? || FileName(doc).None? {
      return Err(BadConversion);
    }
    return Ok(YamlFile(contents.value, Channels(doc).value, FileName(doc).value));
  }

  // ---------- What the merge means ----------

  /** A selector for a key that only earlier platforms turn on. */
  predicate Leaks(entry: (string, Node), seen: set<string>, platform: string) {
    && IsSelector(entry.0) && KeyOf(entry.0) in KEYS
    && On(seen, KeyOf(entry.0)) && KeyOf(entry.0) !in Implied(platform)
  }

  predicate LeaksInto(node: Node, seen: set<string>, platform: string) {
    node.Mapping? && exists j | 0 <= j < |node.entries| :: Leaks(node.entries[j], seen, platform)
  }

  lemma EntryLeaks(entry: (string, Node), seen: set<string>, platform: string)
    ensures EntryStep(entry.0, entry.1, seen + {platform}) == EntryStep(entry.0, entry.1, {platform})
       <==> !Leaks(entry, seen, platform)
  {
    hide On, Implied;
    OnIsUnion(seen, platform);
  }

  lemma OnIsUnion(seen: set<string>, platform: string)
    ensures forall key :: On(seen + {platform}, key) <==> On(seen, key) || key in Implied(platform)
    ensures forall key :: On({platform}, key) <==> key in Implied(platform)
  {
    ImpliedBySeenAnd(seen, platform);
    assert platform in {platform};
  }

  lemma NodeLeaks(node: Node, seen: set<string>, platform: string)
    ensures |NodeSteps(node, seen + {platform})| == |NodeSteps(node, {platform})|
    ensures NodeSteps(node, seen + {platform}) == NodeSteps(node, {platform}) <==> !LeaksInto(node, seen, platform)
  {
    hide EntryStep, Leaks;
    if node.Mapping? {
      forall j | 0 <= j < |node.entries|
        ensures EntrySteps(node.entries, seen + {platform})[j] == EntrySteps(node.entries, {platform})[j]
           <==> !Leaks(node.entries[j], seen, platform)
      {
        EntryLeaks(node.entries[j], seen, platform);
      }
    }
  }

  /** Earlier calls change what some entry of a list does exactly when it is a selector that only they turn on. */
  lemma {:induction false} HistoryMattersIff(deps: seq<Node>, seen: set<string>, platform: string)
    ensures |Steps(deps, seen + {platform})| == |Steps(deps, {platform})|
    ensures Steps(deps, seen + {platform}) == Steps(deps, {platform})
       <==> forall i | 0 <= i < |deps| :: !LeaksInto(deps[i], seen, platform)
  {
    hide NodeSteps, LeaksInto;
    if deps == [] {
    } else {
      var n := |deps| - 1;
      HistoryMattersIff(deps[..n], seen, platform);
      NodeLeaks(deps[n], seen, platform);
      assert deps == deps[..n] + [deps[n]];
      SameParts(Steps(deps[..n], seen + {platform}), NodeSteps(deps[n], seen + {platform}),
                Steps(deps[..n], {platform}), NodeSteps(deps[n], {platform}));
    }
  }

  lemma SameParts<T>(a: seq<T>, b: seq<T>, c: seq<T>, d: seq<T>)
    requires |a| == |c|
    ensures a + b == c + d <==> a == c && b == d
  {
    if a + b == c + d {
      assert a == (a + b)[..|a|] == (c + d)[..|a|] == c;
      assert b == (a + b)[|a|..] == (c + d)[|a|..] == d;
    }
  }

  /** "pip" joins the dependencies exactly when there is a pip section and nothing names it already. */
  lemma PipIsThereIff(steps: seq<Step>)
    requires Merged(steps).Ok?
    ensures var deps := Merged(steps).value.dependencies;
            && Texts(steps) <= deps <= Texts(steps) + ["pip"]
            && ("pip" in deps <==> "pip" in Texts(steps) || Pips(steps) != [])
            && (|deps| > |Texts(steps)| <==> "pip" !in Texts(steps) && Pips(steps) != [])
  {
    var deps := Merged(steps).value.dependencies;
    assert deps == Texts(steps) ==> deps == (Texts(steps) + ["pip"])[..|Texts(steps)|];
    hide Texts, Pips;
  }

  // ---------- A platform-free file with the same contents ----------

  function Scalars(texts: seq<string>): (r: seq<Node>)
    ensures |r| == |texts| && forall i | 0 <= i < |texts| :: r[i] == Scalar(texts[i])
  {
    seq(|texts|, i requires 0 <= i < |texts| => Scalar(texts[i]))
  }

  function Sections(pips: seq<seq<string>>): (r: seq<Node>)
    ensures |r| == |pips|
    ensures forall i | 0 <= i < |pips| :: r[i] == Mapping([("pip", Sequence(Scalars(pips[i])))])
  {
    seq(|pips|, i requires 0 <= i < |pips| => Mapping([("pip", Sequence(Scalars(pips[i])))]))
  }

  lemma ScalarsLast(texts: seq<string>, seen: set<string>)
    requires texts != []
    ensures var n := |texts| - 1;
            Steps(Scalars(texts), seen) == Steps(Scalars(texts[..n]), seen) + [Step(false, Keep(texts[n]))]
  {
    var n := |texts| - 1;
    assert Scalars(texts)[..n] == Scalars(texts[..n]);
  }

  lemma {:induction false} ScalarSteps(texts: seq<string>, seen: set<string>)
    ensures var steps := Steps(Scalars(texts), seen);
            Texts(steps) == texts && Pips(steps) == [] && Clean(steps)
  {
    hide Texts, Pips, Steps;
    if texts == [] {
      Nothing(seen);
    } else {
      var n := |texts| - 1;
      ScalarsLast(texts, seen);
      ScalarSteps(texts[..n], seen);
      StepAppend(Steps(Scalars(texts[..n]), seen), Step(false, Keep(texts[n])));
      assert texts == texts[..n] + [texts[n]];
    }
  }

  lemma SectionSteps(list: seq<string>, seen: set<string>)
    ensures NodeSteps(Mapping([("pip", Sequence(Scalars(list)))]), seen) == [Step(false, Pip(list))]
  {
    assert AsStrings(Sequence(Scalars(list))).value == list;
    assert "pip"[0] != "sel("[0];
  }

  lemma {:induction false} SectionsAfter(first: seq<Node>, pips: seq<seq<string>>, seen: set<string>)
    requires Clean(Steps(first, seen)) && Pips(Steps(first, seen)) == []
    ensures var steps := Steps(first + Sections(pips), seen);
            Clean(steps) && Texts(steps) == Texts(Steps(first, seen)) && Pips(steps) == pips
  {
    hide NodeSteps, Texts, Pips;
    var nodes := first + Sections(pips);
    if pips == [] {
      assert nodes == first;
    } else {
      var n := |pips| - 1;
      assert nodes[..|nodes| - 1] == first + Sections(pips[..n]);
      SectionsAfter(first, pips[..n], seen);
      SectionSteps(pips[n], seen);
      StepAppend(Steps(first + Sections(pips[..n]), seen), Step(false, Pip(pips[n])));
      assert pips == pips[..n] + [pips[n]];
    }
  }

  /**
   The merged contents, written out without selectors, read back as themselves on every platform and
   after every history.
   */
  lemma MergedIsNormalForm(deps: seq<Node>, seen: set<string>, other: set<string>)
    requires Merged(Steps(deps, seen)).Ok?
    ensures var c := Merged(Steps(deps, seen)).value;
            Merged(Steps(Scalars(c.dependencies) + Sections(c.pips), other)) == Ok(c)
  {
    hide Merged, Texts, Pips, Steps;
    var c := Merged(Steps(deps, seen)).value;
    MergedHasPip(Steps(deps, seen));
    ScalarSteps(c.dependencies, other);
    SectionsAfter(Scalars(c.dependencies), c.pips, other);
    MergedIs(Steps(Scalars(c.dependencies) + Sections(c.pips), other));
  }

  lemma MergedHasPip(steps: seq<Step>)
    requires Merged(steps).Ok?
    ensures var c := Merged(steps).value; c.dependencies != [] && (c.pips == [] || "pip" in c.dependencies)
  {}

  lemma MergedIs(steps: seq<Step>)
    requires Clean(steps) && Texts(steps) != [] && (Pips(steps) == [] || "pip" in Texts(steps))
    ensures Merged(steps) == Ok(Contents(Texts(steps), Pips(steps)))
  {
    hide Texts, Pips, FirstFail;
    NoFailure(steps);
  }
}
