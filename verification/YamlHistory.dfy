/**
 When reading a YAML spec file succeeds, and when what was read before changes the result
 (libmamba/src/api/install.cpp:34-209).
 */
module YamlHistory {
  import opened Outcomes
  import opened Strings
  import opened YamlSpecs

  // ---------- The entries of a dependency list, one after the other ----------

  datatype Item = Text(text: string) | Entry(key: string, value: Node)

  function ItemsOf(node: Node): seq<Item> {
    match node
    case Scalar(text) => [Text(text)]
    case Sequence(_) => []
    case Mapping(entries) =>
      seq(|entries|, i requires 0 <= i < |entries| => Entry(entries[i].0, entries[i].1))
  }

  function Items(deps: seq<Node>): seq<Item> {
    if deps == [] then [] else Items(deps[..|deps| - 1]) + ItemsOf(deps[|deps| - 1])
  }

  function ItemStep(item: Item, seen: set<string>): Step {
    match item
    case Text(text) => Step(false, Keep(text))
    case Entry(key, value) => EntryStep(key, value, seen)
  }

  lemma {:induction false} StepsOfItems(deps: seq<Node>, seen: set<string>)
    ensures |Steps(deps, seen)| == |Items(deps)|
    ensures forall k | 0 <= k < |Items(deps)| :: Steps(deps, seen)[k] == ItemStep(Items(deps)[k], seen)
  {
    hide EntryStep;
    if deps == [] {
      assert Steps(deps, seen) == [];
    } else {
      StepsOfItems(deps[..|deps| - 1], seen);
    }
  }

  // ---------- When the merge succeeds ----------

  /** A scalar, or a scalar whose selector is on. */
  predicate Adds(item: Item, seen: set<string>) {
    item.Text? || (StartsWith(item.key, "sel(") && Selected(item.key, seen) == Ok(true) && item.value.Scalar?)
  }

  /** A selector that is no selector, one that selects more than a scalar, or a pip section that is no list of strings. */
  predicate Fails(item: Item, seen: set<string>) {
    && item.Entry?
    && if StartsWith(item.key, "sel(") then
         Selected(item.key, seen).Err? || (Selected(item.key, seen) == Ok(true) && !item.value.Scalar?)
       else item.key == "pip" && AsStrings(item.value).None?
  }

  lemma ItemStepIs(item: Item, seen: set<string>)
    ensures ItemStep(item, seen).piece.Keep? <==> Adds(item, seen)
    ensures ItemStep(item, seen).piece.Fail? <==> Fails(item, seen)
    ensures ItemStep(item, seen).piece.Pip? ==> item.Entry? && item.key == "pip"
    ensures item.Entry? && item.key == "pip" && !Fails(item, seen) ==> ItemStep(item, seen).piece.Pip?
  {
    hide On, AsStrings, IsSelector;
    assert "pip"[0] != "sel("[0];
  }

  lemma {:induction false} TextsConcat(a: seq<Step>, b: seq<Step>)
    ensures Texts(a + b) == Texts(a) + Texts(b)
    ensures Pips(a + b) == Pips(a) + Pips(b)
  {
    hide Texts, Pips;
    if b == [] {
      assert a + b == a;
      NoSteps();
    } else {
      var n := |b| - 1;
      TextsConcat(a, b[..n]);
      StepAppend(a + b[..n], b[n]);
      StepAppend(b[..n], b[n]);
      assert a + b == a + b[..n] + [b[n]] && b == b[..n] + [b[n]];
    }
  }

  lemma NoSteps()
    ensures Texts([]) == [] && Pips([]) == []
  {}

  lemma {:induction false} TextsNoneIff(steps: seq<Step>)
    ensures Texts(steps) == [] <==> forall k | 0 <= k < |steps| :: !steps[k].piece.Keep?
    ensures Pips(steps) == [] <==> forall k | 0 <= k < |steps| :: !steps[k].piece.Pip?
  {
    hide Texts, Pips;
    if steps == [] {
      NoSteps();
    } else {
      var n := |steps| - 1;
      TextsNoneIff(steps[..n]);
      StepAppend(steps[..n], steps[n]);
      assert steps == steps[..n] + [steps[n]];
      assert forall k | 0 <= k < n :: steps[..n][k] == steps[k];
    }
  }

  lemma MergedOkIff(steps: seq<Step>)
    ensures Merged(steps).Ok? <==> Clean(steps) && Texts(steps) != []
  {
    hide FirstFail, Texts, Pips;
    assert steps[..|steps|] == steps;
    if Clean(steps) {
      NoFailure(steps);
    }
  }

  /** The merge succeeds exactly when no entry fails and some scalar is there, or selected. */
  lemma MergeSucceedsIff(deps: seq<Node>, seen: set<string>)
    ensures Merged(Steps(deps, seen)).Ok?
       <==> (forall k | 0 <= k < |Items(deps)| :: !Fails(Items(deps)[k], seen))
            && exists k | 0 <= k < |Items(deps)| :: Adds(Items(deps)[k], seen)
  {
    hide Merged, Texts, Steps, Items, ItemStep, Adds, Fails;
    var steps, items := Steps(deps, seen), Items(deps);
    StepsOfItems(deps, seen);
    forall k | 0 <= k < |items|
      ensures steps[k].piece.Keep? <==> Adds(items[k], seen)
      ensures steps[k].piece.Fail? <==> Fails(items[k], seen)
    {
      ItemStepIs(items[k], seen);
    }
    MergedOkIff(steps);
    TextsNoneIff(steps);
  }

  /** Reading succeeds exactly when the merge does, and `channels` and `name` are of their kinds where they are given. */
  lemma ReadSucceedsIff(doc: Document, seen: set<string>)
    ensures ReadDocument(Ok(doc), seen).Ok?
       <==> && HasDependencies(doc) && Channels(doc).Some? && FileName(doc).Some?
            && var items := Items(doc.dependencies.value.items);
               (forall k | 0 <= k < |items| :: !Fails(items[k], seen))
               && exists k | 0 <= k < |items| :: Adds(items[k], seen)
  {
    hide Merged, Steps, Items, Adds, Fails, AsStrings;
    if HasDependencies(doc) {
      MergeSucceedsIff(doc.dependencies.value.items, seen);
    }
  }

  /** A file that has nothing but a pip section is an error, although "pip" would have been added. */
  lemma PipAloneFails(list: seq<string>, seen: set<string>)
    ensures Merged(Steps([Mapping([("pip", Sequence(Scalars(list)))])], seen)) == Err(BadConversion)
  {
    hide NodeSteps, Texts, FirstFail;
    var node, steps := Mapping([("pip", Sequence(Scalars(list)))]), [Step(false, Pip(list))];
    SectionSteps(list, seen);
    assert [node][..0] == [] && Steps([node], seen) == [] + steps == steps;
    NoFailure(steps);
    TextsNoneIff(steps);
  }

  // ---------- One selected entry ----------

  /** The selector keys that hold for one platform. */
  predicate HoldsFor(key: string, platform: string) {
    || (key == "win" && StartsWith(platform, "win"))
    || (key == "unix" && !StartsWith(platform, "win"))
    || (key == "linux" && StartsWith(platform, "linux"))
    || (key == "osx" && StartsWith(platform, "osx"))
  }

  function SelectedNode(key: string, text: string): Node {
    Mapping([("sel(" + key + ")", Scalar(text))])
  }

  lemma SelectedOnFresh(key: string, platform: string)
    requires key in {"win", "unix", "linux", "osx"}
    ensures Selected("sel(" + key + ")", {platform}) == Ok(HoldsFor(key, platform))
  {
    var s := "sel(" + key + ")";
    assert s[..4] == "sel(" && s[|s| - 1] == ')' && s[4..|s| - 1] == key;
    TableIs({platform});
    assert platform in {platform};
    hide StartsWith, On;
  }

  lemma SelectedSteps(texts: seq<string>, key: string, text: string, platform: string)
    requires key in {"win", "unix", "linux", "osx"}
    ensures var steps := Steps(Scalars(texts) + [SelectedNode(key, text)], {platform});
            Clean(steps) && Pips(steps) == []
            && Texts(steps) == if HoldsFor(key, platform) then texts + [text] else texts
  {
    hide Texts, Pips, HoldsFor, Scalars, On;
    var nodes := Scalars(texts) + [SelectedNode(key, text)];
    var before := Steps(Scalars(texts), {platform});
    SelectedOnFresh(key, platform);
    ScalarSteps(texts, {platform});
    assert nodes[..|nodes| - 1] == Scalars(texts);
    var step := EntryStep("sel(" + key + ")", Scalar(text), {platform});
    assert ("sel(" + key + ")")[..4] == "sel(";
    assert NodeSteps(SelectedNode(key, text), {platform}) == [step];
    StepAppend(before, step);
    assert texts + [] == texts;
  }

  /** On a fresh table the entry is one of the dependencies exactly when its key holds for the platform. */
  lemma SelectorContributesIff(texts: seq<string>, key: string, text: string, platform: string)
    requires texts != [] && key in {"win", "unix", "linux", "osx"}
    ensures var doc := Document(Some(Sequence(Scalars(texts) + [SelectedNode(key, text)])), None, None);
            ReadDocument(Ok(doc), {platform})
            == Ok(YamlFile(Contents(if HoldsFor(key, platform) then texts + [text] else texts, []), [], ""))
  {
    hide Texts, Pips, HoldsFor, Merged, Scalars, Steps, Clean;
    SelectedSteps(texts, key, text, platform);
    SimpleMerge(Steps(Scalars(texts) + [SelectedNode(key, text)], {platform}));
  }

  lemma SimpleMerge(steps: seq<Step>)
    requires Clean(steps) && Texts(steps) != [] && Pips(steps) == []
    ensures Merged(steps) == Ok(Contents(Texts(steps), []))
  {
    hide Texts, Pips, FirstFail;
    NoFailure(steps);
  }

  // ---------- The other parts ----------

  /** What is read of a file that can be read. */
  lemma FilePartsAre(doc: Document, seen: set<string>, channels: seq<string>, name: string)
    requires ReadDocument(Ok(doc), seen).Ok?
    ensures var file := ReadDocument(Ok(doc), seen).value;
            && Merged(Steps(doc.dependencies.value.items, seen)) == Ok(file.contents)
            && (doc.channels == None ==> file.channels == [])
            && (doc.channels == Some(Sequence(Scalars(channels))) ==> file.channels == channels)
            && (doc.name == None ==> file.name == "")
            && (doc.name == Some(Scalar(name)) ==> file.name == name)
  {
    hide Merged, Steps;
  }

  /** The errors in their order: the file, its list, the merge, and what does not convert. */
  lemma ReadErrorIs(doc: Document, seen: set<string>)
    requires ReadDocument(Ok(doc), seen).Err?
    ensures var e := ReadDocument(Ok(doc), seen).error;
            var listed := doc.dependencies.Some? && doc.dependencies.value.Sequence? && doc.dependencies.value.items != [];
            if !listed then e == NoDependencies
            else if Merged(Steps(doc.dependencies.value.items, seen)).Err?
            then e == Merged(Steps(doc.dependencies.value.items, seen)).error
            else e == BadConversion
  {
    hide Merged, Steps;
  }

  // ---------- What earlier calls change ----------

  predicate LeaksBy(item: Item, seen: set<string>, platform: string) {
    item.Entry? && Leaks((item.key, item.value), seen, platform)
  }

  /** A step before and after earlier calls: a skipped entry is kept, or fails for being more than a scalar. */
  predicate Raised(alone: Step, later: Step) {
    || later == alone
    || (alone.piece.Skip? && (later.piece.Keep? || later.piece == Fail(ComplicatedMerge)))
  }

  predicate AllRaised(alone: seq<Step>, later: seq<Step>) {
    |alone| == |later| && forall k | 0 <= k < |alone| :: Raised(alone[k], later[k])
  }

  /** What becomes of a leaked entry. */
  function LeakedPiece(item: Item): Piece {
    if item.Entry? && item.value.Scalar? then Keep(item.value.text) else Fail(ComplicatedMerge)
  }

  lemma OnlyEntriesLeak(item: Item, seen: set<string>, platform: string)
    ensures LeaksBy(item, seen, platform) ==> item.Entry?
  {}

  lemma LeakRaises(item: Item, seen: set<string>, platform: string)
    ensures var alone, later := ItemStep(item, {platform}), ItemStep(item, seen + {platform});
            && Raised(alone, later)
            && (later == alone <==> !LeaksBy(item, seen, platform))
            && (LeaksBy(item, seen, platform) ==>
                  later.piece == LeakedPiece(item))
  {
    hide On, Implied, AsStrings;
    OnIsUnion(seen, platform);
  }

  lemma {:induction false} MoreTexts(alone: seq<Step>, later: seq<Step>)
    requires AllRaised(alone, later) && Clean(later)
    ensures |Texts(later)| >= |Texts(alone)| && Pips(later) == Pips(alone)
    ensures later != alone ==> |Texts(later)| > |Texts(alone)|
  {
    if alone == [] {
      assert later == [];
    } else {
      var n := |alone| - 1;
      MoreTexts(alone[..n], later[..n]);
      assert alone == alone[..n] + [alone[n]] && later == later[..n] + [later[n]];
      assert Raised(alone[n], later[n]);
    }
  }

  /** The only step that differs adds "pip" at the end, where a pip section adds it otherwise. */
  predicate PipAt(alone: seq<Step>, later: seq<Step>, k: nat) {
    && k < |alone| && |later| == |alone| && alone[k].piece.Skip? && later[k].piece == Keep("pip")
    && (forall j | 0 <= j < |alone| && j != k :: later[j] == alone[j])
    && (forall j | k < j < |alone| :: !alone[j].piece.Keep?)
    && Pips(alone) != [] && "pip" !in Texts(alone)
  }

  lemma SplitTexts(steps: seq<Step>, k: nat)
    requires k < |steps|
    ensures var here := if steps[k].piece.Keep? then [steps[k].piece.text] else [];
            Texts(steps) == Texts(steps[..k]) + here + Texts(steps[k + 1..])
  {
    hide Texts, Pips;
    var before, here, after := steps[..k], [steps[k]], steps[k + 1..];
    SplitAt(steps, k);
    TextsConcat(before + here, after);
    TextsConcat(before, here);
    TextsOfOne(steps[k]);
  }

  lemma SplitAt<T>(xs: seq<T>, k: nat)
    requires k < |xs|
    ensures xs[..k] + [xs[k]] + xs[k + 1..] == xs
  {}

  lemma TextsOfOne(x: Step)
    ensures Texts([x]) == if x.piece.Keep? then [x.piece.text] else []
  {
    assert [x][..0] == [];
  }

  lemma PipAtIsSame(alone: seq<Step>, later: seq<Step>, k: nat)
    requires PipAt(alone, later, k)
    ensures Texts(later) == Texts(alone) + ["pip"]
  {
    hide Texts, Pips;
    SplitTexts(alone, k);
    SplitTexts(later, k);
    assert later[..k] == alone[..k] && later[k + 1..] == alone[k + 1..];
    TextsNoneIff(alone[k + 1..]);
  }

  lemma TwoDifferences(alone: seq<Step>, later: seq<Step>, k: nat)
    requires AllRaised(alone, later) && Clean(later) && k < |alone| && later[k] != alone[k]
    requires exists j | 0 <= j < |alone| && j != k :: later[j] != alone[j]
    ensures |Texts(later)| >= |Texts(alone)| + 2
  {
    hide Texts, Pips;
    SplitTexts(alone, k);
    SplitTexts(later, k);
    MoreTexts(alone[..k], later[..k]);
    MoreTexts(alone[k + 1..], later[k + 1..]);
    var j :| 0 <= j < |alone| && j != k && later[j] != alone[j];
    if j < k {
      assert later[..k][j] != alone[..k][j];
    } else {
      assert later[k + 1..][j - k - 1] != alone[k + 1..][j - k - 1];
    }
    assert Raised(alone[k], later[k]);
  }

  lemma PipAtWhere(alone: seq<Step>, later: seq<Step>, k: nat)
    requires AllRaised(alone, later) && Clean(later) && k < |alone| && later[k] != alone[k]
    requires Pips(alone) != [] && "pip" !in Texts(alone) && Texts(later) == Texts(alone) + ["pip"]
    ensures PipAt(alone, later, k)
  {
    hide Texts, Pips;
    if exists j | 0 <= j < |alone| && j != k :: later[j] != alone[j] {
      TwoDifferences(alone, later, k);
    }
    SplitTexts(alone, k);
    SplitTexts(later, k);
    assert Raised(alone[k], later[k]);
    assert later[..k] == alone[..k] && later[k + 1..] == alone[k + 1..];
    InsertedLast(Texts(alone[..k]), later[k].piece.text, Texts(alone[k + 1..]), "pip");
    TextsNoneIff(alone[k + 1..]);
    assert forall j | k < j < |alone| :: alone[j] == alone[k + 1..][j - k - 1];
  }

  lemma EndOf(a: seq<string>, x: string, b: seq<string>)
    ensures b != [] ==> (a + [x] + b)[|a| + |b|] in a + b
    ensures b == [] ==> (a + [x] + b)[|a|] == x
  {
    assert b != [] ==> (a + [x] + b)[|a| + |b|] == (a + b)[|a| + |b| - 1];
  }

  lemma InsertedLast(a: seq<string>, x: string, b: seq<string>, last: string)
    requires a + [x] + b == a + b + [last] && last !in a + b
    ensures b == [] && x == last
  {
    var left, right := a + [x] + b, a + b + [last];
    EndOf(a, x, b);
    assert right[|a| + |b|] == last;
  }

  lemma SameContentsIff(alone: seq<Step>, later: seq<Step>)
    requires AllRaised(alone, later) && Clean(alone) && Texts(alone) != []
    ensures Merged(later) == Merged(alone) <==> later == alone || exists k: nat :: PipAt(alone, later, k)
  {
    hide Texts, Pips, FirstFail;
    NoFailure(alone);
    MergedOkIff(later);
    if exists k: nat :: PipAt(alone, later, k) {
      var k: nat :| PipAt(alone, later, k);
      PipAtIsSame(alone, later, k);
      assert Clean(later);
      MoreTexts(alone, later);
      NoFailure(later);
    }
    if later != alone && Merged(later) == Merged(alone) {
      NoFailure(later);
      MoreTexts(alone, later);
      var k :| 0 <= k < |alone| && later[k] != alone[k];
      LongerTexts(Texts(alone), Texts(later), Pips(alone));
      PipAtWhere(alone, later, k);
    }
  }

  lemma LongerTexts(alone: seq<string>, later: seq<string>, pips: seq<seq<string>>)
    requires |later| > |alone| && WithPip(later, pips) == WithPip(alone, pips)
    ensures pips != [] && "pip" !in alone && later == alone + ["pip"]
  {}

  /** The first item that fails on a fresh table. */
  function FirstFailing(deps: seq<Node>, platform: string): nat {
    FirstFail(Steps(deps, {platform}))
  }

  /** A leaked entry, more than a scalar, comes before anything that fails anyway. */
  predicate ComplicatedLeak(items: seq<Item>, seen: set<string>, platform: string, end: nat) {
    exists k | 0 <= k < |items| && k < end :: LeaksBy(items[k], seen, platform) && LeakedPiece(items[k]).Fail?
  }

  /** One leaked scalar "pip", the last to be kept, beside a pip section and no other "pip". */
  predicate LeakedPipLast(items: seq<Item>, seen: set<string>, platform: string, k: nat) {
    && k < |items| && LeaksBy(items[k], seen, platform) && LeakedPiece(items[k]) == Keep("pip")
    && (forall j | 0 <= j < |items| && j != k :: !LeaksBy(items[j], seen, platform))
    && (forall j | k < j < |items| :: !Adds(items[j], {platform}))
    && (exists j | 0 <= j < |items| :: items[j].Entry? && items[j].key == "pip")
    && (forall j | 0 <= j < |items| && Adds(items[j], {platform}) :: ItemStep(items[j], {platform}).piece != Keep("pip"))
  }

  /**
   A merge comes out as on a fresh table exactly when
   - it fails there, and no leaked entry that is more than a scalar comes before, or the error is that one anyway;
   - or nothing leaks;
   - or it succeeds there, and what leaks is one "pip" at the end that the pip section adds otherwise.
   */
  lemma HistoryChangesMergeIff(deps: seq<Node>, seen: set<string>, platform: string)
    ensures var items, f := Items(deps), FirstFailing(deps, platform);
            Merged(Steps(deps, seen + {platform})) == Merged(Steps(deps, {platform}))
            <==> if f < |items| then
                   ComplicatedLeak(items, seen, platform, f) ==>
                     Merged(Steps(deps, {platform})) == Err(ComplicatedMerge)
                 else
                   || (forall k | 0 <= k < |items| :: !LeaksBy(items[k], seen, platform))
                   || (exists k: nat :: Texts(Steps(deps, {platform})) != [] && LeakedPipLast(items, seen, platform, k))
  {
    hide Merged, Texts, Pips, Steps, Items, ItemStep, Adds, LeaksBy, FirstFail, Raised;
    var alone, later, items := Steps(deps, {platform}), Steps(deps, seen + {platform}), Items(deps);
    var f := FirstFailing(deps, platform);
    StepsAreRaised(deps, seen, platform);
    if f < |items| {
      FailsAnyway(alone, later, items, seen, platform);
    } else {
      assert alone[..f] == alone;
      if Texts(alone) == [] {
        NothingKept(alone, later);
      } else {
        SameContentsIff(alone, later);
        PipCorner(deps, seen, platform);
      }
      assert later == alone <==> forall k | 0 <= k < |items| :: !LeaksBy(items[k], seen, platform);
    }
  }

  lemma StepsAreRaised(deps: seq<Node>, seen: set<string>, platform: string)
    ensures var alone, later, items := Steps(deps, {platform}), Steps(deps, seen + {platform}), Items(deps);
            && AllRaised(alone, later) && |items| == |alone|
            && forall k | 0 <= k < |items| ::
                 && (later[k] == alone[k] <==> !LeaksBy(items[k], seen, platform))
                 && (LeaksBy(items[k], seen, platform) ==>
                       alone[k].piece.Skip?
                       && later[k].piece == LeakedPiece(items[k]))
  {
    hide Steps, Items, ItemStep, LeaksBy;
    StepsOfItems(deps, {platform});
    StepsOfItems(deps, seen + {platform});
    var items := Items(deps);
    forall k | 0 <= k < |items|
      ensures var alone, later := ItemStep(items[k], {platform}), ItemStep(items[k], seen + {platform});
              && Raised(alone, later) && (later == alone <==> !LeaksBy(items[k], seen, platform))
              && (LeaksBy(items[k], seen, platform) ==>
                    alone.piece.Skip?
                    && later.piece == LeakedPiece(items[k]))
    {
      OnlyEntriesLeak(items[k], seen, platform);
      LeakRaises(items[k], seen, platform);
    }
  }

  lemma FailsAnyway(alone: seq<Step>, later: seq<Step>, items: seq<Item>, seen: set<string>, platform: string)
    requires AllRaised(alone, later) && |items| == |alone|
    requires forall k | 0 <= k < |items| ::
               && (later[k] == alone[k] <==> !LeaksBy(items[k], seen, platform))
               && (LeaksBy(items[k], seen, platform) ==>
                     later[k].piece == LeakedPiece(items[k]))
    requires FirstFail(alone) < |alone|
    ensures Merged(later) == Merged(alone)
       <==> (ComplicatedLeak(items, seen, platform, FirstFail(alone)) ==> Merged(alone) == Err(ComplicatedMerge))
  {
    hide LeaksBy, FirstFail, Texts, Pips;
    var f, g := FirstFail(alone), FirstFail(later);
    assert forall k | 0 <= k < f :: alone[..f][k] == alone[k];
    assert forall k | 0 <= k < g :: later[..g][k] == later[k];
    assert Raised(alone[f], later[f]) && later[f] == alone[f];
    if ComplicatedLeak(items, seen, platform, f) {
      assert g < f && Raised(alone[g], later[g]);
    } else {
      forall k | 0 <= k < f ensures !later[k].piece.Fail? {
        assert Raised(alone[k], later[k]);
      }
      FirstFailIs(later, f);
    }
  }

  lemma NothingKept(alone: seq<Step>, later: seq<Step>)
    requires AllRaised(alone, later) && Clean(alone) && Texts(alone) == []
    ensures Merged(later) == Merged(alone) <==> later == alone
  {
    hide FirstFail, Texts, Pips;
    NoFailure(alone);
    if later != alone {
      if Clean(later) {
        NoFailure(later);
        MoreTexts(alone, later);
      } else {
        MergedOkIff(later);
        var g := FirstFail(later);
        assert later[..|later|] == later;
        assert Raised(alone[g], later[g]);
      }
    }
  }

  lemma PipCorner(deps: seq<Node>, seen: set<string>, platform: string)
    requires Clean(Steps(deps, {platform}))
    ensures var alone, later := Steps(deps, {platform}), Steps(deps, seen + {platform});
            forall k: nat :: PipAt(alone, later, k) <==> LeakedPipLast(Items(deps), seen, platform, k)
  {
    hide Steps, Items, ItemStep, Adds, LeaksBy, Texts, Pips, Fails;
    var alone, later, items := Steps(deps, {platform}), Steps(deps, seen + {platform}), Items(deps);
    StepsAreRaised(deps, seen, platform);
    StepsOfItems(deps, {platform});
    forall j | 0 <= j < |items|
      ensures alone[j].piece.Keep? <==> Adds(items[j], {platform})
      ensures alone[j].piece.Pip? <==> items[j].Entry? && items[j].key == "pip"
    {
      ItemStepIs(items[j], {platform});
    }
    TextsNoneIff(alone);
    TextIn(alone, "pip");
    forall k: nat | k < |items| ensures PipAt(alone, later, k) <==> LeakedPipLast(items, seen, platform, k) {
    }
  }

  lemma {:induction false} TextIn(steps: seq<Step>, text: string)
    ensures text in Texts(steps) <==> exists k | 0 <= k < |steps| :: steps[k].piece == Keep(text)
  {
    if steps == [] {
    } else {
      var n := |steps| - 1;
      TextIn(steps[..n], text);
      assert forall k | 0 <= k < n :: steps[..n][k] == steps[k];
    }
  }
}
