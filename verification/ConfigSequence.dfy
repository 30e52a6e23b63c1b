/**
 Editing of list values in the rc file (micromamba/src/config.cpp): `config append`,
 `config prepend` and `config remove`.
 */
module ConfigSequence {
  import opened Outcomes
  import opened Strings
  import opened Lists

  /** A value of the rc file; Scalar stands for everything that is not a list. */
  datatype Yaml = Scalar(text: string) | Sequence(items: seq<string>)

  type Rc = map<string, Yaml>

  datatype AddType = Append | Prepend

  datatype Error = InvalidSequence | BadConversion | MissingArgument

  // ---------- What the commands mean ----------

  /** The elements of `xs` that are not in `drop`, in their order. */
  function Without(xs: seq<string>, drop: seq<string>): seq<string> {
    if xs == [] then [] else (if xs[0] in drop then [] else [xs[0]]) + Without(xs[1..], drop)
  }

  function Insert(existing: seq<string>, values: seq<string>, opt: AddType): seq<string> {
    if opt == Append then Without(existing, values) + values else values + Without(existing, values)
  }

  function SetOne(rc: Rc, key: string, values: seq<string>, opt: AddType): Result<Rc, Error> {
    if key !in rc then Ok(rc[key := Sequence(values)])
    else if rc[key].Scalar? then Err(BadConversion)
    else Ok(rc[key := Sequence(Insert(rc[key].items, values, opt))])
  }

  /** What the configuration schema says of the `key value` pairs; the code behind it is not modelled. */
  datatype Schema = Schema(valid: (string, string) -> bool, parse: string -> seq<string>)

  function SetAll(rc: Rc, specs: seq<(string, string)>, schema: Schema, opt: AddType): Result<Rc, Error>
    decreases |specs|
  {
    if specs == [] then Ok(rc)
    else if !schema.valid(specs[0].0, specs[0].1) then Err(InvalidSequence)
    else
      match SetOne(rc, specs[0].0, schema.parse(specs[0].1), opt)
      case Err(e) => Err(e)
      case Ok(next) => SetAll(next, specs[1..], schema, opt)
  }

  function RemoveOne(rc: Rc, key: string, v: string): Rc {
    if key !in rc || rc[key].Scalar? then rc
    else if rc[key].items == [v] then rc - {key}
    else rc[key := Sequence(RemoveFirst(rc[key].items, v))]
  }

  // ---------- The commands, step by step ----------

  /** The backwards erase loop: for each new value, every existing copy goes. */
  method EraseExisting(existing: seq<string>, values: seq<string>) returns (kept: seq<string>)
    ensures kept == Without(existing, values)
  {
    hide Without;
    kept := existing;
    WithoutNothing(existing);
    for n := 0 to |values|
      invariant kept == Without(existing, values[..n])
    {
      var v, before, pos := values[n], kept, |kept| - 1;
      WithoutSuffix(before, v);
      while 0 <= pos
        invariant -1 <= pos < |before|
        invariant kept == before[..pos + 1] + Without(before[pos + 1..], [v])
      {
        WithoutStep(before, pos, v);
        if kept[pos] == v {
          kept := kept[..pos] + kept[pos + 1..];
        }
        pos := pos - 1;
      }
      assert before[0..] == before && before[..0] == [];
      WithoutTwice(existing, values[..n], [v]);
      assert values[..n] + [v] == values[..n + 1];
    }
    assert values[..|values|] == values;
  }

  lemma WithoutSuffix(xs: seq<string>, v: string)
    ensures xs == xs[..|xs|] + Without(xs[|xs|..], [v])
  {}

  lemma WithoutStep(xs: seq<string>, i: nat, v: string)
    requires i < |xs|
    ensures Without(xs[i..], [v]) == (if xs[i] == v then [] else [xs[i]]) + Without(xs[i + 1..], [v])
  {
    assert xs[i..][1..] == xs[i + 1..];
  }

  class RcFile {
    var node: Rc

    constructor (node: Rc)
      ensures this.node == node
    {
      this.node := node;
    }

    /** All the pairs are applied to a copy, which replaces the file only if none of them fails. */
    method SetSequences(specs: seq<(string, string)>, schema: Schema, opt: AddType)
      returns (r: Result<(), Error>)
      modifies this
      ensures var all := SetAll(old(node), specs, schema, opt);
              if all.Ok? then r == Ok(()) && node == all.value else r == Err(all.error) && node == old(node)
    {
      var copy := node;
      for n := 0 to |specs|
        invariant node == old(node)
        invariant SetAll(copy, specs[n..], schema, opt) == SetAll(node, specs, schema, opt)
      {
        var (key, value) := specs[n];
        assert specs[n..][1..] == specs[n + 1..];
        if !schema.valid(key, value) {
          return Err(InvalidSequence);
        }
        var values := schema.parse(value);
        if key in copy {
          if copy[key].Scalar? {
            return Err(BadConversion);
          }
          var existing := EraseExisting(copy[key].items, values);
          if opt == Append {
            existing := existing + values;
          } else {
            existing := values + existing;
          }
          copy := copy[key := Sequence(existing)];
        } else {
          copy := copy[key := Sequence(values)];
        }
      }
      node := copy;
      return Ok(());
    }

    /** `config remove key value`: the answer says whether something was taken out. */
    method Remove(args: seq<string>) returns (r: Result<bool, Error>)
      modifies this
      ensures |args| < 2 ==> r == Err(MissingArgument) && node == old(node)
      ensures |args| > 2 ==> r == Ok(false) && node == old(node)
      ensures |args| == 2 ==> node == RemoveOne(old(node), args[0], args[1])
      ensures |args| == 2 ==> r == Ok(args[0] in old(node) && old(node)[args[0]].Sequence?
                                      && args[1] in old(node)[args[0]].items)
    {
      if |args| < 2 {
        return Err(MissingArgument);
      }
      if |args| > 2 {
        return Ok(false);
      }
      var key, v := args[0], args[1];
      if key !in node || node[key].Scalar? {
        return Ok(false);
      }
      var items := node[key].items;
      for i := 0 to |items|
        invariant node == old(node)
        invariant forall k | 0 <= k < i :: items[k] != v
      {
        if |items| == 1 && items[i] == v {
          node := node - {key};
          return Ok(true);
        } else if items[i] == v {
          RemoveFirstAt(items, v, i);
          node := node[key := Sequence(items[..i] + items[i + 1..])];
          return Ok(true);
        }
      }
      RemoveFirstAbsent(items, v);
      assert node == node[key := Sequence(items)];
      return Ok(false);
    }
  }

  // ---------- Laws of insertion ----------

  lemma WithoutNothing(xs: seq<string>)
    ensures Without(xs, []) == xs
  {}

  lemma WithoutTwice(xs: seq<string>, a: seq<string>, b: seq<string>)
    ensures Without(Without(xs, a), b) == Without(xs, a + b)
  {
    if xs != [] {
      WithoutConcat(if xs[0] in a then [] else [xs[0]], Without(xs[1..], a), b);
    }
  }

  lemma WithoutConcat(xs: seq<string>, ys: seq<string>, drop: seq<string>)
    ensures Without(xs + ys, drop) == Without(xs, drop) + Without(ys, drop)
  {
    if xs == [] {
      assert [] + ys == ys;
    } else {
      assert (xs + ys)[1..] == xs[1..] + ys;
      WithoutConcat(xs[1..], ys, drop);
    }
  }

  /** Only membership in the second list matters. */
  lemma WithoutSame(xs: seq<string>, a: seq<string>, b: seq<string>)
    requires forall x | x in xs :: x in a <==> x in b
    ensures Without(xs, a) == Without(xs, b)
  {
    if xs != [] {
      assert forall x | x in xs[1..] :: x in xs;
    }
  }

  lemma WithoutAll(xs: seq<string>, a: seq<string>)
    requires forall x | x in xs :: x in a
    ensures Without(xs, a) == []
  {
    if xs != [] {
      assert forall x | x in xs[1..] :: x in xs;
    }
  }

  /** How often each element survives. */
  lemma {:induction false} WithoutCount(xs: seq<string>, drop: seq<string>, x: string)
    ensures multiset(Without(xs, drop))[x] == if x in drop then 0 else multiset(xs)[x]
  {
    if xs == [] {
    } else {
      assert xs == [xs[0]] + xs[1..];
      WithoutCount(xs[1..], drop, x);
    }
  }

  lemma WithoutMember(xs: seq<string>, drop: seq<string>, x: string)
    ensures x in Without(xs, drop) <==> x in xs && x !in drop
  {
    WithoutCount(xs, drop, x);
    assert x in Without(xs, drop) <==> x in multiset(Without(xs, drop));
    assert x in xs <==> x in multiset(xs);
  }

  /** Nothing is lost but the old copies: each new value appears as often as it was given. */
  lemma InsertCount(existing: seq<string>, values: seq<string>, opt: AddType, x: string)
    ensures multiset(Insert(existing, values, opt))[x]
         == if x in values then multiset(values)[x] else multiset(existing)[x]
  {
    WithoutCount(existing, values, x);
    assert x in values <==> x in multiset(values);
  }

  /** Adding the same values again changes nothing. */
  lemma InsertIdempotent(existing: seq<string>, values: seq<string>, opt: AddType)
    ensures Insert(Insert(existing, values, opt), values, opt) == Insert(existing, values, opt)
  {
    hide Without;
    var rest := Without(existing, values);
    WithoutAll(values, values);
    WithoutTwice(existing, values, values);
    WithoutSame(existing, values + values, values);
    WithoutConcat(rest, values, values);
    WithoutConcat(values, rest, values);
  }

  lemma DroppedByEither(e: seq<string>, a: seq<string>, b: seq<string>)
    ensures Without(e, Without(a, b) + b) == Without(e, a + b)
    ensures Without(e, b + Without(a, b)) == Without(e, a + b)
  {
    forall x ensures x in Without(a, b) <==> x in a && x !in b {
      WithoutMember(a, b, x);
    }
    WithoutSame(e, a + b, Without(a, b) + b);
    WithoutSame(e, a + b, b + Without(a, b));
  }

  /** Two additions at the same end are one: the later values displace their earlier copies. */
  lemma InsertTwice(e: seq<string>, a: seq<string>, b: seq<string>, opt: AddType)
    ensures Insert(Insert(e, a, opt), b, opt)
         == Insert(e, if opt == Append then Without(a, b) + b else b + Without(a, b), opt)
  {
    hide Without;
    var rest, late := Without(e, a), Without(a, b);
    DroppedByEither(e, a, b);
    WithoutTwice(e, a, b);
    if opt == Append {
      WithoutConcat(rest, a, b);
      SeqAssoc(Without(rest, b), late, b);
    } else {
      WithoutConcat(a, rest, b);
      SeqAssoc(b, late, Without(rest, b));
    }
  }

  /** Additions at opposite ends commute when they share no value. */
  lemma InsertOppositeEnds(e: seq<string>, a: seq<string>, b: seq<string>)
    requires forall x | x in a :: x !in b
    ensures Insert(Insert(e, a, Append), b, Prepend) == Insert(Insert(e, b, Prepend), a, Append)
  {
    hide Without;
    WithoutSame(a, b, []);
    WithoutSame(b, a, []);
    WithoutNothing(a);
    WithoutNothing(b);
    WithoutConcat(Without(e, a), a, b);
    WithoutConcat(b, Without(e, b), a);
    WithoutTwice(e, a, b);
    WithoutTwice(e, b, a);
    WithoutSame(e, a + b, b + a);
  }

  // ---------- No duplicates, over every run ----------

  predicate FileNoDup(rc: Rc) {
    forall key | key in rc && rc[key].Sequence? :: NoDup(rc[key].items)
  }

  /** An addition to a duplicate-free list gives one exactly when the new values have no duplicate. */
  lemma InsertNoDup(e: seq<string>, values: seq<string>, opt: AddType)
    requires NoDup(e)
    ensures NoDup(Insert(e, values, opt)) <==> NoDup(values)
  {
    NoDupCount(e);
    NoDupCount(values);
    NoDupCount(Insert(e, values, opt));
    forall x ensures multiset(Insert(e, values, opt))[x]
                  == if x in values then multiset(values)[x] else multiset(e)[x] {
      InsertCount(e, values, opt, x);
    }
    forall x | x !in values ensures multiset(values)[x] == 0 {
      assert x !in multiset(values);
    }
  }

  /**
   The help text says `remove` takes out all instances of the value. It does so exactly when there
   is at most one.
   */
  lemma RemoveTakesAllIffSingle(rc: Rc, key: string, v: string)
    requires key in rc && rc[key].Sequence?
    ensures var after := RemoveOne(rc, key, v);
            (key in after ==> v !in after[key].items) <==> multiset(rc[key].items)[v] <= 1
  {
    var items := rc[key].items;
    RemoveFirstCount(items, v, v);
    assert v in items <==> v in multiset(items);
    assert v in RemoveFirst(items, v) <==> v in multiset(RemoveFirst(items, v));
  }

  /** Two copies, one call: a copy stays. */
  lemma RemoveLeavesSecondCopy()
    ensures RemoveOne(map["channels" := Sequence(["a", "a"])], "channels", "a")
         == map["channels" := Sequence(["a"])]
  {
    assert ["a", "a"][1..] == ["a"];
  }

  /** Of a duplicate-free list, `remove` keeps everything but the value; the key goes with its last element. */
  lemma RemoveFromNoDup(rc: Rc, key: string, v: string)
    requires key in rc && rc[key].Sequence? && NoDup(rc[key].items)
    ensures var after, kept := RemoveOne(rc, key, v), Without(rc[key].items, [v]);
            if v in rc[key].items && kept == [] then after == rc - {key} else after == rc[key := Sequence(kept)]
  {
    var items := rc[key].items;
    RemoveFirstIsWithout(items, v);
    if v in items && Without(items, [v]) == [] {
      assert |RemoveFirst(items, v)| == |items| - 1 by { RemoveFirstLength(items, v); }
      assert items == [items[0]];
    }
  }

  lemma RemoveFirstIsWithout(xs: seq<string>, v: string)
    requires NoDup(xs)
    ensures RemoveFirst(xs, v) == Without(xs, [v])
  {
    if xs != [] {
      assert NoDup(xs[1..]) by {
        assert forall i | 0 <= i < |xs[1..]| :: xs[1..][i] == xs[i + 1];
      }
      if xs[0] == v {
        WithoutSame(xs[1..], [v], []);
        WithoutNothing(xs[1..]);
      }
    }
  }

  datatype Command =
    | Add(specs: seq<(string, string)>, opt: AddType)
    | Remove(key: string, value: string)

  /** The file after a series of commands; a failing addition leaves it alone. */
  function Run(rc: Rc, commands: seq<Command>, schema: Schema): Rc
    decreases |commands|
  {
    if commands == [] then rc
    else
      var next := match commands[0]
        case Add(specs, opt) => (var all := SetAll(rc, specs, schema, opt); if all.Ok? then all.value else rc)
        case Remove(key, value) => RemoveOne(rc, key, value);
      Run(next, commands[1..], schema)
  }

  predicate PlainCommand(c: Command, schema: Schema) {
    c.Add? ==> forall i | 0 <= i < |c.specs| :: NoDup(schema.parse(c.specs[i].1))
  }

  lemma SetAllNoDup(rc: Rc, specs: seq<(string, string)>, schema: Schema, opt: AddType)
    requires FileNoDup(rc) && forall i | 0 <= i < |specs| :: NoDup(schema.parse(specs[i].1))
    ensures var all := SetAll(rc, specs, schema, opt); all.Ok? ==> FileNoDup(all.value)
    decreases |specs|
  {
    if specs != [] && schema.valid(specs[0].0, specs[0].1) {
      var key, values := specs[0].0, schema.parse(specs[0].1);
      if key in rc && rc[key].Sequence? {
        InsertNoDup(rc[key].items, values, opt);
      }
      var one := SetOne(rc, key, values, opt);
      if one.Ok? {
        SetAllNoDup(one.value, specs[1..], schema, opt);
      }
    }
  }

  /** Every run of commands with duplicate-free values keeps a duplicate-free file duplicate-free. */
  lemma {:induction false} RunKeepsNoDup(rc: Rc, commands: seq<Command>, schema: Schema)
    requires FileNoDup(rc)
    requires forall i | 0 <= i < |commands| :: PlainCommand(commands[i], schema)
    ensures FileNoDup(Run(rc, commands, schema))
    decreases |commands|
  {
    if commands == [] {
    } else {
      assert PlainCommand(commands[0], schema);
      match commands[0]
      case Add(specs, opt) =>
        SetAllNoDup(rc, specs, schema, opt);
        var all := SetAll(rc, specs, schema, opt);
        RunKeepsNoDup(if all.Ok? then all.value else rc, commands[1..], schema);
      case Remove(key, value) =>
        if key in rc && rc[key].Sequence? {
          NoDupCount(rc[key].items);
          forall x ensures multiset(RemoveFirst(rc[key].items, value))[x] <= 1 {
            RemoveFirstCount(rc[key].items, value, x);
          }
          NoDupCount(RemoveFirst(rc[key].items, value));
        }
        RunKeepsNoDup(RemoveOne(rc, key, value), commands[1..], schema);
    }
  }

  /** So after any such run, `remove` does take out every instance. */
  lemma RemoveAfterRun(rc: Rc, commands: seq<Command>, schema: Schema, key: string, value: string)
    requires FileNoDup(rc)
    requires forall i | 0 <= i < |commands| :: PlainCommand(commands[i], schema)
    ensures var after := RemoveOne(Run(rc, commands, schema), key, value);
            key in after && after[key].Sequence? ==> value !in after[key].items
  {
    RunKeepsNoDup(rc, commands, schema);
    var before := Run(rc, commands, schema);
    if key in before && before[key].Sequence? {
      NoDupCount(before[key].items);
      RemoveTakesAllIffSingle(before, key, value);
    }
  }

  // ---------- The commands on a whole file ----------

  function EachKept(xs: seq<string>, drop: seq<string>): (r: seq<seq<string>>)
    ensures |r| == |xs| && forall i | 0 <= i < |xs| :: r[i] == if xs[i] in drop then [] else [xs[i]]
  {
    seq(|xs|, i requires 0 <= i < |xs| => if xs[i] in drop then [] else [xs[i]])
  }

  lemma {:induction false} WithoutAre(xs: seq<string>, drop: seq<string>)
    ensures Without(xs, drop) == Flatten(EachKept(xs, drop))
    decreases |xs|
  {
    hide Without;
    if xs == [] {
      WithoutNone(drop);
    } else {
      var n := |xs| - 1;
      WithoutAre(xs[..n], drop);
      assert xs == xs[..n] + [xs[n]];
      WithoutConcat(xs[..n], [xs[n]], drop);
      WithoutSingle(xs[n], drop);
      assert EachKept(xs, drop)[..n] == EachKept(xs[..n], drop);
    }
  }

  lemma WithoutNone(drop: seq<string>)
    ensures Without([], drop) == []
  {}

  lemma WithoutSingle(x: string, drop: seq<string>)
    ensures Without([x], drop) == if x in drop then [] else [x]
  {
    assert [x][1..] == [];
  }

  /** The new values stand together at the end, or at the front; the rest of the old list keeps its order. */
  lemma InsertPlaces(e: seq<string>, values: seq<string>)
    ensures Insert(e, values, Append) == Flatten(EachKept(e, values)) + values
    ensures Insert(e, values, Prepend) == values + Flatten(EachKept(e, values))
  {
    WithoutAre(e, values);
  }

  /** A pair that cannot be applied to the file: it is not valid, or its key holds something other than a list. */
  predicate Refused(rc: Rc, pair: (string, string), schema: Schema) {
    !schema.valid(pair.0, pair.1) || (pair.0 in rc && rc[pair.0].Scalar?)
  }

  /** All pairs are applied, or the first that is refused says why none is. */
  lemma {:induction false} SetAllOkIff(rc: Rc, specs: seq<(string, string)>, schema: Schema, opt: AddType)
    ensures SetAll(rc, specs, schema, opt).Ok? <==> forall i | 0 <= i < |specs| :: !Refused(rc, specs[i], schema)
    ensures forall i | 0 <= i < |specs| && Refused(rc, specs[i], schema)
                       && forall k | 0 <= k < i :: !Refused(rc, specs[k], schema) ::
              SetAll(rc, specs, schema, opt)
              == Err(if schema.valid(specs[i].0, specs[i].1) then BadConversion else InvalidSequence)
    decreases |specs|
  {
    hide Insert;
    if specs == [] {
    } else if !Refused(rc, specs[0], schema) {
      var rest := specs[1..];
      var next := SetOne(rc, specs[0].0, schema.parse(specs[0].1), opt).value;
      SetAllOkIff(next, rest, schema, opt);
      forall pair ensures Refused(next, pair, schema) <==> Refused(rc, pair, schema) {}
      assert forall i | 0 < i < |specs| :: specs[i] == rest[i - 1];
      assert forall i | 0 <= i < |rest| :: rest[i] == specs[i + 1];
    }
  }

  /** Only the keys of the pairs change; their lists hold what was there and what was given. */
  lemma {:induction false} SetAllHolds(rc: Rc, specs: seq<(string, string)>, schema: Schema, opt: AddType, key: string)
    requires SetAll(rc, specs, schema, opt).Ok?
    ensures var after := SetAll(rc, specs, schema, opt).value;
            var given := exists i | 0 <= i < |specs| :: specs[i].0 == key;
            && (!given ==> (key in after <==> key in rc) && (key in rc ==> after[key] == rc[key]))
            && (given ==> key in after && after[key].Sequence?)
            && (given ==> forall x :: x in after[key].items <==>
                  (key in rc && rc[key].Sequence? && x in rc[key].items)
                  || exists i | 0 <= i < |specs| :: specs[i].0 == key && x in schema.parse(specs[i].1))
    decreases |specs|
  {
    if specs == [] {
    } else {
      var rest, values := specs[1..], schema.parse(specs[0].1);
      var next := SetOne(rc, specs[0].0, values, opt).value;
      SetAllHolds(next, rest, schema, opt, key);
      assert forall i | 0 < i < |specs| :: specs[i] == rest[i - 1];
      assert forall i | 0 <= i < |rest| :: rest[i] == specs[i + 1];
      if specs[0].0 == key {
        forall x ensures x in next[key].items <==> (key in rc && x in rc[key].items) || x in values {
          if key in rc {
            InsertMember(rc[key].items, values, opt, x);
          }
        }
      }
      hide Insert;
    }
  }

  lemma InsertMember(e: seq<string>, values: seq<string>, opt: AddType, x: string)
    ensures x in Insert(e, values, opt) <==> x in e || x in values
  {
    WithoutMember(e, values, x);
  }

  /** The first pair for a new key writes its values as they are; the last pair of a key has its values at the end. */
  lemma LastPairPlaces(rc: Rc, specs: seq<(string, string)>, schema: Schema, opt: AddType)
    requires specs != [] && SetAll(rc, specs, schema, opt).Ok?
    ensures var (key, value) := specs[|specs| - 1];
            var after, values := SetAll(rc, specs, schema, opt).value, schema.parse(value);
            && key in after && after[key].Sequence? && |after[key].items| >= |values|
            && (if opt == Append then after[key].items[|after[key].items| - |values|..] == values
                else after[key].items[..|values|] == values)
  {
    var n := |specs| - 1;
    SetAllSplit(rc, specs[..n], [specs[n]], schema, opt);
    assert specs == specs[..n] + [specs[n]] && [specs[n]][1..] == [];
  }

  lemma {:induction false} SetAllSplit(rc: Rc, a: seq<(string, string)>, b: seq<(string, string)>,
                                       schema: Schema, opt: AddType)
    ensures SetAll(rc, a + b, schema, opt)
         == match SetAll(rc, a, schema, opt) { case Err(e) => Err(e) case Ok(next) => SetAll(next, b, schema, opt) }
    decreases |a|
  {
    hide SetOne;
    if a == [] {
      assert a + b == b;
    } else {
      assert (a + b)[1..] == a[1..] + b;
      var first := SetOne(rc, a[0].0, schema.parse(a[0].1), opt);
      if first.Ok? {
        SetAllSplit(first.value, a[1..], b, schema, opt);
      }
    }
  }

  /** `remove` touches nothing but the list of its key, and that only if the value is in it. */
  lemma RemoveTouchesOnly(rc: Rc, key: string, v: string)
    ensures forall other | other != key ::
              (other in RemoveOne(rc, key, v) <==> other in rc)
              && (other in rc ==> RemoveOne(rc, key, v)[other] == rc[other])
    ensures key !in rc || rc[key].Scalar? || v !in rc[key].items ==> RemoveOne(rc, key, v) == rc
  {
    if key in rc && rc[key].Sequence? && v !in rc[key].items {
      RemoveFirstAbsent(rc[key].items, v);
    }
  }
}
