/** The comparison of two Python syntax trees in compare_stubs.py, against a normal form. */
module CompareAst {
  import opened Outcomes

  datatype Field = Field(name: string, value: Value)

  /**
   A value found in a tree. Atoms are the identifiers and constants, `value` standing for Python's equality
   within one type; the fields of a node are the entries of its `vars`.
   */
  datatype Value =
    | None'
    | Atom(typ: string, value: int)
    | Node(typ: string, fields: seq<Field>)
    | List(items: seq<Value>)

  /** AttributeError: the second tree misses an attribute of the first. */
  datatype Verdict = Same | Different | AttributeError

  predicate Ignored(name: string) {
    name in {"lineno", "end_lineno", "col_offset", "end_col_offset", "ctx"}
  }

  function Lookup(fields: seq<Field>, name: string): (r: Option<Value>)
    ensures r.Some? ==> exists i :: 0 <= i < |fields| && fields[i] == Field(name, r.value)
    ensures r.None? ==> forall i | 0 <= i < |fields| :: fields[i].name != name
  {
    if fields == [] then None
    else if fields[0].name == name then Some(fields[0].value)
    else Lookup(fields[1..], name)
  }

  // ---------- The comparison ----------

  function Compare(a: Value, b: Value): Verdict
    decreases a, 1, 0
  {
    match (a, b)
    case (None', None') => Same
    case (Atom(t, v), Atom(u, w)) => if t == u && v == w then Same else Different
    case (Node(t, fs), Node(u, gs)) => if t == u then CompareFields(a, fs, gs) else Different
    case (List(xs), List(ys)) => CompareItems(a, xs, ys, 0)
    case _ => Different
  }

  /** The attributes of the first node in their order; the first that does not agree decides. */
  function CompareFields(a: Value, fs: seq<Field>, gs: seq<Field>): Verdict
    requires forall i | 0 <= i < |fs| :: fs[i].value < a
    decreases a, 0, |fs|
  {
    if fs == [] then Same
    else if Ignored(fs[0].name) then CompareFields(a, fs[1..], gs)
    else
      var other := Lookup(gs, fs[0].name);
      if other.None? then AttributeError
      else
        var verdict := Compare(fs[0].value, other.value);
        if verdict == Same then CompareFields(a, fs[1..], gs) else verdict
  }

  /** zip_longest: the shorter list goes on with None. */
  function CompareItems(a: Value, xs: seq<Value>, ys: seq<Value>, i: nat): Verdict
    requires forall k | 0 <= k < |xs| :: xs[k] < a
    decreases a, 0, |xs| + |ys| - i
  {
    if i >= |xs| && i >= |ys| then Same
    else
      var verdict := CompareAt(a, xs, ys, i);
      if verdict == Same then CompareItems(a, xs, ys, i + 1) else verdict
  }

  function CompareAt(a: Value, xs: seq<Value>, ys: seq<Value>, i: nat): Verdict
    requires forall k | 0 <= k < |xs| :: xs[k] < a
    decreases a, 0, 0, 0
  {
    if i < |xs| then Compare(xs[i], if i < |ys| then ys[i] else None')
    else if i < |ys| && ys[i] != None' then Different
    else Same
  }

  // ---------- Normal forms ----------

  /** Trees without positions and contexts, whose lists do not end in None. */
  datatype Norm =
    | NNone
    | NAtom(typ: string, value: int)
    | NNode(typ: string, fields: map<string, Norm>)
    | NList(items: seq<Norm>)

  function Normalize(v: Value): Norm
    decreases v, 1, 0
  {
    match v
    case None' => NNone
    case Atom(t, n) => NAtom(t, n)
    case Node(t, fs) => NNode(t, NormFields(v, fs))
    case List(xs) => NList(Trim(NormItems(v, xs)))
  }

  function NormFields(v: Value, fs: seq<Field>): map<string, Norm>
    requires forall i | 0 <= i < |fs| :: fs[i].value < v
    decreases v, 0, |fs|
  {
    if fs == [] then map[]
    else
      var n := |fs| - 1;
      var before := NormFields(v, fs[..n]);
      if Ignored(fs[n].name) then before else before[fs[n].name := Normalize(fs[n].value)]
  }

  function NormItems(v: Value, xs: seq<Value>): (r: seq<Norm>)
    requires forall i | 0 <= i < |xs| :: xs[i] < v
    ensures |r| == |xs| && forall i | 0 <= i < |xs| :: r[i] == Normalize(xs[i])
    decreases v, 0, |xs|
  {
    if xs == [] then [] else NormItems(v, xs[..|xs| - 1]) + [Normalize(xs[|xs| - 1])]
  }

  function Trim(xs: seq<Norm>): seq<Norm> {
    if xs != [] && xs[|xs| - 1] == NNone then Trim(xs[..|xs| - 1]) else xs
  }

  function At(xs: seq<Norm>, i: nat): Norm {
    if i < |xs| then xs[i] else NNone
  }

  lemma {:induction false} TrimKeeps(xs: seq<Norm>, i: nat)
    ensures At(Trim(xs), i) == At(xs, i)
    decreases |xs|
  {
    if xs != [] && xs[|xs| - 1] == NNone {
      TrimKeeps(xs[..|xs| - 1], i);
    }
  }

  lemma TrimEnds(xs: seq<Norm>)
    ensures var t := Trim(xs); t == [] || t[|t| - 1] != NNone
  {}

  /** Two lists trim to the same exactly when they agree once they are continued with None. */
  lemma TrimIff(xs: seq<Norm>, ys: seq<Norm>)
    ensures Trim(xs) == Trim(ys) <==> forall i: nat :: At(xs, i) == At(ys, i)
  {
    var s, t := Trim(xs), Trim(ys);
    forall i: nat ensures At(s, i) == At(xs, i) && At(t, i) == At(ys, i) {
      TrimKeeps(xs, i);
      TrimKeeps(ys, i);
    }
    if forall i: nat :: At(xs, i) == At(ys, i) {
      TrimEnds(xs);
      TrimEnds(ys);
      forall i: nat ensures At(s, i) == At(t, i) {
        assert At(xs, i) == At(ys, i);
      }
      assert |t| > 0 ==> At(s, |t| - 1) == At(t, |t| - 1);
      assert |s| > 0 ==> At(s, |s| - 1) == At(t, |s| - 1);
      forall i | 0 <= i < |s| ensures s[i] == t[i] {
        assert At(s, i) == At(t, i);
      }
    } else {
      var i: nat :| At(xs, i) != At(ys, i);
      assert At(s, i) != At(t, i);
    }
  }

  // ---------- Trees of one grammar ----------

  /** Which attributes the nodes of a type have. */
  type Grammar = string -> set<string>

  function FieldNames(fs: seq<Field>): set<string> {
    set i | 0 <= i < |fs| :: fs[i].name
  }

  predicate Distinct(fs: seq<Field>) {
    forall i, j | 0 <= i < j < |fs| :: fs[i].name != fs[j].name
  }

  /** Every node has exactly the attributes of its type. */
  predicate Conforms(v: Value, g: Grammar)
    decreases v
  {
    match v
    case None' => true
    case Atom(_, _) => true
    case Node(t, fs) =>
      Distinct(fs) && FieldNames(fs) == g(t) && forall i | 0 <= i < |fs| :: Conforms(fs[i].value, g)
    case List(xs) => forall i | 0 <= i < |xs| :: Conforms(xs[i], g)
  }

  lemma LookupFinds(fs: seq<Field>, i: nat)
    requires Distinct(fs) && i < |fs|
    ensures Lookup(fs, fs[i].name) == Some(fs[i].value)
  {}

  lemma FieldNamesStep(fs: seq<Field>)
    requires fs != []
    ensures FieldNames(fs) == FieldNames(fs[..|fs| - 1]) + {fs[|fs| - 1].name}
  {
    var n := |fs| - 1;
    forall name | name in FieldNames(fs) ensures name in FieldNames(fs[..n]) || name == fs[n].name {
      var i :| 0 <= i < |fs| && fs[i].name == name;
      assert i < n ==> fs[..n][i].name == name;
    }
    forall name | name in FieldNames(fs[..n]) ensures name in FieldNames(fs) {
      var i :| 0 <= i < n && fs[..n][i].name == name;
      assert fs[i].name == name;
    }
  }

  lemma {:induction false} NormFieldsAre(v: Value, fs: seq<Field>)
    requires Distinct(fs) && forall i | 0 <= i < |fs| :: fs[i].value < v
    ensures forall name :: name in NormFields(v, fs) <==> name in FieldNames(fs) && !Ignored(name)
    ensures forall i | 0 <= i < |fs| && !Ignored(fs[i].name) :: NormFields(v, fs)[fs[i].name] == Normalize(fs[i].value)
    decreases |fs|
  {
    hide Normalize, Ignored;
    if fs == [] {
      assert FieldNames(fs) == {};
    } else {
      var n := |fs| - 1;
      NormFieldsAre(v, fs[..n]);
      FieldNamesStep(fs);
      hide FieldNames;
    }
  }

  /** The attributes agree: none is missing, and the kept ones compare as the same. */
  ghost predicate FieldsAgree(fs: seq<Field>, gs: seq<Field>) {
    forall i | 0 <= i < |fs| && !Ignored(fs[i].name) ::
      Lookup(gs, fs[i].name).Some? && Compare(fs[i].value, Lookup(gs, fs[i].name).value) == Same
  }

  lemma {:induction false} CompareFieldsIff(a: Value, fs: seq<Field>, gs: seq<Field>)
    requires forall i | 0 <= i < |fs| :: fs[i].value < a
    ensures CompareFields(a, fs, gs) == Same <==> FieldsAgree(fs, gs)
    ensures (forall i | 0 <= i < |fs| && !Ignored(fs[i].name) ::
               Lookup(gs, fs[i].name).Some? && Compare(fs[i].value, Lookup(gs, fs[i].name).value) != AttributeError)
            ==> CompareFields(a, fs, gs) != AttributeError
    decreases |fs|
  {
    hide Compare, Lookup, Ignored;
    if fs == [] {
    } else {
      CompareFieldsIff(a, fs[1..], gs);
      assert forall i | 1 <= i < |fs| :: fs[i] == fs[1..][i - 1];
      assert FieldsAgree(fs, gs) <==>
             (Ignored(fs[0].name) || (Lookup(gs, fs[0].name).Some?
                                      && Compare(fs[0].value, Lookup(gs, fs[0].name).value) == Same))
             && FieldsAgree(fs[1..], gs);
    }
  }

  ghost predicate ItemsAgree(a: Value, xs: seq<Value>, ys: seq<Value>, i: nat)
    requires forall k | 0 <= k < |xs| :: xs[k] < a
  {
    forall k: nat | k >= i :: CompareAt(a, xs, ys, k) == Same
  }

  lemma ItemsAgreeStep(a: Value, xs: seq<Value>, ys: seq<Value>, i: nat)
    requires forall k | 0 <= k < |xs| :: xs[k] < a
    ensures ItemsAgree(a, xs, ys, i) <==> CompareAt(a, xs, ys, i) == Same && ItemsAgree(a, xs, ys, i + 1)
  {
    hide CompareAt;
    if CompareAt(a, xs, ys, i) == Same && ItemsAgree(a, xs, ys, i + 1) {
      forall k: nat | k >= i ensures CompareAt(a, xs, ys, k) == Same {
        assert k == i || k >= i + 1;
      }
    }
  }

  lemma {:induction false} CompareItemsIff(a: Value, xs: seq<Value>, ys: seq<Value>, i: nat)
    requires forall k | 0 <= k < |xs| :: xs[k] < a
    ensures CompareItems(a, xs, ys, i) == Same <==> ItemsAgree(a, xs, ys, i)
    ensures (forall k: nat | k >= i :: CompareAt(a, xs, ys, k) != AttributeError)
            ==> CompareItems(a, xs, ys, i) != AttributeError
    decreases |xs| + |ys| - i
  {
    if i < |xs| || i < |ys| {
      hide CompareAt;
      CompareItemsIff(a, xs, ys, i + 1);
      ItemsAgreeStep(a, xs, ys, i);
    }
  }

  // ---------- The theorem ----------

  lemma NodesIff(a: Value, b: Value, g: Grammar)
    requires a.Node? && b.Node? && a.typ == b.typ && Conforms(a, g) && Conforms(b, g)
    requires forall i | 0 <= i < |a.fields| :: AgreesWithNormal(a.fields[i].value, g)
    ensures Compare(a, b) != AttributeError && (Compare(a, b) == Same <==> Normalize(a) == Normalize(b))
  {
    var fs, gs := a.fields, b.fields;
    forall i | 0 <= i < |fs| ensures SameAsField(fs[i], gs, g) {
      assert AgreesWithNormal(fs[i].value, g);
      assert fs[i].name in FieldNames(fs) && FieldNames(fs) == FieldNames(gs);
      var j :| 0 <= j < |gs| && gs[j].name == fs[i].name;
      LookupFinds(gs, j);
    }
    CompareFieldsIff(a, fs, gs);
    FieldsIff(a, b, g);
  }

  /** What the induction gives for a smaller first tree. */
  ghost predicate AgreesWithNormal(a: Value, g: Grammar) {
    Conforms(a, g) && forall b | Conforms(b, g) ::
      Compare(a, b) != AttributeError && (Compare(a, b) == Same <==> Normalize(a) == Normalize(b))
  }

  ghost predicate SameAsField(f: Field, gs: seq<Field>, g: Grammar) {
    var other := Lookup(gs, f.name);
    && other.Some? && Conforms(other.value, g)
    && Compare(f.value, other.value) != AttributeError
    && (Compare(f.value, other.value) == Same <==> Normalize(f.value) == Normalize(other.value))
  }

  lemma SameFieldNames(a: Value, b: Value, g: Grammar)
    requires a.Node? && b.Node? && Conforms(a, g) && Conforms(b, g) && a.typ == b.typ
    ensures FieldNames(a.fields) == FieldNames(b.fields) && Distinct(a.fields) && Distinct(b.fields)
  {}

  lemma FieldsIff(a: Value, b: Value, g: Grammar)
    requires a.Node? && b.Node? && Conforms(a, g) && Conforms(b, g) && a.typ == b.typ
    requires forall i | 0 <= i < |a.fields| :: SameAsField(a.fields[i], b.fields, g)
    ensures FieldsAgree(a.fields, b.fields) <==> NormFields(a, a.fields) == NormFields(b, b.fields)
  {
    hide Compare, Normalize, NormFields, Ignored;
    var fs, gs := a.fields, b.fields;
    SameFieldNames(a, b, g);
    NormFieldsAre(a, fs);
    NormFieldsAre(b, gs);
    var m, n := NormFields(a, fs), NormFields(b, gs);
    assert m.Keys == n.Keys;
    forall i | 0 <= i < |fs| && !Ignored(fs[i].name)
      ensures m[fs[i].name] == n[fs[i].name] <==> Compare(fs[i].value, Lookup(gs, fs[i].name).value) == Same
    {
      assert SameAsField(fs[i], gs, g);
      var j :| 0 <= j < |gs| && gs[j] == Field(fs[i].name, Lookup(gs, fs[i].name).value);
    }
    if FieldsAgree(fs, gs) {
      forall name | name in m ensures m[name] == n[name] {
        var i :| 0 <= i < |fs| && fs[i].name == name;
      }
    }
  }

  lemma ListsIff(a: Value, b: Value, g: Grammar)
    requires a.List? && b.List? && Conforms(b, g)
    requires forall i | 0 <= i < |a.items| :: AgreesWithNormal(a.items[i], g)
    ensures Compare(a, b) != AttributeError && (Compare(a, b) == Same <==> Normalize(a) == Normalize(b))
  {
    var xs, ys := a.items, b.items;
    var ns, ms := NormItems(a, xs), NormItems(b, ys);
    forall k: nat
      ensures CompareAt(a, xs, ys, k) != AttributeError
              && (CompareAt(a, xs, ys, k) == Same <==> At(ns, k) == At(ms, k))
    {
      ItemIff(a, b, g, k);
    }
    hide CompareAt, At, Trim, CompareItems;
    CompareItemsIff(a, xs, ys, 0);
    TrimIff(ns, ms);
    if Trim(ns) == Trim(ms) {
      forall k: nat ensures CompareAt(a, xs, ys, k) == Same {
        assert At(ns, k) == At(ms, k);
      }
    } else {
      var k: nat :| At(ns, k) != At(ms, k);
      assert CompareAt(a, xs, ys, k) != Same;
    }
  }

  lemma ItemIff(a: Value, b: Value, g: Grammar, k: nat)
    requires a.List? && b.List? && Conforms(b, g)
    requires forall i | 0 <= i < |a.items| :: AgreesWithNormal(a.items[i], g)
    ensures var verdict := CompareAt(a, a.items, b.items, k);
            && verdict != AttributeError
            && (verdict == Same <==> At(NormItems(a, a.items), k) == At(NormItems(b, b.items), k))
  {
    if k < |a.items| {
      assert AgreesWithNormal(a.items[k], g);
      assert Conforms(if k < |b.items| then b.items[k] else None', g);
    } else if k < |b.items| {
      assert Normalize(b.items[k]) == NNone <==> b.items[k] == None';
    }
  }

  lemma {:induction false} TreeAgrees(a: Value, g: Grammar)
    requires Conforms(a, g)
    ensures AgreesWithNormal(a, g)
    decreases a
  {
    match a
    case None' =>
    case Atom(_, _) =>
    case Node(t, fs) =>
      forall i | 0 <= i < |fs| ensures AgreesWithNormal(fs[i].value, g) {
        TreeAgrees(fs[i].value, g);
      }
      forall b | Conforms(b, g)
        ensures Compare(a, b) != AttributeError && (Compare(a, b) == Same <==> Normalize(a) == Normalize(b))
      {
        if b.Node? && b.typ == t {
          NodesIff(a, b, g);
        }
      }
    case List(xs) =>
      forall i | 0 <= i < |xs| ensures AgreesWithNormal(xs[i], g) {
        TreeAgrees(xs[i], g);
      }
      forall b | Conforms(b, g)
        ensures Compare(a, b) != AttributeError && (Compare(a, b) == Same <==> Normalize(a) == Normalize(b))
      {
        if b.List? {
          ListsIff(a, b, g);
        }
      }
  }

  /** Two trees of one grammar compare as the same exactly when their normal forms are equal. */
  lemma CompareIffNormal(a: Value, b: Value, g: Grammar)
    requires Conforms(a, g) && Conforms(b, g)
    ensures Compare(a, b) != AttributeError
    ensures Compare(a, b) == Same <==> Normalize(a) == Normalize(b)
  {
    TreeAgrees(a, g);
  }

  /** So the comparison is an equivalence on the trees of a grammar. */
  lemma CompareIsEquivalence(a: Value, b: Value, c: Value, g: Grammar)
    requires Conforms(a, g) && Conforms(b, g) && Conforms(c, g)
    ensures Compare(a, a) == Same
    ensures Compare(a, b) == Same ==> Compare(b, a) == Same
    ensures Compare(a, b) == Same && Compare(b, c) == Same ==> Compare(a, c) == Same
  {
    CompareIffNormal(a, a, g);
    CompareIffNormal(a, b, g);
    CompareIffNormal(b, a, g);
    CompareIffNormal(b, c, g);
    CompareIffNormal(a, c, g);
  }

  // ---------- Without a grammar ----------

  /** No node has an attribute twice. */
  predicate WellFormed(v: Value)
    decreases v
  {
    match v
    case None' => true
    case Atom(_, _) => true
    case Node(_, fs) => Distinct(fs) && forall i | 0 <= i < |fs| :: WellFormed(fs[i].value)
    case List(xs) => forall i | 0 <= i < |xs| :: WellFormed(xs[i])
  }

  predicate BothWays(a: Value, b: Value) {
    Compare(a, b) == Same && Compare(b, a) == Same
  }

  /** What the induction gives for a smaller first tree. */
  ghost predicate MutualWithNormal(a: Value) {
    forall b | WellFormed(b) :: BothWays(a, b) <==> Normalize(a) == Normalize(b)
  }

  lemma FieldsBothWays(a: Value, b: Value)
    requires a.Node? && b.Node? && WellFormed(a) && WellFormed(b)
    requires forall i | 0 <= i < |a.fields| :: MutualWithNormal(a.fields[i].value)
    requires FieldsAgree(a.fields, b.fields) && FieldsAgree(b.fields, a.fields)
    ensures NormFields(a, a.fields) == NormFields(b, b.fields)
  {
    hide Compare, Normalize, NormFields, Ignored, WellFormed, MutualWithNormal, FieldsAgree, Distinct;
    PartsWellFormed(a);
    PartsWellFormed(b);
    AgreeKeys(a, b);
    AgreeKeys(b, a);
    var m, n := NormFields(a, a.fields), NormFields(b, b.fields);
    forall name | name in m ensures m[name] == n[name] {
      var i := FieldOf(a, name);
      FieldBothWays(a, b, i);
    }
  }

  lemma FieldOf(a: Value, name: string) returns (i: nat)
    requires a.Node? && Distinct(a.fields) && name in NormFields(a, a.fields)
    ensures i < |a.fields| && a.fields[i].name == name && !Ignored(name)
  {
    hide Normalize, NormFields, Ignored;
    NormFieldsAre(a, a.fields);
    i :| 0 <= i < |a.fields| && a.fields[i].name == name;
  }

  lemma FieldBothWays(a: Value, b: Value, i: nat)
    requires a.Node? && b.Node? && WellFormed(a) && WellFormed(b) && i < |a.fields| && !Ignored(a.fields[i].name)
    requires MutualWithNormal(a.fields[i].value)
    requires FieldsAgree(a.fields, b.fields) && FieldsAgree(b.fields, a.fields)
    ensures var name := a.fields[i].name;
            && name in NormFields(a, a.fields) && name in NormFields(b, b.fields)
            && NormFields(a, a.fields)[name] == NormFields(b, b.fields)[name]
  {
    hide Compare, Normalize, NormFields, Ignored, WellFormed;
    var fs, gs := a.fields, b.fields;
    PartsWellFormed(a);
    PartsWellFormed(b);
    NormFieldsAre(a, fs);
    NormFieldsAre(b, gs);
    var other := Lookup(gs, fs[i].name).value;
    var j :| 0 <= j < |gs| && gs[j] == Field(fs[i].name, other);
    LookupFinds(fs, i);
    assert BothWays(fs[i].value, other);
  }

  lemma AgreeKeys(a: Value, b: Value)
    requires a.Node? && b.Node? && Distinct(a.fields) && Distinct(b.fields) && FieldsAgree(a.fields, b.fields)
    ensures NormFields(a, a.fields).Keys <= NormFields(b, b.fields).Keys
  {
    hide Compare, NormFields, Ignored;
    NormFieldsAre(a, a.fields);
    NormFieldsAre(b, b.fields);
    forall name | name in NormFields(a, a.fields) ensures name in FieldNames(b.fields) {
      var i :| 0 <= i < |a.fields| && a.fields[i].name == name;
    }
  }

  lemma PartsWellFormed(v: Value)
    requires WellFormed(v)
    ensures v.Node? ==> Distinct(v.fields) && forall i | 0 <= i < |v.fields| :: WellFormed(v.fields[i].value)
  {}

  lemma NormalFieldsAgree(a: Value, b: Value)
    requires a.Node? && b.Node? && WellFormed(a) && WellFormed(b)
    requires forall i | 0 <= i < |a.fields| :: MutualWithNormal(a.fields[i].value)
    requires NormFields(a, a.fields) == NormFields(b, b.fields)
    ensures FieldsAgree(a.fields, b.fields) && FieldsAgree(b.fields, a.fields)
  {
    hide Compare, Normalize, NormFields, Ignored, WellFormed;
    var fs, gs := a.fields, b.fields;
    PartsWellFormed(a);
    PartsWellFormed(b);
    NormFieldsAre(a, fs);
    NormFieldsAre(b, gs);
    var m, n := NormFields(a, fs), NormFields(b, gs);
    forall i, j | 0 <= i < |fs| && 0 <= j < |gs| && fs[i].name == gs[j].name && !Ignored(fs[i].name)
      ensures Lookup(gs, fs[i].name) == Some(gs[j].value) && Lookup(fs, gs[j].name) == Some(fs[i].value)
      ensures BothWays(fs[i].value, gs[j].value)
    {
      LookupFinds(fs, i);
      LookupFinds(gs, j);
      assert MutualWithNormal(fs[i].value) && m[fs[i].name] == n[gs[j].name];
    }
    forall i | 0 <= i < |fs| && !Ignored(fs[i].name) ensures exists j :: 0 <= j < |gs| && gs[j].name == fs[i].name {
      assert fs[i].name in m && fs[i].name in n;
    }
    forall j | 0 <= j < |gs| && !Ignored(gs[j].name) ensures exists i :: 0 <= i < |fs| && fs[i].name == gs[j].name {
      assert gs[j].name in n && gs[j].name in m;
    }
  }

  lemma NodesBothWays(a: Value, b: Value)
    requires a.Node? && b.Node? && a.typ == b.typ && WellFormed(a) && WellFormed(b)
    requires forall i | 0 <= i < |a.fields| :: MutualWithNormal(a.fields[i].value)
    ensures BothWays(a, b) <==> Normalize(a) == Normalize(b)
  {
    hide NormFields, CompareFields, FieldsAgree, WellFormed, MutualWithNormal;
    CompareFieldsIff(a, a.fields, b.fields);
    CompareFieldsIff(b, b.fields, a.fields);
    if BothWays(a, b) {
      FieldsBothWays(a, b);
    }
    if Normalize(a) == Normalize(b) {
      NormalFieldsAgree(a, b);
    }
  }

  lemma ListsBothWays(a: Value, b: Value)
    requires a.List? && b.List? && WellFormed(b)
    requires forall i | 0 <= i < |a.items| :: MutualWithNormal(a.items[i])
    ensures BothWays(a, b) <==> Normalize(a) == Normalize(b)
  {
    var xs, ys := a.items, b.items;
    var ns, ms := NormItems(a, xs), NormItems(b, ys);
    forall k: nat
      ensures CompareAt(a, xs, ys, k) == Same && CompareAt(b, ys, xs, k) == Same <==> At(ns, k) == At(ms, k)
    {
      ItemBothWays(a, b, k);
    }
    hide CompareAt, At, Trim, CompareItems;
    CompareItemsIff(a, xs, ys, 0);
    CompareItemsIff(b, ys, xs, 0);
    TrimIff(ns, ms);
    if Trim(ns) == Trim(ms) {
      forall k: nat ensures CompareAt(a, xs, ys, k) == Same && CompareAt(b, ys, xs, k) == Same {
        assert At(ns, k) == At(ms, k);
      }
    } else {
      var k: nat :| At(ns, k) != At(ms, k);
      assert !(CompareAt(a, xs, ys, k) == Same && CompareAt(b, ys, xs, k) == Same);
    }
  }

  lemma ItemBothWays(a: Value, b: Value, k: nat)
    requires a.List? && b.List? && WellFormed(b)
    requires forall i | 0 <= i < |a.items| :: MutualWithNormal(a.items[i])
    ensures CompareAt(a, a.items, b.items, k) == Same && CompareAt(b, b.items, a.items, k) == Same
       <==> At(NormItems(a, a.items), k) == At(NormItems(b, b.items), k)
  {
    if k < |a.items| && k < |b.items| {
      assert MutualWithNormal(a.items[k]) && WellFormed(b.items[k]);
      assert BothWays(a.items[k], b.items[k]) <==> Normalize(a.items[k]) == Normalize(b.items[k]);
    } else if k < |a.items| {
      assert Normalize(a.items[k]) == NNone <==> a.items[k] == None';
    } else if k < |b.items| {
      assert Normalize(b.items[k]) == NNone <==> b.items[k] == None';
    }
  }

  lemma {:induction false} TreeMutual(a: Value)
    requires WellFormed(a)
    ensures MutualWithNormal(a)
    decreases a
  {
    match a
    case None' =>
    case Atom(_, _) =>
    case Node(t, fs) =>
      forall i | 0 <= i < |fs| ensures MutualWithNormal(fs[i].value) {
        TreeMutual(fs[i].value);
      }
      forall b | WellFormed(b) ensures BothWays(a, b) <==> Normalize(a) == Normalize(b) {
        if b.Node? && b.typ == t {
          NodesBothWays(a, b);
        }
      }
    case List(xs) =>
      forall i | 0 <= i < |xs| ensures MutualWithNormal(xs[i]) {
        TreeMutual(xs[i]);
      }
      forall b | WellFormed(b) ensures BothWays(a, b) <==> Normalize(a) == Normalize(b) {
        if b.List? {
          ListsBothWays(a, b);
        }
      }
  }

  /** Whatever attributes nodes of one type have: trees that compare as the same both ways have one normal form. */
  lemma BothWaysIffNormal(a: Value, b: Value)
    requires WellFormed(a) && WellFormed(b)
    ensures Compare(a, b) == Same && Compare(b, a) == Same <==> Normalize(a) == Normalize(b)
  {
    TreeMutual(a);
  }

  /** One way is not enough for the function alone: the attributes that only the second tree has are never looked at. */
  lemma ComparisonIsOneSided(t: string)
    ensures var one, two := Node(t, []), Node(t, [Field("id", None')]);
            Compare(one, two) == Same && Compare(two, one) == AttributeError
  {
    var two := Node(t, [Field("id", None')]);
    assert !Ignored("id");
  }

  /** Lists of different lengths can compare as the same. */
  lemma TrailingNonesAreLost(x: Value, g: Grammar)
    requires Conforms(x, g)
    ensures Compare(List([x]), List([x, None'])) == Same
  {
    var a, b := List([x]), List([x, None']);
    assert Conforms(a, g) && Conforms(b, g);
    CompareIffNormal(a, b, g);
    var ns, ms := NormItems(a, [x]), NormItems(b, [x, None']);
    forall i: nat ensures At(ns, i) == At(ms, i) {}
    TrimIff(ns, ms);
  }

  // ---------- Case by case ----------

  /** Exactly five attributes are not compared. */
  lemma OneAttributeIff(t: string, name: string, x: Value, y: Value)
    ensures Compare(Node(t, [Field(name, x)]), Node(t, [Field(name, y)])) == Same
       <==> name in {"lineno", "end_lineno", "col_offset", "end_col_offset", "ctx"} || Compare(x, y) == Same
  {
    hide Compare;
    var a, b := Node(t, [Field(name, x)]), Node(t, [Field(name, y)]);
    CompareFieldsIff(a, a.fields, b.fields);
    NodeIsFields(a, b);
  }

  lemma NodeIsFields(a: Value, b: Value)
    requires a.Node? && b.Node? && a.typ == b.typ
    ensures Compare(a, b) == CompareFields(a, a.fields, b.fields)
  {}

  /** Values of two kinds, nodes of two types and constants of two types or values never compare as the same. */
  lemma KindsDiffer(a: Value, b: Value)
    requires !(a.None'? && b.None'?) && !(a.List? && b.List?)
    requires (a.Node? && b.Node? ==> a.typ != b.typ) && (a.Atom? && b.Atom? ==> a != b)
    ensures Compare(a, b) == Different
  {}

  /** A missing attribute raises, unless a difference was found before it. */
  lemma MissingAttributeRaises(t: string, name: string, x: Value, gs: seq<Field>)
    requires !Ignored(name) && forall i | 0 <= i < |gs| :: gs[i].name != name
    ensures Compare(Node(t, [Field(name, x)]), Node(t, gs)) == AttributeError
  {
    assert Lookup(gs, name).None?;
  }
}
