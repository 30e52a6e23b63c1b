/**
 The order in which settings are computed (libmamba/src/api/configuration.cpp:2130-2179): a depth-first
 walk over what each setting needs, with locks that detect circular needs; and the loading loop that
 follows it (2070-2094).
 */
module LoadingSequence {
  import opened Outcomes
  import opened Lists

  /** What each known setting needs, in the order of its set. */
  type Needs = map<string, seq<string>>

  datatype Failure =
    | Unknown(name: string)
    | Circular
    | ComputedTwice
    | ReadTooEarly

  // ---------- What a good order is ----------

  /** No setting comes twice, and each comes after all it needs. */
  predicate Ordered(needs: Needs, xs: seq<string>) {
    && NoDup(xs)
    && forall i | 0 <= i < |xs| :: xs[i] in needs && forall n | n in needs[xs[i]] :: n in xs[..i]
  }

  predicate IsPath(needs: Needs, path: seq<string>) {
    forall k | 0 <= k < |path| - 1 :: path[k] in needs && path[k + 1] in needs[path[k]]
  }

  predicate IsCycle(needs: Needs, path: seq<string>) {
    |path| >= 2 && IsPath(needs, path) && path[0] == path[|path| - 1]
  }

  ghost predicate Cyclic(needs: Needs) {
    exists path :: IsCycle(needs, path)
  }

  ghost predicate Closed(needs: Needs) {
    forall name, n | name in needs && n in needs[name] :: n in needs
  }

  /** A failure that the declared needs justify. */
  ghost predicate Justified(needs: Needs, failure: Failure) {
    match failure
    case Unknown(_) => !Closed(needs)
    case Circular => Cyclic(needs)
    case ComputedTwice => false
    case ReadTooEarly => false
  }

  // ---------- The walk ----------

  class Loader {
    const needs: Needs
    var sequence: seq<string>
    var locked: set<string>

    constructor (needs: Needs)
      ensures this.needs == needs && sequence == [] && locked == {}
    {
      this.needs, sequence, locked := needs, [], {};
    }

    /** `locks` is the chain of settings whose needs are being added. */
    ghost predicate Walking(locks: seq<string>)
      reads this
    {
      && Ordered(needs, sequence)
      && IsPath(needs, locks)
      && locked == (set n | n in locks)
      && forall n | n in locks :: n in needs && n !in sequence
    }

    method Add(name: string, locks: seq<string>) returns (failure: Option<Failure>)
      requires Walking(locks) && IsPath(needs, locks + [name]) && name !in locked && name in needs
      modifies this
      ensures failure.None? ==> Walking(locks) && old(sequence) <= sequence && name in sequence
      ensures failure.Some? ==> Justified(needs, failure.value)
      decreases |needs.Keys - locked|
    {
      hide IsPath, Ordered, Cyclic, Closed;
      if name in sequence {
        return None;
      }
      locked := locked + {name};
      var chain := locks + [name];
      var needed := needs[name];
      Shrinks(needs.Keys, old(locked), name);
      for i := 0 to |needed|
        invariant Walking(chain) && old(sequence) <= sequence
        invariant forall j | 0 <= j < i :: needed[j] in sequence
      {
        var n := needed[i];
        if n !in needs {
          NotClosed(needs, name, n);
          return Some(Unknown(n));
        }
        if n in locked {
          CycleFound(needs, chain, n);
          return Some(Circular);
        }
        PathExtends(needs, chain, n);
        failure := Add(n, chain);
        if failure.Some? {
          return;
        }
      }
      Extends(needs, sequence, name);
      if name !in sequence {
        sequence := sequence + [name];
      }
      locked := locked - {name};
      assert locked == set n | n in locks;
      return None;
    }

    /** The whole walk: it fails exactly when the needs are circular or name something unknown. */
    method ComputeLoadingSequence(order: seq<string>) returns (failure: Option<Failure>)
      requires locked == {} && forall n :: n in order <==> n in needs
      modifies this
      ensures failure.None? <==> !Cyclic(needs) && Closed(needs)
      ensures failure.Some? ==> Justified(needs, failure.value)
      ensures failure.None? ==> Ordered(needs, sequence) && locked == {} && forall n :: n in sequence <==> n in needs
    {
      sequence := [];
      for i := 0 to |order|
        invariant Walking([]) && forall j | 0 <= j < i :: order[j] in sequence
      {
        assert [] + [order[i]] == [order[i]];
        failure := Add(order[i], []);
        if failure.Some? {
          return;
        }
      }
      OrderedIsAcyclic(needs, sequence);
      return None;
    }

    /**
     Loading: each setting is computed once and reads all it needs. The two checks made while computing
     never fail.
     */
    method Load(order: seq<string>) returns (failure: Option<Failure>)
      requires locked == {} && forall n :: n in order <==> n in needs
      modifies this
      ensures failure.None? <==> !Cyclic(needs) && Closed(needs)
      ensures failure.Some? ==> Justified(needs, failure.value)
    {
      failure := ComputeLoadingSequence(order);
      if failure.Some? {
        return;
      }
      var computed: set<string> := {};
      for i := 0 to |sequence|
        invariant computed == set n | n in sequence[..i]
      {
        var name := sequence[i];
        if name in computed {
          return Some(ComputedTwice);
        }
        if exists n | n in needs[name] :: n !in computed {
          return Some(ReadTooEarly);
        }
        computed := computed + {name};
        assert sequence[..i + 1] == sequence[..i] + [name];
      }
      return None;
    }
  }

  // ---------- Cycles ----------

  lemma Shrinks(all: set<string>, locked: set<string>, name: string)
    requires name in all && name !in locked
    ensures |all - (locked + {name})| < |all - locked|
  {
    assert all - locked == (all - (locked + {name})) + {name};
  }

  lemma PathExtends(needs: Needs, chain: seq<string>, n: string)
    requires chain != [] && IsPath(needs, chain)
    requires chain[|chain| - 1] in needs && n in needs[chain[|chain| - 1]]
    ensures IsPath(needs, chain + [n])
  {}

  lemma NotClosed(needs: Needs, name: string, n: string)
    requires name in needs && n in needs[name] && n !in needs
    ensures !Closed(needs)
  {}

  lemma CycleFound(needs: Needs, chain: seq<string>, n: string)
    requires chain != [] && IsPath(needs, chain) && n in chain
    requires chain[|chain| - 1] in needs && n in needs[chain[|chain| - 1]]
    ensures Cyclic(needs)
  {
    var j :| 0 <= j < |chain| && chain[j] == n;
    var path := chain[j..] + [n];
    forall k | 0 <= k < |path| - 1 ensures path[k] in needs && path[k + 1] in needs[path[k]] {
      assert path[k] == chain[j + k];
    }
    assert IsCycle(needs, path);
  }

  lemma Extends(needs: Needs, xs: seq<string>, name: string)
    requires Ordered(needs, xs) && name in needs && name !in xs && forall n | n in needs[name] :: n in xs
    ensures Ordered(needs, xs + [name])
  {
    var longer := xs + [name];
    forall i | 0 <= i < |longer| ensures longer[i] in needs && forall n | n in needs[longer[i]] :: n in longer[..i] {
      assert longer[..i] == xs[..i];
    }
  }

  /** Along a path the position in the order goes down. */
  lemma {:induction false} PathGoesDown(needs: Needs, xs: seq<string>, path: seq<string>, i: nat)
    requires Ordered(needs, xs) && |path| >= 2 && IsPath(needs, path) && i < |xs| && xs[i] == path[0]
    ensures path[|path| - 1] in xs[..i]
    decreases |path|
  {
    var next := path[1];
    assert next in xs[..i];
    var j :| 0 <= j < i && xs[..i][j] == next;
    if |path| > 2 {
      assert path[1..][0] == next;
      PathGoesDown(needs, xs, path[1..], j);
      assert xs[..j] <= xs[..i];
    }
  }

  lemma OrderedIsAcyclic(needs: Needs, xs: seq<string>)
    requires Ordered(needs, xs) && forall n | n in needs :: n in xs
    ensures !Cyclic(needs) && Closed(needs)
  {
    forall path ensures !IsCycle(needs, path) {
      if IsCycle(needs, path) {
        var i :| 0 <= i < |xs| && xs[i] == path[0];
        PathGoesDown(needs, xs, path, i);
        assert false;
      }
    }
    forall name, n | name in needs && n in needs[name] ensures n in needs {
      var i :| 0 <= i < |xs| && xs[i] == name;
      assert n in xs[..i];
    }
  }
}
