/** Lists: removal of one element, absence of duplicates, lists of lists. */
module Lists {
  /** `xs` with its first `v` taken out. */
  function RemoveFirst(xs: seq<string>, v: string): seq<string> {
    if xs == [] then [] else if xs[0] == v then xs[1..] else [xs[0]] + RemoveFirst(xs[1..], v)
  }

  predicate NoDup(xs: seq<string>) {
    forall i, j | 0 <= i < j < |xs| :: xs[i] != xs[j]
  }

  lemma RemoveFirstAt(xs: seq<string>, v: string, i: nat)
    requires i < |xs| && xs[i] == v && forall k | 0 <= k < i :: xs[k] != v
    ensures RemoveFirst(xs, v) == xs[..i] + xs[i + 1..]
  {
    if i == 0 {
    } else {
      var rest := xs[1..];
      RemoveFirstAt(rest, v, i - 1);
      assert rest[..i - 1] == xs[1..i] && rest[i..] == xs[i + 1..];
      assert [xs[0]] + (xs[1..i] + xs[i + 1..]) == [xs[0]] + xs[1..i] + xs[i + 1..];
      assert [xs[0]] + xs[1..i] == xs[..i];
    }
  }

  lemma RemoveFirstAbsent(xs: seq<string>, v: string)
    requires v !in xs
    ensures RemoveFirst(xs, v) == xs
  {}

  lemma RemoveFirstLength(xs: seq<string>, v: string)
    ensures |RemoveFirst(xs, v)| == |xs| - if v in xs then 1 else 0
  {}

  lemma {:induction false} RemoveFirstCount(xs: seq<string>, v: string, x: string)
    ensures multiset(RemoveFirst(xs, v))[x]
         == if x == v && v in xs then multiset(xs)[v] - 1 else multiset(xs)[x]
  {
    if xs == [] {
    } else {
      assert xs == [xs[0]] + xs[1..];
      if xs[0] != v {
        RemoveFirstCount(xs[1..], v, x);
      }
    }
  }

  lemma NoDupCount(xs: seq<string>)
    ensures NoDup(xs) <==> forall x :: multiset(xs)[x] <= 1
  {
    if xs == [] {
    } else {
      var init, last := xs[..|xs| - 1], xs[|xs| - 1];
      assert xs == init + [last];
      NoDupCount(init);
      assert last in init <==> last in multiset(init);
      if NoDup(xs) {
        assert last !in init;
      } else if NoDup(init) {
        var i, j :| 0 <= i < j < |xs| && xs[i] == xs[j];
        assert j == |xs| - 1 && init[i] == last;
        assert multiset(xs)[last] >= 2;
      } else {
        var x :| multiset(init)[x] > 1;
        assert multiset(xs)[x] > 1;
      }
    }
  }

  /** The lists one after the other. */
  function Flatten<T>(lists: seq<seq<T>>): seq<T> {
    if lists == [] then [] else Flatten(lists[..|lists| - 1]) + lists[|lists| - 1]
  }

  lemma FlattenStep<T>(lists: seq<seq<T>>, i: nat)
    requires i < |lists|
    ensures Flatten(lists[..i + 1]) == Flatten(lists[..i]) + lists[i]
  {
    assert lists[..i + 1][..i] == lists[..i];
  }

  lemma {:induction false} FlattenAppend<T>(a: seq<seq<T>>, b: seq<seq<T>>)
    ensures Flatten(a + b) == Flatten(a) + Flatten(b)
  {
    if b == [] {
      assert a + b == a;
    } else {
      var n := |b| - 1;
      assert (a + b)[..|a + b| - 1] == a + b[..n];
      FlattenAppend(a, b[..n]);
    }
  }

  /** The first copy of every element, in order. */
  function Dedup(xs: seq<string>): seq<string> {
    if xs == [] then []
    else
      var init, last := Dedup(xs[..|xs| - 1]), xs[|xs| - 1];
      if last in init then init else init + [last]
  }

  lemma DedupStep(done: seq<string>, v: string)
    ensures Dedup(done + [v]) == if v in Dedup(done) then Dedup(done) else Dedup(done) + [v]
  {
    assert (done + [v])[..|done|] == done;
  }

  lemma {:induction false} DedupElements(xs: seq<string>, x: string)
    ensures x in Dedup(xs) <==> x in xs
  {
    if xs == [] {
    } else {
      assert xs == xs[..|xs| - 1] + [xs[|xs| - 1]];
      DedupElements(xs[..|xs| - 1], x);
      DedupElements(xs[..|xs| - 1], xs[|xs| - 1]);
    }
  }

  lemma {:induction false} DedupNoDup(xs: seq<string>)
    ensures NoDup(Dedup(xs))
  {
    if xs == [] {
    } else {
      DedupNoDup(xs[..|xs| - 1]);
    }
  }

  lemma {:induction false} DedupLength(xs: seq<string>)
    ensures |Dedup(xs)| <= |xs|
    ensures |Dedup(xs)| == |xs| ==> Dedup(xs) == xs
  {
    if xs == [] {
    } else {
      DedupLength(xs[..|xs| - 1]);
      assert xs == xs[..|xs| - 1] + [xs[|xs| - 1]];
    }
  }

  /** Merging leaves a list alone exactly when it repeats nothing. */
  lemma {:induction false} DedupUnchangedIff(xs: seq<string>)
    ensures Dedup(xs) == xs <==> NoDup(xs)
  {
    if NoDup(xs) {
      if xs != [] {
        var init := xs[..|xs| - 1];
        assert xs == init + [xs[|xs| - 1]];
        DedupUnchangedIff(init);
        assert xs[|xs| - 1] !in init;
      }
    } else {
      DedupNoDup(xs);
    }
  }

  lemma {:induction false} DedupPrefix(a: seq<string>, b: seq<string>)
    ensures Dedup(a) <= Dedup(a + b)
  {
    if b == [] {
      assert a + b == a;
    } else {
      assert (a + b)[..|a + b| - 1] == a + b[..|b| - 1];
      DedupPrefix(a, b[..|b| - 1]);
    }
  }
}
