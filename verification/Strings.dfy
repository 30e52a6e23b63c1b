/** The string helpers of libmamba/src/util/string.cpp that the other modules rest on. */
module Strings {
  import opened Outcomes

  /** `pat` stands at position `i` of `s`. */
  predicate OccursAt(s: string, pat: string, i: int) {
    0 <= i && i + |pat| <= |s| && s[i..i + |pat|] == pat
  }

  /** The first position at or after `from` where `pat` stands; None is `npos`. */
  function Find(s: string, pat: string, from: nat): (r: Option<nat>)
    ensures r.Some? ==> from <= r.value && OccursAt(s, pat, r.value)
    ensures r.Some? ==> forall k | from <= k < r.value :: !OccursAt(s, pat, k)
    ensures r.None? ==> forall k | from <= k :: !OccursAt(s, pat, k)
    decreases |s| - from
  {
    if from + |pat| > |s| then None
    else if OccursAt(s, pat, from) then Some(from)
    else Find(s, pat, from + 1)
  }

  predicate Contains(s: string, pat: string) {
    Find(s, pat, 0).Some?
  }

  predicate StartsWith(s: string, prefix: string) {
    |prefix| <= |s| && s[..|prefix|] == prefix
  }

  predicate EndsWith(s: string, suffix: string) {
    |suffix| <= |s| && s[|s| - |suffix|..] == suffix
  }

  predicate OneLine(s: string) {
    forall i | 0 <= i < |s| :: s[i] != '\n'
  }

  /** The pieces of `s` around the first `max` occurrences of `sep`. */
  function Split(s: string, sep: string, max: nat): (r: seq<string>)
    requires sep != ""
    ensures |r| >= 1
    decreases max
  {
    var found := Find(s, sep, 0);
    if max == 0 || found.None? then [s]
    else [s[..found.value]] + Split(s[found.value + |sep|..], sep, max - 1)
  }

  function Join(parts: seq<string>, sep: string): string {
    if parts == [] then ""
    else if |parts| == 1 then parts[0]
    else parts[0] + sep + Join(parts[1..], sep)
  }

  lemma FindIs(s: string, pat: string, i: nat)
    requires OccursAt(s, pat, i) && forall k | 0 <= k < i :: !OccursAt(s, pat, k)
    ensures Find(s, pat, 0) == Some(i)
  {}

  lemma FindNone(s: string, pat: string)
    requires forall k | 0 <= k :: !OccursAt(s, pat, k)
    ensures Find(s, pat, 0) == None
  {}

  lemma OccursInSuffix(s: string, pat: string, j: nat, k: nat)
    requires j <= |s|
    ensures OccursAt(s[j..], pat, k) <==> OccursAt(s, pat, j + k)
  {
    if j + k + |pat| <= |s| {
      assert s[j..][k..k + |pat|] == s[j + k..j + k + |pat|];
    }
  }

  lemma SplitStep(s: string, sep: string, j: nat, i: nat, max: nat)
    requires j <= i && OccursAt(s, sep, i) && sep != "" && max > 0
    requires forall k | j <= k < i :: !OccursAt(s, sep, k)
    ensures Split(s[j..], sep, max) == [s[j..i]] + Split(s[i + |sep|..], sep, max - 1)
  {
    hide Find;
    OccursInSuffix(s, sep, j, i - j);
    forall k | 0 <= k < i - j ensures !OccursAt(s[j..], sep, k) {
      OccursInSuffix(s, sep, j, k);
    }
    FindIs(s[j..], sep, i - j);
    assert s[j..][i - j + |sep|..] == s[i + |sep|..];
    assert s[j..][..i - j] == s[j..i];
  }

  lemma SplitNone(s: string, sep: string)
    requires sep != ""
    ensures Split(s, sep, 0) == [s]
  {}

  lemma SplitEnd(s: string, sep: string, j: nat, i: nat, max: nat)
    requires j <= i && j <= |s| && i + |sep| > |s| && sep != ""
    requires forall k | j <= k < i :: !OccursAt(s, sep, k)
    ensures Split(s[j..], sep, max) == [s[j..]]
  {
    forall k | 0 <= k ensures !OccursAt(s[j..], sep, k) {
      OccursInSuffix(s, sep, j, k);
    }
    FindNone(s[j..], sep);
  }

  lemma SeqAssoc<T>(a: seq<T>, b: seq<T>, c: seq<T>)
    ensures (a + b) + c == a + (b + c)
  {}

  function Concat(parts: seq<string>): string {
    if parts == [] then "" else parts[0] + Concat(parts[1..])
  }

  /** The two-index loop of the source computes Split. */
  method SplitLoop(input: string, sep: string, max: nat) returns (result: seq<string>)
    requires sep != ""
    ensures result == Split(input, sep, max)
  {
    hide Find, Split;
    result := [];
    var maxSplit, i, j := max, 0, 0;
    assert input[j..] == input;
    while i + |sep| <= |input|
      invariant 0 <= j <= i && j <= |input|
      invariant forall k | j <= k < i :: !OccursAt(input, sep, k)
      invariant result + Split(input[j..], sep, maxSplit) == Split(input, sep, max)
      decreases |input| - i
    {
      if OccursAt(input, sep, i) {
        if maxSplit == 0 {
          SplitNone(input[j..], sep);
          return result + [input[j..]];
        }
        SplitStep(input, sep, j, i, maxSplit);
        SeqAssoc(result, [input[j..i]], Split(input[i + |sep|..], sep, maxSplit - 1));
        maxSplit := maxSplit - 1;
        result := result + [input[j..i]];
        i := i + |sep|;
        j := i;
      } else {
        i := i + 1;
      }
    }
    SplitEnd(input, sep, j, i, maxSplit);
    result := result + [input[j..]];
  }

  /** `sep` first stands at the end of `p + sep`: no earlier occurrence, not even a straddling one. */
  predicate Separable(p: string, sep: string) {
    forall k | 0 <= k < |p| :: !OccursAt(p + sep, sep, k)
  }

  lemma SeparableFind(p: string, sep: string, t: string)
    requires sep != "" && Separable(p, sep)
    ensures Find(p + sep + t, sep, 0) == Some(|p|)
    ensures Find(p, sep, 0) == None
  {
    var s := p + sep + t;
    assert s[|p|..|p| + |sep|] == sep;
    assert OccursAt(s, sep, |p|);
    forall k | 0 <= k < |p| ensures !OccursAt(s, sep, k) {
      assert !OccursAt(p + sep, sep, k);
      assert s[k..k + |sep|] == (p + sep)[k..k + |sep|];
    }
    forall k | 0 <= k ensures !OccursAt(p, sep, k) {
      if OccursAt(p, sep, k) {
        assert p[k..k + |sep|] == (p + sep)[k..k + |sep|];
        assert OccursAt(p + sep, sep, k);
      }
    }
  }

  lemma SeparableChar(p: string, c: char)
    ensures Separable(p, [c]) <==> c !in p
  {
    forall k | 0 <= k < |p| ensures OccursAt(p + [c], [c], k) <==> p[k] == c {
      assert (p + [c])[k..k + 1] == [p[k]];
    }
    if c in p {
      var k :| 0 <= k < |p| && p[k] == c;
      assert OccursAt(p + [c], [c], k);
    }
  }

  /** For two different characters a straddling occurrence is impossible. */
  lemma SeparablePair(p: string, a: char, b: char)
    requires a != b
    ensures Separable(p, [a, b]) <==> !Contains(p, [a, b])
  {
    var sep := [a, b];
    forall k | 0 <= k < |p| ensures OccursAt(p + sep, sep, k) <==> OccursAt(p, sep, k) {
      if k + 2 <= |p| {
        assert (p + sep)[k..k + 2] == p[k..k + 2];
      } else {
        assert (p + sep)[k..k + 2][1] == a;
      }
    }
    if Contains(p, sep) {
      var i := Find(p, sep, 0).value;
      assert OccursAt(p + sep, sep, i);
    }
  }

  lemma SplitHead(p: string, sep: string, rest: string, max: nat)
    requires sep != "" && Separable(p, sep) && max > 0
    ensures Split(p + sep + rest, sep, max) == [p] + Split(rest, sep, max - 1)
  {
    SeparableFind(p, sep, rest);
    var s := p + sep + rest;
    assert s[..|p|] == p && s[|p| + |sep|..] == rest;
  }

  /** Splitting undoes joining. */
  lemma {:induction false} SplitJoin(parts: seq<string>, sep: string, max: nat)
    requires sep != "" && parts != [] && max >= |parts| - 1
    requires forall k | 0 <= k < |parts| :: Separable(parts[k], sep)
    ensures Split(Join(parts, sep), sep, max) == parts
  {
    hide Find, OccursAt, Separable;
    var p := parts[0];
    if |parts| == 1 {
      SeparableFind(p, sep, "");
    } else {
      var rest := Join(parts[1..], sep);
      SplitHead(p, sep, rest, max);
      SplitJoin(parts[1..], sep, max - 1);
    }
  }

  lemma {:induction false} JoinLength(parts: seq<string>, sep: string)
    requires sep != ""
    ensures |Join(parts, sep)| >= |parts| - 1
  {
    if |parts| <= 1 {
    } else {
      JoinLength(parts[1..], sep);
    }
  }

  /** Hence joining is injective on non-empty lists of separable parts. */
  lemma JoinInjective(xs: seq<string>, ys: seq<string>, sep: string)
    requires sep != "" && xs != [] && ys != []
    requires forall k | 0 <= k < |xs| :: Separable(xs[k], sep)
    requires forall k | 0 <= k < |ys| :: Separable(ys[k], sep)
    requires Join(xs, sep) == Join(ys, sep)
    ensures xs == ys
  {
    var n := |xs| + |ys|;
    SplitJoin(xs, sep, n);
    SplitJoin(ys, sep, n);
  }

  // ---------- Joining undoes splitting ----------

  lemma {:induction false} JoinSplit(s: string, sep: string, max: nat)
    requires sep != ""
    ensures Join(Split(s, sep, max), sep) == s
    decreases max
  {
    hide Find;
    var found := Find(s, sep, 0);
    if max == 0 || found.None? {
    } else {
      var i := found.value;
      var rest := Split(s[i + |sep|..], sep, max - 1);
      JoinSplit(s[i + |sep|..], sep, max - 1);
      assert ([s[..i]] + rest)[1..] == rest;
      assert s == s[..i] + s[i..i + |sep|] + s[i + |sep|..];
    }
  }

  /** With enough splits allowed no piece holds the separator. */
  lemma {:induction false} SplitLeavesNone(s: string, sep: string, max: nat, k: nat)
    requires sep != "" && |s| <= max && k < |Split(s, sep, max)|
    ensures !Contains(Split(s, sep, max)[k], sep)
    decreases max
  {
    hide Find;
    var found := Find(s, sep, 0);
    if max == 0 || found.None? {
    } else if k > 0 {
      SplitLeavesNone(s[found.value + |sep|..], sep, max - 1, k - 1);
    } else {
      var head := s[..found.value];
      forall i | 0 <= i ensures !OccursAt(head, sep, i) {
        if i + |sep| <= |head| {
          assert !OccursAt(s, sep, i);
          assert head[i..i + |sep|] == s[i..i + |sep|];
        }
      }
      FindNone(head, sep);
    }
  }

  lemma {:induction false} JoinConcat(a: seq<string>, b: seq<string>, sep: string)
    requires a != [] && b != []
    ensures Join(a + b, sep) == Join(a, sep) + sep + Join(b, sep)
  {
    assert (a + b)[1..] == a[1..] + b;
    if |a| == 1 {
      assert a[1..] + b == b;
    } else {
      JoinConcat(a[1..], b, sep);
    }
  }

  /** The pieces of all the parts. */
  function Pieces(parts: seq<string>, sep: string): seq<string>
    requires sep != ""
  {
    if parts == [] then [] else Split(parts[0], sep, |parts[0]|) + Pieces(parts[1..], sep)
  }

  lemma {:induction false} JoinPieces(parts: seq<string>, sep: string)
    requires sep != "" && parts != []
    ensures Pieces(parts, sep) != [] && Join(Pieces(parts, sep), sep) == Join(parts, sep)
    ensures forall k | 0 <= k < |Pieces(parts, sep)| :: !Contains(Pieces(parts, sep)[k], sep)
  {
    hide Split, Join, Contains;
    var head := Split(parts[0], sep, |parts[0]|);
    JoinSplit(parts[0], sep, |parts[0]|);
    forall k | 0 <= k < |head| ensures !Contains(head[k], sep) {
      SplitLeavesNone(parts[0], sep, |parts[0]|, k);
    }
    if |parts| == 1 {
      assert parts == [parts[0]] && parts[1..] == [] && head + [] == head;
      JoinOne(parts[0], sep);
    } else {
      JoinPieces(parts[1..], sep);
      JoinConcat(head, Pieces(parts[1..], sep), sep);
      assert parts == [parts[0]] + parts[1..];
      JoinConcat([parts[0]], parts[1..], sep);
      JoinOne(parts[0], sep);
    }
  }

  lemma JoinOne(part: string, sep: string)
    ensures Join([part], sep) == part
  {}

  // ---------- How many pieces ----------

  lemma NotHere(s: string, c: char)
    ensures Find(s, [c], 0).None? <==> c !in s
  {
    if i :| 0 <= i < |s| && s[i] == c {
      assert s[i..i + 1] == [c] && OccursAt(s, [c], i);
    } else {
      forall k | 0 <= k ensures !OccursAt(s, [c], k) {
        assert k + 1 <= |s| ==> s[k..k + 1] == [s[k]];
      }
    }
  }

  lemma FirstCopy(s: string, c: char)
    requires c in s
    ensures var found := Find(s, [c], 0);
            && found.Some? && found.value < |s| && s[found.value] == c
            && multiset(s)[c] == 1 + multiset(s[found.value + 1..])[c]
  {
    hide Find;
    NotHere(s, c);
    var i := Find(s, [c], 0).value;
    var head := s[..i];
    assert s[i..i + 1] == [c];
    assert s == head + [c] + s[i + 1..];
    forall k | 0 <= k < i ensures head[k] != c {
      assert !OccursAt(s, [c], k) && s[k..k + 1] == [s[k]];
    }
    assert c !in multiset(head);
  }

  /** A split at one character gives one piece more than it finds copies of it, up to the number allowed. */
  lemma {:induction false} SplitCount(s: string, c: char, max: nat)
    ensures |Split(s, [c], max)| == 1 + if multiset(s)[c] <= max then multiset(s)[c] else max
    decreases max
  {
    hide Find, OccursAt;
    NotHere(s, c);
    assert c in multiset(s) <==> c in s;
    if max == 0 || c !in s {
    } else {
      FirstCopy(s, c);
      SplitCount(s[Find(s, [c], 0).value + 1..], c, max - 1);
    }
  }
}
