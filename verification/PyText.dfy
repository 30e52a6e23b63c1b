/** Python's `str.strip`, `str.split` and `readlines`, as the two changelog scripts use them. */
module PyText {
  import opened Outcomes
  import opened Strings

  /** str.isspace of one character. */
  predicate IsWhite(c: char) {
    var n := c as int;
    || 0x09 <= n <= 0x0D || 0x1C <= n <= 0x20 || n == 0x85 || n == 0xA0 || n == 0x1680
    || 0x2000 <= n <= 0x200A || n == 0x2028 || n == 0x2029 || n == 0x202F || n == 0x205F || n == 0x3000
  }

  function LStrip(s: string): string {
    if s != "" && IsWhite(s[0]) then LStrip(s[1..]) else s
  }

  function RStrip(s: string): string {
    if s != "" && IsWhite(s[|s| - 1]) then RStrip(s[..|s| - 1]) else s
  }

  function Strip(s: string): string {
    RStrip(LStrip(s))
  }

  /** The first word of a string that starts with no white space. */
  function WordEnd(s: string): (n: nat)
    ensures n <= |s|
    ensures s != "" && !IsWhite(s[0]) ==> n > 0
  {
    if s == "" || IsWhite(s[0]) then 0 else 1 + WordEnd(s[1..])
  }

  /** `s.split()`: the maximal runs of characters that are not white space. */
  function Words(s: string): seq<string>
    decreases |s|
  {
    var t := LStrip(s);
    LStripShrinks(s);
    if t == "" then [] else [t[..WordEnd(t)]] + Words(t[WordEnd(t)..])
  }

  lemma LStripShrinks(s: string)
    ensures |LStrip(s)| <= |s|
    ensures LStrip(s) != "" ==> !IsWhite(LStrip(s)[0])
  {}

  /** `readlines()`: every line keeps its line feed. */
  function ReadLines(s: string): seq<string>
    decreases |s|
  {
    if s == "" then []
    else
      match Find(s, "\n", 0)
      case None => [s]
      case Some(i) => [s[..i + 1]] + ReadLines(s[i + 1..])
  }

  predicate IsLine(l: string) {
    l != "" && l[|l| - 1] == '\n' && forall i | 0 <= i < |l| - 1 :: l[i] != '\n'
  }

  lemma FirstFeed(l: string, rest: string)
    requires IsLine(l)
    ensures Find(l + rest, "\n", 0) == Some(|l| - 1)
  {
    var s := l + rest;
    assert s[|l| - 1..|l|] == "\n";
    forall k | 0 <= k < |l| - 1 ensures !OccursAt(s, "\n", k) {
      assert s[k..k + 1][0] == l[k];
    }
    FindIs(s, "\n", |l| - 1);
  }

  lemma ReadFirstLine(l: string, rest: string)
    requires IsLine(l)
    ensures ReadLines(l + rest) == [l] + ReadLines(rest)
  {
    FirstFeed(l, rest);
    assert (l + rest)[..|l|] == l && (l + rest)[|l|..] == rest;
  }

  /** Reading back lines that were written one after the other. */
  lemma {:induction false} ReadWrittenLines(lines: seq<string>, rest: string)
    requires forall i | 0 <= i < |lines| :: IsLine(lines[i])
    ensures ReadLines(Concat(lines) + rest) == lines + ReadLines(rest)
  {
    hide ReadLines, IsLine;
    if lines == [] {
      assert Concat(lines) + rest == rest;
    } else {
      assert Concat(lines) + rest == lines[0] + (Concat(lines[1..]) + rest);
      ReadFirstLine(lines[0], Concat(lines[1..]) + rest);
      ReadWrittenLines(lines[1..], rest);
    }
  }

  lemma {:induction false} ConcatAppend(a: seq<string>, b: seq<string>)
    ensures Concat(a + b) == Concat(a) + Concat(b)
  {
    if a == [] {
      assert a + b == b;
    } else {
      assert (a + b)[1..] == a[1..] + b;
      ConcatAppend(a[1..], b);
    }
  }

  // ---------- Stripping ----------

  /** Neither end is white space. */
  predicate Trim(s: string) {
    s != "" && !IsWhite(s[0]) && !IsWhite(s[|s| - 1])
  }

  lemma {:induction false} RStripKeepsHead(s: string)
    requires s != "" && !IsWhite(s[0])
    ensures Trim(RStrip(s)) && RStrip(s) <= s
  {
    if IsWhite(s[|s| - 1]) {
      RStripKeepsHead(s[..|s| - 1]);
    }
  }

  lemma StripTrims(s: string)
    ensures Strip(s) == "" || Trim(Strip(s))
  {
    LStripShrinks(s);
    if LStrip(s) != "" {
      RStripKeepsHead(LStrip(s));
    }
  }

  lemma StripOfTrim(s: string)
    requires s == "" || Trim(s)
    ensures Strip(s) == s
  {}

  lemma StripTwice(s: string)
    ensures Strip(Strip(s)) == Strip(s)
  {
    StripTrims(s);
    StripOfTrim(Strip(s));
  }

  /** A white character on either side is stripped off. */
  lemma StripSides(s: string)
    requires Trim(s)
    ensures Strip(s + "\n") == s && Strip(" " + s) == s && Strip(" " + s + "\n") == s
  {
    assert (s + "\n")[..|s|] == s;
    assert (" " + s)[1..] == s;
    assert (" " + s + "\n")[1..] == s + "\n";
    assert RStrip(s + "\n") == RStrip(s) == s;
    assert LStrip(s + "\n") == s + "\n";
    assert LStrip(" " + s) == LStrip(s) == s;
    assert LStrip(" " + s + "\n") == LStrip(s + "\n");
  }

  /** No white space anywhere, and at least one character. */
  predicate Word(s: string) {
    s != "" && forall i | 0 <= i < |s| :: !IsWhite(s[i])
  }

  lemma {:induction false} WordEndOfWord(w: string, rest: string)
    requires Word(w) && (rest == "" || IsWhite(rest[0]))
    ensures WordEnd(w + rest) == |w|
  {
    assert (w + rest)[1..] == w[1..] + rest;
    if |w| == 1 {
      assert w[1..] + rest == rest;
    } else {
      WordEndOfWord(w[1..], rest);
    }
  }

  lemma WordsOne(w: string)
    requires Word(w)
    ensures Words(w) == [w]
  {
    WordEndOfWord(w, "");
    assert w + "" == w;
    assert w[|w|..] == "" && w[..|w|] == w;
    assert LStrip("") == "";
    assert Words("") == [];
  }

  lemma WordsTwo(v: string, w: string)
    requires Word(v) && Word(w)
    ensures Words(v + " " + w) == [v, w]
  {
    var s := v + " " + w;
    assert s == v + (" " + w);
    WordEndOfWord(v, " " + w);
    assert LStrip(s) == s;
    assert s[..|v|] == v && s[|v|..] == " " + w;
    assert LStrip(" " + w) == LStrip(w) == w by {
      assert (" " + w)[1..] == w;
    }
    WordsOne(w);
    WordEndOfWord(w, "");
    assert Words(" " + w) == Words(w);
  }
}
