/**
 A printer of requests in the syntax of sections 4.2 and 5.1 of RFC 1945, and the proof that the
 server's parser undoes it.
 */
module RequestPrinter {
  import opened Outcomes
  import opened Strings
  import opened Microserver

  datatype Message = Message(
    verb: string, path: string, query: seq<(string, string)>, version: string, headers: seq<(string, string)>)

  predicate NoneOf(s: string, chars: string) {
    forall i | 0 <= i < |s| :: s[i] !in chars
  }

  predicate PlainPair(q: (string, string)) {
    NoneOf(q.0, " \n&=") && NoneOf(q.1, " \n&=")
  }

  predicate PlainHeader(h: (string, string)) {
    NoneOf(h.0, ":\n") && NoneOf(h.1, "\n") && (h.1 != "" ==> !IsSpace(h.1[0]))
  }

  predicate Printable(m: Message) {
    && NoneOf(m.verb, " \n") && NoneOf(m.path, " \n?") && NoneOf(m.version, " \n")
    && (forall i | 0 <= i < |m.query| :: PlainPair(m.query[i]))
    && (forall i | 0 <= i < |m.headers| :: PlainHeader(m.headers[i]))
  }

  function PairTexts(query: seq<(string, string)>): (r: seq<string>)
    ensures |r| == |query|
    ensures forall i | 0 <= i < |query| :: r[i] == query[i].0 + "=" + query[i].1
  {
    seq(|query|, i requires 0 <= i < |query| => query[i].0 + "=" + query[i].1)
  }

  function Target(m: Message): string {
    if m.query == [] then m.path else m.path + "?" + Join(PairTexts(m.query), "&")
  }

  function FirstLine(m: Message): string {
    m.verb + " " + Target(m) + " " + m.version + CRLF
  }

  function HeaderText(h: (string, string)): string {
    h.0 + ": " + h.1 + CRLF
  }

  function HeaderTexts(headers: seq<(string, string)>): (r: seq<string>)
    ensures |r| == |headers|
    ensures forall i | 0 <= i < |headers| :: r[i] == HeaderText(headers[i])
  {
    seq(|headers|, i requires 0 <= i < |headers| => HeaderText(headers[i]))
  }

  /** The request line, the header fields and the blank line. */
  function Print(m: Message): string {
    Concat([FirstLine(m)] + HeaderTexts(m.headers)) + CRLF
  }

  function FirstNine(headers: seq<(string, string)>): seq<(string, string)> {
    if |headers| <= 9 then headers else headers[..9]
  }

  // ---------- The maps the parser should build ----------

  /** The first field of each name counts; names lose their case. */
  function FirstWins(headers: seq<(string, string)>): map<string, string> {
    if headers == [] then map[] else FirstWins(headers[1..])[ToLower(headers[0].0) := headers[0].1]
  }

  /** The last pair of each key counts. */
  function LastWins(query: seq<(string, string)>): map<string, string> {
    if query == [] then map[] else map[query[0].0 := query[0].1] + LastWins(query[1..])
  }

  lemma {:induction false} FirstWinsAppend(headers: seq<(string, string)>, h: (string, string))
    ensures FirstWins(headers + [h]) == InsertHeader(FirstWins(headers), (ToLower(h.0), h.1))
  {
    if headers == [] {
      assert headers + [h] == [h];
      assert [h][1..] == [];
    } else {
      FirstWinsAppend(headers[1..], h);
      assert (headers + [h])[1..] == headers[1..] + [h];
    }
  }

  lemma {:induction false} LastWinsAppend(query: seq<(string, string)>, q: (string, string))
    ensures LastWins(query + [q]) == LastWins(query)[q.0 := q.1]
  {
    if query == [] {
      assert query + [q] == [q];
      assert [q][1..] == [];
    } else {
      LastWinsAppend(query[1..], q);
      assert (query + [q])[1..] == query[1..] + [q];
    }
  }

  // ---------- Lines ----------

  /** A line that is not blank: its only line feed ends it. */
  predicate HeadLine(l: string) {
    |l| > 2 && l[|l| - 2] == '\r' && l[|l| - 1] == '\n' && forall i | 0 <= i < |l| - 1 :: l[i] != '\n'
  }

  lemma ConcatStep(lines: seq<string>, tail: string)
    requires lines != []
    ensures Concat(lines) + tail == lines[0] + (Concat(lines[1..]) + tail)
  {}

  lemma FirstHeadLine(l: string, rest: string, max: nat)
    requires HeadLine(l) && max > 0
    ensures HeaderLines(l + rest, max) == [l] + HeaderLines(rest, max - 1)
  {
    var s := l + rest;
    FindChar(s, |l| - 1, '\n');
    assert s[..|l|] == l && s[|l|..] == rest;
  }

  lemma NoHeadLine(body: string, max: nat)
    ensures HeaderLines(CRLF + body, max) == []
  {
    FindChar(CRLF + body, 1, '\n');
  }

  lemma TakeStep(lines: seq<string>, n: nat)
    requires 1 <= n <= |lines|
    ensures lines[..n] == [lines[0]] + lines[1..][..n - 1]
  {}

  lemma {:induction false} LinesOfConcat(lines: seq<string>, body: string, max: nat)
    requires forall i | 0 <= i < |lines| :: HeadLine(lines[i])
    ensures HeaderLines(Concat(lines) + (CRLF + body), max) == lines[..if |lines| <= max then |lines| else max]
    decreases |lines|
  {
    hide HeadLine;
    if lines == [] {
      assert Concat(lines) + (CRLF + body) == CRLF + body;
      NoHeadLine(body, max);
    } else if max > 0 {
      hide HeaderLines, Concat;
      ConcatStep(lines, CRLF + body);
      FirstHeadLine(lines[0], Concat(lines[1..]) + (CRLF + body), max);
      LinesOfConcat(lines[1..], body, max - 1);
      TakeStep(lines, if |lines| <= max then |lines| else max);
    }
  }

  lemma FindChar(s: string, i: nat, c: char)
    requires i < |s| && s[i] == c && forall k | 0 <= k < i :: s[k] != c
    ensures Find(s, [c], 0) == Some(i)
  {
    assert s[i..i + 1] == [c];
    forall k | 0 <= k < i ensures !OccursAt(s, [c], k) {
      assert s[k..k + 1][0] == s[k];
    }
    FindIs(s, [c], i);
  }

  lemma BlankLineAfterOne(l: string, body: string)
    requires HeadLine(l)
    ensures Find(l + (CRLF + body), BLANK_LINE, 0) == Some(|l| - 2)
  {
    var s := l + (CRLF + body);
    assert s[|l| - 2..|l| + 2] == BLANK_LINE;
    forall k | 0 <= k < |l| - 2 ensures !OccursAt(s, BLANK_LINE, k) {
      NoBlankLine(s, k, k + 1);
    }
    FindIs(s, BLANK_LINE, |l| - 2);
  }

  /** The blank line the server looks for ends the last line, however the body goes on. */
  lemma {:induction false} BlankLineOfConcat(lines: seq<string>, body: string)
    requires lines != [] && forall i | 0 <= i < |lines| :: HeadLine(lines[i])
    ensures Find(Concat(lines) + (CRLF + body), BLANK_LINE, 0) == Some(|Concat(lines)| - 2)
    decreases |lines|
  {
    hide Find, OccursAt;
    var l, tail := lines[0], CRLF + body;
    ConcatStep(lines, tail);
    if |lines| == 1 {
      assert Concat([]) + tail == tail;
      BlankLineAfterOne(l, body);
    } else {
      BlankLineOfConcat(lines[1..], body);
      ConcatStep(lines[1..], tail);
      BlankLineBehind(l, Concat(lines[1..]) + tail);
    }
  }

  lemma NoBlankLine(s: string, k: nat, feed: nat)
    requires feed < |s| && s[feed] != '\n' && (feed == k + 1 || feed == k + 3)
    ensures !OccursAt(s, BLANK_LINE, k)
  {
    if 0 <= k && k + 4 <= |s| {
      assert s[k..k + 4][feed - k] == s[feed];
      assert BLANK_LINE[1] == '\n' && BLANK_LINE[3] == '\n';
    }
  }

  lemma BlankLineBehind(l: string, rest: string)
    requires HeadLine(l) && |rest| > 1 && rest[1] != '\n'
    requires Find(rest, BLANK_LINE, 0).Some?
    ensures Find(l + rest, BLANK_LINE, 0) == Some(|l| + Find(rest, BLANK_LINE, 0).value)
  {
    hide Find, OccursAt;
    var s, h := l + rest, Find(rest, BLANK_LINE, 0).value;
    assert s[|l|..] == rest;
    OccursInSuffix(s, BLANK_LINE, |l|, h);
    forall k | 0 <= k < |l| + h ensures !OccursAt(s, BLANK_LINE, k) {
      if k < |l| - 2 {
        NoBlankLine(s, k, k + 1);
      } else if k == |l| - 2 {
        NoBlankLine(s, k, k + 3);
      } else if k == |l| - 1 {
        NoCarriageReturn(s, k);
      } else {
        OccursInSuffix(s, BLANK_LINE, |l|, k - |l|);
      }
    }
    FindIs(s, BLANK_LINE, |l| + h);
  }

  lemma NoCarriageReturn(s: string, k: nat)
    requires k < |s| && s[k] != '\r'
    ensures !OccursAt(s, BLANK_LINE, k)
  {
    if k + 4 <= |s| {
      assert s[k..k + 4][0] == s[k];
    }
  }

  // ---------- One line each ----------

  lemma HeaderTextIsLine(h: (string, string))
    requires PlainHeader(h)
    ensures HeadLine(HeaderText(h))
  {}

  lemma HeaderParts(h: (string, string))
    requires PlainHeader(h)
    ensures var s, c := HeaderText(h), |h.0|;
            Find(s, ":", 0) == Some(c) && s[..c] == h.0 && s[c + 1] == ' ' && s[c + 2..] == h.1 + CRLF
  {
    var s, c := HeaderText(h), |h.0|;
    assert s == h.0 + (": " + h.1 + CRLF);
    FindChar(s, c, ':');
  }

  lemma SkipToValue(s: string, i: nat, v: string)
    requires i <= |s| && s[i..] == v + CRLF
    ensures v != "" && !IsSpace(v[0]) ==> SkipSpaces(s, i) == i && s[i..|s| - 2] == v
    ensures v == "" ==> SkipSpaces(s, i) == |s|
  {
    if v != "" {
      assert s[i] == s[i..][0] == v[0];
      assert s[i..|s| - 2] == s[i..][..|v|];
    } else {
      assert s[i] == s[i..][0] == '\r' && s[i + 1] == s[i..][1] == '\n';
      assert SkipSpaces(s, i) == SkipSpaces(s, i + 1) == SkipSpaces(s, i + 2);
    }
  }

  lemma HeaderOfText(h: (string, string))
    requires PlainHeader(h)
    ensures HeaderOf(HeaderText(h)) == (ToLower(h.0), h.1)
  {
    hide Find, ToLower;
    HeaderParts(h);
    var s, i := HeaderText(h), |h.0| + 2;
    SkipToValue(s, i, h.1);
    assert SkipSpaces(s, i - 1) == SkipSpaces(s, i);
    var start := SkipSpaces(s, i);
    assert Substr(s, start, SizeSub(|s|, start + 2)) == h.1 by {
      if h.1 != "" {
        EndOfLine(s, start);
      } else {
        assert s[|s|..] == "";
      }
    }
  }

  lemma EndOfLine(s: string, start: nat)
    requires start + 2 <= |s|
    ensures Substr(s, start, SizeSub(|s|, start + 2)) == s[start..|s| - 2]
  {}

  lemma {:induction false} HeadersOfTexts(headers: seq<(string, string)>)
    requires forall i | 0 <= i < |headers| :: PlainHeader(headers[i])
    ensures HeadersOf(HeaderTexts(headers)) == FirstWins(headers)
    decreases |headers|
  {
    hide HeaderOf, HeaderText, PlainHeader;
    if headers == [] {
    } else {
      var n := |headers| - 1;
      HeadersOfTexts(headers[..n]);
      assert HeaderTexts(headers)[..n] == HeaderTexts(headers[..n]);
      HeaderOfText(headers[n]);
      FirstWinsAppend(headers[..n], headers[n]);
      assert headers == headers[..n] + [headers[n]];
    }
  }

  lemma SplitPair(q: (string, string))
    requires PlainPair(q)
    ensures SplitAll(q.0 + "=" + q.1, "=") == [q.0, q.1]
  {
    SeparableChar(q.0, '=');
    SeparableChar(q.1, '=');
    var parts := [q.0, q.1];
    assert parts[1..] == [q.1];
    assert Join(parts, "=") == q.0 + "=" + q.1;
    SplitJoin(parts, "=", |q.0 + "=" + q.1|);
  }

  lemma {:induction false} QueryOfTexts(query: seq<(string, string)>)
    requires forall i | 0 <= i < |query| :: PlainPair(query[i])
    ensures QueryOf(PairTexts(query)) == LastWins(query)
    decreases |query|
  {
    if query == [] {
    } else {
      var n := |query| - 1;
      QueryOfTexts(query[..n]);
      assert PairTexts(query)[..n] == PairTexts(query[..n]);
      SplitPair(query[n]);
      LastWinsAppend(query[..n], query[n]);
      assert query == query[..n] + [query[n]];
    }
  }

  lemma {:induction false} NoneOfJoin(parts: seq<string>, sep: string, chars: string)
    requires NoneOf(sep, chars) && forall i | 0 <= i < |parts| :: NoneOf(parts[i], chars)
    ensures NoneOf(Join(parts, sep), chars)
  {
    if |parts| <= 1 {
    } else {
      NoneOfJoin(parts[1..], sep, chars);
    }
  }

  lemma PairTextsPlain(query: seq<(string, string)>, i: nat)
    requires i < |query| && PlainPair(query[i])
    ensures Separable(PairTexts(query)[i], "&") && NoneOf(PairTexts(query)[i], " \n")
  {
    SeparableChar(PairTexts(query)[i], '&');
  }

  lemma QueryRecovered(query: seq<(string, string)>)
    requires query != [] && forall i | 0 <= i < |query| :: PlainPair(query[i])
    ensures var text := Join(PairTexts(query), "&");
            QueryOf(SplitAll(text, "&")) == LastWins(query) && NoneOf(text, " \n")
  {
    hide Split, Join, QueryOf, LastWins, Separable, NoneOf, PlainPair;
    var texts := PairTexts(query);
    forall i | 0 <= i < |texts| ensures Separable(texts[i], "&") && NoneOf(texts[i], " \n") {
      PairTextsPlain(query, i);
    }
    JoinLength(texts, "&");
    SplitJoin(texts, "&", |Join(texts, "&")|);
    QueryOfTexts(query);
    SeparatorPlain();
    NoneOfJoin(texts, "&", " \n");
  }

  lemma SeparatorPlain()
    ensures NoneOf("&", " \n")
  {}

  lemma TargetIsPlain(m: Message)
    requires Printable(m)
    ensures NoneOf(Target(m), " \n")
  {
    if m.query != [] {
      QueryRecovered(m.query);
    }
  }

  lemma JoinThree(a: string, b: string, c: string, sep: string)
    ensures Join([a, b, c], sep) == a + sep + (b + sep + c)
  {
    assert [a, b, c][1..] == [b, c];
    assert [b, c][1..] == [c];
    assert Join([b, c], sep) == b + sep + c;
  }

  lemma FirstLineIsLine(m: Message)
    requires Printable(m)
    ensures HeadLine(FirstLine(m))
  {
    TargetIsPlain(m);
    var t, s := Target(m), FirstLine(m);
    assert s == (m.verb + " " + t + " " + m.version) + CRLF;
  }

  lemma SplitFirstLine(m: Message)
    requires Printable(m)
    ensures Split(FirstLine(m), " ", 3) == [m.verb, Target(m), m.version + CRLF]
  {
    TargetIsPlain(m);
    var t, v := Target(m), m.version + CRLF;
    SeparableChar(m.verb, ' ');
    SeparableChar(t, ' ');
    SeparableChar(v, ' ');
    hide Separable, Split, Target, NoneOf;
    var parts := [m.verb, t, v];
    JoinThree(m.verb, t, v, " ");
    assert m.verb + " " + (t + " " + v) == FirstLine(m);
    SplitJoin(parts, " ", 3);
  }

  lemma RequestLineOfFirstLine(m: Message)
    requires Printable(m)
    ensures RequestLine(FirstLine(m)) == Ok(Parsed(m.verb, m.path, LastWins(m.query), map[]))
  {
    hide Split, Join, Separable, FirstLine;
    SplitFirstLine(m);
    var t := Target(m);
    if m.query == [] {
      SeparableChar(m.path, '?');
      SeparableFind(m.path, "?", "");
    } else {
      QueryRecovered(m.query);
      FindChar(t, |m.path|, '?');
      assert t[..|m.path|] == m.path && t[|m.path| + 1..] == Join(PairTexts(m.query), "&");
    }
  }

  // ---------- The round trip ----------

  /**
   Whatever body follows, the server finds the end of the printed head, and the parser gives back the
   method, the path, the query with the last pair of each key, and the first field of each name among
   the first nine.
   */
  lemma ParseUndoesPrint(m: Message, body: string)
    requires Printable(m)
    ensures Find(Print(m) + body, BLANK_LINE, 0) == Some(|Print(m)| - 4)
    ensures Parse(Print(m) + body)
         == Ok(Parsed(m.verb, m.path, LastWins(m.query), FirstWins(FirstNine(m.headers))))
  {
    hide Find, Split, HeadersOf, RequestLine, Join, FirstWins, LastWins, Concat, FirstLine, HeaderText, HeadLine;
    var texts := HeaderTexts(m.headers);
    var lines := [FirstLine(m)] + texts;
    forall i | 0 <= i < |lines| ensures HeadLine(lines[i]) {
      if i == 0 {
        FirstLineIsLine(m);
      } else {
        HeaderTextIsLine(m.headers[i - 1]);
      }
    }
    assert Print(m) + body == Concat(lines) + (CRLF + body);
    BlankLineOfConcat(lines, body);
    LinesOfConcat(lines, body, MAX_LINES);
    RequestLineOfFirstLine(m);
    var nine := FirstNine(m.headers);
    assert lines[..|nine| + 1][1..] == texts[..|nine|] == HeaderTexts(nine);
    HeadersOfTexts(nine);
  }
}
