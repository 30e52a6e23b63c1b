/** What the server makes of requests that no careful client prints (micromamba/src/microserver.cpp:127-358). */
module RequestLaws {
  import opened Outcomes
  import opened Strings
  import opened Microserver
  import opened RequestPrinter
  import opened RequestHandler

  // ---------- The request line ----------

  /** The first line is accepted exactly when it has two spaces. */
  lemma RequestLineOkIff(line: string)
    ensures RequestLine(line).Ok? <==> multiset(line)[' '] == 2
    ensures RequestLine(line).Err? ==> RequestLine(line) == Err(BadRequestLine)
  {
    SplitCount(line, ' ', 3);
  }

  predicate IsPair(piece: string, key: string, value: string) {
    piece == key + "=" + value && '=' !in key && '=' !in value
  }

  lemma PairIsSplit(piece: string)
    ensures var parts := SplitAll(piece, "=");
            if |parts| == 2 then IsPair(piece, parts[0], parts[1]) else forall k, v :: !IsPair(piece, k, v)
    ensures forall k, v | IsPair(piece, k, v) :: SplitAll(piece, "=") == [k, v]
  {
    hide Split, Find, Separable;
    var parts := SplitAll(piece, "=");
    JoinSplit(piece, "=", |piece|);
    if |parts| == 2 {
      assert parts[1..] == [parts[1]] && Join(parts[1..], "=") == parts[1];
      forall k | 0 <= k < 2 ensures '=' !in parts[k] {
        SplitLeavesNone(piece, "=", |piece|, k);
        NotHere(parts[k], '=');
      }
    }
    forall k, v | IsPair(piece, k, v) ensures parts == [k, v] {
      SeparableChar(k, '=');
      SeparableChar(v, '=');
      assert [k, v][1..] == [v] && Join([k, v], "=") == k + "=" + v;
      SplitJoin([k, v], "=", |piece|);
    }
  }

  /** A key has the value of the last piece that is that key, one '=' and a value; other pieces say nothing. */
  lemma {:induction false} QueryValueIff(pieces: seq<string>, key: string, value: string)
    ensures key in QueryOf(pieces) && QueryOf(pieces)[key] == value
       <==> exists i | 0 <= i < |pieces| ::
              IsPair(pieces[i], key, value) && forall j, v | i < j < |pieces| :: !IsPair(pieces[j], key, v)
  {
    hide SplitAll, IsPair;
    if pieces == [] {
    } else {
      var n := |pieces| - 1;
      var front := pieces[..n];
      QueryValueIff(front, key, value);
      PairIsSplit(pieces[n]);
      assert forall i | 0 <= i < n :: front[i] == pieces[i];
      if exists v :: IsPair(pieces[n], key, v) {
        var v :| IsPair(pieces[n], key, v);
        assert QueryOf(pieces)[key] == v;
        assert forall w | IsPair(pieces[n], key, w) :: w == v by {
          forall w | IsPair(pieces[n], key, w) ensures w == v {
            assert [key, w] == [key, v] && [key, w][1] == [key, v][1];
          }
        }
      } else {
        assert key in QueryOf(pieces) <==> key in QueryOf(front);
        assert key in QueryOf(front) ==> QueryOf(pieces)[key] == QueryOf(front)[key];
      }
    }
  }

  // ---------- Header lines ----------

  lemma IsSpaceIff(c: char)
    ensures IsSpace(c) <==> c as int in {9, 10, 11, 12, 13, 32}
  {}

  /** However much white space stands behind the colon, it is no part of the value. */
  lemma HeaderWithSpaces(name: string, spaces: string, value: string)
    requires ':' !in name && value != "" && !IsSpace(value[0]) && forall i | 0 <= i < |spaces| :: IsSpace(spaces[i])
    ensures HeaderOf(name + ":" + spaces + value + "\r\n") == (ToLower(name), value)
  {
    var line := name + ":" + spaces + value + "\r\n";
    FindColon(name, spaces + value + "\r\n");
    assert line == name + ":" + (spaces + value + "\r\n");
    SkipAll(line, |name| + 1, |spaces|);
    var start := |name| + 1 + |spaces|;
    assert line[..|name|] == name && line[start] == value[0];
    EndOfLine(line, start);
    assert line[start..|line| - 2] == value;
  }

  lemma FindColon(name: string, rest: string)
    requires ':' !in name
    ensures Find(name + ":" + rest, ":", 0) == Some(|name|)
  {
    SeparableChar(name, ':');
    SeparableFind(name, ":", rest);
  }

  lemma {:induction false} SkipAll(s: string, i: nat, n: nat)
    requires i + n < |s| && (forall k | i <= k < i + n :: IsSpace(s[k])) && !IsSpace(s[i + n])
    ensures SkipSpaces(s, i) == i + n
    decreases n
  {
    if n == 0 {
    } else {
      SkipAll(s, i + 1, n - 1);
    }
  }

  /** A line without a colon is kept whole, under no name. */
  lemma HeaderWithoutColon(line: string)
    requires ':' !in line
    ensures HeaderOf(line) == ("", line)
  {
    NotHere(line, ':');
  }

  // ---------- What is refused ----------

  /** The characters up to the first line feed, which is there with a blank line. */
  function OpeningLine(content: string): string
    requires Contains(content, "\r\n\r\n")
  {
    var feed := Find(content, "\n", 0);
    if feed.None? then "" else content[..feed.value + 1]
  }

  /** Each refusal and the reason for it, in the order of the checks; a request with an empty first line is served. */
  lemma RefusedIff(content: string, chunks: seq<string>, routes: seq<Route>, stoll: string -> Option<int>)
    requires |content| <= BUFSIZE
    ensures var r := Serve(content, chunks, routes, stoll);
            && (r == Failed(BlankLineMissing) <==> !Contains(content, "\r\n\r\n"))
            && (r == Failed(BadRequestLine) <==>
                  Contains(content, "\r\n\r\n")
                  && |OpeningLine(content)| > 2 && multiset(OpeningLine(content))[' '] != 2)
  {
    hide Find, RequestLine, HeadersOf, Body;
    if Contains(content, "\r\n\r\n") {
      RequestLineOkIff(OpeningLine(content));
    }
  }

  /** A POST is refused for its length field exactly when that is missing or no number, and waits while it promises more. */
  lemma PostWaitsIff(content: string, chunks: seq<string>, routes: seq<Route>, stoll: string -> Option<int>)
    requires |content| <= BUFSIZE && Contains(content, "\r\n\r\n") && Parse(content).Ok?
    ensures var r, request := Serve(content, chunks, routes, stoll), Parse(content).value;
            var field := if "content-length" in request.headers then request.headers["content-length"] else "";
            var first := content[Find(content, "\r\n\r\n", 0).value + 4..];
            && (r == Failed(BadContentLength) <==> request.verb == "POST" && stoll(field).None?)
            && (r == Waiting <==>
                  request.verb == "POST" && stoll(field).Some? && |first + Concat(chunks)| < stoll(field).value)
            && (request.verb != "POST" ==> r.Served? && r.turn.body == "")
  {
    hide Find, Parse, Body, FirstRoute;
    var request := Parse(content).value;
    var field := if "content-length" in request.headers then request.headers["content-length"] else "";
    var first := content[Find(content, "\r\n\r\n", 0).value + 4..];
    if stoll(field).Some? {
      BodyMissingIff(first, stoll(field).value, chunks);
    }
  }

  lemma {:induction false} BodyMissingIff(first: string, declared: int, chunks: seq<string>)
    ensures Body(first, declared, chunks).None? <==> |first + Concat(chunks)| < declared
    decreases |chunks|
  {
    if chunks == [] {
    } else {
      assert first + chunks[0] + Concat(chunks[1..]) == first + Concat(chunks);
      BodyMissingIff(first + chunks[0], declared, chunks[1..]);
    }
  }
}
