/**
 The server's answers (micromamba/src/microserver.cpp:60-82, 225-250, 352-408): what a route or a missing
 one makes of the response, and the text it is sent as (section 6 of RFC 1945).
 */
module ResponsePrinter {
  import opened Outcomes
  import opened Strings
  import opened Decimals
  import opened Microserver
  import opened RequestPrinter
  import opened RequestHandler

  datatype Reply = Reply(code: nat, phrase: string, contentType: string, date: string, body: string)

  /** What a route's callback leaves of the reply, and the text of its exception if it raises. */
  type Callback = (Turn, Reply) -> (Reply, Option<string>)

  function Blank(date: string): Reply {
    Reply(200, "OK", "text/html", date, "")
  }

  predicate Routed(turn: Turn, callbacks: seq<Callback>) {
    turn.route.Some? ==> turn.route.value < |callbacks|
  }

  function Answer(turn: Turn, callbacks: seq<Callback>, date: string): Reply
    requires Routed(turn, callbacks)
  {
    match turn.route
    case None => Blank(date).(code := 404, phrase := "Not Found", contentType := "text/plain", body := "Not found")
    case Some(i) =>
      var (left, raised) := callbacks[i](turn, Blank(date));
      match raised
      case None => left
      case Some(what) => left.(code := 500, body := left.body + "Internal server error. " + what)
  }

  /**
   Without a route the reply is the page for none. With one it is what the callback leaves of a reply that says 200 and
   OK, except that an exception sets the code, not the phrase, and adds its text to the body.
   */
  lemma ServerErrorIff(turn: Turn, callbacks: seq<Callback>, date: string)
    requires Routed(turn, callbacks)
    ensures var r := Answer(turn, callbacks, date);
            match turn.route
            case None => r == Reply(404, "Not Found", "text/plain", date, "Not found")
            case Some(i) =>
              var (left, raised) := callbacks[i](turn, Reply(200, "OK", "text/html", date, ""));
              && (r.code == 500 <==> raised.Some? || left.code == 500)
              && (raised.None? ==> r == left)
              && (raised.Some? ==> r.body == left.body + "Internal server error. " + raised.value)
              && r.phrase == left.phrase && r.contentType == left.contentType && r.date == left.date
  {
    if turn.route.Some? {
      var (left, raised) := callbacks[turn.route.value](turn, Blank(date));
      match raised
      case None =>
      case Some(_) =>
    }
  }

  function StatusLine(r: Reply): string {
    "HTTP/1.0 " + Decimal(r.code) + " " + r.phrase + CRLF
  }

  function Fields(r: Reply, version: string): seq<(string, string)> {
    [("Server", "micromamba " + version), ("Date", r.date), ("Content-Type", r.contentType),
     ("Content-Length", Decimal(|r.body|))]
  }

  function Head(r: Reply, version: string): seq<string> {
    [StatusLine(r)] + HeaderTexts(Fields(r, version))
  }

  /** The head, the blank line, the body. */
  function Frame(r: Reply, version: string): string {
    Concat(Head(r, version)) + (CRLF + r.body)
  }

  class Response {
    var code: nat
    var phrase: string
    var contentType: string
    var date: string
    var body: string

    function View(): Reply
      reads this
    {
      Reply(code, phrase, contentType, date, body)
    }

    constructor (now: string)
      ensures View() == Blank(now)
    {
      code, phrase, contentType, date, body := 200, "OK", "text/html", now, "";
    }

    method Send(text: string)
      modifies this`body
      ensures body == old(body) + text
    {
      body := body + text;
    }

    /** The callback of the route that matches, or the page for none. */
    method AnswerTurn(turn: Turn, callbacks: seq<Callback>)
      requires Routed(turn, callbacks) && View() == Blank(date)
      modifies this
      ensures View() == Answer(turn, callbacks, old(date))
    {
      if turn.route.Some? {
        var (left, raised) := callbacks[turn.route.value](turn, View());
        code, phrase, contentType, date, body := left.code, left.phrase, left.contentType, left.date, left.body;
        if raised.Some? {
          code := 500;
          Send("Internal server error. " + raised.value);
          assert left.body + ("Internal server error. " + raised.value)
              == left.body + "Internal server error. " + raised.value;
        }
      } else {
        code, phrase, contentType := 404, "Not Found", "text/plain";
        Send("Not found");
      }
    }

    /** The two writes of the main loop: head and body. */
    method Write(version: string) returns (text: string)
      ensures text == Frame(View(), version)
    {
      var length := |body|;
      var buffer := "HTTP/1.0 " + Decimal(code) + " " + phrase + CRLF;
      buffer := buffer + ("Server: " + "micromamba " + version + CRLF);
      buffer := buffer + ("Date: " + date + CRLF);
      buffer := buffer + ("Content-Type: " + contentType + CRLF);
      buffer := buffer + ("Content-Length: " + Decimal(length) + CRLF);
      FiveLines(View(), version);
      text := buffer + CRLF;
      text := text + body;
    }
  }

  lemma FiveLines(r: Reply, version: string)
    ensures Concat(Head(r, version))
         == StatusLine(r) + ("Server: " + "micromamba " + version + CRLF) + ("Date: " + r.date + CRLF)
            + ("Content-Type: " + r.contentType + CRLF) + ("Content-Length: " + Decimal(|r.body|) + CRLF)
  {
    hide Concat;
    var fields := Fields(r, version);
    var a, b, c, d, e := StatusLine(r), HeaderText(fields[0]), HeaderText(fields[1]), HeaderText(fields[2]),
                         HeaderText(fields[3]);
    assert Head(r, version) == [a, b, c, d, e];
    ConcatFive(a, b, c, d, e);
    assert "Server" + ": " == "Server: " && "Date" + ": " == "Date: ";
    assert "Content-Type" + ": " == "Content-Type: " && "Content-Length" + ": " == "Content-Length: ";
    assert "Server: " + ("micromamba " + version) == "Server: " + "micromamba " + version;
  }

  lemma ConcatFive(a: string, b: string, c: string, d: string, e: string)
    ensures Concat([a, b, c, d, e]) == a + b + c + d + e
  {
    assert [a, b, c, d, e][1..] == [b, c, d, e] && [b, c, d, e][1..] == [c, d, e];
    assert [c, d, e][1..] == [d, e] && [d, e][1..] == [e];
    assert Concat([e]) == e && Concat([d, e]) == d + e;
    assert Concat([c, d, e]) == c + (d + e);
    assert Concat([b, c, d, e]) == b + (c + (d + e));
  }

  // ---------- What a client reads ----------

  /** No field runs over its line. */
  predicate Sendable(r: Reply, version: string) {
    NoneOf(r.phrase, "\n") && forall i | 0 <= i < 4 :: PlainHeader(Fields(r, version)[i])
  }

  lemma FieldNames()
    ensures ToLower("Server") == "server" && ToLower("Date") == "date"
    ensures ToLower("Content-Type") == "content-type" && ToLower("Content-Length") == "content-length"
  {}

  lemma FieldsByName(r: Reply, version: string)
    ensures FirstWins(Fields(r, version))
         == map["server" := "micromamba " + version, "date" := r.date, "content-type" := r.contentType,
                "content-length" := Decimal(|r.body|)]
  {
    FieldNames();
    var f := Fields(r, version);
    assert f[1..][1..] == f[2..] && f[2..][1..] == f[3..] && f[3..][1..] == [];
    assert FirstWins(f[3..]) == map["content-length" := Decimal(|r.body|)];
    assert FirstWins(f[2..]) == FirstWins(f[3..])["content-type" := r.contentType];
    assert FirstWins(f[1..]) == FirstWins(f[2..])["date" := r.date];
  }

  lemma StatusIsLine(r: Reply)
    requires NoneOf(r.phrase, "\n")
    ensures HeadLine(StatusLine(r))
  {
    DecimalIsDigits(r.code);
    var l := StatusLine(r);
    var front := "HTTP/1.0 " + Decimal(r.code) + " ";
    forall i | 0 <= i < |l| - 1 ensures l[i] != '\n' {
      if |front| <= i < |front| + |r.phrase| {
        assert l[i] == r.phrase[i - |front|];
      }
    }
  }

  lemma HeadLinesOk(r: Reply, version: string)
    requires Sendable(r, version)
    ensures forall i | 0 <= i < |Head(r, version)| :: HeadLine(Head(r, version)[i])
  {
    hide HeadLine, StatusLine, HeaderText, PlainHeader, Decimal;
    var fields, lines := Fields(r, version), Head(r, version);
    StatusIsLine(r);
    forall i | 0 <= i < |lines| ensures HeadLine(lines[i]) {
      if i > 0 {
        HeaderTextIsLine(fields[i - 1]);
      }
    }
  }

  /** The head says the code and phrase, and the four fields by name. */
  lemma HeadSays(r: Reply, version: string)
    requires Sendable(r, version)
    ensures Head(r, version)[0] == "HTTP/1.0 " + Decimal(r.code) + " " + r.phrase + "\r\n"
    ensures HeadersOf(Head(r, version)[1..])
         == map["server" := "micromamba " + version, "date" := r.date, "content-type" := r.contentType,
                "content-length" := Decimal(|r.body|)]
  {
    hide HeadersOf, FirstWins, PlainHeader, Decimal, HeaderText;
    var fields := Fields(r, version);
    assert Head(r, version)[1..] == HeaderTexts(fields);
    HeadersOfTexts(fields);
    FieldsByName(r, version);
  }

  lemma LengthSays(n: nat)
    ensures ReadNumber(Decimal(n), |Decimal(n)|) == n
  {
    hide ReadNumber, Decimal;
    ReadDecimal("", n, "");
    assert "" + Decimal(n) + "" == Decimal(n);
  }

  /**
   A client that looks for the blank line, takes the fields of the head and reads as many characters as the
   length field says has exactly the body, and nothing is left.
   */
  lemma FramingRecovered(r: Reply, version: string)
    requires Sendable(r, version)
    ensures var text := Frame(r, version);
            var lines := HeaderLines(text, MAX_LINES);
            && lines != [] && lines[0] == "HTTP/1.0 " + Decimal(r.code) + " " + r.phrase + "\r\n"
            && HeadersOf(lines[1..])
               == map["server" := "micromamba " + version, "date" := r.date, "content-type" := r.contentType,
                      "content-length" := Decimal(|r.body|)]
            && ReadNumber(Decimal(|r.body|), |Decimal(|r.body|)|) == |r.body|
            && Find(text, "\r\n\r\n", 0) == Some(|text| - |r.body| - 4)
            && text[|text| - |r.body|..] == r.body
  {
    hide Find, HeadersOf, HeaderLines, HeadLine, Concat, Head, Decimal, ReadNumber, Sendable;
    var lines := Head(r, version);
    HeadLinesOk(r, version);
    HeadSays(r, version);
    LengthSays(|r.body|);
    FiveInHead(r, version);
    BlankLineOfConcat(lines, r.body);
    LinesOfConcat(lines, r.body, MAX_LINES);
    assert lines[..5] == lines;
    CutFrame(Concat(lines), r.body);
  }

  lemma FiveInHead(r: Reply, version: string)
    ensures |Head(r, version)| == 5
  {}

  lemma CutFrame(head: string, body: string)
    ensures var text := head + (CRLF + body);
            |text| == |head| + 2 + |body| && text[|head| + 2..] == body
  {}
}
