/**
 One turn of the server's main loop (micromamba/src/microserver.cpp): find the head, parse it, read
 the body as declared (section 10.4 of RFC 1945), pick the route.
 */
module RequestHandler {
  import opened Outcomes
  import opened Strings
  import opened Microserver
  import opened RequestPrinter

  const BUFSIZE: nat := 8096

  datatype Route = Route(path: string, verb: string)

  /** What the routes see of a request; the answer is 404 when `route` is None. */
  datatype Turn = Turn(request: Parsed, body: string, route: Option<nat>)

  /** Waiting: the declared length is not reached and no more data has come. */
  datatype Outcome = Served(turn: Turn) | Waiting | Failed(error: Error)

  // ---------- What a turn means ----------

  predicate Matches(route: Route, verb: string, path: string) {
    route.path == path && (route.verb == verb || route.verb == "ALL")
  }

  function FirstRoute(routes: seq<Route>, verb: string, path: string, from: nat): (r: Option<nat>)
    ensures r.Some? ==> from <= r.value < |routes| && Matches(routes[r.value], verb, path)
    ensures forall i | from <= i < (if r.Some? then r.value else |routes|) :: !Matches(routes[i], verb, path)
    decreases |routes| - from
  {
    if from >= |routes| then None
    else if Matches(routes[from], verb, path) then Some(from)
    else FirstRoute(routes, verb, path, from + 1)
  }

  /** The least route whose path is the one asked for and whose method is, or is the word for all methods. */
  predicate IsFirstFit(routes: seq<Route>, verb: string, path: string, r: Option<nat>) {
    match r
    case None => forall i | 0 <= i < |routes| :: routes[i].path != path || routes[i].verb !in {verb, "ALL"}
    case Some(i) =>
      && i < |routes| && routes[i].path == path && routes[i].verb in {verb, "ALL"}
      && forall k | 0 <= k < i :: routes[k].path != path || routes[k].verb !in {verb, "ALL"}
  }

  /** `first` and as many of the later reads as the declared length needs. */
  function Body(first: string, declared: int, chunks: seq<string>): Option<string>
    decreases |chunks|
  {
    if |first| >= declared then Some(first)
    else if chunks == [] then None
    else Body(first + chunks[0], declared, chunks[1..])
  }

  function Serve(content: string, chunks: seq<string>, routes: seq<Route>, stoll: string -> Option<int>): Outcome
    requires |content| <= BUFSIZE
  {
    var end := Find(content, BLANK_LINE, 0);
    if end.None? then Failed(BlankLineMissing)
    else
      match Parse(content)
      case Err(e) => Failed(e)
      case Ok(p) =>
        var route := FirstRoute(routes, p.verb, p.path, 0);
        if p.verb != "POST" then Served(Turn(p, "", route))
        else
          var declared := stoll(if "content-length" in p.headers then p.headers["content-length"] else "");
          if declared.None? then Failed(BadContentLength)
          else
            var body := Body(content[end.value + 4..], declared.value, chunks);
            if body.None? then Waiting else Served(Turn(p, body.value, route))
  }

  // ---------- The turn, step by step ----------

  method MatchRoute(routes: seq<Route>, verb: string, path: string) returns (r: Option<nat>)
    ensures r == FirstRoute(routes, verb, path, 0) && IsFirstFit(routes, verb, path, r)
  {
    for i := 0 to |routes|
      invariant FirstRoute(routes, verb, path, 0) == FirstRoute(routes, verb, path, i)
    {
      if routes[i].path == path && (routes[i].verb == verb || routes[i].verb == "ALL") {
        return Some(i);
      }
    }
    return None;
  }

  /** The remainder and the body always add up to the declared length. */
  method ReadBody(first: string, declared: int, chunks: seq<string>) returns (r: Option<string>)
    ensures r == Body(first, declared, chunks)
  {
    var body, k := first, 0;
    var remainder := declared - |body|;
    while remainder > 0
      invariant k <= |chunks|
      invariant remainder + |body| == declared
      invariant Body(body, declared, chunks[k..]) == Body(first, declared, chunks)
      decreases |chunks| - k
    {
      if k == |chunks| {
        return None;
      }
      assert chunks[k..][1..] == chunks[k + 1..];
      body := body + chunks[k];
      remainder := remainder - |chunks[k]|;
      k := k + 1;
    }
    return Some(body);
  }

  method HandleConnection(content: string, chunks: seq<string>, routes: seq<Route>, stoll: string -> Option<int>)
    returns (r: Outcome)
    requires |content| <= BUFSIZE
    ensures r == Serve(content, chunks, routes, stoll)
  {
    hide Find, Parse, FirstRoute;
    var request := new Request();
    var headerEnd := Find(content, BLANK_LINE, 0);
    if headerEnd.None? {
      return Failed(BlankLineMissing);
    }
    var parsed, _ := request.ParseHeaders(content);
    if parsed.Err? {
      return Failed(parsed.error);
    }
    if request.verb == "POST" {
      var end := headerEnd.value + 4;
      var body := Substr(content, end, SizeSub(BUFSIZE, end));
      assert body == content[end..];
      var declared := stoll(if "content-length" in request.headers then request.headers["content-length"] else "");
      if declared.None? {
        return Failed(BadContentLength);
      }
      if declared.value - |body| > 0 {
        var whole := ReadBody(body, declared.value, chunks);
        if whole.None? {
          return Waiting;
        }
        body := whole.value;
      }
      request.body := body;
    }
    var route := MatchRoute(routes, request.verb, request.path);
    return Served(Turn(Parsed(request.verb, request.path, request.query, request.headers), request.body, route));
  }

  // ---------- Bodies ----------

  /** The body is the shortest run of reads that reaches the declared length; the last read may overshoot. */
  lemma {:induction false} BodyIsShortest(first: string, declared: int, chunks: seq<string>) returns (k: nat)
    requires Body(first, declared, chunks).Some?
    ensures k <= |chunks|
    ensures Body(first, declared, chunks).value == first + Concat(chunks[..k])
    ensures |first + Concat(chunks[..k])| >= declared
    ensures forall j | 0 <= j < k :: |first + Concat(chunks[..j])| < declared
    decreases |chunks|
  {
    if |first| >= declared {
      k := 0;
      assert first + Concat(chunks[..0]) == first;
    } else {
      var n := BodyIsShortest(first + chunks[0], declared, chunks[1..]);
      k := n + 1;
      forall j | 0 <= j <= n ensures first + Concat(chunks[..j + 1]) == first + chunks[0] + Concat(chunks[1..][..j]) {
        assert chunks[..j + 1][1..] == chunks[1..][..j];
      }
      forall j | 0 <= j < k ensures |first + Concat(chunks[..j])| < declared {
        if j == 0 {
          assert first + Concat(chunks[..0]) == first;
        } else {
          assert first + Concat(chunks[..j]) == first + chunks[0] + Concat(chunks[1..][..j - 1]);
        }
      }
    }
  }

  /** A body of the declared length comes out whole, however it is cut into non-empty reads. */
  lemma {:induction false} BodyReassembled(first: string, declared: int, chunks: seq<string>)
    requires forall i | 0 <= i < |chunks| :: chunks[i] != ""
    requires |first + Concat(chunks)| == declared
    ensures Body(first, declared, chunks) == Some(first + Concat(chunks))
    decreases |chunks|
  {
    if chunks == [] {
      assert first + Concat(chunks) == first;
    } else {
      assert first + chunks[0] + Concat(chunks[1..]) == first + Concat(chunks);
      assert |Concat(chunks)| >= |chunks[0]| > 0;
      BodyReassembled(first + chunks[0], declared, chunks[1..]);
    }
  }

  /**
   A printed POST request whose length field tells the truth is served with exactly the body sent: the
   first read holds the head and any part of the body, later reads the rest.
   */
  lemma PostDelivered(m: Message, first: string, chunks: seq<string>, routes: seq<Route>, stoll: string -> Option<int>)
    requires Printable(m) && m.verb == "POST" && |Print(m) + first| <= BUFSIZE
    requires forall i | 0 <= i < |chunks| :: chunks[i] != ""
    requires "content-length" in FirstWins(FirstNine(m.headers))
    requires stoll(FirstWins(FirstNine(m.headers))["content-length"]) == Some(|first + Concat(chunks)|)
    ensures var r := Serve(Print(m) + first, chunks, routes, stoll);
            && r.Served? && r.turn.body == first + Concat(chunks)
            && r.turn.request == Parsed("POST", m.path, LastWins(m.query), FirstWins(FirstNine(m.headers)))
            && IsFirstFit(routes, "POST", m.path, r.turn.route)
  {
    hide Find, Parse, FirstWins, LastWins, Printable, FirstRoute, Concat, Print;
    ParseUndoesPrint(m, first);
    assert (Print(m) + first)[|Print(m)|..] == first;
    BodyReassembled(first, |first + Concat(chunks)|, chunks);
  }

  /** Every other method is routed alike, and has no body, whatever stands behind the head. */
  lemma OtherDelivered(m: Message, rest: string, chunks: seq<string>, routes: seq<Route>, stoll: string -> Option<int>)
    requires Printable(m) && m.verb != "POST" && |Print(m) + rest| <= BUFSIZE
    ensures var r := Serve(Print(m) + rest, chunks, routes, stoll);
            && r.Served? && r.turn.body == ""
            && r.turn.request == Parsed(m.verb, m.path, LastWins(m.query), FirstWins(FirstNine(m.headers)))
            && IsFirstFit(routes, m.verb, m.path, r.turn.route)
  {
    hide Find, Parse, FirstWins, LastWins, Printable, FirstRoute, Concat, Print;
    ParseUndoesPrint(m, rest);
  }
}
