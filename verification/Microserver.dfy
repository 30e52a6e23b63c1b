/**
 The HTTP/1.0 server of micromamba/src/microserver.cpp: header scanner, header parser, body reader
 and routing, with a printer of requests (sections 4.2 and 5.1 of RFC 1945) that the parser undoes.
 */
module Microserver {
  import opened Outcomes
  import opened Strings

  const CRLF: string := "\r\n"
  const BLANK_LINE: string := "\r\n\r\n"
  /** std::size_t arithmetic wraps below zero. */
  const SIZE_RANGE: int := 0x1_0000_0000_0000_0000
  const MAX_LINES: nat := 10

  function SizeSub(a: nat, b: nat): nat
    requires b <= a + SIZE_RANGE
  {
    if b <= a then a - b else a - b + SIZE_RANGE
  }

  function Substr(s: string, pos: nat, count: nat): string
    requires pos <= |s|
  {
    if pos + count <= |s| then s[pos..pos + count] else s[pos..]
  }

  predicate IsSpace(c: char) {
    c == ' ' || '\t' <= c <= '\r'
  }

  function ToLower(s: string): (r: string)
    ensures |r| == |s|
    ensures forall i | 0 <= i < |s| :: r[i] == if 'A' <= s[i] <= 'Z' then s[i] + 32 as char else s[i]
  {
    seq(|s|, i requires 0 <= i < |s| => if 'A' <= s[i] <= 'Z' then s[i] + 32 as char else s[i])
  }

  datatype Error = BlankLineMissing | BadRequestLine | BadContentLength

  /** The fields of a request that the parser fills. */
  datatype Parsed = Parsed(verb: string, path: string, query: map<string, string>, headers: map<string, string>)

  // ---------- What is parsed ----------

  /** The first `max` lines, each with its line feed, up to the first one of two characters or fewer. */
  function HeaderLines(s: string, max: nat): seq<string> {
    var found := Find(s, "\n", 0);
    if max == 0 || found.None? || found.value + 1 <= 2 then []
    else [s[..found.value + 1]] + HeaderLines(s[found.value + 1..], max - 1)
  }

  function QueryOf(pieces: seq<string>): map<string, string> {
    if pieces == [] then map[]
    else
      var before, pair := QueryOf(pieces[..|pieces| - 1]), SplitAll(pieces[|pieces| - 1], "=");
      if |pair| == 2 then before[pair[0] := pair[1]] else before
  }

  function SplitAll(s: string, sep: string): (r: seq<string>)
    requires sep != ""
    ensures |r| >= 1
  {
    Split(s, sep, |s|)
  }

  function RequestLine(line: string): (r: Result<Parsed, Error>)
    ensures r.Ok? ==> r.value.headers == map[]
  {
    var words := Split(line, " ", 3);
    if |words| != 3 then Err(BadRequestLine)
    else
      var mark := Find(words[1], "?", 0);
      if mark.None? then Ok(Parsed(words[0], words[1], map[], map[]))
      else Ok(Parsed(words[0], words[1][..mark.value], QueryOf(SplitAll(words[1][mark.value + 1..], "&")), map[]))
  }

  /** First position from `i` on that holds no white space; past the end stands the string's NUL. */
  function SkipSpaces(s: string, i: nat): (r: nat)
    requires i <= |s|
    ensures i <= r <= |s|
    decreases |s| - i
  {
    if i < |s| && IsSpace(s[i]) then SkipSpaces(s, i + 1) else i
  }

  function HeaderOf(line: string): (string, string)
  {
    var colon := Find(line, ":", 0);
    if colon.None? then ("", line)
    else
      var start := SkipSpaces(line, colon.value + 1);
      (ToLower(line[..colon.value]), Substr(line, start, SizeSub(|line|, start + 2)))
  }

  /** std::map::insert: an entry that is already there wins. */
  function InsertHeader(headers: map<string, string>, entry: (string, string)): map<string, string> {
    if entry.0 in headers then headers else headers[entry.0 := entry.1]
  }

  function HeadersOf(lines: seq<string>): map<string, string> {
    if lines == [] then map[]
    else InsertHeader(HeadersOf(lines[..|lines| - 1]), HeaderOf(lines[|lines| - 1]))
  }

  function Parse(content: string): Result<Parsed, Error> {
    var lines := HeaderLines(content, MAX_LINES);
    if lines == [] then Ok(Parsed("", "", map[], map[]))
    else
      match RequestLine(lines[0])
      case Err(e) => Err(e)
      case Ok(p) => Ok(p.(headers := HeadersOf(lines[1..])))
  }

  // ---------- The parser, step by step ----------

  method ParseHeader(header: string) returns (entry: (string, string))
    ensures entry == HeaderOf(header)
  {
    var colon := Find(header, ":", 0);
    if colon.None? {
      return ("", header);
    }
    var colonIdx := colon.value + 1;
    while colonIdx < |header| && IsSpace(header[colonIdx])
      invariant colonIdx <= |header|
      invariant SkipSpaces(header, colonIdx) == SkipSpaces(header, colon.value + 1)
    {
      colonIdx := colonIdx + 1;
    }
    var value := Substr(header, colonIdx, SizeSub(|header|, colonIdx + 2));
    return (ToLower(header[..colon.value]), value);
  }

  method ParseQuery(text: string) returns (query: map<string, string>)
    ensures query == QueryOf(SplitAll(text, "&"))
  {
    var pieces := SplitLoop(text, "&", |text|);
    query := map[];
    for q := 0 to |pieces|
      invariant query == QueryOf(pieces[..q])
    {
      assert pieces[..q + 1][..q] == pieces[..q];
      var pair := SplitLoop(pieces[q], "=", |pieces[q]|);
      if |pair| == 2 {
        query := query[pair[0] := pair[1]];
      }
    }
    assert pieces[..|pieces|] == pieces;
  }

  class Request {
    var verb: string
    var path: string
    var query: map<string, string>
    var headers: map<string, string>
    var body: string

    constructor ()
      ensures Value() == Parsed("", "", map[], map[]) && body == ""
    {
      verb, path, query, headers, body := "", "", map[], map[], "";
    }

    ghost function Value(): Parsed
      reads this
    {
      Parsed(verb, path, query, headers)
    }

    method ParseRequestLine(line: string) returns (r: Result<(), Error>)
      requires Value() == Parsed("", "", map[], map[])
      modifies this`verb, this`path, this`query
      ensures match RequestLine(line)
              case Err(e) => r == Err(e) && Value() == old(Value())
              case Ok(p) => r == Ok(()) && Value() == p
    {
      var words := SplitLoop(line, " ", 3);
      if |words| != 3 {
        return Err(BadRequestLine);
      }
      verb, path := words[0], words[1];
      var pos := Find(path, "?", 0);
      if pos.Some? {
        query := ParseQuery(path[pos.value + 1..]);
        path := path[..pos.value];
      }
      return Ok(());
    }

    /**
     The scanning loop. Its caller has found a blank line; `delims` lists every line end it looked up,
     None standing for `npos`.
     */
    method ParseHeaders(content: string) returns (r: Result<(), Error>, ghost delims: seq<Option<nat>>)
      requires Contains(content, BLANK_LINE)
      requires Value() == Parsed("", "", map[], map[])
      modifies this`verb, this`path, this`query, this`headers
      ensures match Parse(content)
              case Err(e) => r == Err(e)
              case Ok(p) => r == Ok(()) && Value() == p
      ensures r.Ok? ==> delims == Delims(content, 0, MAX_LINES)
    {
      hide Find, OccursAt, Split, HeaderLines, HeadersOf, HeaderOf, RequestLine, Delims, Fields;
      ghost var h := Find(content, BLANK_LINE, 0).value;
      ghost var lines := HeaderLines(content, MAX_LINES);
      var i, start := 0, 0;
      ScanStep(content, h, 0);
      var delimPos := Find(content, "\n", 0);
      var line := content[..delimPos.value + 1];
      delims := [];
      FieldsNone(lines);
      assert content[0..] == content;
      while |line| > 2 && i < MAX_LINES
        invariant 0 <= start <= h + 2 && i <= |lines| && i <= MAX_LINES
        invariant delimPos == Find(content, "\n", start)
        invariant delimPos.Some? && delimPos.value < |content|
        invariant line == content[start..delimPos.value + 1]
        invariant lines[i..] == HeaderLines(content[start..], MAX_LINES - i)
        invariant i > 0 ==> RequestLine(lines[0]).Ok?
        invariant Value() == Fields(lines, i)
        invariant delims + Delims(content, start, MAX_LINES - i) == Delims(content, 0, MAX_LINES)
        decreases MAX_LINES - i
      {
        ScanStep(content, h, start);
        LinesStep(content, start, MAX_LINES - i);
        assert lines[i] == lines[i..][0] == line;
        assert lines[i + 1..] == lines[i..][1..];
        SeqAssoc(delims, [delimPos], Delims(content, delimPos.value + 1, MAX_LINES - i - 1));
        delims := delims + [delimPos];
        i := i + 1;
        if i == 1 {
          var done := ParseRequestLine(line);
          if done.Err? {
            return Err(done.error), delims;
          }
          FieldsStep(lines, 0);
        } else {
          var entry := ParseHeader(line);
          FieldsStep(lines, i - 1);
          headers := InsertHeader(headers, entry);
        }
        start := delimPos.value + 1;
        ScanStep(content, h, start);
        delimPos := Find(content, "\n", start);
        line := content[start..delimPos.value + 1];
      }
      LinesStop(content, start, MAX_LINES - i);
      delims := delims + [delimPos];
      assert i == |lines|;
      FieldsAll(lines);
      r := Ok(());
    }
  }

  // ---------- The scanner never leaves the header ----------

  /** Every line end the scanner looks up, from `start` on, with at most `max` lines. */
  ghost function Delims(s: string, start: nat, max: nat): seq<Option<nat>>
    decreases max
  {
    var d := Find(s, "\n", start);
    if d.None? || d.value + 1 - start <= 2 || max == 0 then [d]
    else [d] + Delims(s, d.value + 1, max - 1)
  }

  lemma ScanStep(s: string, h: nat, start: nat)
    requires OccursAt(s, BLANK_LINE, h) && start <= h + 2
    ensures var d := Find(s, "\n", start);
            d.Some? && d.value < |s| && d.value <= h + 3 && (d.value + 1 - start > 2 ==> d.value + 1 <= h + 2)
  {
    assert s[h..h + 4][1] == '\n' && s[h..h + 4][2] == '\r' && s[h..h + 4][3] == '\n';
    assert OccursAt(s, "\n", h + 1) && OccursAt(s, "\n", h + 3);
    var d := Find(s, "\n", start);
    if start == h + 2 {
      assert !OccursAt(s, "\n", h + 2);
    }
  }

  /**
   With a blank line at `h` no line end is `npos`, each lies behind the one before, none lies past `h + 3`,
   and there are at most eleven of them.
   */
  lemma {:induction false} ScanStaysInside(s: string, h: nat, start: nat, max: nat)
    requires OccursAt(s, BLANK_LINE, h) && start <= h + 2
    ensures var ds := Delims(s, start, max);
            && 1 <= |ds| <= max + 1
            && (forall i | 0 <= i < |ds| :: ds[i].Some? && start <= ds[i].value <= h + 3)
            && (forall i, j | 0 <= i < j < |ds| :: ds[i].value < ds[j].value)
    decreases max
  {
    ScanStep(s, h, start);
    var d := Find(s, "\n", start);
    if d.value + 1 - start > 2 && max > 0 {
      ScanStaysInside(s, h, d.value + 1, max - 1);
    }
  }

  /** The fields of the request once the first `i` of the lines are taken. */
  ghost function Fields(lines: seq<string>, i: nat): Parsed
    requires i <= |lines| && (i > 0 ==> RequestLine(lines[0]).Ok?)
  {
    if i == 0 then Parsed("", "", map[], map[])
    else RequestLine(lines[0]).value.(headers := HeadersOf(lines[1..i]))
  }

  lemma FieldsNone(lines: seq<string>)
    ensures Fields(lines, 0) == Parsed("", "", map[], map[])
  {}

  lemma FieldsStep(lines: seq<string>, i: nat)
    requires i < |lines| && RequestLine(lines[0]).Ok?
    ensures i == 0 ==> Fields(lines, 1) == RequestLine(lines[0]).value
    ensures var f := Fields(lines, i);
            i > 0 ==> Fields(lines, i + 1) == f.(headers := InsertHeader(f.headers, HeaderOf(lines[i])))
  {
    hide RequestLine, HeaderOf, InsertHeader;
    if i > 0 {
      assert lines[1..i + 1][..i - 1] == lines[1..i];
    }
  }

  lemma FieldsAll(lines: seq<string>)
    requires lines != [] ==> RequestLine(lines[0]).Ok?
    ensures Fields(lines, |lines|) == if lines == [] then Parsed("", "", map[], map[])
                                      else RequestLine(lines[0]).value.(headers := HeadersOf(lines[1..]))
  {
    hide RequestLine;
    assert lines != [] ==> lines[1..|lines|] == lines[1..];
  }

  lemma LinesStep(s: string, start: nat, max: nat)
    requires start <= |s| && max > 0
    requires var d := Find(s, "\n", start); d.Some? && d.value + 1 - start > 2
    ensures var d := Find(s, "\n", start).value;
            HeaderLines(s[start..], max) == [s[start..d + 1]] + HeaderLines(s[d + 1..], max - 1)
    ensures Delims(s, start, max)
         == [Find(s, "\n", start)] + Delims(s, Find(s, "\n", start).value + 1, max - 1)
  {
    hide OccursAt;
    var d := Find(s, "\n", start).value;
    SuffixFind(s, start, d);
    assert s[start..][..d - start + 1] == s[start..d + 1];
    assert s[start..][d - start + 1..] == s[d + 1..];
  }

  lemma LinesStop(s: string, start: nat, max: nat)
    requires start <= |s|
    requires var d := Find(s, "\n", start); d.Some? && (d.value + 1 - start <= 2 || max == 0)
    ensures HeaderLines(s[start..], max) == []
    ensures Delims(s, start, max) == [Find(s, "\n", start)]
  {
    SuffixFind(s, start, Find(s, "\n", start).value);
  }

  lemma FindInside(s: string, start: nat)
    ensures var found := Find(s, "\n", start); found.Some? ==> start <= found.value < |s|
  {}

  lemma SuffixFind(s: string, start: nat, d: nat)
    requires start <= |s| && Find(s, "\n", start) == Some(d)
    ensures start <= d < |s| && Find(s[start..], "\n", 0) == Some(d - start)
  {
    hide Find;
    FindInside(s, start);
    hide OccursAt;
    OccursInSuffix(s, "\n", start, d - start);
    forall k | 0 <= k < d - start ensures !OccursAt(s[start..], "\n", k) {
      OccursInSuffix(s, "\n", start, k);
    }
    FindIs(s[start..], "\n", d - start);
  }
}
