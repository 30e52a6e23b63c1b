/** libmamba/data/bin2header.py: a file's bytes as a C array, and a reader that gets them back. */
module Bin2Header {
  import opened Outcomes
  import opened Strings
  import opened Decimals

  type Byte = n: int | 0 <= n < 256

  // ---------- The printer ----------

  function HexByte(x: Byte): string {
    "0x" + [DIGITS[x / 16], DIGITS[x % 16]]
  }

  function HexBytes(chunk: seq<Byte>): (r: seq<string>)
    ensures |r| == |chunk| && forall i | 0 <= i < |chunk| :: r[i] == HexByte(chunk[i])
  {
    seq(|chunk|, i requires 0 <= i < |chunk| => HexByte(chunk[i]))
  }

  function Row(chunk: seq<Byte>): string {
    "  " + Join(HexBytes(chunk), ", ") + ","
  }

  /** Twelve bytes a row. */
  function Rows(data: seq<Byte>): seq<string>
    decreases |data|
  {
    if data == [] then []
    else if |data| <= 12 then [Row(data)]
    else [Row(data[..12])] + Rows(data[12..])
  }

  const NULL_ROW: string := "  0x00 // Terminating null byte"

  function HeadLines(comment: string, name: string, isExtern: bool): seq<string> {
    [comment, "#include <cstddef>"]
    + (if isExtern then ["extern const char " + name + "[];", "extern const std::size_t " + name + "_len;"] else [])
  }

  function Lines(comment: string, data: seq<Byte>, name: string, isExtern: bool): seq<string> {
    HeadLines(comment, name, isExtern) + ["const char " + name + "[] = {"]
    + Rows(data) + [NULL_ROW, "};", "const std::size_t " + name + "_len = " + Decimal(|data|) + ";"]
  }

  function Header(comment: string, data: seq<Byte>, name: string, isExtern: bool): string {
    Join(Lines(comment, data, name, isExtern), "\n")
  }

  // ---------- The reader ----------

  function DigitValue(c: char): Option<nat> {
    if '0' <= c <= '9' then Some(c as int - '0' as int)
    else if 'a' <= c <= 'f' then Some(c as int - 'a' as int + 10)
    else None
  }

  /** The hexadecimal constants of a line, up to a comment. */
  function ReadRow(s: string): seq<Byte> {
    if |s| < 2 || s[..2] == "//" then []
    else if s[..2] == "0x" && |s| >= 4 && DigitValue(s[2]).Some? && DigitValue(s[3]).Some? then
      [DigitValue(s[2]).value * 16 + DigitValue(s[3]).value] + ReadRow(s[4..])
    else ReadRow(s[1..])
  }

  /** The constants up to the closing line of the initializer. */
  function ReadInitializer(lines: seq<string>): seq<Byte>
    decreases |lines|
  {
    if lines == [] || lines[0] == "};" then [] else ReadRow(lines[0]) + ReadInitializer(lines[1..])
  }

  predicate LastIs(s: string, c: char) {
    s != "" && s[|s| - 1] == c
  }

  /** The array whose initializer is opened by the first line that ends in a brace. */
  function ReadArray(lines: seq<string>): seq<Byte>
    decreases |lines|
  {
    if lines == [] then []
    else if LastIs(lines[0], '{') then ReadInitializer(lines[1..])
    else ReadArray(lines[1..])
  }

  /** The bytes of the array, and the number in front of the last semicolon. */
  function ReadHeader(text: string): (seq<Byte>, nat) {
    var lines := Split(text, "\n", |text|);
    var last := lines[|lines| - 1];
    (ReadArray(lines), if last == "" then 0 else ReadNumber(last, |last| - 1))
  }

  // ---------- Rows ----------

  lemma DigitsRead(n: int)
    requires 0 <= n < 16
    ensures DigitValue(DIGITS[n]) == Some(n)
  {
    assert DIGITS == ['0', '1', '2', '3', '4', '5', '6', '7', '8', '9', 'a', 'b', 'c', 'd', 'e', 'f'];
  }

  lemma ReadHexByte(x: Byte, rest: string)
    ensures ReadRow(HexByte(x) + rest) == [x] + ReadRow(rest)
  {
    DigitsRead(x / 16);
    DigitsRead(x % 16);
    var s := HexByte(x) + rest;
    assert s[..2] == "0x" && s[2] == DIGITS[x / 16] && s[3] == DIGITS[x % 16] && s[4..] == rest;
  }

  lemma SkipOne(c: char, rest: string)
    requires c != '/' && c != '0'
    ensures ReadRow([c] + rest) == ReadRow(rest)
  {
    var s := [c] + rest;
    assert s[1..] == rest;
    if |s| >= 2 {
      assert s[..2][0] == c;
    } else {
      assert rest == "";
    }
  }

  lemma {:induction false} ReadHexBytes(chunk: seq<Byte>, rest: string)
    requires chunk != []
    ensures ReadRow(Join(HexBytes(chunk), ", ") + rest) == chunk + ReadRow(rest)
  {
    hide ReadRow, HexByte;
    var texts := HexBytes(chunk);
    if |chunk| == 1 {
      ReadHexByte(chunk[0], rest);
      assert chunk == [chunk[0]];
    } else {
      var tail := Join(HexBytes(chunk[1..]), ", ") + rest;
      assert texts[1..] == HexBytes(chunk[1..]);
      assert Join(texts, ", ") + rest == texts[0] + ([','] + ([' '] + tail));
      ReadHexByte(chunk[0], [','] + ([' '] + tail));
      SkipOne(',', [' '] + tail);
      SkipOne(' ', tail);
      ReadHexBytes(chunk[1..], rest);
      assert chunk == [chunk[0]] + chunk[1..];
    }
  }

  lemma ReadOneRow(chunk: seq<Byte>)
    requires chunk != []
    ensures ReadRow(Row(chunk)) == chunk
  {
    hide Join;
    var text := Join(HexBytes(chunk), ", ");
    assert Row(chunk) == [' '] + ([' '] + (text + ","));
    SkipOne(' ', [' '] + (text + ","));
    SkipOne(' ', text + ",");
    ReadHexBytes(chunk, ",");
    assert chunk + [] == chunk;
  }

  lemma NullRowText(tail: string)
    ensures "  0x00" + tail == [' '] + ([' '] + (HexByte(0) + tail))
  {
    assert DIGITS[0] == '0';
  }

  lemma ReadComment(tail: string)
    ensures ReadRow("//" + tail) == []
  {
    assert ("//" + tail)[..2] == "//";
  }

  lemma ReadNullRow()
    ensures ReadRow(NULL_ROW) == [0]
  {
    hide ReadRow, HexByte;
    var comment := "//" + " Terminating null byte";
    var tail := [' '] + comment;
    assert NULL_ROW == "  0x00" + tail;
    NullRowText(tail);
    SkipOne(' ', [' '] + (HexByte(0) + tail));
    SkipOne(' ', HexByte(0) + tail);
    ReadHexByte(0, tail);
    SkipOne(' ', comment);
    ReadComment(" Terminating null byte");
  }

  lemma RowIsNoEnd(chunk: seq<Byte>)
    ensures Row(chunk) != "};" && NULL_ROW != "};"
  {
    assert Row(chunk)[0] == ' ' && NULL_ROW[0] == ' ';
  }

  lemma {:induction false} ReadRows(data: seq<Byte>, rest: seq<string>)
    ensures ReadInitializer(Rows(data) + rest) == data + ReadInitializer(rest)
    decreases |data|
  {
    hide ReadRow, Row;
    if data == [] {
      assert Rows(data) + rest == rest;
    } else if |data| <= 12 {
      ReadOneRow(data);
      RowIsNoEnd(data);
      assert (Rows(data) + rest)[1..] == rest;
    } else {
      var chunk, tail := data[..12], Rows(data[12..]) + rest;
      ReadOneRow(chunk);
      RowIsNoEnd(chunk);
      assert Rows(data) + rest == [Row(chunk)] + tail;
      assert ([Row(chunk)] + tail)[1..] == tail;
      ReadRows(data[12..], rest);
      assert data == chunk + data[12..];
    }
  }

  /** The bytes of row `k`: twelve, or what is left. */
  function RowBytes(data: seq<Byte>, k: nat): seq<Byte>
    requires 12 * k < |data|
  {
    data[12 * k..if 12 * k + 12 <= |data| then 12 * k + 12 else |data|]
  }

  lemma RowBytesShift(data: seq<Byte>, k: nat)
    requires 12 * (k + 1) < |data|
    ensures RowBytes(data[12..], k) == RowBytes(data, k + 1)
  {
    var tail := data[12..];
    var end := if 12 * k + 12 <= |tail| then 12 * k + 12 else |tail|;
    SliceOfSuffix(data, 12, 12 * k, end);
  }

  lemma SliceOfSuffix<T>(s: seq<T>, n: nat, a: nat, b: nat)
    requires n <= |s| && a <= b <= |s| - n
    ensures s[n..][a..b] == s[n + a..n + b]
  {
    forall i | 0 <= i < b - a ensures s[n..][a..b][i] == s[n + a..n + b][i] {
      assert s[n..][a..b][i] == s[n..][a + i] == s[n + a + i];
    }
  }

  lemma {:induction false} RowCount(data: seq<Byte>)
    ensures |Rows(data)| == (|data| + 11) / 12
    decreases |data|
  {
    hide Row;
    TwelveLess(|data|);
    if |data| > 12 {
      RowCount(data[12..]);
    }
  }

  lemma TwelveLess(n: nat)
    ensures (n + 11) / 12 == if n == 0 then 0 else if n <= 12 then 1 else 1 + (n - 12 + 11) / 12
  {}

  /** ceil(n / 12) rows, and all but the last are full. */
  lemma {:induction false} RowSizes(data: seq<Byte>, k: nat)
    requires 12 * k < |data|
    ensures k < |Rows(data)| == (|data| + 11) / 12
    ensures Rows(data)[k] == Row(RowBytes(data, k))
    decreases |data|
  {
    hide Row;
    RowCount(data);
    if |data| <= 12 {
      assert RowBytes(data, 0) == data;
    } else if k == 0 {
      assert RowBytes(data, 0) == data[..12];
    } else {
      RowSizes(data[12..], k - 1);
      RowBytesShift(data, k - 1);
      hide RowBytes;
    }
  }

  // ---------- The round trip ----------

  lemma {:induction false} OneLineJoin(parts: seq<string>, sep: string)
    requires OneLine(sep) && forall i | 0 <= i < |parts| :: OneLine(parts[i])
    ensures OneLine(Join(parts, sep))
  {
    if |parts| <= 1 {
    } else {
      OneLineJoin(parts[1..], sep);
    }
  }

  lemma DigitIsOneLine(n: int)
    requires 0 <= n < 16
    ensures DIGITS[n] != '\n'
  {
    assert DIGITS == ['0', '1', '2', '3', '4', '5', '6', '7', '8', '9', 'a', 'b', 'c', 'd', 'e', 'f'];
  }

  lemma RowOneLine(chunk: seq<Byte>)
    ensures OneLine(Row(chunk))
  {
    forall i | 0 <= i < |chunk| ensures OneLine(HexBytes(chunk)[i]) {
      DigitIsOneLine(chunk[i] / 16);
      DigitIsOneLine(chunk[i] % 16);
    }
    OneLineJoin(HexBytes(chunk), ", ");
  }

  lemma {:induction false} RowsOneLine(data: seq<Byte>)
    ensures forall i | 0 <= i < |Rows(data)| :: OneLine(Rows(data)[i])
    decreases |data|
  {
    hide Row, OneLine;
    if data == [] {
    } else {
      RowOneLine(if |data| <= 12 then data else data[..12]);
      if |data| > 12 {
        RowsOneLine(data[12..]);
      }
    }
  }

  lemma LinesOneLine(comment: string, data: seq<Byte>, name: string, isExtern: bool)
    requires OneLine(comment) && OneLine(name)
    ensures forall i | 0 <= i < |Lines(comment, data, name, isExtern)| :: OneLine(Lines(comment, data, name, isExtern)[i])
  {
    RowsOneLine(data);
    DecimalIsDigits(|data|);
    assert OneLine("extern const char " + name + "[];") && OneLine("extern const std::size_t " + name + "_len;");
    assert OneLine("const char " + name + "[] = {") && OneLine("#include <cstddef>") && OneLine(NULL_ROW) && OneLine("};");
    assert OneLine("const std::size_t " + name + "_len = " + Decimal(|data|) + ";");
    hide OneLine, Rows, Decimal;
  }

  lemma SkipHead(head: seq<string>, brace: string, rest: seq<string>)
    requires (forall i | 0 <= i < |head| :: !LastIs(head[i], '{')) && LastIs(brace, '{')
    ensures ReadArray(head + [brace] + rest) == ReadInitializer(rest)
    decreases |head|
  {
    var lines := head + [brace] + rest;
    if head == [] {
      assert lines[1..] == rest;
    } else {
      assert lines[1..] == head[1..] + [brace] + rest;
      SkipHead(head[1..], brace, rest);
    }
  }

  lemma ArrayRead(comment: string, data: seq<Byte>, name: string, isExtern: bool)
    requires !LastIs(comment, '{')
    ensures ReadArray(Lines(comment, data, name, isExtern)) == data + [0]
  {
    hide ReadRow;
    var end := ["};", "const std::size_t " + name + "_len = " + Decimal(|data|) + ";"];
    var rest := Rows(data) + ([NULL_ROW] + end);
    var brace := "const char " + name + "[] = {";
    assert Lines(comment, data, name, isExtern) == HeadLines(comment, name, isExtern) + [brace] + rest;
    SkipHead(HeadLines(comment, name, isExtern), brace, rest);
    ReadRows(data, [NULL_ROW] + end);
    ReadNullRow();
    RowIsNoEnd(data);
    assert ([NULL_ROW] + end)[1..] == end && ReadInitializer(end) == [];
  }

  lemma LengthRead(name: string, n: nat)
    ensures var last := "const std::size_t " + name + "_len = " + Decimal(n) + ";"; ReadNumber(last, |last| - 1) == n
  {
    ReadDecimal("const std::size_t " + name + "_len = ", n, ";");
  }

  /** Reading the generated file gives the bytes with one zero byte behind them, and their number. */
  lemma HeaderRoundTrip(comment: string, data: seq<Byte>, name: string, isExtern: bool)
    requires OneLine(comment) && OneLine(name) && !LastIs(comment, '{')
    ensures ReadHeader(Header(comment, data, name, isExtern)) == (data + [0], |data|)
  {
    hide Lines, Split, Join, ReadArray, ReadNumber, Decimal, OneLine, LastIs;
    var lines := Lines(comment, data, name, isExtern);
    LinesOneLine(comment, data, name, isExtern);
    ArrayRead(comment, data, name, isExtern);
    LengthRead(name, |data|);
    LastLine(comment, data, name, isExtern);
    LinesBack(lines);
  }

  lemma LastLine(comment: string, data: seq<Byte>, name: string, isExtern: bool)
    ensures var lines := Lines(comment, data, name, isExtern);
            lines != [] && lines[|lines| - 1] == "const std::size_t " + name + "_len = " + Decimal(|data|) + ";"
  {
    hide HeadLines, Rows, Decimal;
  }

  lemma LinesBack(lines: seq<string>)
    requires lines != [] && forall i | 0 <= i < |lines| :: OneLine(lines[i])
    ensures Split(Join(lines, "\n"), "\n", |Join(lines, "\n")|) == lines
  {
    hide Split, Join, OneLine, Separable;
    forall i | 0 <= i < |lines| ensures Separable(lines[i], "\n") {
      LineSeparable(lines[i]);
    }
    JoinLength(lines, "\n");
    SplitJoin(lines, "\n", |Join(lines, "\n")|);
  }

  lemma LineSeparable(line: string)
    requires OneLine(line)
    ensures Separable(line, "\n")
  {
    SeparableChar(line, '\n');
  }

  /** Which lines stand around the rows, and which names they give. */
  lemma NamesInHeader(comment: string, data: seq<Byte>, name: string, isExtern: bool)
    ensures var lines := Lines(comment, data, name, isExtern);
            var before := if isExtern then 4 else 2;
            && lines[..before]
               == (if isExtern then [comment, "#include <cstddef>", "extern const char " + name + "[];",
                                     "extern const std::size_t " + name + "_len;"]
                   else [comment, "#include <cstddef>"])
            && |lines| == before + 4 + (|data| + 11) / 12
            && lines[before] == "const char " + name + "[] = {" && lines[|lines| - 2] == "};"
  {
    hide Rows, Decimal;
    RowCount(data);
  }
}
