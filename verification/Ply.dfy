// packages/exportkit/ply.py: the binary PLY container with one vertex element, below
// the Gaussian and the point cloud formats.
module Ply {
  import opened Wrappers
  import opened Text

  datatype PlyError =
    | TruncatedHeader | HeaderTooLong | NotAscii | NoMagic | BadFormat
    | SecondElement | NotVertex | BadCount | CountNotPositive
    | MisplacedProperty | NotScalar | UnsupportedType | UnsupportedDirective
    | NoVertexElement | BadProperties | BadPayloadLength

  const MAX_HEADER_BYTES: nat := 1024 * 1024

  datatype Column = Column(kind: string, name: string)

  datatype Header = Header(count: nat, columns: seq<Column>, comments: seq<string>)

  // The size of one value, by scalar type.
  function SizeOf(kind: string): Option<nat> {
    if kind in ["char", "int8", "uchar", "uint8"] then Some(1)
    else if kind in ["short", "int16", "ushort", "uint16"] then Some(2)
    else if kind in ["int", "int32", "uint", "uint32", "float", "float32"] then Some(4)
    else if kind in ["double", "float64"] then Some(8)
    else None
  }

  // ------------------------------------------------------------- the lines of a header

  datatype Lines = Lines(lines: seq<string>, payload: string)

  function ReadLines(rest: string, total: nat): Result<Lines, PlyError>
    decreases |rest|
  {
    if rest == "" then Err(TruncatedHeader)
    else
      var n := LineLength(rest);
      if total + n > MAX_HEADER_BYTES then Err(HeaderTooLong)
      else
        var line := Chomp(rest[..n]);
        if !Ascii(line) then Err(NotAscii)
        else if line == "end_header" then Ok(Lines([line], rest[n..]))
        else
          match ReadLines(rest[n..], total + n)
          case Err(e) => Err(e)
          case Ok(more) => Ok(Lines([line] + more.lines, more.payload))
  }

  function Prepended(lines: seq<string>, r: Result<Lines, PlyError>): Result<Lines, PlyError> {
    match r
    case Err(e) => Err(e)
    case Ok(more) => Ok(Lines(lines + more.lines, more.payload))
  }

  // The loop of _read_header over the stream.
  method ScanLines(file: string) returns (r: Result<Lines, PlyError>)
    ensures r == ReadLines(file, 0)
  {
    var lines: seq<string> := [];
    var rest := file;
    var total: nat := 0;
    assert Prepended([], ReadLines(file, 0)) == ReadLines(file, 0) by {
      if ReadLines(file, 0).Ok? { assert [] + ReadLines(file, 0).value.lines == ReadLines(file, 0).value.lines; }
    }
    while true
      invariant Prepended(lines, ReadLines(rest, total)) == ReadLines(file, 0)
      decreases |rest|
    {
      if rest == "" {
        return Err(TruncatedHeader);
      }
      var n := LineLength(rest);
      total := total + n;
      if total > MAX_HEADER_BYTES {
        return Err(HeaderTooLong);
      }
      var line := Chomp(rest[..n]);
      if !Ascii(line) {
        return Err(NotAscii);
      }
      if line == "end_header" {
        return Ok(Lines(lines + [line], rest[n..]));
      }
      ghost var more := ReadLines(rest[n..], total);
      if more.Ok? {
        assert lines + ([line] + more.value.lines) == (lines + [line]) + more.value.lines;
      }
      lines, rest := lines + [line], rest[n..];
    }
  }

  // ---------------------------------------------------------------- their meaning

  // What is known after some lines of the header.
  datatype Parsed = Parsed(comments: seq<string>, columns: seq<Column>, count: Option<nat>)

  function After(s: string, prefix: string): string
    requires prefix <= s
  {
    s[|prefix|..]
  }

  // The element, once declared, is always `vertex`.
  function ParseLine(p: Parsed, line: string): Result<Parsed, PlyError> {
    if "comment " <= line then Ok(p.(comments := p.comments + [After(line, "comment ")]))
    else if "obj_info " <= line then Ok(p)
    else
      var tokens := Split(line);
      if |tokens| == 3 && tokens[0] == "element" then
        if p.count.Some? then Err(SecondElement)
        else if tokens[1] != "vertex" then Err(NotVertex)
        else
          var n := ParseInt(tokens[2]);
          if n.None? then Err(BadCount)
          else if n.value <= 0 then Err(CountNotPositive)
          else Ok(p.(count := Some(n.value)))
      else if tokens != [] && tokens[0] == "property" then
        if p.count.None? then Err(MisplacedProperty)
        else if |tokens| != 3 || tokens[1] == "list" then Err(NotScalar)
        else if SizeOf(tokens[1]).None? then Err(UnsupportedType)
        else Ok(p.(columns := p.columns + [Column(tokens[1], tokens[2])]))
      else Err(UnsupportedDirective)
  }

  function ParseLines(p: Parsed, lines: seq<string>): Result<Parsed, PlyError>
    decreases |lines|
  {
    if lines == [] then Ok(p)
    else
      match ParseLine(p, lines[0])
      case Err(e) => Err(e)
      case Ok(q) => ParseLines(q, lines[1..])
  }

  predicate UniqueNames(columns: seq<Column>) {
    forall i, j :: 0 <= i < j < |columns| ==> columns[i].name != columns[j].name
  }

  const START := Parsed([], [], None)

  function HeaderOf(lines: seq<string>): Result<Header, PlyError> {
    if lines == [] || lines[0] != "ply" then Err(NoMagic)
    else if |lines| < 3 || lines[1] != "format binary_little_endian 1.0" then Err(BadFormat)
    else
      match ParseLines(START, lines[2..|lines| - 1])
      case Err(e) => Err(e)
      case Ok(p) =>
        if p.count.None? then Err(NoVertexElement)
        else if p.columns == [] || !UniqueNames(p.columns) then Err(BadProperties)
        else Ok(Header(p.count.value, p.columns, p.comments))
  }

  // The loop of _read_header over the lines.
  method ParseHeader(lines: seq<string>) returns (r: Result<Header, PlyError>)
    ensures r == HeaderOf(lines)
  {
    if lines == [] || lines[0] != "ply" {
      return Err(NoMagic);
    } else if |lines| < 3 || lines[1] != "format binary_little_endian 1.0" {
      return Err(BadFormat);
    }
    var body := lines[2..|lines| - 1];
    var p := START;
    for k := 0 to |body|
      invariant ParseLines(p, body[k..]) == ParseLines(START, body)
    {
      assert body[k..][1..] == body[k + 1..];
      var q := ParseLine(p, body[k]);
      if q.Err? {
        return Err(q.error);
      }
      p := q.value;
    }
    if p.count.None? {
      return Err(NoVertexElement);
    } else if p.columns == [] || !UniqueNames(p.columns) {
      return Err(BadProperties);
    }
    r := Ok(Header(p.count.value, p.columns, p.comments));
  }

  // -------------------------------------------------------------------- the payload

  // One value is its bytes; a row has one value for each column.
  type Row = seq<string>

  function RowSize(columns: seq<Column>): nat {
    if columns == [] then 0
    else RowSize(columns[1..]) + match SizeOf(columns[0].kind) case Some(n) => n case None => 0
  }

  function CutRow(columns: seq<Column>, bytes: string): Row
    requires |bytes| == RowSize(columns)
  {
    if columns == [] then []
    else
      var n := match SizeOf(columns[0].kind) case Some(n) => n case None => 0;
      [bytes[..n]] + CutRow(columns[1..], bytes[n..])
  }

  // count * n, by addition.
  function Times(count: nat, n: nat): nat { if count == 0 then 0 else n + Times(count - 1, n) }

  lemma {:induction false} TimesIsProduct(count: nat, n: nat)
    ensures Times(count, n) == count * n
  {
    if count > 0 {
      TimesIsProduct(count - 1, n);
      assert count * n == (count - 1) * n + n;
    }
  }

  function CutRows(columns: seq<Column>, bytes: string, count: nat): seq<Row>
    requires |bytes| == Times(count, RowSize(columns))
  {
    if count == 0 then []
    else
      var n := RowSize(columns);
      [CutRow(columns, bytes[..n])] + CutRows(columns, bytes[n..], count - 1)
  }

  function RowBytes(row: Row): string { if row == [] then "" else row[0] + RowBytes(row[1..]) }

  function RowsBytes(rows: seq<Row>): string { if rows == [] then "" else RowBytes(rows[0]) + RowsBytes(rows[1..]) }

  datatype Table = Table(columns: seq<Column>, comments: seq<string>, rows: seq<Row>)

  datatype Opened = Opened(header: Header, payload: string)

  // _read_header
  function ReadHeader(file: string): Result<Opened, PlyError> {
    match ReadLines(file, 0)
    case Err(e) => Err(e)
    case Ok(l) =>
      match HeaderOf(l.lines)
      case Err(e) => Err(e)
      case Ok(h) => Ok(Opened(h, l.payload))
  }

  // _read_vertices
  function ReadVertices(o: Opened): Result<seq<Row>, PlyError> {
    if |o.payload| != Times(o.header.count, RowSize(o.header.columns)) then Err(BadPayloadLength)
    else Ok(CutRows(o.header.columns, o.payload, o.header.count))
  }

  function ReadTable(file: string): Result<Table, PlyError> {
    match ReadHeader(file)
    case Err(e) => Err(e)
    case Ok(o) =>
      match ReadVertices(o)
      case Err(e) => Err(e)
      case Ok(rows) => Ok(Table(o.header.columns, o.header.comments, rows))
  }

  method Read(file: string) returns (r: Result<Table, PlyError>)
    ensures r == ReadTable(file)
  {
    var l := ScanLines(file);
    if l.Err? {
      return Err(l.error);
    }
    var h := ParseHeader(l.value.lines);
    if h.Err? {
      return Err(h.error);
    }
    var rows := ReadVertices(Opened(h.value, l.value.payload));
    r := if rows.Err? then Err(rows.error) else Ok(Table(h.value.columns, h.value.comments, rows.value));
  }

  // ------------------------------------------------------------------------- writing

  function CommentLines(comments: seq<string>): seq<string> {
    if comments == [] then [] else ["comment " + comments[0]] + CommentLines(comments[1..])
  }

  function ColumnLine(c: Column): string { "property" + (" " + (c.kind + (" " + c.name))) }

  function ColumnLines(columns: seq<Column>): seq<string> {
    if columns == [] then [] else [ColumnLine(columns[0])] + ColumnLines(columns[1..])
  }

  function ElementLine(count: nat): string { "element" + (" " + ("vertex" + (" " + Decimal(count)))) }

  function HeaderBody(t: Table): seq<string> {
    CommentLines(t.comments) + ([ElementLine(|t.rows|)] + ColumnLines(t.columns))
  }

  function HeaderLines(t: Table): seq<string> {
    ["ply", "format binary_little_endian 1.0"] + (HeaderBody(t) + ["end_header"])
  }

  function WriteTable(t: Table): string { Joined(HeaderLines(t)) + RowsBytes(t.rows) }

  // What the two writers guarantee about their tables.
  predicate Fits(columns: seq<Column>, row: Row) {
    |row| == |columns| && forall i :: 0 <= i < |row| ==> SizeOf(columns[i].kind) == Some(|row[i]|)
  }

  predicate Named(c: Column) {
    (c.kind == "float" || c.kind == "uchar") && c.name != "" && Solid(c.name) && Ascii(c.name)
  }

  predicate Writable(t: Table) {
    && t.rows != [] && t.columns != [] && UniqueNames(t.columns)
    && (forall c :: c in t.comments ==> Plain(c))
    && (forall c :: c in t.columns ==> Named(c))
    && (forall r :: r in t.rows ==> Fits(t.columns, r))
  }

  // ---------------------------------------------------------- reading what was written

  lemma ReadOne(line: string, rest: string, total: nat)
    requires Plain(line)
    ensures ReadLines(line + ("\n" + rest), total) ==
      if total + |line| + 1 > MAX_HEADER_BYTES then Err(HeaderTooLong)
      else if line == "end_header" then Ok(Lines([line], rest))
      else Prepended([line], ReadLines(rest, total + |line| + 1))
  {
    var file := line + ("\n" + rest);
    LineIs(line, rest);
    ChompLine(line);
    assert file[..|line| + 1] == line + "\n" && file[|line| + 1..] == rest;
  }

  lemma {:induction false} ReadJoined(lines: seq<string>, payload: string, total: nat)
    requires lines != [] && lines[|lines| - 1] == "end_header"
    requires forall l :: l in lines ==> Plain(l)
    requires forall i :: 0 <= i < |lines| - 1 ==> lines[i] != "end_header"
    ensures ReadLines(Joined(lines) + payload, total) ==
      if total + |Joined(lines)| <= MAX_HEADER_BYTES then Ok(Lines(lines, payload)) else Err(HeaderTooLong)
  {
    hide ReadLines, Plain;
    var rest := Joined(lines[1..]) + payload;
    assert Joined(lines) + payload == lines[0] + ("\n" + rest);
    assert |Joined(lines)| == |lines[0]| + 1 + |Joined(lines[1..])|;
    ReadOne(lines[0], rest, total);
    if |lines| > 1 {
      ReadJoined(lines[1..], payload, total + |lines[0]| + 1);
      assert [lines[0]] + lines[1..] == lines;
    } else {
      assert lines == ["end_header"];
      assert rest == payload;
    }
  }

  lemma {:induction false} ParseAppended(p: Parsed, a: seq<string>, b: seq<string>)
    ensures ParseLines(p, a + b) == match ParseLines(p, a) case Err(e) => Err(e) case Ok(q) => ParseLines(q, b)
    decreases |a|
  {
    if a == [] {
      assert a + b == b;
    } else {
      assert (a + b)[0] == a[0] && (a + b)[1..] == a[1..] + b;
      if ParseLine(p, a[0]).Ok? {
        ParseAppended(ParseLine(p, a[0]).value, a[1..], b);
      }
    }
  }

  lemma ParseFirst(p: Parsed, first: string, rest: seq<string>, q: Parsed)
    requires ParseLine(p, first) == Ok(q)
    ensures ParseLines(p, [first] + rest) == ParseLines(q, rest)
  {
    hide ParseLine;
    assert ([first] + rest)[1..] == rest;
  }

  lemma ParseNone(p: Parsed)
    ensures ParseLines(p, []) == Ok(p)
  {
  }

  lemma ParseComment(p: Parsed, comment: string)
    ensures ParseLine(p, "comment " + comment) == Ok(p.(comments := p.comments + [comment]))
  {
    assert After("comment " + comment, "comment ") == comment;
  }

  lemma {:induction false} ParseComments(p: Parsed, comments: seq<string>)
    ensures ParseLines(p, CommentLines(comments)) == Ok(p.(comments := p.comments + comments))
    decreases |comments|
  {
    hide ParseLine, ParseLines;
    ParseNone(p);
    if comments != [] {
      ParseComment(p, comments[0]);
      var q := p.(comments := p.comments + [comments[0]]);
      ParseFirst(p, "comment " + comments[0], CommentLines(comments[1..]), q);
      ParseComments(q, comments[1..]);
      assert p.comments + comments == q.comments + comments[1..];
    } else {
      assert p.comments + comments == p.comments;
    }
  }

  lemma NotComment(line: string, c: char)
    requires |line| > 0 && line[0] == c && c != 'c' && c != 'o'
    ensures !("comment " <= line) && !("obj_info " <= line)
  {
  }

  lemma ParseElement(p: Parsed, count: nat)
    requires p.count.None? && count > 0
    ensures ParseLine(p, ElementLine(count)) == Ok(p.(count := Some(count)))
  {
    DecimalIsDigits(count);
    SplitThree("element", "vertex", Decimal(count));
    ParseDecimal(count);
    NotComment(ElementLine(count), 'e');
  }

  lemma KindIsSolid(kind: string)
    requires kind == "float" || kind == "uchar"
    ensures kind != "" && Solid(kind) && kind != "list" && Plain(kind) && SizeOf(kind).Some?
  {
    if kind == "float" {
      assert SizeOf("float") == Some(4);
    } else {
      assert SizeOf("uchar") == Some(1);
    }
  }

  lemma ParseColumn(p: Parsed, c: Column)
    requires p.count.Some? && Named(c)
    ensures ParseLine(p, ColumnLine(c)) == Ok(p.(columns := p.columns + [c]))
  {
    KindIsSolid(c.kind);
    SplitThree("property", c.kind, c.name);
    NotComment(ColumnLine(c), 'p');
    hide Split, SizeOf, Named;
  }

  lemma {:induction false} ParseColumns(p: Parsed, columns: seq<Column>)
    requires p.count.Some? && forall c :: c in columns ==> Named(c)
    ensures ParseLines(p, ColumnLines(columns)) == Ok(p.(columns := p.columns + columns))
    decreases |columns|
  {
    hide ParseLine, ParseLines, Named, ColumnLine;
    ParseNone(p);
    if columns != [] {
      ParseColumn(p, columns[0]);
      var q := p.(columns := p.columns + [columns[0]]);
      ParseFirst(p, ColumnLine(columns[0]), ColumnLines(columns[1..]), q);
      ParseColumns(q, columns[1..]);
      assert p.columns + columns == q.columns + columns[1..];
    } else {
      assert p.columns + columns == p.columns;
    }
  }

  lemma BodyBack(t: Table)
    requires Writable(t)
    ensures ParseLines(START, HeaderBody(t)) == Ok(Parsed(t.comments, t.columns, Some(|t.rows|)))
  {
    hide ParseLine, Named, ElementLine;
    var comments, columns := CommentLines(t.comments), ColumnLines(t.columns);
    var element := [ElementLine(|t.rows|)];
    var p := START.(comments := t.comments);
    ParseComments(START, t.comments);
    assert START.comments + t.comments == t.comments && START.columns + t.columns == t.columns;
    ParseAppended(START, comments, element + columns);
    ParseElement(p, |t.rows|);
    assert (element + columns)[0] == element[0] && (element + columns)[1..] == columns;
    ParseColumns(p.(count := Some(|t.rows|)), t.columns);
  }

  lemma HeaderBack(t: Table)
    requires Writable(t)
    ensures HeaderOf(HeaderLines(t)) == Ok(Header(|t.rows|, t.columns, t.comments))
  {
    BodyBack(t);
    hide ParseLines, Named, HeaderBody;
    var lines := HeaderLines(t);
    assert lines[2..|lines| - 1] == HeaderBody(t);
  }

  lemma {:induction false} CommentLinesPlain(comments: seq<string>)
    requires forall c :: c in comments ==> Plain(c)
    ensures forall l :: l in CommentLines(comments) ==> Plain(l) && l != "end_header"
  {
    if comments != [] {
      CommentLinesPlain(comments[1..]);
      assert comments[0] in comments;
      assert ("comment " + comments[0])[0] == 'c';
    }
  }

  lemma {:induction false} ColumnLinesPlain(columns: seq<Column>)
    requires forall c :: c in columns ==> Named(c)
    ensures forall l :: l in ColumnLines(columns) ==> Plain(l) && l != "end_header"
  {
    if columns != [] {
      hide Named, ColumnLine;
      ColumnLinesPlain(columns[1..]);
      ColumnLinePlain(columns[0]);
    }
  }

  lemma ColumnLinePlain(c: Column)
    requires Named(c)
    ensures Plain(ColumnLine(c)) && ColumnLine(c) != "end_header"
  {
    KindIsSolid(c.kind);
    assert ColumnLine(c)[0] == 'p';
  }

  lemma ElementLinePlain(count: nat)
    ensures Plain(ElementLine(count)) && ElementLine(count) != "end_header"
  {
    DecimalIsDigits(count);
    hide Decimal;
    assert ElementLine(count)[1] == 'l';
  }

  lemma FixedLinesPlain()
    ensures Plain("ply") && Plain("format binary_little_endian 1.0") && Plain("end_header")
    ensures "ply" != "end_header" && "format binary_little_endian 1.0" != "end_header"
  {
    assert "ply"[0] == 'p' && "format binary_little_endian 1.0"[0] == 'f' && "end_header"[0] == 'e';
  }

  lemma HeaderLinesPlain(t: Table)
    requires Writable(t)
    ensures var lines := HeaderLines(t);
      && lines != [] && lines[|lines| - 1] == "end_header"
      && (forall l :: l in lines ==> Plain(l))
      && (forall i :: 0 <= i < |lines| - 1 ==> lines[i] != "end_header")
  {
    CommentLinesPlain(t.comments);
    ColumnLinesPlain(t.columns);
    ElementLinePlain(|t.rows|);
    FixedLinesPlain();
    hide Plain, Named, ElementLine, CommentLines, ColumnLines;
    var lines, body := HeaderLines(t), HeaderBody(t);
    forall i | 0 <= i < |lines| - 1 ensures lines[i] != "end_header" {
      if i >= 2 { assert lines[i] == body[i - 2] && body[i - 2] in body; }
    }
    forall l | l in lines ensures Plain(l) {
      assert l in body || l == "ply" || l == "format binary_little_endian 1.0" || l == "end_header";
    }
  }

  lemma {:induction false} CutRowBack(columns: seq<Column>, row: Row)
    requires Fits(columns, row)
    ensures |RowBytes(row)| == RowSize(columns) && CutRow(columns, RowBytes(row)) == row
  {
    if columns != [] {
      CutRowBack(columns[1..], row[1..]);
      var n := |row[0]|;
      assert RowBytes(row)[..n] == row[0] && RowBytes(row)[n..] == RowBytes(row[1..]);
    }
  }

  lemma {:induction false} CutRowsBack(columns: seq<Column>, rows: seq<Row>)
    requires forall r :: r in rows ==> Fits(columns, r)
    ensures |RowsBytes(rows)| == Times(|rows|, RowSize(columns)) && CutRows(columns, RowsBytes(rows), |rows|) == rows
  {
    if rows != [] {
      hide Fits, CutRow, RowBytes, RowSize;
      var n := RowSize(columns);
      CutRowBack(columns, rows[0]);
      CutRowsBack(columns, rows[1..]);
      assert RowsBytes(rows)[..n] == RowBytes(rows[0]) && RowsBytes(rows)[n..] == RowsBytes(rows[1..]);
    }
  }

  // A written header in front of any payload is read back as it was, within the limit.
  lemma HeaderRoundTrip(t: Table, payload: string)
    requires Writable(t)
    ensures ReadHeader(Joined(HeaderLines(t)) + payload) ==
      if |Joined(HeaderLines(t))| <= MAX_HEADER_BYTES then Ok(Opened(Header(|t.rows|, t.columns, t.comments), payload))
      else Err(HeaderTooLong)
  {
    HeaderLinesPlain(t);
    ReadJoined(HeaderLines(t), payload, 0);
    HeaderBack(t);
  }

  lemma VerticesRoundTrip(t: Table)
    requires Writable(t)
    ensures ReadVertices(Opened(Header(|t.rows|, t.columns, t.comments), RowsBytes(t.rows))) == Ok(t.rows)
  {
    CutRowsBack(t.columns, t.rows);
  }

  // Reading a written table gives the table back, unless its header exceeds the limit.
  lemma TableRoundTrip(t: Table)
    requires Writable(t)
    ensures ReadTable(WriteTable(t)) ==
      if |Joined(HeaderLines(t))| <= MAX_HEADER_BYTES then Ok(t) else Err(HeaderTooLong)
  {
    HeaderRoundTrip(t, RowsBytes(t.rows));
    VerticesRoundTrip(t);
  }

  // A written file that lost bytes of its payload, or was followed by others, is refused.
  lemma DamagedPayloadIsRefused(t: Table, payload: string)
    requires Writable(t) && |payload| != |RowsBytes(t.rows)|
    ensures ReadTable(Joined(HeaderLines(t)) + payload).Err?
  {
    CutRowsBack(t.columns, t.rows);
    HeaderRoundTrip(t, payload);
  }
}
