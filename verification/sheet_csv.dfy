/** The comma-separated reference point sheet (`parseCsv` in
    check_in/js/app_checkin.js): a header line naming the columns through
    aliases, then one point per data row whose two coordinates are numbers. */
module SheetCsv {
  import opened Wrappers
  import opened Text
  import opened JsNumber

  /** A reference point. A text field is None when the row was too short to
      have that column (JavaScript's `undefined`). */
  datatype Point = Point(lat: real, lng: real, name: Option<string>, maKh: Option<string>, maHd: Option<string>)

  /** The column of each field, -1 when the header has none of its aliases. */
  datatype Columns = Columns(lat: int, lng: int, name: int, maKh: int, maHd: int)

  const LatAliases: seq<string> := ["lat", "latitude", "vi_do", "vido"]
  const LngAliases: seq<string> := ["lng", "lon", "longitude", "kinh_do", "kinhdo"]
  const NameAliases: seq<string> := ["name", "ten", "t\U{EA}n"]
  const MaKhAliases: seq<string> := ["ma_kh", "makh", "ma", "m\U{E3}"]
  const MaHdAliases: seq<string> := ["ma_hd", "mahd"]

  /** The cells of a line, each trimmed: one per comma-separated part, none
      holding a comma or white space at either end. */
  function Cells(line: string): (cells: seq<string>)
    ensures |cells| == |Split(line, ',')|
    ensures forall k :: 0 <= k < |cells| ==> cells[k] == Trim(Split(line, ',')[k])
    ensures forall k :: 0 <= k < |cells| ==> ',' !in cells[k] && Trim(cells[k]) == cells[k]
  {
    var parts := Split(line, ',');
    var cells := seq(|parts|, k requires 0 <= k < |parts| => Trim(parts[k]));
    assert forall k :: 0 <= k < |cells| ==> ',' !in cells[k] && Trim(cells[k]) == cells[k] by {
      forall k | 0 <= k < |cells| ensures ',' !in cells[k] && Trim(cells[k]) == cells[k] {
        TrimTwice(parts[k], ',');
      }
    }
    cells
  }

  /** The header names: trimmed, then lower-cased. A name holds no comma,
      has no white space at either end and is its own lower case, so it
      can equal an alias only when the alias is written that way too. */
  function HeaderNames(line: string): (names: seq<string>)
    ensures |names| == |Split(line, ',')|
    ensures forall k :: 0 <= k < |names| ==> names[k] == ToLower(Trim(Split(line, ',')[k]))
    ensures forall k :: 0 <= k < |names| ==>
              ',' !in names[k] && Trim(names[k]) == names[k] && ToLower(names[k]) == names[k]
  {
    var cells := Cells(line);
    var names := seq(|cells|, k requires 0 <= k < |cells| => ToLower(cells[k]));
    assert forall k :: 0 <= k < |names| ==>
             ',' !in names[k] && Trim(names[k]) == names[k] && ToLower(names[k]) == names[k] by {
      forall k | 0 <= k < |names|
        ensures ',' !in names[k] && Trim(names[k]) == names[k] && ToLower(names[k]) == names[k]
      {
        LowerTwice(cells[k]);
        LowerKeepsTrim(cells[k]);
      }
    }
    names
  }

  /** Lower-casing a trimmed string without commas keeps it so. */
  lemma LowerKeepsTrim(c: string)
    requires ',' !in c && Trim(c) == c
    ensures ',' !in ToLower(c) && Trim(ToLower(c)) == ToLower(c)
  {
    var l := ToLower(c);
    forall i | 0 <= i < |c| ensures l[i] != ',' && (IsSpace(l[i]) <==> IsSpace(c[i])) {
      LowerCharKeeps(c[i]);
    }
    TrimSpec(c);
    if c != [] {
      TrimUnspaced(l);
    }
  }

  /** `pick(...aliases)`: the column of the first alias, in the order given,
      that some header carries, and that alias's first column; -1 when no
      alias is a header. */
  function Pick(headers: seq<string>, aliases: seq<string>): (i: int)
    ensures -1 <= i < |headers|
    ensures i == -1 <==> forall a :: a in aliases ==> a !in headers
    ensures i >= 0 ==> exists j :: 0 <= j < |aliases| && headers[i] == aliases[j]
                          && i == IndexOf(headers, aliases[j])
                          && forall k :: 0 <= k < j ==> aliases[k] !in headers
  {
    if aliases == [] then -1
    else
      var i := IndexOf(headers, aliases[0]);
      if i >= 0 then i
      else
        var r := Pick(headers, aliases[1..]);
        assert forall a :: a in aliases ==> a == aliases[0] || a in aliases[1..];
        if r >= 0 then
          var j :| 0 <= j < |aliases[1..]| && headers[r] == aliases[1..][j]
                   && r == IndexOf(headers, aliases[1..][j])
                   && forall k :: 0 <= k < j ==> aliases[1..][k] !in headers;
          assert forall k :: 0 <= k < j + 1 ==> aliases[k] !in headers by {
            forall k | 0 <= k < j + 1 ensures aliases[k] !in headers {
              if k > 0 { assert aliases[k] == aliases[1..][k - 1]; }
            }
          }
          r
        else r
  }

  /** The columns chosen for every field from a header line. */
  function ColumnsOf(header: string): Columns {
    var h := HeaderNames(header);
    Columns(Pick(h, LatAliases), Pick(h, LngAliases), Pick(h, NameAliases),
            Pick(h, MaKhAliases), Pick(h, MaHdAliases))
  }

  /** The `idx` object: a field has column -1 exactly when none of its
      aliases is a header name, and otherwise its column holds the first
      of its aliases, in the listed order, that is a header name. */
  lemma ColumnsChoice(header: string)
    ensures var h := HeaderNames(header);
            var c := ColumnsOf(header);
            && (c.lat == -1 <==> forall a :: a in LatAliases ==> a !in h)
            && (c.lng == -1 <==> forall a :: a in LngAliases ==> a !in h)
            && (c.name == -1 <==> forall a :: a in NameAliases ==> a !in h)
            && (c.maKh == -1 <==> forall a :: a in MaKhAliases ==> a !in h)
            && (c.maHd == -1 <==> forall a :: a in MaHdAliases ==> a !in h)
    ensures var h := HeaderNames(header);
            var c := ColumnsOf(header);
            && (c.lat >= 0 ==> FirstAliasAt(h, LatAliases, c.lat))
            && (c.lng >= 0 ==> FirstAliasAt(h, LngAliases, c.lng))
            && (c.name >= 0 ==> FirstAliasAt(h, NameAliases, c.name))
            && (c.maKh >= 0 ==> FirstAliasAt(h, MaKhAliases, c.maKh))
            && (c.maHd >= 0 ==> FirstAliasAt(h, MaHdAliases, c.maHd))
  {
    var h := HeaderNames(header);
    PickChosen(h, LatAliases);
    PickChosen(h, LngAliases);
    PickChosen(h, NameAliases);
    PickChosen(h, MaKhAliases);
    PickChosen(h, MaHdAliases);
  }

  lemma PickChosen(headers: seq<string>, aliases: seq<string>)
    ensures Pick(headers, aliases) == -1 <==> forall a :: a in aliases ==> a !in headers
    ensures Pick(headers, aliases) >= 0 ==> FirstAliasAt(headers, aliases, Pick(headers, aliases))
  {
  }

  /** Column i holds the first alias, in the listed order, that is a
      header, and it is that alias's first column. */
  predicate FirstAliasAt(headers: seq<string>, aliases: seq<string>, i: int) {
    0 <= i < |headers| &&
    exists j :: 0 <= j < |aliases| && headers[i] == aliases[j] && i == IndexOf(headers, aliases[j])
                && forall k :: 0 <= k < j ==> aliases[k] !in headers
  }

  /** `cols[i]`: undefined for -1 and past the end of the row. */
  function Cell(cells: seq<string>, i: int): (v: Option<string>)
    ensures v.Some? <==> 0 <= i < |cells|
  {
    if 0 <= i < |cells| then Some(cells[i]) else None
  }

  /** `Number(cols[i])`, with NaN and infinities as None. */
  function NumberAt(cells: seq<string>, i: int): Option<real> {
    match Cell(cells, i)
    case None => None
    case Some(s) => ParseNum(s)
  }

  /** A text field: the cell when the column exists, '' when it does not. */
  function FieldAt(cells: seq<string>, i: int): Option<string> {
    if i >= 0 then Cell(cells, i) else Some("")
  }

  /** The point a data row gives, or None when it is skipped. */
  function RowPoint(cols: Columns, line: string): Option<Point> {
    var cells := Cells(line);
    var lat := NumberAt(cells, cols.lat);
    var lng := NumberAt(cells, cols.lng);
    if lat.None? || lng.None? then None
    else Some(Point(lat.value, lng.value, FieldAt(cells, cols.name),
                    FieldAt(cells, cols.maKh), FieldAt(cells, cols.maHd)))
  }

  function OptionToSeq(p: Option<Point>): seq<Point> {
    if p.Some? then [p.value] else []
  }

  /** The points of a run of data rows, in row order. */
  function ParsedRows(cols: Columns, rows: seq<string>): seq<Point> {
    if rows == [] then []
    else ParsedRows(cols, rows[..|rows| - 1]) + OptionToSeq(RowPoint(cols, rows[|rows| - 1]))
  }

  /** The non-empty lines of the text. */
  function Lines(text: string): seq<string> {
    NonEmpty(SplitLines(text))
  }

  /** What `parseCsv(text)` returns. */
  function ParseSheet(text: string): seq<Point> {
    var lines := Lines(text);
    if lines == [] then [] else ParsedRows(ColumnsOf(lines[0]), lines[1..])
  }

  /** The `for` loop of `parseCsv` over the data lines: each is cut into
      trimmed cells and adds its point when both coordinates are numbers. */
  method ParseRows(cols: Columns, rows: seq<string>) returns (out: seq<Point>)
    ensures out == ParsedRows(cols, rows)
  {
    out := [];
    var i := 0;
    while i < |rows|
      invariant 0 <= i <= |rows|
      invariant out == ParsedRows(cols, rows[..i])
    {
      assert rows[..i + 1] == rows[..i] + [rows[i]];
      ParsedRowsSnoc(cols, rows[..i], rows[i]);
      var cells := Cells(rows[i]);
      var lat := NumberAt(cells, cols.lat);
      var lng := NumberAt(cells, cols.lng);
      if lat.Some? && lng.Some? {
        out := out + [Point(lat.value, lng.value, FieldAt(cells, cols.name),
                            FieldAt(cells, cols.maKh), FieldAt(cells, cols.maHd))];
      }
      i := i + 1;
    }
    assert rows[..i] == rows;
  }

  /** `parseCsv`: the header is the first non-empty line, the columns are
      chosen from it, and the later lines are the data rows. */
  method ParseCsv(text: string) returns (out: seq<Point>)
    ensures out == ParseSheet(text)
    ensures |out| <= |Lines(text)| - 1 || out == []
  {
    var lines := Lines(text);
    if |lines| == 0 {
      return [];
    }
    var cols := ColumnsOf(lines[0]);
    out := ParseRows(cols, lines[1..]);
    ParseSheetLength(text);
  }

  /** A sheet gives at most one point per data line. */
  lemma ParseSheetLength(text: string)
    ensures |ParseSheet(text)| <= |Lines(text)| - 1 || ParseSheet(text) == []
  {
    var lines := Lines(text);
    if lines != [] {
      ParsedRowsLength(ColumnsOf(lines[0]), lines[1..]);
    }
  }

  lemma ParsedRowsSnoc(cols: Columns, rows: seq<string>, row: string)
    ensures ParsedRows(cols, rows + [row]) == ParsedRows(cols, rows) + OptionToSeq(RowPoint(cols, row))
  {
    assert (rows + [row])[..|rows|] == rows;
  }

  /** A row gives at most one point. */
  lemma {:induction false} ParsedRowsLength(cols: Columns, rows: seq<string>)
    ensures |ParsedRows(cols, rows)| <= |rows|
  {
    if rows != [] {
      ParsedRowsLength(cols, rows[..|rows| - 1]);
    }
  }

  /** Rows are handled one at a time and in order: parsing two runs of rows
      back to back is parsing each and concatenating. */
  lemma {:induction false} ParsedRowsAppend(cols: Columns, a: seq<string>, b: seq<string>)
    ensures ParsedRows(cols, a + b) == ParsedRows(cols, a) + ParsedRows(cols, b)
    decreases |b|
  {
    if b == [] {
      assert a + b == a;
    } else {
      var b' := b[..|b| - 1];
      assert (a + b)[..|a + b| - 1] == a + b';
      assert (a + b)[|a + b| - 1] == b[|b| - 1];
      ParsedRowsAppend(cols, a, b');
    }
  }

  /** Every point comes from one of the rows, and every row that gives a
      point contributes it. */
  lemma {:induction false} ParsedRowsFromRows(cols: Columns, rows: seq<string>)
    ensures forall p :: p in ParsedRows(cols, rows) ==> exists j :: 0 <= j < |rows| && RowPoint(cols, rows[j]) == Some(p)
    ensures forall j :: 0 <= j < |rows| && RowPoint(cols, rows[j]).Some? ==> RowPoint(cols, rows[j]).value in ParsedRows(cols, rows)
  {
    if rows != [] {
      var init := rows[..|rows| - 1];
      ParsedRowsFromRows(cols, init);
      forall p | p in ParsedRows(cols, rows)
        ensures exists j :: 0 <= j < |rows| && RowPoint(cols, rows[j]) == Some(p)
      {
        if p in ParsedRows(cols, init) {
          var j :| 0 <= j < |init| && RowPoint(cols, init[j]) == Some(p);
          assert rows[j] == init[j];
        } else {
          assert RowPoint(cols, rows[|rows| - 1]) == Some(p);
        }
      }
      forall j | 0 <= j < |rows| && RowPoint(cols, rows[j]).Some?
        ensures RowPoint(cols, rows[j]).value in ParsedRows(cols, rows)
      {
        if j < |rows| - 1 {
          assert rows[j] == init[j];
        }
      }
    }
  }

  /** Without a latitude or a longitude column no row has a number in it,
      so nothing is kept. */
  lemma {:induction false} NoCoordinateColumnNoPoints(cols: Columns, rows: seq<string>)
    requires cols.lat < 0 || cols.lng < 0
    ensures ParsedRows(cols, rows) == []
  {
    if rows != [] {
      NoCoordinateColumnNoPoints(cols, rows[..|rows| - 1]);
    }
  }

  /** The text fields of every parsed point: '' when the header has no such
      column; otherwise the cell in that column of the point's row, or
      undefined when the row is too short. */
  lemma PointFields(cols: Columns, rows: seq<string>, p: Point)
    requires p in ParsedRows(cols, rows)
    ensures cols.name < 0 ==> p.name == Some("")
    ensures cols.maKh < 0 ==> p.maKh == Some("")
    ensures cols.maHd < 0 ==> p.maHd == Some("")
    ensures exists j :: 0 <= j < |rows| && var cells := Cells(rows[j]);
              && (cols.name >= 0 ==> p.name == Cell(cells, cols.name))
              && (cols.maKh >= 0 ==> p.maKh == Cell(cells, cols.maKh))
              && (cols.maHd >= 0 ==> p.maHd == Cell(cells, cols.maHd))
              && NumberAt(cells, cols.lat) == Some(p.lat)
              && NumberAt(cells, cols.lng) == Some(p.lng)
  {
    ParsedRowsFromRows(cols, rows);
    var j :| 0 <= j < |rows| && RowPoint(cols, rows[j]) == Some(p);
  }

  /** Text without a non-empty line parses to no points, and so does a sheet
      whose header names no latitude or no longitude column. */
  lemma ParseSheetEmpty(text: string)
    ensures Lines(text) == [] ==> ParseSheet(text) == []
    ensures (Lines(text) != [] && (ColumnsOf(Lines(text)[0]).lat < 0 || ColumnsOf(Lines(text)[0]).lng < 0))
              ==> ParseSheet(text) == []
  {
    var lines := Lines(text);
    if lines != [] {
      var cols := ColumnsOf(lines[0]);
      if cols.lat < 0 || cols.lng < 0 {
        NoCoordinateColumnNoPoints(cols, lines[1..]);
      }
    }
  }
}
