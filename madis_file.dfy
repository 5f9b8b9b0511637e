// The madis `file` virtual table: how a delimited file's rows are turned
// into table rows. Cells equal to NULL become SQL nulls, rows of the wrong
// width are dropped, stop the scan or are reported, header names are
// cleaned, and with `toj` the trailing cells are folded into one JSON cell.

module MadisFile {
  import opened Wrappers
  import opened JavaStrings

  /** The options that are handed on to the CSV reader; any other option
      left over after the cursor's own ones is rejected. */
  const CsvKeywordParams: set<string> :=
    {"delimiter", "doublequote", "escapechar", "lineterminator", "quotechar", "quoting", "skipinitialspace",
     "dialect", "fast"}

  /** The options the cursor itself consumes. */
  const CursorParams: set<string> := {"encoding", "strict", "fast", "toj"}

  const DefaultEncoding: string := "utf_8"

  // ---------------------------------------------------------------------------
  // nullify

  /** str.upper, restricted to ASCII letters. */
  function UpperChar(c: char): char
  {
    if 'a' <= c <= 'z' then (c as int - 32) as char else c
  }

  function ToUpper(s: string): (r: string)
    ensures |r| == |s|
    ensures forall i :: 0 <= i < |s| ==> r[i] == UpperChar(s[i])
  {
    seq(|s|, i requires 0 <= i < |s| => UpperChar(s[i]))
  }

  /** A cell that reads NULL in any letter case. */
  predicate IsNullMarker(x: string)
  {
    ToUpper(x) == "NULL"
  }

  /** The marker test is case-insensitive: upper-casing to NULL and
      lower-casing to null accept the same cells. */
  lemma NullMarkerIgnoresCase(x: string)
    ensures IsNullMarker(x) <==> ToLower(x) == "null"
  {
    if IsNullMarker(x) {
      assert ToUpper(x)[0] == 'N' && ToUpper(x)[1] == 'U' && ToUpper(x)[2] == 'L' && ToUpper(x)[3] == 'L';
      assert ToLower(x) == "null";
    }
    if ToLower(x) == "null" {
      assert ToLower(x)[0] == 'n' && ToLower(x)[1] == 'u' && ToLower(x)[2] == 'l' && ToLower(x)[3] == 'l';
      assert ToUpper(x) == "NULL";
    }
  }

  /** One row of nullify: same width, and exactly the NULL cells become
      None; every other cell is kept. */
  function NullifyRow(row: seq<string>): (r: seq<Option<string>>)
    ensures |r| == |row|
    ensures forall i :: 0 <= i < |row| ==> (r[i] == None <==> IsNullMarker(row[i]))
    ensures forall i :: 0 <= i < |row| && !IsNullMarker(row[i]) ==> r[i] == Some(row[i])
  {
    seq(|row|, i requires 0 <= i < |row| => if IsNullMarker(row[i]) then None else Some(row[i]))
  }

  /** nullify, row by row. */
  function Nullify(rows: seq<seq<string>>): (r: seq<seq<Option<string>>>)
    ensures |r| == |rows|
    ensures forall k :: 0 <= k < |rows| ==> |r[k]| == |rows[k]|
  {
    seq(|rows|, k requires 0 <= k < |rows| => NullifyRow(rows[k]))
  }

  /** The cells a row holds once null cells are written out again as NULL:
      nullify loses only the letter case of the markers. */
  lemma NullifyLosesOnlyCase(row: seq<string>, i: int)
    requires 0 <= i < |row|
    ensures NullifyRow(row)[i] == None ==> ToUpper(row[i]) == "NULL"
    ensures NullifyRow(row)[i] != None ==> NullifyRow(row)[i].value == row[i]
  {
  }

  // ---------------------------------------------------------------------------
  // The three strictness filters.

  /** The rows of exactly colcount cells, in their order. */
  function RowsOfWidth<T>(rows: seq<seq<T>>, colcount: int): (r: seq<seq<T>>)
    ensures |r| <= |rows|
    ensures forall k :: 0 <= k < |r| ==> |r[k]| == colcount
  {
    if rows == [] then []
    else (if |rows[0]| == colcount then [rows[0]] else []) + RowsOfWidth(rows[1..], colcount)
  }

  /** strict0 keeps exactly the rows of the right width. */
  lemma {:induction false} RowsOfWidthMembers<T>(rows: seq<seq<T>>, colcount: int, row: seq<T>)
    ensures row in RowsOfWidth(rows, colcount) <==> row in rows && |row| == colcount
  {
    if rows != [] {
      RowsOfWidthMembers(rows[1..], colcount, row);
      assert rows == [rows[0]] + rows[1..];
    }
  }

  /** strict0: drops the rows of the wrong width. */
  method Strict0<T>(rows: seq<seq<T>>, colcount: int) returns (r: seq<seq<T>>)
    ensures r == RowsOfWidth(rows, colcount)
  {
    r := [];
    var i := 0;
    while i < |rows|
      invariant 0 <= i <= |rows|
      invariant r + RowsOfWidth(rows[i..], colcount) == RowsOfWidth(rows, colcount)
    {
      RowsOfWidthUnfold(rows, i, colcount);
      var row := rows[i];
      ghost var rest := RowsOfWidth(rows[i + 1..], colcount);
      if |row| == colcount {
        assert r + ([row] + rest) == (r + [row]) + rest;
        r := r + [row];
      } else {
        assert [] + rest == rest;
      }
      i := i + 1;
    }
    assert RowsOfWidth(rows[i..], colcount) == [];
    assert r + [] == r;
  }

  lemma RowsOfWidthUnfold<T>(rows: seq<seq<T>>, i: int, colcount: int)
    requires 0 <= i < |rows|
    ensures RowsOfWidth(rows[i..], colcount)
            == (if |rows[i]| == colcount then [rows[i]] else []) + RowsOfWidth(rows[i + 1..], colcount)
  {
    assert rows[i..][1..] == rows[i + 1..];
  }

  /** A file whose every row has the expected width passes strict0 whole. */
  lemma {:induction false} Strict0KeepsWellFormedFile<T>(rows: seq<seq<T>>, colcount: int)
    requires forall k :: 0 <= k < |rows| ==> |rows[k]| == colcount
    ensures RowsOfWidth(rows, colcount) == rows
  {
    if rows != [] {
      Strict0KeepsWellFormedFile(rows[1..], colcount);
    }
  }

  /** The index of the first row whose width is not colcount, |rows| if none. */
  function FirstWrongWidth<T>(rows: seq<seq<T>>, colcount: int): (k: nat)
    ensures k <= |rows|
    ensures forall j :: 0 <= j < k ==> |rows[j]| == colcount
    ensures k < |rows| ==> |rows[k]| != colcount
  {
    if rows == [] then 0
    else if |rows[0]| != colcount then 0
    else 1 + FirstWrongWidth(rows[1..], colcount)
  }

  /** What a strict1 scan produces: the rows it yielded, then possibly the
      error that ended it. */
  datatype ScanResult<T> = ScanResult(yielded: seq<seq<T>>, error: Option<JavaError>)

  /** strict1: rows are passed on unchanged up to the first one of the wrong
      width, which ends the scan with an error naming its 1-based line number
      (counted from the first data row), its width and the expected width. */
  method Strict1<T>(rows: seq<seq<T>>, colcount: int) returns (out: ScanResult<T>)
    ensures out.yielded == rows[..FirstWrongWidth(rows, colcount)]
    ensures FirstWrongWidth(rows, colcount) == |rows| ==> out.error == None
    ensures FirstWrongWidth(rows, colcount) < |rows| ==>
              out.error == Some(OperatorError(FirstWrongWidth(rows, colcount) + 1,
                                              |rows[FirstWrongWidth(rows, colcount)]|, colcount))
  {
    var linenum := 0;
    var yielded: seq<seq<T>> := [];
    while linenum < |rows|
      invariant 0 <= linenum <= FirstWrongWidth(rows, colcount)
      invariant yielded == rows[..linenum]
    {
      var row := rows[linenum];
      linenum := linenum + 1;
      if |row| != colcount {
        return ScanResult(yielded, Some(OperatorError(linenum, |row|, colcount)));
      }
      yielded := yielded + [row];
    }
    return ScanResult(yielded, None);
  }

  /** One line reported by strictminus1. */
  datatype WrongLine = WrongLine(lineNumber: int, foundCols: int, expectedCols: int, contents: string)

  /** The row's cells joined with commas, each written out by `show`. */
  function Contents<T>(row: seq<T>, show: T -> string): string
  {
    Join(seq(|row|, i requires 0 <= i < |row| => show(row[i])), ",")
  }

  /** The reports for the rows of the wrong width, in order; the first row
      has line number firstLine. */
  function WrongWidthLines<T>(rows: seq<seq<T>>, colcount: int, firstLine: int, show: T -> string)
    : (r: seq<WrongLine>)
    ensures |r| <= |rows|
  {
    if rows == [] then []
    else
      (if |rows[0]| != colcount then [WrongLine(firstLine, |rows[0]|, colcount, Contents(rows[0], show))] else [])
      + WrongWidthLines(rows[1..], colcount, firstLine + 1, show)
  }

  lemma WrongWidthLinesUnfold<T>(rows: seq<seq<T>>, i: int, colcount: int, firstLine: int, show: T -> string)
    requires 0 <= i < |rows|
    ensures WrongWidthLines(rows[i..], colcount, firstLine, show)
            == (if |rows[i]| != colcount then [WrongLine(firstLine, |rows[i]|, colcount, Contents(rows[i], show))] else [])
               + WrongWidthLines(rows[i + 1..], colcount, firstLine + 1, show)
  {
    assert rows[i..][1..] == rows[i + 1..];
  }

  /** The report of row j, whose line number is firstLine + j. */
  function ReportOf<T>(rows: seq<seq<T>>, j: int, colcount: int, firstLine: int, show: T -> string): WrongLine
    requires 0 <= j < |rows|
  {
    WrongLine(firstLine + j, |rows[j]|, colcount, Contents(rows[j], show))
  }

  /** Every row of the wrong width is reported, under its own line number,
      and nothing else is. */
  lemma {:induction false} WrongWidthLinesMembers<T>(rows: seq<seq<T>>, colcount: int, firstLine: int,
                                                     show: T -> string, w: WrongLine)
    ensures w in WrongWidthLines(rows, colcount, firstLine, show) <==>
              exists j :: 0 <= j < |rows| && |rows[j]| != colcount && w == ReportOf(rows, j, colcount, firstLine, show)
  {
    if rows != [] {
      WrongWidthLinesMembers(rows[1..], colcount, firstLine + 1, show, w);
      var tail := rows[1..];
      if exists j :: 0 <= j < |rows| && |rows[j]| != colcount && w == ReportOf(rows, j, colcount, firstLine, show) {
        var j :| 0 <= j < |rows| && |rows[j]| != colcount && w == ReportOf(rows, j, colcount, firstLine, show);
        if j > 0 {
          assert tail[j - 1] == rows[j];
          assert w == ReportOf(tail, j - 1, colcount, firstLine + 1, show);
        }
      }
      if exists j :: 0 <= j < |tail| && |tail[j]| != colcount && w == ReportOf(tail, j, colcount, firstLine + 1, show) {
        var j :| 0 <= j < |tail| && |tail[j]| != colcount && w == ReportOf(tail, j, colcount, firstLine + 1, show);
        assert rows[j + 1] == tail[j];
        assert w == ReportOf(rows, j + 1, colcount, firstLine, show);
      }
    }
  }

  /** strictminus1: only the rows of the wrong width, each as its line
      number, width, expected width and comma-joined contents; a header line
      shifts the numbering by one. */
  method StrictMinus1<T>(rows: seq<seq<T>>, colcount: int, hasheader: bool, show: T -> string)
    returns (r: seq<WrongLine>)
    ensures r == WrongWidthLines(rows, colcount, if hasheader then 2 else 1, show)
  {
    var linenum := 0;
    if hasheader {
      linenum := linenum + 1;
    }
    ghost var base := linenum;
    r := [];
    var i := 0;
    while i < |rows|
      invariant 0 <= i <= |rows|
      invariant linenum == base + i
      invariant r + WrongWidthLines(rows[i..], colcount, linenum + 1, show)
                == WrongWidthLines(rows, colcount, base + 1, show)
    {
      WrongWidthLinesUnfold(rows, i, colcount, linenum + 1, show);
      ghost var rest := WrongWidthLines(rows[i + 1..], colcount, linenum + 2, show);
      linenum := linenum + 1;
      var row := rows[i];
      if |row| != colcount {
        var line := WrongLine(linenum, |row|, colcount, Contents(row, show));
        assert r + ([line] + rest) == (r + [line]) + rest;
        r := r + [line];
      } else {
        assert [] + rest == rest;
      }
      i := i + 1;
    }
    assert WrongWidthLines(rows[i..], colcount, linenum + 1, show) == [];
    assert r + [] == r;
  }

  /** strict0 and strictminus1 split the file: every row is either kept by
      the one or reported by the other. */
  lemma {:induction false} KeptPlusReportedIsAll<T>(rows: seq<seq<T>>, colcount: int, firstLine: int, show: T -> string)
    ensures |RowsOfWidth(rows, colcount)| + |WrongWidthLines(rows, colcount, firstLine, show)| == |rows|
  {
    if rows != [] {
      KeptPlusReportedIsAll(rows[1..], colcount, firstLine + 1, show);
    }
  }

  /** With a header line, strict1 and strictminus1 number the same bad row
      differently: strict1 counts from the first data row, strictminus1 from
      the header. */
  lemma HeaderShiftsOnlyStrictMinus1<T>(rows: seq<seq<T>>, colcount: int, show: T -> string)
    requires FirstWrongWidth(rows, colcount) < |rows|
    ensures var k := FirstWrongWidth(rows, colcount);
            WrongLine(k + 2, |rows[k]|, colcount, Contents(rows[k], show))
              in WrongWidthLines(rows, colcount, 2, show)
  {
    var k := FirstWrongWidth(rows, colcount);
    WrongWidthLinesMembers(rows, colcount, 2, show, ReportOf(rows, k, colcount, 2, show));
  }

  /** The same report lines, each numbered one further down. */
  function ShiftLines(lines: seq<WrongLine>): (r: seq<WrongLine>)
    ensures |r| == |lines|
  {
    seq(|lines|, i requires 0 <= i < |lines| => lines[i].(lineNumber := lines[i].lineNumber + 1))
  }

  /** A header line changes nothing in the strictminus1 report but the line
      numbers, each of which grows by one. */
  lemma {:induction false} HeaderShiftsLineNumbers<T>(rows: seq<seq<T>>, colcount: int, firstLine: int, show: T -> string)
    ensures WrongWidthLines(rows, colcount, firstLine + 1, show)
            == ShiftLines(WrongWidthLines(rows, colcount, firstLine, show))
  {
    if rows != [] {
      HeaderShiftsLineNumbers(rows[1..], colcount, firstLine + 1, show);
      var rest := WrongWidthLines(rows[1..], colcount, firstLine + 1, show);
      var line := WrongLine(firstLine, |rows[0]|, colcount, Contents(rows[0], show));
      if |rows[0]| != colcount {
        assert ShiftLines([line] + rest) == [line.(lineNumber := firstLine + 1)] + ShiftLines(rest);
      } else {
        assert [] + rest == rest;
      }
    }
  }

  // ---------------------------------------------------------------------------
  // cleanBOM

  predicate IsAscii(c: char) { c as int < 128 }

  /** The whitespace Python's str.strip removes. */
  predicate IsPyWhitespace(c: char)
  {
    c == ' ' || c == '\t' || c == '\n' || c == '\r' || c as int == 11 || c as int == 12
  }

  /** encode('ascii', errors='ignore'): every non-ASCII character is dropped. */
  function AsciiOnly(t: string): (r: string)
    ensures |r| <= |t|
    ensures forall i :: 0 <= i < |r| ==> IsAscii(r[i])
    ensures forall c :: c in r <==> c in t && IsAscii(c)
  {
    if t == [] then []
    else (if IsAscii(t[0]) then [t[0]] else []) + AsciiOnly(t[1..])
  }

  /** str.strip: surrounding whitespace removed. */
  function Strip(s: string): (r: string)
    ensures |r| <= |s|
    ensures r != [] ==> !IsPyWhitespace(r[0]) && !IsPyWhitespace(r[|r| - 1])
    ensures forall i :: 0 <= i < |r| ==> r[i] in s
    decreases |s|
  {
    if s == [] then []
    else if IsPyWhitespace(s[0]) then Strip(s[1..])
    else if IsPyWhitespace(s[|s| - 1]) then Strip(s[..|s| - 1])
    else s
  }

  /** Strip removes whitespace only, and only at the two ends. */
  lemma {:induction false} StripBounds(s: string) returns (i: nat, j: nat)
    ensures i <= j <= |s| && Strip(s) == s[i..j]
    ensures forall k :: 0 <= k < i ==> IsPyWhitespace(s[k])
    ensures forall k :: j <= k < |s| ==> IsPyWhitespace(s[k])
    decreases |s|
  {
    if s == [] {
      i, j := 0, 0;
    } else if IsPyWhitespace(s[0]) {
      i, j := StripFrontBounds(s);
    } else if IsPyWhitespace(s[|s| - 1]) {
      i, j := StripBackBounds(s);
    } else {
      i, j := 0, |s|;
    }
  }

  lemma StripFrontBounds(s: string) returns (i: nat, j: nat)
    requires s != [] && IsPyWhitespace(s[0])
    ensures i <= j <= |s| && Strip(s) == s[i..j]
    ensures forall k :: 0 <= k < i ==> IsPyWhitespace(s[k])
    ensures forall k :: j <= k < |s| ==> IsPyWhitespace(s[k])
    decreases |s|, 0
  {
    var i', j' := StripBounds(s[1..]);
    ShiftBounds(s, i', j');
    i, j := i' + 1, j' + 1;
  }

  /** Bounds found in the tail of s, moved one place right, are bounds in
      s when its first character is whitespace. */
  lemma ShiftBounds(s: string, i': nat, j': nat)
    requires s != [] && IsPyWhitespace(s[0]) && i' <= j' <= |s| - 1
    requires forall k :: 0 <= k < i' ==> IsPyWhitespace(s[1..][k])
    requires forall k :: j' <= k < |s| - 1 ==> IsPyWhitespace(s[1..][k])
    ensures s[1..][i'..j'] == s[i' + 1..j' + 1]
    ensures forall k :: 0 <= k < i' + 1 ==> IsPyWhitespace(s[k])
    ensures forall k :: j' + 1 <= k < |s| ==> IsPyWhitespace(s[k])
  {
    forall k | 1 <= k < i' + 1
      ensures IsPyWhitespace(s[k])
    {
      assert s[k] == s[1..][k - 1];
    }
    forall k | j' + 1 <= k < |s|
      ensures IsPyWhitespace(s[k])
    {
      assert s[k] == s[1..][k - 1];
    }
  }

  lemma StripBackBounds(s: string) returns (i: nat, j: nat)
    requires s != [] && !IsPyWhitespace(s[0]) && IsPyWhitespace(s[|s| - 1])
    ensures i <= j <= |s| && Strip(s) == s[i..j]
    ensures forall k :: 0 <= k < i ==> IsPyWhitespace(s[k])
    ensures forall k :: j <= k < |s| ==> IsPyWhitespace(s[k])
    decreases |s|, 0
  {
    var t := s[..|s| - 1];
    var i', j' := StripBounds(t);
    i, j := i', j';
    assert t[i'..j'] == s[i..j];
    forall k | j <= k < |s|
      ensures IsPyWhitespace(s[k])
    {
      if k < |s| - 1 { assert s[k] == t[k]; }
    }
  }

  /** cleanBOM: the ASCII characters of a header name, stripped. */
  function CleanBom(t: string): (r: string)
    ensures forall i :: 0 <= i < |r| ==> IsAscii(r[i])
    ensures r != [] ==> !IsPyWhitespace(r[0]) && !IsPyWhitespace(r[|r| - 1])
  {
    Strip(AsciiOnly(t))
  }

  /** A byte-order mark in front of the name is removed. */
  lemma BomIsDropped(t: string)
    ensures CleanBom(['\U{FEFF}'] + t) == CleanBom(t)
  {
    assert (['\U{FEFF}'] + t)[1..] == t;
    assert AsciiOnly(['\U{FEFF}'] + t) == AsciiOnly(t);
  }

  lemma {:induction false} AsciiOnlyKeepsAscii(t: string)
    requires forall i :: 0 <= i < |t| ==> IsAscii(t[i])
    ensures AsciiOnly(t) == t
  {
    if t != [] {
      AsciiOnlyKeepsAscii(t[1..]);
    }
  }

  /** The ASCII characters keep their order: the ASCII part of a
      concatenation is the ASCII part of its first piece followed by that of
      its second. */
  lemma {:induction false} AsciiOnlyAppend(a: string, b: string)
    ensures AsciiOnly(a + b) == AsciiOnly(a) + AsciiOnly(b)
  {
    if a == [] {
      assert a + b == b;
    } else {
      assert (a + b)[0] == a[0];
      assert (a + b)[1..] == a[1..] + b;
      AsciiOnlyAppend(a[1..], b);
      var first: string := if IsAscii(a[0]) then [a[0]] else [];
      assert AsciiOnly(a + b) == first + AsciiOnly(a[1..] + b);
      assert first + (AsciiOnly(a[1..]) + AsciiOnly(b)) == (first + AsciiOnly(a[1..])) + AsciiOnly(b);
    }
  }

  /** Cleaning a cleaned name changes nothing. */
  lemma CleanBomIdempotent(t: string)
    ensures CleanBom(CleanBom(t)) == CleanBom(t)
  {
    AsciiOnlyKeepsAscii(CleanBom(t));
  }

  // ---------------------------------------------------------------------------
  // tojlist and tojdict

  /** Python's r[:n] for n >= 0. */
  function PyHead<T>(r: seq<T>, n: nat): (h: seq<T>)
    ensures |h| == if n <= |r| then n else |r|
    ensures h <= r
  {
    if n <= |r| then r[..n] else r
  }

  /** Python's r[n:] for n >= 0. */
  function PyTail<T>(r: seq<T>, n: nat): (t: seq<T>)
    ensures PyHead(r, n) + t == r
  {
    if n <= |r| then r[n..] else []
  }

  /** One tojlist row: the first preable cells unchanged, the rest folded
      into one cell by `dumps` (JSON encoding, not modelled). */
  function TojListRow<T>(row: seq<T>, preable: nat, dumps: seq<T> -> T): (out: seq<T>)
    ensures |out| == (if preable <= |row| then preable else |row|) + 1
    ensures out[..|out| - 1] == PyHead(row, preable)
    ensures out[|out| - 1] == dumps(PyTail(row, preable))
  {
    PyHead(row, preable) + [dumps(PyTail(row, preable))]
  }

  /** tojlist, row by row. */
  function TojList<T>(rows: seq<seq<T>>, preable: nat, dumps: seq<T> -> T): (r: seq<seq<T>>)
    ensures |r| == |rows|
    ensures forall k :: 0 <= k < |rows| ==> r[k] == TojListRow(rows[k], preable, dumps)
  {
    seq(|rows|, k requires 0 <= k < |rows| => TojListRow(rows[k], preable, dumps))
  }

  /** tojdict: as tojlist, but the folded cells are paired with the header
      names past preable (dict(zip(...)) encoding, not modelled). */
  function TojDict<T>(rows: seq<seq<T>>, header: seq<string>, preable: nat,
                      dumpsDict: (seq<string>, seq<T>) -> T): (r: seq<seq<T>>)
    ensures |r| == |rows|
    ensures forall k :: 0 <= k < |rows| ==>
              r[k] == PyHead(rows[k], preable) + [dumpsDict(header, PyTail(rows[k], preable))]
  {
    seq(|rows|, k requires 0 <= k < |rows| => PyHead(rows[k], preable) + [dumpsDict(header, PyTail(rows[k], preable))])
  }

  /** Nothing is lost by tojlist: the kept cells and the cells handed to
      `dumps` make up the original row. */
  lemma TojListLosesNothing<T>(row: seq<T>, preable: nat, dumps: seq<T> -> T, folded: seq<T>)
    requires dumps(folded) == TojListRow(row, preable, dumps)[|TojListRow(row, preable, dumps)| - 1]
    requires forall a, b :: dumps(a) == dumps(b) ==> a == b
    ensures TojListRow(row, preable, dumps)[..|TojListRow(row, preable, dumps)| - 1] + folded == row
  {
  }

  // ---------------------------------------------------------------------------
  // FileCursor.__init__: options, the strictness set-up and the columns.

  datatype CursorOptions = CursorOptions(
    encoding: string,
    strict: Option<int>,
    fast: bool,
    toj: int,
    rest: map<string, string>)

  /** The cursor's own options are taken out of the keyword arguments:
      encoding (default utf_8), strict (parsed by int(), whose failure is
      an error), fast (by presence) and toj (parsed by int(), 0 when that
      fails, -1 when absent). Whatever remains must be a CSV option. */
  function ParseCursorOptions(rest: map<string, string>, pyInt: string -> Option<int>): (r: Result<CursorOptions>)
    ensures "strict" in rest && pyInt(rest["strict"]).None? ==> r == Failure(NumberFormat)
    ensures !("strict" in rest && pyInt(rest["strict"]).None?) ==>
              (r.Failure? <==> exists k :: k in rest && k !in CursorParams && k !in CsvKeywordParams)
    ensures r.Failure? ==> r.error == NumberFormat || r.error == InvalidParameter
    ensures r.Success? ==>
              && r.value.encoding == (if "encoding" in rest then rest["encoding"] else DefaultEncoding)
              && r.value.strict == (if "strict" in rest then pyInt(rest["strict"]) else None)
              && r.value.fast == ("fast" in rest)
              && r.value.toj == (if "toj" in rest then (if pyInt(rest["toj"]).Some? then pyInt(rest["toj"]).value else 0)
                                 else -1)
              && r.value.rest == rest - CursorParams
              && r.value.rest.Keys <= CsvKeywordParams
  {
    if "strict" in rest && pyInt(rest["strict"]).None? then Failure(NumberFormat)
    else
      var remaining := rest - CursorParams;
      if exists k :: k in remaining && k !in CsvKeywordParams then Failure(InvalidParameter)
      else
        Success(CursorOptions(
          if "encoding" in rest then rest["encoding"] else DefaultEncoding,
          if "strict" in rest then pyInt(rest["strict"]) else None,
          "fast" in rest,
          if "toj" in rest then (if pyInt(rest["toj"]).Some? then pyInt(rest["toj"]).value else 0) else -1,
          remaining))
  }

  /** An unknown option is rejected even when every other option is valid. */
  lemma UnknownOptionRejected(rest: map<string, string>, pyInt: string -> Option<int>, key: string)
    requires key in rest && key !in CursorParams && key !in CsvKeywordParams
    ensures ParseCursorOptions(rest, pyInt).Failure?
  {
  }

  /** The row filter the cursor installs. */
  datatype RowFilter = NoFilter | DropWrongWidth | StopAtWrongWidth | ReportWrongWidth

  /** The input is read as line JSON for a .json or .js file or a json
      dialect; that path installs no filter. */
  predicate IsJsonInput(filenameExt: string, rest: map<string, string>)
  {
    filenameExt == ".json" || filenameExt == ".js" || ("dialect" in rest && ToLower(rest["dialect"]) == "json")
  }

  /** The CSV reader is used when there is a header, a .csv or .tsv file, or
      any CSV option; otherwise the file is read line by line. */
  predicate UsesCsvReader(filenameExt: string, hasheader: bool, rest: map<string, string>)
  {
    hasheader || |rest| > 0 || filenameExt == ".csv" || filenameExt == ".tsv"
  }

  /** The strict level in force: the non-fast CSV reader defaults to 1. */
  function EffectiveStrict(opts: CursorOptions, filenameExt: string, hasheader: bool): (s: Option<int>)
    ensures IsJsonInput(filenameExt, opts.rest) || !UsesCsvReader(filenameExt, hasheader, opts.rest) ==> s == opts.strict
    ensures !IsJsonInput(filenameExt, opts.rest) && UsesCsvReader(filenameExt, hasheader, opts.rest) && opts.strict.Some?
            ==> s == opts.strict
    ensures (!IsJsonInput(filenameExt, opts.rest) && UsesCsvReader(filenameExt, hasheader, opts.rest) && opts.strict.None?)
            ==> s == (if opts.fast then None else Some(1))
  {
    if IsJsonInput(filenameExt, opts.rest) || !UsesCsvReader(filenameExt, hasheader, opts.rest) then opts.strict
    else if !opts.fast && opts.strict.None? then Some(1)
    else opts.strict
  }

  /** The filter for the strict level; levels other than 0, 1 and -1 install
      none, and so do the JSON and line paths. */
  function FilterOf(opts: CursorOptions, filenameExt: string, hasheader: bool): (f: RowFilter)
    ensures f != NoFilter ==> !IsJsonInput(filenameExt, opts.rest) && UsesCsvReader(filenameExt, hasheader, opts.rest)
    ensures f == DropWrongWidth ==> EffectiveStrict(opts, filenameExt, hasheader) == Some(0)
    ensures f == StopAtWrongWidth ==> EffectiveStrict(opts, filenameExt, hasheader) == Some(1)
    ensures f == ReportWrongWidth ==> EffectiveStrict(opts, filenameExt, hasheader) == Some(-1)
  {
    if IsJsonInput(filenameExt, opts.rest) || !UsesCsvReader(filenameExt, hasheader, opts.rest) then NoFilter
    else
      match EffectiveStrict(opts, filenameExt, hasheader)
      case Some(0) => DropWrongWidth
      case Some(1) => StopAtWrongWidth
      case Some(-1) => ReportWrongWidth
      case _ => NoFilter
  }

  /** Reading CSV without `fast` and without `strict` stops at the first row
      of the wrong width; with `fast` no filter is installed. */
  lemma StrictDefault(opts: CursorOptions, filenameExt: string, hasheader: bool)
    requires !IsJsonInput(filenameExt, opts.rest) && UsesCsvReader(filenameExt, hasheader, opts.rest)
    requires opts.strict.None?
    ensures !opts.fast ==> FilterOf(opts, filenameExt, hasheader) == StopAtWrongWidth
    ensures opts.fast ==> FilterOf(opts, filenameExt, hasheader) == NoFilter
  {
  }

  /** The expected width: the header's width, else the first row's when
      column names are to be taken from the file, else the number of
      declared columns. */
  function ExpectedWidth<T>(first: bool, hasheader: bool, declared: nat, sample: seq<T>): (w: nat)
    ensures hasheader || first ==> w == |sample|
    ensures !hasheader && !first ==> w == declared
  {
    if hasheader || first then |sample| else declared
  }

  datatype Column = Column(name: string, sqlType: string)

  const StrictMinus1Columns: seq<Column> :=
    [Column("linenumber", "int"), Column("foundcols", "int"), Column("expectedcols", "int"), Column("contents", "text")]

  /** C1, ..., Cn. */
  function GeneratedColumns(n: nat): (cols: seq<Column>)
    ensures |cols| == n
    ensures forall i :: 0 <= i < n ==> cols[i] == Column("C" + IntToString(i + 1), "text")
  {
    seq(n, i requires 0 <= i < n => Column("C" + IntToString(i + 1), "text"))
  }

  /** Generated column names never collide. */
  lemma GeneratedNamesDistinct(n: nat, i: nat, j: nat)
    requires i < n && j < n && i != j
    ensures GeneratedColumns(n)[i].name != GeneratedColumns(n)[j].name
  {
    var a, b := IntToString(i + 1), IntToString(j + 1);
    if ("C" + a) == ("C" + b) {
      assert a == ("C" + a)[1..] && b == ("C" + b)[1..];
      IntToStringInjective(i + 1, j + 1);
    }
  }

  /** Header names, cleaned; a header cell that nullify turned into None
      cannot be cleaned, which is an error. */
  function HeaderColumns(sample: seq<Option<string>>): (r: Result<seq<Column>>)
    ensures r.Success? <==> forall i :: 0 <= i < |sample| ==> sample[i].Some?
    ensures r.Success? ==> |r.value| == |sample|
                           && forall i :: 0 <= i < |sample| ==> r.value[i] == Column(CleanBom(sample[i].value), "text")
    ensures r.Failure? ==> r.error == Runtime
  {
    if sample == [] then Success([])
    else if sample[0].None? then Failure(Runtime)
    else
      var rest :- HeaderColumns(sample[1..]);
      assert forall i :: 1 <= i < |sample| ==> sample[i] == sample[1..][i - 1];
      Success([Column(CleanBom(sample[0].value), "text")] + rest)
  }

  /** The columns of the CSV path before toj: the declared ones, the four
      report columns under strictminus1, and, when column names are taken
      from the file and none are declared, the cleaned header names or
      C1..Cn. */
  function CsvColumns(declared: seq<Column>, filter: RowFilter, first: bool, hasheader: bool,
                      width: nat, sample: seq<Option<string>>): (r: Result<seq<Column>>)
    ensures filter == ReportWrongWidth ==> r == Success(declared + StrictMinus1Columns)
    ensures filter != ReportWrongWidth && (!first || declared != []) ==> r == Success(declared)
    ensures filter != ReportWrongWidth && first && declared == [] && !hasheader ==> r == Success(GeneratedColumns(width))
    ensures filter != ReportWrongWidth && first && declared == [] && hasheader ==> r == HeaderColumns(sample)
  {
    var cols := declared + (if filter == ReportWrongWidth then StrictMinus1Columns else []);
    if first && cols == [] then
      (if hasheader then HeaderColumns(sample) else Success(GeneratedColumns(width)))
    else
      assert filter != ReportWrongWidth ==> cols == declared;
      Success(cols)
  }

  /** The line path: the declared columns plus the single text column. */
  function LineColumns(declared: seq<Column>): (r: seq<Column>)
    ensures |r| == |declared| + 1 && r[..|declared|] == declared && r[|declared|] == Column("C1", "text")
  {
    declared + [Column("C1", "text")]
  }

  /** toj's truncation: the last column is popped while there are more than
      toj of them. */
  method TruncateColumns(cols: seq<Column>, toj: nat) returns (r: seq<Column>)
    ensures r == PyHead(cols, toj)
  {
    r := cols;
    while |r| > toj
      invariant r == cols[..|r|]
      invariant |r| >= (if toj <= |cols| then toj else |cols|)
      decreases |r|
    {
      r := r[..|r| - 1];
    }
  }

  /** toj: the columns kept by the truncation, then one JSON column, named
      for a dictionary when there is a header and for a list otherwise. */
  method TojColumns(cols: seq<Column>, toj: nat, hasheader: bool) returns (r: seq<Column>)
    ensures |r| == (if toj <= |cols| then toj else |cols|) + 1
    ensures r[..|r| - 1] == PyHead(cols, toj)
    ensures r[|r| - 1] == Column(if hasheader then "Cjdict" else "Cjlist", "text")
  {
    r := TruncateColumns(cols, toj);
    r := r + [Column(if hasheader then "Cjdict" else "Cjlist", "text")];
  }

  /** Under toj, a row and the column list it is read under keep the same
      width whenever the row was as wide as the columns. */
  lemma TojKeepsRowsAligned<T>(cols: seq<Column>, row: seq<T>, toj: nat, dumps: seq<T> -> T)
    requires |row| == |cols|
    ensures |TojListRow(row, toj, dumps)| == |PyHead(cols, toj)| + 1
  {
  }
}
