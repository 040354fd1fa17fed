/**
 The CSV writer (backend/src/common/csv.ts) against a reader that follows section 2 of RFC 4180:
 records end in CRLF, the last one's being optional; fields are bare or quoted, a quote inside a
 quoted field doubled.
 */
module Csv {

  type Row = seq<string>

  datatype Result = Ok(rows: seq<Row>) | Malformed

  // ----- the writer ------------------------------------------------------------------------------

  function Doubled(s: string): string {
    if s == [] then [] else (if s[0] == '"' then "\"\"" else [s[0]]) + Doubled(s[1..])
  }

  function Cell(value: string): string { "\"" + Doubled(value) + "\"" }

  function Join(parts: seq<string>, sep: string): string {
    if parts == [] then "" else if |parts| == 1 then parts[0] else parts[0] + sep + Join(parts[1..], sep)
  }

  function Cells(row: Row): (r: seq<string>)
    ensures |r| == |row| && forall i :: 0 <= i < |row| ==> r[i] == Cell(row[i])
  {
    seq(|row|, i requires 0 <= i < |row| => Cell(row[i]))
  }

  function Line(row: Row): string { Join(Cells(row), ",") }

  function Lines(rows: seq<Row>): (r: seq<string>)
    ensures |r| == |rows| && forall i :: 0 <= i < |rows| ==> r[i] == Line(rows[i])
  {
    seq(|rows|, i requires 0 <= i < |rows| => Line(rows[i]))
  }

  /** toCsv */
  function ToCsv(header: Row, rows: seq<Row>): string {
    Join(Lines([header] + rows), "\r\n")
  }

  /** An opening the spreadsheet would run as a formula. */
  predicate FormulaLead(s: string) {
    s != [] && s[0] in {'=', '+', '-', '@', '\t', '\r'}
  }

  predicate AllDigits(s: string) {
    s != [] && forall i :: 0 <= i < |s| ==> '0' <= s[i] <= '9'
  }

  /** \d+(\.\d+)? */
  predicate Pointed(s: string) {
    AllDigits(s) || exists i :: 0 <= i < |s| && s[i] == '.' && AllDigits(s[..i]) && AllDigits(s[i + 1..])
  }

  /** /^-?\d+(\.\d+)?$/ */
  predicate PlainNumber(s: string) {
    Pointed(if s != [] && s[0] == '-' then s[1..] else s)
  }

  function Inert(value: string): string {
    if FormulaLead(value) && !PlainNumber(value) then "'" + value else value
  }

  function InertRow(row: Row): (r: Row)
    ensures |r| == |row| && forall i :: 0 <= i < |row| ==> r[i] == Inert(row[i])
  {
    seq(|row|, i requires 0 <= i < |row| => Inert(row[i]))
  }

  function InertRows(rows: seq<Row>): (r: seq<Row>)
    ensures |r| == |rows| && forall i :: 0 <= i < |rows| ==> r[i] == InertRow(rows[i])
  {
    seq(|rows|, i requires 0 <= i < |rows| => InertRow(rows[i]))
  }

  const BYTE_ORDER_MARK := '\U{FEFF}'

  /** toExcelCsv */
  function ToExcelCsv(header: Row, rows: seq<Row>): string {
    [BYTE_ORDER_MARK] + ToCsv(InertRow(header), InertRows(rows))
  }

  // ----- the reader --------------------------------------------------------------------------------

  /** Where the reader stands: at a field's start, in a bare or a quoted one, or past its quote. */
  datatype Mode = Start | Bare | Quoted | Closed

  /** What is read so far: whole records, the fields of the record begun, the field begun. */
  datatype State = State(rows: seq<Row>, row: Row, field: string, mode: Mode)

  predicate Crlf(s: string) { |s| >= 2 && s[0] == '\r' && s[1] == '\n' }

  function Read(s: string, st: State): Result
    decreases |s|
  {
    if st.mode.Quoted? then
      if s == [] then Malformed
      else if s[0] != '"' then Read(s[1..], st.(field := st.field + [s[0]]))
      else if |s| > 1 && s[1] == '"' then Read(s[2..], st.(field := st.field + "\""))
      else Read(s[1..], st.(mode := Closed))
    else if s == [] then
      // The last record may end without a line break; nothing at all after one is no record.
      if st.mode.Start? && st.row == [] then Ok(st.rows) else Ok(st.rows + [st.row + [st.field]])
    else if s[0] == ',' then Read(s[1..], State(st.rows, st.row + [st.field], "", Start))
    else if Crlf(s) then Read(s[2..], State(st.rows + [st.row + [st.field]], [], "", Start))
    else if s[0] == '"' then (if st.mode.Start? then Read(s[1..], st.(mode := Quoted)) else Malformed)
    else if st.mode.Closed? || s[0] == '\r' || s[0] == '\n' then Malformed
    else Read(s[1..], st.(field := st.field + [s[0]], mode := Bare))
  }

  const FIRST := State([], [], "", Start)

  // ----- the round trip --------------------------------------------------------------------------------

  /** A quoted field is read back whole, whatever it holds. */
  lemma {:induction false} ReadQuoted(value: string, rest: string, st: State)
    requires st.mode.Quoted? && (rest == [] || rest[0] != '"')
    ensures Read(Doubled(value) + ("\"" + rest), st) == Read(rest, st.(field := st.field + value, mode := Closed))
    decreases |value|
  {
    var s := Doubled(value) + ("\"" + rest);
    if value == [] {
      assert s == "\"" + rest && s[1..] == rest;
      assert st.field + value == st.field;
    } else if value[0] == '"' {
      assert s == "\"\"" + (Doubled(value[1..]) + ("\"" + rest));
      assert s[2..] == Doubled(value[1..]) + ("\"" + rest);
      ReadQuoted(value[1..], rest, st.(field := st.field + "\""));
      assert st.field + "\"" + value[1..] == st.field + value;
    } else {
      assert s == [value[0]] + (Doubled(value[1..]) + ("\"" + rest));
      assert s[1..] == Doubled(value[1..]) + ("\"" + rest);
      ReadQuoted(value[1..], rest, st.(field := st.field + [value[0]]));
      assert st.field + [value[0]] + value[1..] == st.field + value;
    }
  }

  lemma ReadCell(value: string, rest: string, rows: seq<Row>, row: Row)
    requires rest == [] || rest[0] != '"'
    ensures Read(Cell(value) + rest, State(rows, row, "", Start)) == Read(rest, State(rows, row, value, Closed))
  {
    var s := Cell(value) + rest;
    assert s == "\"" + (Doubled(value) + ("\"" + rest));
    assert s[1..] == Doubled(value) + ("\"" + rest);
    ReadQuoted(value, rest, State(rows, row, "", Quoted));
    assert "" + value == value;
  }

  lemma ReadComma(rest: string, rows: seq<Row>, row: Row, field: string)
    ensures Read("," + rest, State(rows, row, field, Closed)) == Read(rest, State(rows, row + [field], "", Start))
  {
    assert ("," + rest)[1..] == rest;
  }

  lemma ReadBreak(rest: string, rows: seq<Row>, row: Row, field: string)
    ensures Read("\r\n" + rest, State(rows, row, field, Closed)) == Read(rest, State(rows + [row + [field]], [], "", Start))
  {
    assert ("\r\n" + rest)[2..] == rest;
  }

  lemma ReadEnd(rows: seq<Row>, row: Row, field: string)
    ensures Read("", State(rows, row, field, Closed)) == Ok(rows + [row + [field]])
  {
  }

  /** A line is read up to its last field, left closed. */
  lemma {:induction false} ReadLine(row: Row, rest: string, rows: seq<Row>, before: Row)
    requires row != [] && (rest == [] || Crlf(rest))
    ensures Read(Line(row) + rest, State(rows, before, "", Start))
         == Read(rest, State(rows, before + row[..|row| - 1], row[|row| - 1], Closed))
    decreases |row|
  {
    hide Read, Cell;
    if |row| == 1 {
      ReadCell(row[0], rest, rows, before);
      assert before + row[..0] == before;
      assert Line(row) == Cell(row[0]);
    } else {
      var more := Line(row[1..]) + rest;
      assert Cells(row)[1..] == Cells(row[1..]);
      assert Line(row) + rest == Cell(row[0]) + ("," + more);
      ReadCell(row[0], "," + more, rows, before);
      ReadComma(more, rows, before, row[0]);
      ReadLine(row[1..], rest, rows, before + [row[0]]);
      assert before + [row[0]] + row[1..][..|row| - 2] == before + row[..|row| - 1];
    }
  }

  lemma {:induction false} ReadLines(rows: seq<Row>, before: seq<Row>)
    requires rows != [] && forall i :: 0 <= i < |rows| ==> rows[i] != []
    ensures Read(Join(Lines(rows), "\r\n"), State(before, [], "", Start)) == Ok(before + rows)
    decreases |rows|
  {
    hide Read, Line;
    var row := rows[0];
    var empty: Row := [];
    assert empty + row[..|row| - 1] == row[..|row| - 1];
    assert row[..|row| - 1] + [row[|row| - 1]] == row;
    if |rows| == 1 {
      assert Join(Lines(rows), "\r\n") == Line(row) + [];
      ReadLine(row, [], before, []);
      ReadEnd(before, row[..|row| - 1], row[|row| - 1]);
      assert before + [row] == before + rows;
    } else {
      var more := Join(Lines(rows[1..]), "\r\n");
      assert Lines(rows)[1..] == Lines(rows[1..]);
      assert Join(Lines(rows), "\r\n") == Line(row) + ("\r\n" + more);
      ReadLine(row, "\r\n" + more, before, []);
      ReadBreak(more, before, row[..|row| - 1], row[|row| - 1]);
      ReadLines(rows[1..], before + [row]);
      assert before + [row] + rows[1..] == before + rows;
    }
  }

  /** No record the reader gives is empty. */
  lemma {:induction false} ReadNoEmpty(s: string, st: State)
    requires forall i :: 0 <= i < |st.rows| ==> st.rows[i] != []
    ensures var r := Read(s, st); r.Ok? ==> forall i :: 0 <= i < |r.rows| ==> r.rows[i] != []
    decreases |s|
  {
    if s != [] {
      if st.mode.Quoted? {
        if s[0] != '"' { ReadNoEmpty(s[1..], st.(field := st.field + [s[0]])); }
        else if |s| > 1 && s[1] == '"' { ReadNoEmpty(s[2..], st.(field := st.field + "\"")); }
        else { ReadNoEmpty(s[1..], st.(mode := Closed)); }
      } else if s[0] == ',' {
        ReadNoEmpty(s[1..], State(st.rows, st.row + [st.field], "", Start));
      } else if Crlf(s) {
        ReadNoEmpty(s[2..], State(st.rows + [st.row + [st.field]], [], "", Start));
      } else if s[0] == '"' {
        if st.mode.Start? { ReadNoEmpty(s[1..], st.(mode := Quoted)); }
      } else if !st.mode.Closed? && s[0] != '\r' && s[0] != '\n' {
        var next := st.(field := st.field + [s[0]], mode := Bare);
        ReadNoEmpty(s[1..], next);
        assert Read(s, st) == Read(s[1..], next);
      } else {
        assert Read(s, st) == Malformed;
      }
    }
  }

  /** Round trip: the reader recovers header and rows exactly, whatever their cells hold, exactly
      when none of them is empty. */
  lemma RoundTrip(header: Row, rows: seq<Row>)
    ensures Read(ToCsv(header, rows), FIRST) == Ok([header] + rows)
        <==> forall i :: 0 <= i < |[header] + rows| ==> ([header] + rows)[i] != []
  {
    var all := [header] + rows;
    if forall i :: 0 <= i < |all| ==> all[i] != [] {
      ReadLines(all, []);
      assert [] + all == all;
    }
    ReadNoEmpty(ToCsv(header, rows), FIRST);
  }

  /** Two files that differ in any cell read differently. */
  lemma Injective(h1: Row, r1: seq<Row>, h2: Row, r2: seq<Row>)
    requires forall i :: 0 <= i < |[h1] + r1| ==> ([h1] + r1)[i] != []
    requires forall i :: 0 <= i < |[h2] + r2| ==> ([h2] + r2)[i] != []
    requires ToCsv(h1, r1) == ToCsv(h2, r2)
    ensures h1 == h2 && r1 == r2
  {
    RoundTrip(h1, r1);
    RoundTrip(h2, r2);
    assert ([h1] + r1)[0] == h1 && ([h1] + r1)[1..] == r1;
    assert ([h2] + r2)[0] == h2 && ([h2] + r2)[1..] == r2;
  }

  // ----- the Excel file ----------------------------------------------------------------------------------

  /** What a cell comes back as: itself exactly when it is harmless, otherwise itself behind one
      apostrophe; and never a formula. */
  predicate Tamed(value: string, got: string) {
    && (got == value || got == "'" + value)
    && (got == value <==> !FormulaLead(value) || PlainNumber(value))
    && (FormulaLead(got) ==> PlainNumber(got) && got == value)
  }

  /** Round trip of the Excel file: after its mark, every row is there and every cell tamed. */
  lemma ExcelRoundTrip(header: Row, rows: seq<Row>)
    requires forall i :: 0 <= i < |[header] + rows| ==> ([header] + rows)[i] != []
    ensures var text := ToExcelCsv(header, rows);
            && text[0] == BYTE_ORDER_MARK
            && var r := Read(text[1..], FIRST);
               && r.Ok? && |r.rows| == |rows| + 1
               && forall i :: 0 <= i < |r.rows| ==>
                    && |r.rows[i]| == |([header] + rows)[i]|
                    && forall k :: 0 <= k < |r.rows[i]| ==> Tamed(([header] + rows)[i][k], r.rows[i][k])
  {
    hide Read, ToCsv;
    var all, inert := [header] + rows, [InertRow(header)] + InertRows(rows);
    forall i | 0 <= i < |all| ensures inert[i] == InertRow(all[i]) {}
    RoundTrip(InertRow(header), InertRows(rows));
    assert ToExcelCsv(header, rows)[1..] == ToCsv(InertRow(header), InertRows(rows));
    forall i, k | 0 <= i < |all| && 0 <= k < |all[i]| ensures Tamed(all[i][k], inert[i][k]) {
      InertTames(all[i][k]);
    }
  }

  lemma InertTames(value: string)
    ensures Tamed(value, Inert(value))
  {
    assert !FormulaLead("'" + value) && |"'" + value| != |value|;
  }

  /** The one thing the apostrophe costs: two cells come out alike exactly when one is the other
      with the apostrophe already typed in front. */
  lemma InertCollides(a: string, b: string)
    requires a != b
    ensures Inert(a) == Inert(b) <==>
      (a == "'" + b && Inert(b) != b) || (b == "'" + a && Inert(a) != a)
  {
    assert ("'" + a)[1..] == a && ("'" + b)[1..] == b;
    if a == "'" + b { assert !FormulaLead(a); }
    if b == "'" + a { assert !FormulaLead(b); }
  }

  // ----- which cells get the apostrophe ------------------------------------------------------------

  predicate Digit(c: char) { '0' <= c <= '9' }

  predicate Digits(s: string) { s != [] && Digit(s[0]) && (|s| == 1 || Digits(s[1..])) }

  /** Digits, then nothing or a point and digits. */
  predicate Decimal(s: string) {
    s != [] && Digit(s[0]) && (|s| == 1 || (s[1] == '.' && Digits(s[2..])) || Decimal(s[1..]))
  }

  lemma {:induction false} DigitsAre(s: string)
    ensures Digits(s) <==> AllDigits(s)
    decreases |s|
  {
    if |s| > 1 {
      DigitsAre(s[1..]);
      if AllDigits(s[1..]) && Digit(s[0]) {
        forall i | 0 <= i < |s| ensures '0' <= s[i] <= '9' { if i > 0 { assert s[i] == s[1..][i - 1]; } }
      }
    }
  }

  lemma {:induction false} DecimalIs(s: string)
    ensures Decimal(s) <==> Pointed(s)
    decreases |s|
  {
    hide Digits, AllDigits;
    NoneDigits();
    if s != [] { DecimalNext(s); }
    if |s| > 1 {
      DecimalIs(s[1..]);
      DigitsAre(s[2..]);
    }
  }

  lemma DecimalNext(s: string)
    requires s != []
    ensures Pointed(s) <==> Digit(s[0]) && (|s| == 1 || (s[1] == '.' && AllDigits(s[2..])) || Pointed(s[1..]))
  {
    hide AllDigits;
    AllDigitsNext(s);
    if i :| 0 <= i < |s| && s[i] == '.' && AllDigits(s[..i]) && AllDigits(s[i + 1..]) {
      NoneDigits();
      AllDigitsNext(s[..i]);
      if i > 1 {
        assert s[..i][1..] == s[1..][..i - 1] && s[1..][i..] == s[i + 1..] && s[1..][i - 1] == s[i];
      }
    }
    if Digit(s[0]) && |s| > 1 {
      if s[1] == '.' && AllDigits(s[2..]) {
        AllDigitsNext(s[..1]);
        assert s[1 + 1..] == s[2..];
        assert s[1] == '.' && AllDigits(s[..1]) && AllDigits(s[1 + 1..]);
      }
      if i :| 0 <= i < |s| - 1 && s[1..][i] == '.' && AllDigits(s[1..][..i]) && AllDigits(s[1..][i + 1..]) {
        NoneDigits();
        AllDigitsNext(s[..i + 1]);
        assert s[..i + 1][1..] == s[1..][..i] && s[1..][i + 1..] == s[i + 2..] && s[i + 1] == '.';
        assert s[(i + 1) + 1..] == s[i + 2..];
      }
    }
  }

  lemma NoneDigits()
    ensures !AllDigits("")
  {
  }

  lemma AllDigitsNext(s: string)
    requires s != []
    ensures AllDigits(s) <==> Digit(s[0]) && (|s| == 1 || AllDigits(s[1..]))
  {
    DigitsAre(s);
    if |s| > 1 { DigitsAre(s[1..]); }
  }

  /** Exactly these cells come out changed: one that opens with a sign, an equals or at sign, a tab or
      a carriage return, and is not a number, a minus allowed in front. */
  lemma InertIs(value: string)
    ensures Inert(value) != value <==>
      && value != ""
      && (|| value[0] == '=' || value[0] == '+' || value[0] == '-' || value[0] == '@' || value[0] == '\t' || value[0] == '\r')
      && !Decimal(if value[0] == '-' then value[1..] else value)
  {
    hide Decimal, Pointed;
    assert |"'" + value| != |value|;
    DecimalIs(if value != "" && value[0] == '-' then value[1..] else value);
  }
}
