/**
 * The benchmark's CSV files (benchmarks/src/csv.rs), as section 2 of RFC 4180 describes them: fields
 * are quoted when they need it, records end with CRLF, and reading gives back what was written.
 */
module Csv {
  import opened Basics

  type Field = string
  type Row = seq<Field>

  predicate Special(c: char) {
    c == ',' || c == '"' || c == '\r' || c == '\n'
  }

  predicate NeedsQuotes(field: Field) {
    exists i :: 0 <= i < |field| && Special(field[i])
  }

  // ---------------------------------------------------------------- writing

  /** Every quote twice. */
  function Doubled(field: Field): string {
    if field == "" then ""
    else (if field[0] == '"' then "\"\"" else [field[0]]) + Doubled(field[1..])
  }

  function Escaped(field: Field): string {
    if NeedsQuotes(field) then "\"" + Doubled(field) + "\"" else field
  }

  /** The fields of a row, separated by commas; `fields` must not be empty. */
  function Joined(fields: Row): string {
    if fields == [] then ""
    else if |fields| == 1 then Escaped(fields[0])
    else Escaped(fields[0]) + "," + Joined(fields[1..])
  }

  function Encoded(rows: seq<Row>): string {
    if rows == [] then "" else Joined(rows[0]) + "\r\n" + Encoded(rows[1..])
  }

  method PushEscaped(output: string, field: Field) returns (r: string)
    ensures r == output + Escaped(field)
  {
    if exists i :: 0 <= i < |field| && Special(field[i]) {
      r := output + "\"";
      assert field[0..] == field;
      for i := 0 to |field|
        invariant r + Doubled(field[i..]) == output + "\"" + Doubled(field)
      {
        assert field[i..][1..] == field[i + 1..];
        if field[i] == '"' {
          r := r + "\"";
        }
        r := r + [field[i]];
      }
      assert field[|field|..] == "" && r + "" == r;
      r := r + "\"";
      assert r == output + ("\"" + Doubled(field) + "\"");
    } else {
      r := output + field;
    }
  }

  /** One row of encode_csv. */
  method PushRow(output: string, fields: Row) returns (r: string)
    requires fields != []
    ensures r == output + Joined(fields) + "\r\n"
  {
    r := PushEscaped(output, fields[0]);
    for i := 1 to |fields|
      invariant r + Following(fields, i) == output + Joined(fields)
    {
      FollowingStep(r, fields, i);
      r := PushEscaped(r + ",", fields[i]);
    }
    assert r + "" == r;
    r := r + "\r\n";
  }

  lemma {:induction false} FollowingStep(output: string, fields: Row, i: nat)
    requires 0 < i < |fields|
    ensures (output + "," + Escaped(fields[i])) + Following(fields, i + 1) == output + Following(fields, i)
  {
    JoinedStep(fields, i);
    Regroup(output, ",", Escaped(fields[i]), Following(fields, i + 1));
  }

  lemma {:induction false} JoinedStep(fields: Row, i: nat)
    requires 0 < i < |fields|
    ensures Following(fields, i) == "," + (Escaped(fields[i]) + Following(fields, i + 1))
  {
    var rest := fields[i..];
    assert rest[0] == fields[i] && rest[1..] == fields[i + 1..];
    if |rest| == 1 {
      EmptyTail(Escaped(rest[0]));
    } else {
      Associate(Escaped(rest[0]), ",", Joined(rest[1..]));
    }
  }

  lemma {:induction false} EmptyTail(a: string)
    ensures a + "" == a
  {
  }

  lemma {:induction false} Associate(a: string, b: string, c: string)
    ensures a + b + c == a + (b + c)
  {
  }

  lemma {:induction false} Regroup(a: string, b: string, c: string, d: string)
    ensures (a + b + c) + d == a + (b + (c + d)) == a + (b + c + d)
  {
  }

  /** What is still to be written after the first `i` fields. */
  function Following(fields: Row, i: nat): string
    requires 0 < i <= |fields|
  {
    if i == |fields| then "" else "," + Joined(fields[i..])
  }

  method EncodeRows(rows: seq<Row>) returns (r: string)
    requires forall i :: 0 <= i < |rows| ==> rows[i] != []
    ensures r == Encoded(rows)
  {
    r := "";
    assert rows[0..] == rows;
    for i := 0 to |rows|
      invariant r + Encoded(rows[i..]) == Encoded(rows)
    {
      assert rows[i..][1..] == rows[i + 1..];
      Regroup(r, Joined(rows[i]), "\r\n", Encoded(rows[i + 1..]));
      r := PushRow(r, rows[i]);
    }
    assert rows[|rows|..] == [] && r + "" == r;
  }

  // ---------------------------------------------------------------- reading

  /** The parser's variables. */
  datatype Parser = Parser(rows: seq<Row>, row: Row, field: Field, quoted: bool, closed: bool)

  const START := Parser([], [], "", false, false)

  function EndField(p: Parser): Parser {
    p.(row := p.row + [p.field], field := "", closed := false)
  }

  function EndRow(p: Parser): Parser {
    var q := EndField(p);
    q.(rows := q.rows + [q.row], row := [])
  }

  /** One round of the loop: the state after it and how many characters it took, or a malformed file. */
  function Round(rest: string, p: Parser): (r: Option<(Parser, nat)>)
    requires rest != ""
    ensures r.Some? ==> 0 < r.value.1 <= |rest|
  {
    var c := rest[0];
    if p.quoted then
      if c == '"' then
        if |rest| > 1 && rest[1] == '"' then Some((p.(field := p.field + "\""), 2))
        else Some((p.(quoted := false, closed := true), 1))
      else Some((p.(field := p.field + [c]), 1))
    else if p.closed && c != ',' && c != '\r' && c != '\n' then None
    else if c == '"' then
      if p.field == "" && !p.closed then Some((p.(quoted := true), 1)) else None
    else if c == ',' then Some((EndField(p), 1))
    else if c == '\r' || c == '\n' then
      Some((EndRow(p), if c == '\r' && |rest| > 1 && rest[1] == '\n' then 2 else 1))
    else Some((p.(field := p.field + [c]), 1))
  }

  function Finish(p: Parser): Option<seq<Row>> {
    if p.quoted || p.field != "" || p.row != [] || p.closed then None else Some(p.rows)
  }

  function Parsed(rest: string, p: Parser): Option<seq<Row>>
    decreases |rest|
  {
    if rest == "" then Finish(p)
    else
      match Round(rest, p)
      case None => None
      case Some((q, n)) => Parsed(rest[n..], q)
  }

  method ParseRecords(input: string) returns (r: Option<seq<Row>>)
    ensures r == Parsed(input, START)
  {
    var p, index := START, 0;
    assert input[0..] == input;
    while index < |input|
      invariant 0 <= index <= |input|
      invariant Parsed(input[index..], p) == Parsed(input, START)
      decreases |input| - index
    {
      var round := Round(input[index..], p);
      if round.None? {
        return None;
      }
      assert input[index..][round.value.1..] == input[index + round.value.1..];
      p, index := round.value.0, index + round.value.1;
    }
    assert input[index..] == "";
    return Finish(p);
  }

  // ---------------------------------------------------------------- the round trip

  /** What may follow a field. */
  predicate EndsField(rest: string) {
    rest != "" && (rest[0] == ',' || rest[0] == '\r' || rest[0] == '\n')
  }

  lemma {:induction false} OneRound(c: char, rest: string, p: Parser, q: Parser)
    requires Round([c] + rest, p) == Some((q, 1))
    ensures Parsed([c] + rest, p) == Parsed(rest, q)
  {
    assert ([c] + rest)[1..] == rest;
  }

  lemma {:induction false} PlainFieldParses(field: Field, rest: string, p: Parser)
    requires (forall i :: 0 <= i < |field| ==> !Special(field[i])) && !p.quoted && !p.closed
    ensures Parsed(field + rest, p) == Parsed(rest, p.(field := p.field + field))
  {
    if field == "" {
      assert field + rest == rest && p.field + field == p.field;
    } else {
      var c, tail := field[0], field[1..];
      assert field + rest == [c] + (tail + rest);
      var q := p.(field := p.field + [c]);
      OneRound(c, tail + rest, p, q);
      PlainFieldParses(tail, rest, q);
      assert q.field + tail == p.field + field;
    }
  }

  lemma {:induction false} QuotedBodyParses(field: Field, rest: string, p: Parser)
    requires p.quoted && (rest == "" || rest[0] != '"')
    ensures Parsed(Doubled(field) + "\"" + rest, p)
         == Parsed(rest, p.(field := p.field + field, quoted := false, closed := true))
  {
    if field == "" {
      assert Doubled(field) + "\"" + rest == ['"'] + rest;
      assert p.field + field == p.field;
      OneRound('"', rest, p, p.(quoted := false, closed := true));
    } else {
      var c, tail := field[0], field[1..];
      var more := Doubled(tail) + "\"" + rest;
      var q := p.(field := p.field + [c]);
      if c == '"' {
        var input := "\"\"" + more;
        assert Doubled(field) + "\"" + rest == input;
        assert Round(input, p) == Some((q, 2));
        assert input[2..] == more;
      } else {
        assert Doubled(field) + "\"" + rest == [c] + more;
        OneRound(c, more, p, q);
      }
      QuotedBodyParses(tail, rest, q);
      assert q.field + tail == p.field + field;
    }
  }

  /** An escaped field is read as the field, whatever it contains. */
  lemma {:induction false} FieldParses(field: Field, rest: string, p: Parser)
    requires p.field == "" && !p.quoted && !p.closed && EndsField(rest)
    ensures Parsed(Escaped(field) + rest, p) == Parsed(rest, p.(field := field, closed := NeedsQuotes(field)))
  {
    assert "" + field == field;
    if NeedsQuotes(field) {
      var body := Doubled(field) + "\"" + rest;
      assert Escaped(field) + rest == ['"'] + body;
      OneRound('"', body, p, p.(quoted := true));
      QuotedBodyParses(field, rest, p.(quoted := true));
    } else {
      PlainFieldParses(field, rest, p);
    }
  }

  lemma {:induction false} RowParses(fields: Row, rest: string, p: Parser)
    requires fields != [] && p.field == "" && !p.quoted && !p.closed
    ensures Parsed(Joined(fields) + "\r\n" + rest, p)
         == Parsed(rest, p.(rows := p.rows + [p.row + fields], row := []))
  {
    if |fields| == 1 {
      var tail := "\r\n" + rest;
      assert Joined(fields) + "\r\n" + rest == Escaped(fields[0]) + tail;
      FieldParses(fields[0], tail, p);
      var q := p.(field := fields[0], closed := NeedsQuotes(fields[0]));
      assert Round(tail, q) == Some((EndRow(q), 2)) && tail[2..] == rest;
      assert p.row + fields == p.row + [fields[0]];
    } else {
      var tail := Joined(fields[1..]) + "\r\n" + rest;
      assert Joined(fields) + "\r\n" + rest == Escaped(fields[0]) + ([','] + tail);
      FieldParses(fields[0], [','] + tail, p);
      var q := p.(field := fields[0], closed := NeedsQuotes(fields[0]));
      OneRound(',', tail, q, EndField(q));
      RowParses(fields[1..], rest, EndField(q));
      assert (p.row + [fields[0]]) + fields[1..] == p.row + fields;
    }
  }

  lemma {:induction false} RowsParse(rows: seq<Row>, done: seq<Row>)
    requires forall i :: 0 <= i < |rows| ==> rows[i] != []
    ensures Parsed(Encoded(rows), START.(rows := done)) == Some(done + rows)
    decreases |rows|
  {
    if rows == [] {
      assert done + rows == done;
    } else {
      var p := START.(rows := done);
      RowParses(rows[0], Encoded(rows[1..]), p);
      assert [] + rows[0] == rows[0];
      RowsParse(rows[1..], done + [rows[0]]);
      assert (done + [rows[0]]) + rows[1..] == done + rows;
    }
  }

  /** Round trip: any non-empty rows of any fields, quotes, commas, CR, LF and empty fields included. */
  lemma {:induction false} CsvRoundTrip(rows: seq<Row>)
    requires forall i :: 0 <= i < |rows| ==> rows[i] != []
    ensures Parsed(Encoded(rows), START) == Some(rows)
  {
    RowsParse(rows, []);
    assert [] + rows == rows;
  }

  // ---------------------------------------------------------------- exactly what is accepted

  /** How a field may be written: as it is if it needs no quotes, or quoted in any case. */
  datatype FieldForm = Plain(field: Field) | Quoted(field: Field)

  datatype Ending = CrLf | Cr | Lf

  /** How a row may be written: fields that end with a comma, the last field, and a line ending. */
  datatype RowForm = RowForm(init: seq<FieldForm>, last: FieldForm, ending: Ending)

  predicate FormValid(f: FieldForm) {
    f.Plain? ==> forall i :: 0 <= i < |f.field| ==> !Special(f.field[i])
  }

  predicate RowValid(r: RowForm) {
    FormValid(r.last) && forall i :: 0 <= i < |r.init| ==> FormValid(r.init[i])
  }

  function FormText(f: FieldForm): string {
    match f
    case Plain(field) => field
    case Quoted(field) => "\"" + Doubled(field) + "\""
  }

  function InitText(init: seq<FieldForm>): string {
    if init == [] then "" else InitText(init[..|init| - 1]) + FormText(init[|init| - 1]) + ","
  }

  function EndingText(e: Ending): string {
    match e
    case CrLf => "\r\n"
    case Cr => "\r"
    case Lf => "\n"
  }

  function RowText(r: RowForm): string {
    InitText(r.init) + FormText(r.last) + EndingText(r.ending)
  }

  function Text(rows: seq<RowForm>): string {
    if rows == [] then "" else Text(rows[..|rows| - 1]) + RowText(rows[|rows| - 1])
  }

  function RowOf(r: RowForm): Row {
    FieldsOf(r.init) + [r.last.field]
  }

  function FieldsOf(init: seq<FieldForm>): (r: Row)
    ensures |r| == |init| && forall i :: 0 <= i < |init| ==> r[i] == init[i].field
  {
    seq(|init|, i requires 0 <= i < |init| => init[i].field)
  }

  function RowsOf(rows: seq<RowForm>): (r: seq<Row>)
    ensures |r| == |rows| && forall i :: 0 <= i < |rows| ==> r[i] == RowOf(rows[i])
  {
    seq(|rows|, i requires 0 <= i < |rows| => RowOf(rows[i]))
  }

  predicate StartsWithLf(s: string) {
    s != "" && s[0] == '\n'
  }

  /** A bare CR is not followed by an LF, which would belong to it. */
  predicate Separated(rows: seq<RowForm>, rest: string)
    decreases |rows|
  {
    rows == []
    || (&& (rows[|rows| - 1].ending == Cr ==> !StartsWithLf(rest))
        && Separated(rows[..|rows| - 1], RowText(rows[|rows| - 1]) + rest))
  }

  /** The text is a way to write the rows. */
  ghost predicate Writes(text: string, rows: seq<Row>) {
    exists forms :: WritesAs(text, rows, forms)
  }

  predicate WritesAs(text: string, rows: seq<Row>, forms: seq<RowForm>) {
    && (forall i :: 0 <= i < |forms| ==> RowValid(forms[i])) && Separated(forms, "")
    && Text(forms) == text && RowsOf(forms) == rows
  }

  // ---------------------------------------------------------------- accepted texts are well formed

  /** The field that the parser is in the middle of, as far as it has been read. */
  function Partial(p: Parser): string {
    if p.quoted then "\"" + Doubled(p.field)
    else if p.closed then "\"" + Doubled(p.field) + "\""
    else p.field
  }

  /** What has been read are the rows `done`, the fields `init` of the next one, and part of a field. */
  predicate Reading(p: Parser, done: seq<RowForm>, init: seq<FieldForm>, rest: string) {
    Shaped(p, done, init) && Separated(done, InitText(init) + Partial(p) + rest)
  }

  function ReadSoFar(p: Parser, done: seq<RowForm>, init: seq<FieldForm>): string {
    Text(done) + (InitText(init) + Partial(p))
  }

  lemma {:induction false} DoubledGrows(field: Field, c: char)
    ensures Doubled(field + [c]) == Doubled(field) + if c == '"' then "\"\"" else [c]
  {
    if field == "" {
      assert field + [c] == [c] && Doubled([c][1..]) == "";
    } else {
      assert (field + [c])[0] == field[0] && (field + [c])[1..] == field[1..] + [c];
      DoubledGrows(field[1..], c);
    }
  }

  /** The form of the field that ends here. */
  function FormOf(p: Parser): FieldForm {
    if p.closed then Quoted(p.field) else Plain(p.field)
  }

  lemma {:induction false} ReadingExtends(p: Parser, q: Parser, done: seq<RowForm>, init: seq<FieldForm>, rest: string, n: nat)
    requires Reading(p, done, init, rest) && n <= |rest| && Partial(q) == Partial(p) + rest[..n]
    requires q == p.(field := q.field, quoted := q.quoted, closed := q.closed) && !(q.quoted && q.closed)
    requires !q.quoted && !q.closed ==> forall i :: 0 <= i < |q.field| ==> !Special(q.field[i])
    ensures Reading(q, done, init, rest[n..]) && ReadSoFar(q, done, init) + rest[n..] == ReadSoFar(p, done, init) + rest
  {
    assert rest == rest[..n] + rest[n..];
    Shift(Text(done), InitText(init), Partial(p), rest[..n], rest[n..]);
  }

  /** What is read moves from the rest to the front. */
  lemma {:induction false} Shift(t: string, a: string, p: string, x: string, y: string)
    ensures a + (p + x) + y == a + p + (x + y)
    ensures t + (a + (p + x)) + y == t + (a + p) + (x + y)
  {
  }

  lemma {:induction false} InitGrows(init: seq<FieldForm>, f: FieldForm)
    ensures InitText(init + [f]) == InitText(init) + FormText(f) + "," && FieldsOf(init + [f]) == FieldsOf(init) + [f.field]
  {
    assert (init + [f])[..|init|] == init;
  }

  lemma {:induction false} TextGrows(done: seq<RowForm>, r: RowForm)
    ensures Text(done + [r]) == Text(done) + RowText(r) && RowsOf(done + [r]) == RowsOf(done) + [RowOf(r)]
  {
    assert (done + [r])[..|done|] == done;
  }

  lemma {:induction false} SeparatedGrows(done: seq<RowForm>, r: RowForm, left: string)
    requires Separated(done, RowText(r) + left) && (r.ending == Cr ==> !StartsWithLf(left))
    ensures Separated(done + [r], left)
  {
    assert (done + [r])[..|done|] == done;
  }

  /** The end of a field, or of a row, in the text: it moves from the rest to the front. */
  lemma {:induction false} EndShift(t: string, a: string, p: string, e: string, left: string)
    ensures a + p + (e + left) == (a + p + e) + left && (a + p + e) + "" + left == (a + p + e) + left && "" + "" + left == left
    ensures t + ((a + p + e) + "") + left == t + (a + p) + (e + left)
    ensures (t + (a + p + e)) + ("" + "") + left == t + (a + p) + (e + left)
  {
  }

  lemma {:induction false} FieldEnds(p: Parser, done: seq<RowForm>, init: seq<FieldForm>, rest: string)
    requires Reading(p, done, init, rest) && rest != "" && rest[0] == ',' && !p.quoted
    ensures Reading(EndField(p), done, init + [FormOf(p)], rest[1..])
    ensures ReadSoFar(EndField(p), done, init + [FormOf(p)]) + rest[1..] == ReadSoFar(p, done, init) + rest
  {
    var more := init + [FormOf(p)];
    InitGrows(init, FormOf(p));
    PartialIsForm(p);
    assert rest == "," + rest[1..];
    EndShift(Text(done), InitText(init), Partial(p), ",", rest[1..]);
    FieldShape(p, done, init, more);
  }

  lemma {:induction false} PartialIsForm(p: Parser)
    requires !p.quoted
    ensures FormText(FormOf(p)) == Partial(p) && Partial(EndField(p)) == ""
  {
  }

  predicate Shaped(p: Parser, done: seq<RowForm>, init: seq<FieldForm>) {
    && p.rows == RowsOf(done) && p.row == FieldsOf(init)
    && (forall i :: 0 <= i < |done| ==> RowValid(done[i])) && (forall i :: 0 <= i < |init| ==> FormValid(init[i]))
    && !(p.quoted && p.closed)
    && (!p.quoted && !p.closed ==> forall i :: 0 <= i < |p.field| ==> !Special(p.field[i]))
  }

  lemma {:induction false} FieldShape(p: Parser, done: seq<RowForm>, init: seq<FieldForm>, more: seq<FieldForm>)
    requires Shaped(p, done, init) && !p.quoted && more == init + [FormOf(p)] && FieldsOf(more) == FieldsOf(init) + [p.field]
    ensures Shaped(EndField(p), done, more)
  {
  }

  lemma {:induction false} RowShape(p: Parser, done: seq<RowForm>, init: seq<FieldForm>, e: Ending)
    requires Shaped(p, done, init) && !p.quoted
    ensures Shaped(EndRow(p), done + [RowForm(init, FormOf(p), e)], [])
  {
    var r := RowForm(init, FormOf(p), e);
    TextGrows(done, r);
    assert RowOf(r) == p.row + [p.field] && FieldsOf([]) == [];
    forall i | 0 <= i < |done + [r]| ensures RowValid((done + [r])[i]) {
      if i < |done| { assert (done + [r])[i] == done[i]; }
    }
  }

  lemma {:induction false} RowEnds(p: Parser, done: seq<RowForm>, init: seq<FieldForm>, rest: string, e: Ending)
    requires Reading(p, done, init, rest) && !p.quoted && EndingText(e) <= rest
    requires e == Cr ==> !StartsWithLf(rest[1..])
    ensures var r := RowForm(init, FormOf(p), e); var n := |EndingText(e)|;
            && Reading(EndRow(p), done + [r], [], rest[n..])
            && ReadSoFar(EndRow(p), done + [r], []) + rest[n..] == ReadSoFar(p, done, init) + rest
  {
    var r, left := RowForm(init, FormOf(p), e), rest[|EndingText(e)|..];
    PartialIsForm(p);
    assert rest == EndingText(e) + left;
    EndShift(Text(done), InitText(init), Partial(p), EndingText(e), left);
    TextGrows(done, r);
    SeparatedGrows(done, r, left);
    RowShape(p, done, init, e);
  }

  /** One round of the parser reads one more piece of a well-formed text. */
  lemma {:induction false} RoundReads(rest: string, p: Parser, done: seq<RowForm>, init: seq<FieldForm>)
    returns (done': seq<RowForm>, init': seq<FieldForm>)
    requires rest != "" && Round(rest, p).Some? && Reading(p, done, init, rest)
    ensures var (q, n) := Round(rest, p).value;
            && Reading(q, done', init', rest[n..])
            && ReadSoFar(q, done', init') + rest[n..] == ReadSoFar(p, done, init) + rest
  {
    var (q, n) := Round(rest, p).value;
    var c := rest[0];
    done', init' := done, init;
    if !p.quoted && c == ',' {
      FieldEnds(p, done, init, rest);
      init' := init + [FormOf(p)];
    } else if !p.quoted && (c == '\r' || c == '\n') {
      var e := if c == '\n' then Lf else if n == 2 then CrLf else Cr;
      assert EndingText(e) <= rest && n == |EndingText(e)|;
      RowEnds(p, done, init, rest, e);
      done', init' := done + [RowForm(init, FormOf(p), e)], [];
    } else {
      DoubledGrows(p.field, c);
      assert rest[..1] == [c];
      if p.quoted && c == '"' && n == 2 { assert rest[..2] == "\"\""; }
      ReadingExtends(p, q, done, init, rest, n);
    }
  }

  lemma {:induction false} AcceptedIsWritten(rest: string, p: Parser, done: seq<RowForm>, init: seq<FieldForm>)
    returns (forms: seq<RowForm>)
    requires Reading(p, done, init, rest) && Parsed(rest, p).Some?
    ensures WritesAs(ReadSoFar(p, done, init) + rest, Parsed(rest, p).value, forms)
    decreases |rest|
  {
    if rest == "" {
      forms := done;
      assert FieldsOf(init) == [] && init == [];
      assert InitText(init) + Partial(p) + rest == "" && ReadSoFar(p, done, init) + rest == Text(done);
    } else {
      var (q, n) := Round(rest, p).value;
      var done', init' := RoundReads(rest, p, done, init);
      forms := AcceptedIsWritten(rest[n..], q, done', init');
    }
  }

  // ---------------------------------------------------------------- well-formed texts are accepted

  lemma {:induction false} FormParses(f: FieldForm, rest: string, p: Parser)
    requires FormValid(f) && p.field == "" && !p.quoted && !p.closed && EndsField(rest)
    ensures Parsed(FormText(f) + rest, p) == Parsed(rest, p.(field := f.field, closed := f.Quoted?))
  {
    assert "" + f.field == f.field;
    if f.Quoted? {
      var body := Doubled(f.field) + "\"" + rest;
      assert FormText(f) + rest == ['"'] + body;
      OneRound('"', body, p, p.(quoted := true));
      QuotedBodyParses(f.field, rest, p.(quoted := true));
    } else {
      PlainFieldParses(f.field, rest, p);
    }
  }

  lemma {:induction false} InitParses(init: seq<FieldForm>, rest: string, p: Parser)
    requires (forall i :: 0 <= i < |init| ==> FormValid(init[i])) && p.field == "" && !p.quoted && !p.closed
    ensures Parsed(InitText(init) + rest, p) == Parsed(rest, p.(row := p.row + FieldsOf(init)))
    decreases |init|
  {
    if init == [] {
      assert InitText(init) + rest == rest && p.row + FieldsOf(init) == p.row;
    } else {
      var n := |init| - 1;
      var f, tail := init[n], [','] + rest;
      Regroup(InitText(init[..n]), FormText(f), ",", rest);
      InitParses(init[..n], FormText(f) + tail, p);
      var q := p.(row := p.row + FieldsOf(init[..n]));
      FormParses(f, tail, q);
      var closed := q.(field := f.field, closed := f.Quoted?);
      OneRound(',', rest, closed, EndField(closed));
      assert FieldsOf(init) == FieldsOf(init[..n]) + [f.field];
      RowAppends(p.row, FieldsOf(init[..n]), f.field);
    }
  }

  lemma {:induction false} RowAppends(row: Row, fields: Row, field: Field)
    ensures (row + fields) + [field] == row + (fields + [field])
  {
  }

  lemma {:induction false} RowFormParses(r: RowForm, rest: string, p: Parser)
    requires RowValid(r) && p == START.(rows := p.rows) && (r.ending == Cr ==> !StartsWithLf(rest))
    ensures Parsed(RowText(r) + rest, p) == Parsed(rest, p.(rows := p.rows + [RowOf(r)]))
  {
    var tail := EndingText(r.ending) + rest;
    Regroup(InitText(r.init), FormText(r.last), EndingText(r.ending), rest);
    EndingEndsField(r.ending, rest);
    InitParses(r.init, FormText(r.last) + tail, p);
    var q := p.(row := p.row + FieldsOf(r.init));
    FormParses(r.last, tail, q);
    var closed := q.(field := r.last.field, closed := r.last.Quoted?);
    EndingParses(r.ending, rest, closed);
    EmptyRow(p.row, FieldsOf(r.init));
  }

  lemma {:induction false} EmptyRow(row: Row, fields: Row)
    requires row == []
    ensures row + fields == fields
  {
  }

  lemma {:induction false} EndingEndsField(e: Ending, rest: string)
    ensures EndsField(EndingText(e) + rest)
  {
  }

  lemma {:induction false} EndingParses(e: Ending, rest: string, p: Parser)
    requires !p.quoted && (e == Cr ==> !StartsWithLf(rest))
    ensures Parsed(EndingText(e) + rest, p) == Parsed(rest, EndRow(p))
  {
    var input, n := EndingText(e) + rest, |EndingText(e)|;
    assert input[n..] == rest;
    assert Round(input, p) == Some((EndRow(p), n));
  }

  lemma {:induction false} WrittenIsAccepted(forms: seq<RowForm>, rest: string, p: Parser)
    requires (forall i :: 0 <= i < |forms| ==> RowValid(forms[i])) && Separated(forms, rest) && p == START.(rows := p.rows)
    ensures Parsed(Text(forms) + rest, p) == Parsed(rest, p.(rows := p.rows + RowsOf(forms)))
    decreases |forms|
  {
    if forms == [] {
      NothingWritten(forms, rest, p);
    } else {
      var n := |forms| - 1;
      var r := forms[n];
      var q := p.(rows := p.rows + RowsOf(forms[..n]));
      WrittenIsAccepted(forms[..n], RowText(r) + rest, p);
      RowFormParses(r, rest, q);
      Associate(Text(forms[..n]), RowText(r), rest);
      RowsAppend(p.rows, forms);
    }
  }

  lemma {:induction false} NothingWritten(forms: seq<RowForm>, rest: string, p: Parser)
    requires forms == []
    ensures Text(forms) + rest == rest && p.(rows := p.rows + RowsOf(forms)) == p
  {
    assert RowsOf(forms) == [] && p.rows + [] == p.rows;
  }

  lemma {:induction false} RowsAppend(rows: seq<Row>, forms: seq<RowForm>)
    requires forms != []
    ensures (rows + RowsOf(forms[..|forms| - 1])) + [RowOf(forms[|forms| - 1])] == rows + RowsOf(forms)
  {
    assert RowsOf(forms) == RowsOf(forms[..|forms| - 1]) + [RowOf(forms[|forms| - 1])];
  }

  /** The parser accepts exactly the well-formed texts, and reads the rows that they write. */
  lemma {:induction false} ParsesExactly(text: string, rows: seq<Row>)
    ensures Parsed(text, START) == Some(rows) <==> Writes(text, rows)
  {
    if Parsed(text, START) == Some(rows) {
      assert Reading(START, [], [], text) && ReadSoFar(START, [], []) + text == text;
      var forms := AcceptedIsWritten(text, START, [], []);
      assert WritesAs(text, rows, forms);
    }
    if Writes(text, rows) {
      var forms :| WritesAs(text, rows, forms);
      WrittenIsAccepted(forms, "", START);
      assert Text(forms) + "" == text && [] + RowsOf(forms) == RowsOf(forms);
    }
  }
}
