/** The debtors CSV: what the stream emits, and that a reader gets every field back. */
module CsvExport {
  import opened Domain

  /** The columns the export selects. `promise` is the ISO date of the payment promise. */
  datatype Debtor = Debtor(
    fullName: string, phone: Option<string>, dni: Option<string>,
    balance: int, limit: nat, active: bool, promise: Option<string>)

  // ─── Rendering ─────────────────────────────────────────────────────────

  predicate NeedsQuotes(value: string) {
    ',' in value || '"' in value || '\n' in value
  }

  function DoubledChar(c: char): string {
    if c == '"' then "\"\"" else [c]
  }

  /** Every quote doubled. */
  function Doubled(value: string): string {
    if value == "" then "" else DoubledChar(value[0]) + Doubled(value[1..])
  }

  function EscapeCsv(value: string): string {
    if NeedsQuotes(value) then "\"" + Doubled(value) + "\"" else value
  }

  function DigitChar(d: nat): char
    requires d < 10
  {
    '0' + d as char
  }

  function Digits(n: nat): string {
    if n < 10 then [DigitChar(n)] else Digits(n / 10) + [DigitChar(n % 10)]
  }

  /** Two decimals, padded. */
  function CentsToDecimal(cents: nat): string {
    var decimal := cents % 100;
    Digits(cents / 100) + "." + if decimal < 10 then "0" + Digits(decimal) else Digits(decimal)
  }

  function OrEmpty(value: Option<string>): string {
    if value.Some? then value.value else ""
  }

  /** The values a row shows. */
  function Fields(c: Debtor): seq<string>
    requires c.balance > 0
  {
    [c.fullName, OrEmpty(c.phone), OrEmpty(c.dni), CentsToDecimal(c.balance), CentsToDecimal(c.limit),
     if c.active then "Activo" else "Bloqueado", OrEmpty(c.promise)]
  }

  function Join(cells: seq<string>): string {
    if |cells| == 0 then "" else if |cells| == 1 then cells[0] else cells[0] + "," + Join(cells[1..])
  }

  /** The row as the loop builds it: only the free-text columns are escaped. */
  function RowText(c: Debtor): string
    requires c.balance > 0
  {
    var f := Fields(c);
    Join([EscapeCsv(f[0]), EscapeCsv(f[1]), EscapeCsv(f[2]), f[3], f[4], f[5], f[6]]) + "\n"
  }

  function Body(customers: seq<Debtor>): string {
    if customers == [] then ""
    else
      var front, last := Body(customers[..|customers| - 1]), customers[|customers| - 1];
      if last.balance <= 0 then front else front + RowText(last)
  }

  /** The rows of those who owe. */
  function Records(customers: seq<Debtor>): seq<seq<string>> {
    if customers == [] then []
    else
      var front, last := Records(customers[..|customers| - 1]), customers[|customers| - 1];
      if last.balance <= 0 then front else front + [Fields(last)]
  }

  const BOM := "\U{FEFF}"
  const HEADER_FIELDS :=
    ["Nombre", "Tel\U{E9}fono", "DNI", "Deuda ($)", "L\U{ED}mite Cr\U{E9}dito ($)", "Estado", "Promesa de Pago"]
  const HEADER := Join(HEADER_FIELDS) + "\n"

  // ─── The stream ────────────────────────────────────────────────────────

  function Text(chunks: seq<string>): string {
    if chunks == [] then "" else Text(chunks[..|chunks| - 1]) + chunks[|chunks| - 1]
  }

  class Readable {
    var chunks: seq<string>
    var ended: bool

    constructor ()
      ensures chunks == [] && !ended && Text(chunks) == ""
    {
      chunks, ended := [], false;
    }

    method Push(chunk: string)
      requires !ended
      modifies this
      ensures chunks == old(chunks) + [chunk] && !ended
      ensures Text(chunks) == Text(old(chunks)) + chunk
    {
      chunks := chunks + [chunk];
      assert chunks[..|chunks| - 1] == old(chunks);
    }

    method End()
      modifies this
      ensures ended && chunks == old(chunks)
    {
      ended := true;
    }
  }

  // ─── A reader after section 2 of RFC 4180, with LF as the record end ───

  datatype Mode = FieldStart | InPlain | InQuoted | AfterQuote

  datatype Reader = Reader(mode: Mode, field: string, record: seq<string>, records: seq<seq<string>>)

  const FRESH := Reader(FieldStart, "", [], [])

  function EndField(r: Reader): Reader {
    Reader(FieldStart, "", r.record + [r.field], r.records)
  }

  function EndRecord(r: Reader): Reader {
    Reader(FieldStart, "", [], r.records + [r.record + [r.field]])
  }

  /** One character; None where the grammar allows none. */
  function ReadChar(r: Reader, c: char): Option<Reader> {
    match r.mode
    case FieldStart =>
      if c == '"' then Some(r.(mode := InQuoted))
      else if c == ',' then Some(EndField(r))
      else if c == '\n' then Some(EndRecord(r))
      else Some(r.(mode := InPlain, field := r.field + [c]))
    case InPlain =>
      if c == '"' then None
      else if c == ',' then Some(EndField(r))
      else if c == '\n' then Some(EndRecord(r))
      else Some(r.(field := r.field + [c]))
    case InQuoted =>
      if c == '"' then Some(r.(mode := AfterQuote)) else Some(r.(field := r.field + [c]))
    case AfterQuote =>
      if c == '"' then Some(r.(mode := InQuoted, field := r.field + [c]))
      else if c == ',' then Some(EndField(r))
      else if c == '\n' then Some(EndRecord(r))
      else None
  }

  /** The records of a text; the last one may lack its record end. */
  function Read(text: string, r: Reader): Option<seq<seq<string>>>
    decreases |text|
  {
    if text == "" then
      if r.mode.InQuoted? then None
      else if r.mode.FieldStart? && r.record == [] then Some(r.records)
      else Some(EndRecord(r).records)
    else
      var next := ReadChar(r, text[0]);
      if next.None? then None else Read(text[1..], next.value)
  }

  // ─── Reading back what was rendered ────────────────────────────────────

  lemma {:induction false} ReadPlain(s: string, tail: string, r: Reader)
    requires !NeedsQuotes(s) && r.mode.InPlain?
    ensures Read(s + tail, r) == Read(tail, r.(field := r.field + s))
  {
    if s == "" {
      assert s + tail == tail && r.field + s == r.field;
    } else {
      var next := r.(field := r.field + [s[0]]);
      assert (s + tail)[1..] == s[1..] + tail;
      ReadPlain(s[1..], tail, next);
      assert next.field + s[1..] == r.field + s;
    }
  }

  lemma ReadDoubledChar(c: char, rest: string, r: Reader)
    requires r.mode.InQuoted?
    ensures Read(DoubledChar(c) + rest, r) == Read(rest, r.(field := r.field + [c]))
  {
    if c == '"' {
      assert ("\"\"" + rest)[1..] == "\"" + rest;
      assert ("\"" + rest)[1..] == rest;
    } else {
      assert ([c] + rest)[1..] == rest;
    }
  }

  lemma {:induction false} ReadDoubled(s: string, tail: string, r: Reader)
    requires r.mode.InQuoted?
    ensures Read(Doubled(s) + tail, r) == Read(tail, r.(field := r.field + s))
  {
    hide Read, ReadChar, DoubledChar;
    if s == "" {
      assert Doubled(s) + tail == tail && r.field + s == r.field;
    } else {
      var next := r.(field := r.field + [s[0]]);
      var rest := Doubled(s[1..]) + tail;
      assert Doubled(s) + tail == DoubledChar(s[0]) + rest;
      ReadDoubledChar(s[0], rest, r);
      ReadDoubled(s[1..], tail, next);
      assert next.field + s[1..] == r.field + s;
    }
  }

  /** A reader that has just finished reading `value`, however it was written. */
  predicate HasRead(r: Reader, value: string, before: Reader) {
    && r.record == before.record && r.records == before.records && r.field == value
    && !r.mode.InQuoted? && (value != "" || r.mode.FieldStart? || r.mode.AfterQuote?)
  }

  lemma ReadQuoted(value: string, tail: string, r: Reader)
    requires r.mode.FieldStart? && r.field == ""
    ensures Read("\"" + Doubled(value) + "\"" + tail, r) == Read(tail, r.(mode := AfterQuote, field := value))
  {
    hide Doubled;
    var quoted, rest := r.(mode := InQuoted), "\"" + tail;
    assert ("\"" + Doubled(value) + "\"" + tail)[1..] == Doubled(value) + rest;
    ReadDoubled(value, rest, quoted);
    assert rest[1..] == tail && quoted.field + value == value;
  }

  lemma ReadBare(value: string, tail: string, r: Reader)
    requires r.mode.FieldStart? && r.field == "" && value != "" && !NeedsQuotes(value)
    ensures Read(value + tail, r) == Read(tail, r.(mode := InPlain, field := value))
  {
    var started := r.(mode := InPlain, field := [value[0]]);
    assert (value + tail)[1..] == value[1..] + tail;
    ReadPlain(value[1..], tail, started);
    assert started.field + value[1..] == value;
    assert r.field + [value[0]] == [value[0]];
  }

  /** A reader recovers any text from its escaped form. */
  lemma ReadEscaped(value: string, tail: string, r: Reader) returns (after: Reader)
    requires r.mode.FieldStart? && r.field == ""
    ensures HasRead(after, value, r) && Read(EscapeCsv(value) + tail, r) == Read(tail, after)
  {
    hide Read, ReadChar, Doubled, NeedsQuotes;
    if NeedsQuotes(value) {
      after := r.(mode := AfterQuote, field := value);
      ReadQuoted(value, tail, r);
    } else if value == "" {
      after := r;
      assert EscapeCsv(value) + tail == tail;
    } else {
      after := r.(mode := InPlain, field := value);
      ReadBare(value, tail, r);
    }
  }

  function Escaped(fields: seq<string>): seq<string> {
    seq(|fields|, i requires 0 <= i < |fields| => EscapeCsv(fields[i]))
  }

  /** A comma ends the field, a line feed the record. */
  lemma ReadEnds(after: Reader, value: string, r: Reader, tail: string)
    requires HasRead(after, value, r)
    ensures Read("," + tail, after) == Read(tail, Reader(FieldStart, "", r.record + [value], r.records))
    ensures Read("\n" + tail, after) == Read(tail, Reader(FieldStart, "", [], r.records + [r.record + [value]]))
  {
    assert ("," + tail)[1..] == tail && ("\n" + tail)[1..] == tail;
  }

  lemma {:induction false} ReadRow(fields: seq<string>, tail: string, r: Reader)
    requires |fields| >= 1 && r.mode.FieldStart? && r.field == ""
    ensures Read(Join(Escaped(fields)) + "\n" + tail, r)
         == Read(tail, Reader(FieldStart, "", [], r.records + [r.record + fields]))
    decreases |fields|
  {
    hide Read, ReadChar, EscapeCsv, HasRead;
    var cells := Escaped(fields);
    if |fields| == 1 {
      var after := ReadEscaped(fields[0], "\n" + tail, r);
      ReadEnds(after, fields[0], r, tail);
      assert Join(cells) + "\n" + tail == EscapeCsv(fields[0]) + ("\n" + tail);
      assert r.record + [fields[0]] == r.record + fields;
    } else {
      var rest := Join(Escaped(fields[1..])) + "\n" + tail;
      assert cells[1..] == Escaped(fields[1..]);
      assert Join(cells) + "\n" + tail == EscapeCsv(fields[0]) + ("," + rest);
      var after := ReadEscaped(fields[0], "," + rest, r);
      ReadEnds(after, fields[0], r, rest);
      ReadRow(fields[1..], tail, Reader(FieldStart, "", r.record + [fields[0]], r.records));
      assert (r.record + [fields[0]]) + fields[1..] == r.record + fields;
    }
  }

  // ─── Columns that are not escaped need no escape ───────────────────────

  predicate IsDigit(c: char) {
    '0' <= c <= '9'
  }

  /** An ISO date, `2026-05-31`. */
  predicate IsIsoDate(s: string) {
    forall i | 0 <= i < |s| :: IsDigit(s[i]) || s[i] == '-' || s[i] == '+'
  }

  predicate WellDated(customers: seq<Debtor>) {
    forall i | 0 <= i < |customers| :: IsIsoDate(OrEmpty(customers[i].promise))
  }

  lemma {:induction false} DigitsAreDigits(n: nat)
    ensures forall i | 0 <= i < |Digits(n)| :: IsDigit(Digits(n)[i])
    ensures |Digits(n)| >= 1 && (n < 10 ==> |Digits(n)| == 1) && (10 <= n < 100 ==> |Digits(n)| == 2)
  {
    if n >= 10 {
      DigitsAreDigits(n / 10);
    }
  }

  lemma DecimalIsPlain(cents: nat)
    ensures !NeedsQuotes(CentsToDecimal(cents))
  {
    DigitsAreDigits(cents / 100);
    DigitsAreDigits(cents % 100);
    var text := CentsToDecimal(cents);
    assert forall i | 0 <= i < |text| :: IsDigit(text[i]) || text[i] == '.';
  }

  /** Escaping leaves the last four of seven columns alone if they need no quotes. */
  lemma FreeTextEscaped(f: seq<string>)
    requires |f| == 7 && forall i | 3 <= i < 7 :: !NeedsQuotes(f[i])
    ensures Escaped(f) == [EscapeCsv(f[0]), EscapeCsv(f[1]), EscapeCsv(f[2]), f[3], f[4], f[5], f[6]]
  {
    hide NeedsQuotes, Doubled;
  }

  lemma RowIsEscaped(c: Debtor)
    requires c.balance > 0 && IsIsoDate(OrEmpty(c.promise))
    ensures RowText(c) == Join(Escaped(Fields(c))) + "\n"
  {
    hide Join, CentsToDecimal, EscapeCsv;
    DecimalIsPlain(c.balance);
    DecimalIsPlain(c.limit);
    assert !NeedsQuotes(Fields(c)[5]) && !NeedsQuotes(Fields(c)[6]);
    hide NeedsQuotes;
    FreeTextEscaped(Fields(c));
  }

  // ─── Round trips ───────────────────────────────────────────────────────

  lemma {:induction false} ReadBody(customers: seq<Debtor>, tail: string, records: seq<seq<string>>)
    requires WellDated(customers)
    ensures Read(Body(customers) + tail, Reader(FieldStart, "", [], records))
         == Read(tail, Reader(FieldStart, "", [], records + Records(customers)))
    decreases |customers|
  {
    hide Read, ReadChar, Join, EscapeCsv, RowText, NeedsQuotes;
    var start := Reader(FieldStart, "", [], records);
    if customers == [] {
      assert Body(customers) + tail == tail && records + Records(customers) == records;
    } else {
      var n := |customers| - 1;
      var front, last := customers[..n], customers[n];
      if last.balance <= 0 {
        ReadBody(front, tail, records);
      } else {
        assert Body(customers) + tail == Body(front) + (RowText(last) + tail);
        ReadBody(front, RowText(last) + tail, records);
        RowIsEscaped(last);
        ReadRow(Fields(last), tail, Reader(FieldStart, "", [], records + Records(front)));
        assert [] + Fields(last) == Fields(last);
        assert (records + Records(front)) + [Fields(last)] == records + Records(customers);
      }
    }
  }

  lemma HeaderFieldIsPlain(i: nat)
    requires i < |HEADER_FIELDS|
    ensures !NeedsQuotes(HEADER_FIELDS[i])
  {
  }

  lemma HeaderIsPlain()
    ensures Escaped(HEADER_FIELDS) == HEADER_FIELDS
  {
    hide NeedsQuotes;
    forall i | 0 <= i < |HEADER_FIELDS| ensures EscapeCsv(HEADER_FIELDS[i]) == HEADER_FIELDS[i] {
      HeaderFieldIsPlain(i);
    }
  }

  lemma HeaderAndBody(customers: seq<Debtor>)
    requires WellDated(customers)
    ensures Read(HEADER + Body(customers), FRESH) == Some([HEADER_FIELDS] + Records(customers))
  {
    hide Join, Escaped, EscapeCsv, NeedsQuotes, ReadChar;
    HeaderIsPlain();
    ReadRow(HEADER_FIELDS, Body(customers), FRESH);
    assert [] + HEADER_FIELDS == HEADER_FIELDS && [] + [HEADER_FIELDS] == [HEADER_FIELDS];
    assert Body(customers) + "" == Body(customers);
    ReadBody(customers, "", [HEADER_FIELDS]);
  }

  /** Reads a file: a byte order mark at its head is not part of the text. */
  function ReadFile(text: string): Option<seq<seq<string>>> {
    Read(if text != "" && text[0] == '\U{FEFF}' then text[1..] else text, FRESH)
  }

  /** CSV round trip: from the text emitted for any list of customers, a reader recovers the header
      and, for each debtor, every rendered field, commas, quotes and line breaks included. */
  lemma CsvRoundTrip(customers: seq<Debtor>)
    requires WellDated(customers)
    ensures ReadFile(BOM + HEADER + Body(customers)) == Some([HEADER_FIELDS] + Records(customers))
  {
    hide Read, Join, Body, Records;
    assert BOM + HEADER + Body(customers) == BOM + (HEADER + Body(customers));
    assert BOM[0] == '\U{FEFF}';
    HeaderAndBody(customers);
  }

  /** Value of a digit string; None for anything else. */
  function ParseDigits(s: string): Option<nat> {
    if s == "" then Some(0)
    else
      var front, last := ParseDigits(s[..|s| - 1]), s[|s| - 1];
      if front.None? || !IsDigit(last) then None else Some(front.value * 10 + (last - '0') as nat)
  }

  /** Reads an amount with two decimals back. */
  function ParseCents(s: string): Option<nat> {
    if |s| < 4 || s[|s| - 3] != '.' then None
    else
      var units, decimals := ParseDigits(s[..|s| - 3]), ParseDigits(s[|s| - 2..]);
      if units.None? || decimals.None? then None else Some(units.value * 100 + decimals.value)
  }

  lemma {:induction false} DigitsInverted(n: nat)
    ensures ParseDigits(Digits(n)) == Some(n)
  {
    var s := Digits(n);
    if n >= 10 {
      DigitsInverted(n / 10);
      assert s[..|s| - 1] == Digits(n / 10);
    } else {
      assert s[..|s| - 1] == "";
    }
  }

  lemma TwoDigits(n: nat)
    requires n < 100
    ensures var s := if n < 10 then "0" + Digits(n) else Digits(n); |s| == 2 && ParseDigits(s) == Some(n)
  {
    DigitsAreDigits(n);
    DigitsInverted(n);
    if n < 10 {
      var s := "0" + Digits(n);
      assert s[..1] == "0" && "0"[..0] == "";
      assert ParseDigits("0") == Some(0);
    }
  }

  lemma PartsOfDecimal(units: string, two: string)
    requires |units| >= 1 && |two| == 2
    ensures var s := units + "." + two;
            |s| >= 4 && s[|s| - 3] == '.' && s[..|s| - 3] == units && s[|s| - 2..] == two
  {
  }

  /** The amounts are inverted exactly. */
  lemma CentsInverted(cents: nat)
    ensures ParseCents(CentsToDecimal(cents)) == Some(cents)
  {
    hide Digits, ParseDigits;
    var decimal := cents % 100;
    DigitsAreDigits(cents / 100);
    DigitsInverted(cents / 100);
    TwoDigits(decimal);
    PartsOfDecimal(Digits(cents / 100), if decimal < 10 then "0" + Digits(decimal) else Digits(decimal));
  }

  /** The debtors, in query order. */
  function Owing(customers: seq<Debtor>): (r: seq<Debtor>)
    ensures forall c :: c in r <==> c in customers && c.balance > 0
  {
    if customers == [] then []
    else
      var front, last := Owing(customers[..|customers| - 1]), customers[|customers| - 1];
      if 0 < last.balance then front + [last] else front
  }

  /** The record tells all of the debtor: name, phone, DNI, what is owed, the limit, whether blocked, and
      the date promised, an absent value being left empty. */
  predicate Tells(record: seq<string>, c: Debtor) {
    && |record| == 7
    && record[0] == c.fullName
    && record[1] == (match c.phone case None => "" case Some(phone) => phone)
    && record[2] == (match c.dni case None => "" case Some(dni) => dni)
    && c.balance > 0 && ParseCents(record[3]) == Some(c.balance) && Canonical(record[3])
    && ParseCents(record[4]) == Some(c.limit) && Canonical(record[4])
    && record[5] == (match c.active case true => "Activo" case false => "Bloqueado")
    && record[6] == (match c.promise case None => "" case Some(date) => date)
  }

  /** No leading zero but the one of an amount below one. */
  predicate Canonical(s: string) {
    |s| >= 4 && (s[0] == '0' ==> |s| == 4)
  }

  lemma {:induction false} DigitsAreCanonical(n: nat)
    ensures |Digits(n)| >= 1 && (Digits(n)[0] == '0' <==> n == 0) && (n == 0 ==> |Digits(n)| == 1)
  {
    if n >= 10 {
      DigitsAreCanonical(n / 10);
    }
  }

  lemma DecimalIsCanonical(cents: nat)
    ensures Canonical(CentsToDecimal(cents))
  {
    DigitsAreCanonical(cents / 100);
    DigitsAreDigits(cents % 100);
  }

  lemma FieldsTell(c: Debtor)
    requires c.balance > 0
    ensures Tells(Fields(c), c)
  {
    CentsInverted(c.balance);
    CentsInverted(c.limit);
    DecimalIsCanonical(c.balance);
    DecimalIsCanonical(c.limit);
  }

  lemma OneMoreRecord(customers: seq<Debtor>)
    requires customers != []
    ensures var n := |customers| - 1;
            var front, last := customers[..n], customers[n];
            && Records(customers) == Records(front) + (if last.balance <= 0 then [] else [Fields(last)])
            && Owing(customers) == Owing(front) + (if last.balance <= 0 then [] else [last])
  {
    hide Fields;
  }

  /** The records are those of the debtors, one each, in query order, and tell all of each. */
  lemma {:induction false} RecordsTellDebts(customers: seq<Debtor>)
    ensures |Records(customers)| == |Owing(customers)|
    ensures forall k | 0 <= k < |Owing(customers)| :: Tells(Records(customers)[k], Owing(customers)[k])
  {
    if customers == [] {
    } else {
      hide Records, Owing, Fields, Tells;
      var n := |customers| - 1;
      OneMoreRecord(customers);
      RecordsTellDebts(customers[..n]);
      if customers[n].balance > 0 {
        FieldsTell(customers[n]);
      }
    }
  }

  /** Text is quoted exactly where it holds a comma, a quote or a line break. */
  lemma QuotedExactly(value: string)
    ensures EscapeCsv(value) != value <==> exists i :: 0 <= i < |value| && value[i] in {',', '"', '\n'}
  {
    if i :| 0 <= i < |value| && value[i] in {',', '"', '\n'} {
      DoubledIsNoShorter(value);
    }
  }

  lemma {:induction false} DoubledIsNoShorter(value: string)
    ensures |Doubled(value)| >= |value|
  {
    if value != "" {
      DoubledIsNoShorter(value[1..]);
    }
  }

  /** What the user gets: from the file a reader recovers the seven headings, then for each debtor in
      query order a record that tells all of that debtor, and nothing else. */
  predicate Recovered(customers: seq<Debtor>, text: string) {
    var read, owing := ReadFile(text), Owing(customers);
    && read.Some? && |read.value| == 1 + |owing|
    && read.value[0] == ["Nombre", "Tel\U{E9}fono", "DNI", "Deuda ($)", "L\U{ED}mite Cr\U{E9}dito ($)", "Estado",
                         "Promesa de Pago"]
    && forall k | 0 <= k < |owing| :: Tells(read.value[k + 1], owing[k])
  }

  lemma FileTellsDebts(customers: seq<Debtor>, text: string)
    requires WellDated(customers) && text == BOM + HEADER + Body(customers)
    ensures Recovered(customers, text)
  {
    hide ReadFile, Body, Records, Owing, Tells;
    CsvRoundTrip(customers);
    RecordsTellDebts(customers);
  }

  /** The row as the loop joins it. */
  lemma RowIsJoined(c: Debtor)
    requires c.balance > 0
    ensures RowText(c)
         == Join([EscapeCsv(c.fullName), EscapeCsv(OrEmpty(c.phone)), EscapeCsv(OrEmpty(c.dni)),
                  CentsToDecimal(c.balance), CentsToDecimal(c.limit),
                  if c.active then "Activo" else "Bloqueado", OrEmpty(c.promise)]) + "\n"
  {
    hide EscapeCsv, CentsToDecimal, Join;
  }

  lemma OneMoreCustomer(customers: seq<Debtor>, i: nat)
    requires i < |customers|
    ensures var c := customers[i];
            && Body(customers[..i + 1]) == Body(customers[..i]) + (if c.balance <= 0 then "" else RowText(c))
            && |Owing(customers[..i + 1])| == |Owing(customers[..i])| + (if c.balance <= 0 then 0 else 1)
  {
    hide RowText;
    assert customers[..i + 1][..i] == customers[..i];
  }

  lemma NobodyYet(customers: seq<Debtor>)
    ensures Body(customers[..0]) == "" && Owing(customers[..0]) == []
  {
  }

  /** Emits the header and one chunk per debtor, in the order the query returns them. */
  method CreateDebtorsStream(customers: seq<Debtor>) returns (stream: Readable)
    ensures fresh(stream) && stream.ended
    ensures Text(stream.chunks) == BOM + HEADER + Body(customers)
    ensures |stream.chunks| == 1 + |Owing(customers)|
    ensures WellDated(customers) ==> ReadFile(Text(stream.chunks)) == Some([HEADER_FIELDS] + Records(customers))
    ensures WellDated(customers) ==> Recovered(customers, Text(stream.chunks))
  {
    hide EscapeCsv, CentsToDecimal, Join, Text, ReadFile, Recovered, Records, WellDated, Body, Owing, RowText, OrEmpty;
    stream := new Readable();
    stream.Push(BOM + HEADER);
    NobodyYet(customers);
    var i := 0;
    while i < |customers|
      invariant 0 <= i <= |customers|
      invariant fresh(stream) && !stream.ended
      invariant Text(stream.chunks) == BOM + HEADER + Body(customers[..i])
      invariant |stream.chunks| == 1 + |Owing(customers[..i])|
    {
      var c := customers[i];
      OneMoreCustomer(customers, i);
      i := i + 1;
      if c.balance <= 0 {
        continue;
      }
      var row := Join([EscapeCsv(c.fullName), EscapeCsv(OrEmpty(c.phone)), EscapeCsv(OrEmpty(c.dni)),
                       CentsToDecimal(c.balance), CentsToDecimal(c.limit),
                       if c.active then "Activo" else "Bloqueado", OrEmpty(c.promise)]);
      RowIsJoined(c);
      stream.Push(row + "\n");
    }
    assert customers[..i] == customers;
    stream.End();
    if WellDated(customers) {
      CsvRoundTrip(customers);
      FileTellsDebts(customers, Text(stream.chunks));
    }
  }
}
