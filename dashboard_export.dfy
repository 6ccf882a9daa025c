/** The "Export" button of `setupExportButton`: the CSV text it builds, and a
    reader for the CSV format of RFC 4180 (section 2) against which the text is
    checked to give back what was written. */
module DashboardExport {
  import opened Wrappers
  import opened Text
  import opened JsValues
  import opened DashboardRecords

  const HeaderFields: seq<string> := ["Date", "Type", "Amount (RWF)", "From", "To", "Status"]
  /** "Date,Type,Amount (RWF),From,To,Status" and a line break, spelled out
      column by column. */
  const CsvHeader := "Date" + ("," + ("Type" + ("," + ("Amount (RWF)" + ("," + ("From" + ("," + ("To" + ("," + ("Status" + "\n"))))))))))

  /** The six interpolations of a row, each `String(value)` of its field. */
  function RowFields(t: Transaction): seq<string>
  {
    [ToText(t.displayDate), ToText(t.category), IntToString(t.amount), ToText(t.from), ToText(t.to), t.status]
  }

  /** Fields separated by commas, each as it is, and a line break after the last. */
  function BareRecord(fs: seq<string>): string
    requires fs != []
  {
    if |fs| == 1 then fs[0] + "\n" else fs[0] + ("," + BareRecord(fs[1..]))
  }

  /** Fields separated by commas, each between double quotes with nothing
      escaped, and a line break after the last. */
  function QuotedRecord(fs: seq<string>): string
    requires fs != []
  {
    if |fs| == 1 then "\"" + (fs[0] + "\"\n") else "\"" + (fs[0] + ("\"," + QuotedRecord(fs[1..])))
  }

  /** The template literal of one row. */
  function CsvLine(t: Transaction): string
  {
    QuotedRecord(RowFields(t))
  }

  /** The rows of the export, in input order. */
  function CsvRows(txs: seq<Transaction>): string
  {
    if txs == [] then "" else CsvLine(txs[0]) + CsvRows(txs[1..])
  }

  lemma {:induction false} CsvRowsSnoc(txs: seq<Transaction>, t: Transaction)
    ensures CsvRows(txs + [t]) == CsvRows(txs) + CsvLine(t)
  {
    if txs == [] {
      assert txs + [t] == [t];
    } else {
      assert (txs + [t])[0] == txs[0] && (txs + [t])[1..] == txs[1..] + [t];
      CsvRowsSnoc(txs[1..], t);
      var h := CsvLine(txs[0]);
      assert h + (CsvRows(txs[1..]) + CsvLine(t)) == (h + CsvRows(txs[1..])) + CsvLine(t);
    }
  }

  /** The export handler's `csvContent`: the header, then `+=` one line per
      transaction. */
  method ExportCsv(txs: seq<Transaction>) returns (csv: string)
    ensures csv == CsvHeader + CsvRows(txs)
  {
    csv := CsvHeader;
    for i := 0 to |txs|
      invariant csv == CsvHeader + CsvRows(txs[..i])
    {
      CsvRowsSnoc(txs[..i], txs[i]);
      assert txs[..i + 1] == txs[..i] + [txs[i]];
      AppendAssoc(CsvHeader, CsvRows(txs[..i]), CsvLine(txs[i]));
      csv := csv + CsvLine(txs[i]);
    }
    assert txs[..|txs|] == txs;
  }

  lemma AppendAssoc(a: string, b: string, c: string)
    ensures (a + b) + c == a + (b + c)
  {
  }

  // ---------------------------------------------------------------------------
  // Reading CSV back

  /** What was read so far (a field's characters or a record's fields), with
      one more element in front; the unread rest stays as it is. */
  function Cons<T>(x: T, r: Option<(seq<T>, string)>): (p: Option<(seq<T>, string)>)
    ensures p.Some? <==> r.Some?
    ensures p.Some? ==> p.value == ([x] + r.value.0, r.value.1)
  {
    match r
    case None => None
    case Some(q) => Some(([x] + q.0, q.1))
  }

  /** The text of a quoted field after its opening quote, up to the closing
      quote, where `""` stands for one quote; `None` when no quote closes it. */
  function ReadQuoted(s: string): (r: Option<(string, string)>)
    ensures r.Some? ==> |r.value.1| < |s|
    decreases |s|
  {
    if s == [] then None
    else if s[0] == '"' then
      if |s| > 1 && s[1] == '"' then Cons('"', ReadQuoted(s[2..])) else Some(([], s[1..]))
    else Cons(s[0], ReadQuoted(s[1..]))
  }

  lemma ReadQuotedPlain(c: char, t: string)
    requires c != '"'
    ensures ReadQuoted([c] + t) == Cons(c, ReadQuoted(t))
  {
    assert ([c] + t)[1..] == t;
  }

  lemma ReadQuotedDoubled(t: string)
    ensures ReadQuoted("\"\"" + t) == Cons('"', ReadQuoted(t))
  {
    assert ("\"\"" + t)[2..] == t;
  }

  lemma ReadQuotedClose(rest: string)
    requires rest == [] || rest[0] != '"'
    ensures ReadQuoted("\"" + rest) == Some(([], rest))
  {
    assert ("\"" + rest)[1..] == rest;
  }

  predicate IsSeparator(c: char) { c == ',' || c == '\n' }

  /** An unquoted field: everything up to the next comma or line break. */
  function ReadBare(s: string): (r: (string, string))
    ensures r.0 + r.1 == s
    ensures r.1 == [] || IsSeparator(r.1[0])
  {
    if s == [] || IsSeparator(s[0]) then ([], s)
    else
      var p := ReadBare(s[1..]);
      ([s[0]] + p.0, p.1)
  }

  function ReadField(s: string): (r: Option<(string, string)>)
    ensures r.Some? ==> |r.value.1| <= |s|
    ensures r.Some? && |r.value.1| == |s| ==> r.value.1 == [] || IsSeparator(r.value.1[0])
  {
    if s != [] && s[0] == '"' then ReadQuoted(s[1..]) else Some(ReadBare(s))
  }

  /** One record: fields separated by commas up to a line break or the end of
      the text; `None` for an unclosed quote or text after a closing quote. */
  function ReadRecord(s: string): (r: Option<(seq<string>, string)>)
    ensures r.Some? ==> r.value.0 != [] && |r.value.1| <= |s|
    ensures r.Some? && s != [] ==> |r.value.1| < |s|
    decreases |s|
  {
    match ReadField(s)
    case None => None
    case Some(p) =>
      var (f, rest) := p;
      if rest == [] then Some(([f], []))
      else if rest[0] == '\n' then Some(([f], rest[1..]))
      else if rest[0] == ',' then Cons(f, ReadRecord(rest[1..]))
      else None
  }

  /** All records of a text. */
  function ReadCsv(s: string): Option<seq<seq<string>>>
    decreases |s|
  {
    if s == [] then Some([])
    else
      match ReadRecord(s)
      case None => None
      case Some(p) =>
        match ReadCsv(p.1)
        case None => None
        case Some(rs) => Some([p.0] + rs)
  }

  // ---------------------------------------------------------------------------
  // Writing with the escaping of RFC 4180

  /** Each double quote doubled, as section 2.7 of RFC 4180 asks inside a quoted field. */
  function Escape(f: string): (e: string)
    ensures '"' !in f ==> e == f
  {
    if f == [] then [] else (if f[0] == '"' then "\"\"" else [f[0]]) + Escape(f[1..])
  }

  function EscapeAll(fs: seq<string>): (es: seq<string>)
    ensures |es| == |fs| && forall i :: 0 <= i < |fs| ==> es[i] == Escape(fs[i])
  {
    seq(|fs|, i requires 0 <= i < |fs| => Escape(fs[i]))
  }

  /** Reading an escaped field back, followed by its closing quote, gives the
      field itself, provided no quote follows the closing one. */
  lemma {:induction false} ReadQuotedEscape(f: string, rest: string)
    requires rest == [] || rest[0] != '"'
    ensures ReadQuoted(Escape(f) + ("\"" + rest)) == Some((f, rest))
  {
    if f == [] {
      assert Escape(f) + ("\"" + rest) == "\"" + rest;
      ReadQuotedClose(rest);
    } else {
      ReadQuotedEscape(f[1..], rest);
      ReadQuotedEscapeStep(f, rest);
    }
  }

  /** The step of `ReadQuotedEscape`: the first character of the field, as
      escaped, is read back in front of the rest. */
  lemma ReadQuotedEscapeStep(f: string, rest: string)
    requires f != []
    requires ReadQuoted(Escape(f[1..]) + ("\"" + rest)) == Some((f[1..], rest))
    ensures ReadQuoted(Escape(f) + ("\"" + rest)) == Some((f, rest))
  {
    var tail := Escape(f[1..]) + ("\"" + rest);
    EscapeFirst(f, "\"" + rest);
    if f[0] == '"' {
      ReadQuotedDoubled(tail);
    } else {
      ReadQuotedPlain(f[0], tail);
    }
    PrependFirst(f, rest);
  }

  /** Escaping, then appending, puts the escaped first character in front. */
  lemma EscapeFirst(f: string, t: string)
    requires f != []
    ensures Escape(f) + t == (if f[0] == '"' then "\"\"" else [f[0]]) + (Escape(f[1..]) + t)
  {
  }

  /** Putting back the first character of a field restores it. */
  lemma PrependFirst(f: string, rest: string)
    requires f != []
    ensures Cons(f[0], Some((f[1..], rest))) == Some((f, rest))
  {
    assert [f[0]] + f[1..] == f;
  }

  /** A field followed by a line break ends its record. */
  lemma ReadRecordLast(s: string, f: string, rest: string)
    requires ReadField(s) == Some((f, "\n" + rest))
    ensures ReadRecord(s) == Some(([f], rest))
  {
    assert ("\n" + rest)[1..] == rest;
  }

  /** A field followed by a comma is the first of the record's fields. */
  lemma ReadRecordNext(s: string, f: string, tail: string)
    requires ReadField(s) == Some((f, "," + tail))
    ensures ReadRecord(s) == Cons(f, ReadRecord(tail))
  {
    assert ("," + tail)[1..] == tail;
  }

  /** A quoted, escaped field reads back as the field. */
  lemma ReadQuotedField(f: string, after: string)
    requires after == [] || after[0] != '"'
    ensures ReadField("\"" + (Escape(f) + ("\"" + after))) == Some((f, after))
  {
    var s := "\"" + (Escape(f) + ("\"" + after));
    assert s[1..] == Escape(f) + ("\"" + after);
    ReadQuotedEscape(f, after);
  }

  lemma QuotedRecordLast(e: string, rest: string)
    ensures QuotedRecord([e]) + rest == "\"" + (e + ("\"" + ("\n" + rest)))
  {
  }

  lemma QuotedRecordNext(es: seq<string>, rest: string)
    requires |es| > 1
    ensures QuotedRecord(es) + rest == "\"" + (es[0] + ("\"" + ("," + (QuotedRecord(es[1..]) + rest))))
  {
  }

  /** A record of quoted, escaped fields reads back as those fields. */
  lemma {:induction false} ReadQuotedRecord(fs: seq<string>, rest: string)
    requires fs != []
    ensures ReadRecord(QuotedRecord(EscapeAll(fs)) + rest) == Some((fs, rest))
  {
    var es := EscapeAll(fs);
    if |fs| == 1 {
      assert es == [Escape(fs[0])];
      QuotedRecordLast(Escape(fs[0]), rest);
      ReadQuotedField(fs[0], "\n" + rest);
      ReadRecordLast(QuotedRecord(es) + rest, fs[0], rest);
      assert fs == [fs[0]];
    } else {
      var tail := QuotedRecord(EscapeAll(fs[1..])) + rest;
      assert EscapeAll(fs[1..]) == es[1..];
      QuotedRecordNext(es, rest);
      ReadQuotedField(fs[0], "," + tail);
      ReadRecordNext(QuotedRecord(es) + rest, fs[0], tail);
      ReadQuotedRecord(fs[1..], rest);
      assert [fs[0]] + fs[1..] == fs;
    }
  }

  /** Fields that a bare record can carry: no separator inside, no opening quote. */
  predicate BareSafe(f: string)
  {
    ',' !in f && '\n' !in f && (f == [] || f[0] != '"')
  }

  lemma {:induction false} ReadBareOf(f: string, rest: string)
    requires ',' !in f && '\n' !in f && (rest == [] || IsSeparator(rest[0]))
    ensures ReadBare(f + rest) == (f, rest)
  {
    if f == [] {
      assert f + rest == rest;
    } else {
      assert (f + rest)[1..] == f[1..] + rest;
      ReadBareOf(f[1..], rest);
      assert [f[0]] + f[1..] == f;
    }
  }

  /** A bare field reads back as itself. */
  lemma ReadBareField(f: string, after: string)
    requires BareSafe(f) && after != [] && IsSeparator(after[0])
    ensures ReadField(f + after) == Some((f, after))
  {
    ReadBareOf(f, after);
  }

  /** A record of bare fields reads back as those fields. */
  lemma {:induction false} ReadBareRecord(fs: seq<string>, rest: string)
    requires fs != [] && forall i :: 0 <= i < |fs| ==> BareSafe(fs[i])
    ensures ReadRecord(BareRecord(fs) + rest) == Some((fs, rest))
  {
    if |fs| == 1 {
      assert BareRecord(fs) + rest == fs[0] + ("\n" + rest);
      ReadBareField(fs[0], "\n" + rest);
      ReadRecordLast(BareRecord(fs) + rest, fs[0], rest);
      assert fs == [fs[0]];
    } else {
      var tail := BareRecord(fs[1..]) + rest;
      assert BareRecord(fs) + rest == fs[0] + ("," + tail);
      ReadBareField(fs[0], "," + tail);
      ReadRecordNext(BareRecord(fs) + rest, fs[0], tail);
      ReadBareRecord(fs[1..], rest);
      assert [fs[0]] + fs[1..] == fs;
    }
  }

  lemma BareRecordCons(f: string, fs: seq<string>)
    requires fs != []
    ensures BareRecord([f] + fs) == f + ("," + BareRecord(fs))
  {
    assert ([f] + fs)[1..] == fs;
  }

  lemma HeaderFieldsRecord()
    ensures BareRecord(HeaderFields) == "Date" + ("," + ("Type" + ("," + ("Amount (RWF)" + ("," + ("From" + ("," + ("To" + ("," + ("Status" + "\n"))))))))))
  {
    BareRecordCons("To", ["Status"]);
    assert ["To"] + ["Status"] == ["To", "Status"];
    BareRecordCons("From", ["To", "Status"]);
    assert ["From"] + ["To", "Status"] == ["From", "To", "Status"];
    BareRecordCons("Amount (RWF)", ["From", "To", "Status"]);
    assert ["Amount (RWF)"] + ["From", "To", "Status"] == ["Amount (RWF)", "From", "To", "Status"];
    BareRecordCons("Type", ["Amount (RWF)", "From", "To", "Status"]);
    assert ["Type"] + ["Amount (RWF)", "From", "To", "Status"] == ["Type", "Amount (RWF)", "From", "To", "Status"];
    BareRecordCons("Date", ["Type", "Amount (RWF)", "From", "To", "Status"]);
    assert ["Date"] + ["Type", "Amount (RWF)", "From", "To", "Status"] == HeaderFields;
  }

  lemma HeaderFieldsSafe()
    ensures forall i :: 0 <= i < |HeaderFields| ==> BareSafe(HeaderFields[i])
  {
  }

  /** The header line is the six column names as a bare record. */
  lemma HeaderRecord()
    ensures CsvHeader == BareRecord(HeaderFields)
    ensures forall i :: 0 <= i < |HeaderFields| ==> BareSafe(HeaderFields[i])
  {
    HeaderFieldsRecord();
    HeaderFieldsSafe();
  }

  /** The rows of a batch, written with escaping. */
  function EscapedRows(txs: seq<Transaction>): string
  {
    if txs == [] then "" else QuotedRecord(EscapeAll(RowFields(txs[0]))) + EscapedRows(txs[1..])
  }

  /** The records written for a batch, as fields. */
  function RowRecords(txs: seq<Transaction>): seq<seq<string>>
  {
    seq(|txs|, i requires 0 <= i < |txs| => RowFields(txs[i]))
  }

  /** A text that starts with a record reads as that record and the records after it. */
  lemma ReadCsvStep(s: string, fs: seq<string>, rest: string)
    requires s != [] && ReadRecord(s) == Some((fs, rest))
    ensures ReadCsv(s) == match ReadCsv(rest) case None => None case Some(rs) => Some([fs] + rs)
  {
  }

  lemma {:induction false} ReadEscapedRows(txs: seq<Transaction>)
    ensures ReadCsv(EscapedRows(txs)) == Some(RowRecords(txs))
  {
    if txs != [] {
      ReadEscapedRows(txs[1..]);
      ReadEscapedRowsStep(txs);
    } else {
      assert RowRecords(txs) == [];
    }
  }

  lemma ReadEscapedRowsStep(txs: seq<Transaction>)
    requires txs != []
    requires ReadCsv(EscapedRows(txs[1..])) == Some(RowRecords(txs[1..]))
    ensures ReadCsv(EscapedRows(txs)) == Some(RowRecords(txs))
  {
    var rest := EscapedRows(txs[1..]);
    var line := QuotedRecord(EscapeAll(RowFields(txs[0])));
    ReadQuotedRecord(RowFields(txs[0]), rest);
    assert line != [];
    ReadCsvStep(line + rest, RowFields(txs[0]), rest);
    RowRecordsCons(txs);
  }

  lemma RowRecordsCons(txs: seq<Transaction>)
    requires txs != []
    ensures RowRecords(txs) == [RowFields(txs[0])] + RowRecords(txs[1..])
  {
  }

  /** The export with the escaping RFC 4180 asks for. */
  function EscapedCsvText(txs: seq<Transaction>): string
  {
    CsvHeader + EscapedRows(txs)
  }

  /** With escaping, every export reads back as the header and one record per
      transaction holding exactly the six texts the template interpolates. */
  lemma EscapedCsvRoundTrip(txs: seq<Transaction>)
    ensures ReadCsv(EscapedCsvText(txs)) == Some([HeaderFields] + RowRecords(txs))
  {
    HeaderRecord();
    ReadBareRecord(HeaderFields, EscapedRows(txs));
    ReadEscapedRows(txs);
  }

  /** No interpolated text of the batch holds a double quote. */
  predicate QuoteFree(txs: seq<Transaction>)
  {
    forall i, j :: 0 <= i < |txs| && 0 <= j < 6 ==> '"' !in RowFields(txs[i])[j]
  }

  lemma {:induction false} UnescapedRowsAgree(txs: seq<Transaction>)
    requires QuoteFree(txs)
    ensures CsvRows(txs) == EscapedRows(txs)
  {
    if txs != [] {
      assert EscapeAll(RowFields(txs[0])) == RowFields(txs[0]);
      assert QuoteFree(txs[1..]) by {
        forall i, j | 0 <= i < |txs[1..]| && 0 <= j < 6 ensures '"' !in RowFields(txs[1..][i])[j] {
          assert txs[1..][i] == txs[i + 1];
        }
      }
      UnescapedRowsAgree(txs[1..]);
    }
  }

  /** As written, the export reads back as the header and one record per
      transaction, in input order, as long as no interpolated text holds a
      double quote; an empty batch exports the header alone. */
  lemma CsvRoundTrip(txs: seq<Transaction>)
    requires QuoteFree(txs)
    ensures ReadCsv(CsvHeader + CsvRows(txs)) == Some([HeaderFields] + RowRecords(txs))
    ensures txs == [] ==> CsvHeader + CsvRows(txs) == CsvHeader
  {
    UnescapedRowsAgree(txs);
    EscapedCsvRoundTrip(txs);
  }

  /** As written, a sender that is a lone double quote corrupts the export:
      its field `"""` reads as a quote and a comma, closed by the quote that
      opens the recipient's field, and the recipient's first character then
      follows a closing quote, which RFC 4180 does not allow. The records
      before it read back, so the reader fails exactly there; the earlier
      date, type and amount fields are taken to hold no quote. */
  lemma UnescapedQuoteBreaksCsv(good: seq<Transaction>, t: Transaction, rest: seq<Transaction>)
    requires QuoteFree(good)
    requires forall j :: 0 <= j < 3 ==> '"' !in RowFields(t)[j]
    requires ToText(t.from) == "\""
    requires ToText(t.to) != [] && ToText(t.to)[0] != '"' && !IsSeparator(ToText(t.to)[0])
    ensures ReadCsv(CsvHeader + CsvRows(good + [t] + rest)) == None
  {
    var x := CsvLine(t) + CsvRows(rest);
    LineUnreadable(t, CsvRows(rest));
    assert good + [t] + rest == good + ([t] + rest);
    CsvRowsAppend(good, [t] + rest);
    assert ([t] + rest)[1..] == rest;
    UnescapedRowsAgree(good);
    ReadCsvStopsAt(good, x);
    HeaderRecord();
    ReadBareRecord(HeaderFields, EscapedRows(good) + x);
    ReadCsvStep(CsvHeader + (EscapedRows(good) + x), HeaderFields, EscapedRows(good) + x);
    AppendAssoc(CsvHeader, EscapedRows(good), x);
  }

  /** The line of a transaction whose sender is a lone quote cannot be read as a record. */
  lemma LineUnreadable(t: Transaction, r: string)
    requires forall j :: 0 <= j < 3 ==> '"' !in RowFields(t)[j]
    requires ToText(t.from) == "\""
    requires ToText(t.to) != [] && ToText(t.to)[0] != '"' && !IsSeparator(ToText(t.to)[0])
    ensures ReadRecord(CsvLine(t) + r) == None
  {
    var fs := RowFields(t);
    SkipQuotedField(fs, r);
    SkipQuotedField(fs[1..], r);
    assert fs[1..][1..] == fs[2..];
    SkipQuotedField(fs[2..], r);
    assert fs[2..][1..] == fs[3..];
    LoneQuoteField(fs[3..], r);
  }

  /** A quoted field with no quote inside, followed by a comma, is the first of its record. */
  lemma SkipQuotedField(fs: seq<string>, r: string)
    requires |fs| > 1 && '"' !in fs[0]
    ensures ReadRecord(QuotedRecord(fs) + r) == Cons(fs[0], ReadRecord(QuotedRecord(fs[1..]) + r))
  {
    var tail := QuotedRecord(fs[1..]) + r;
    QuotedRecordNext(fs, r);
    ReadQuotedField(fs[0], "," + tail);
    ReadRecordNext(QuotedRecord(fs) + r, fs[0], tail);
  }

  /** A lone quote written between quotes, before a field that starts with
      neither a quote nor a separator, makes the record unreadable. */
  lemma LoneQuoteField(fs: seq<string>, r: string)
    requires |fs| > 1 && fs[0] == "\"" && fs[1] != [] && fs[1][0] != '"' && !IsSeparator(fs[1][0])
    ensures ReadRecord(QuotedRecord(fs) + r) == None
  {
    var tail := QuotedRecord(fs[1..]) + r;
    QuotedRecordNext(fs, r);
    var after := tail[1..];
    assert tail == "\"" + after && after[0] == fs[1][0] by {
      if |fs[1..]| > 1 {
        QuotedRecordNext(fs[1..], r);
      } else {
        QuotedRecordLast(fs[1], r);
      }
    }
    ReadQuotedClose(after);
    assert ReadQuoted(tail) == Some(([], after));
    ReadQuotedPlain(',', tail);
    assert [','] + [] == ",";
    assert ReadQuoted("," + tail) == Some((",", after));
    ReadQuotedDoubled("," + tail);
    assert ['"'] + "," == "\",";
    assert ReadQuoted("\"\"" + ("," + tail)) == Some(("\",", after));
    var whole := QuotedRecord(fs) + r;
    assert whole == "\"" + ("\"\"" + ("," + tail));
    assert whole[0] == '"' && whole[1..] == "\"\"" + ("," + tail);
    assert ReadField(whole) == Some(("\",", after));
  }

  /** The rows of two batches, one after the other, are the rows of the joined batch. */
  lemma {:induction false} CsvRowsAppend(a: seq<Transaction>, b: seq<Transaction>)
    ensures CsvRows(a + b) == CsvRows(a) + CsvRows(b)
  {
    if a == [] {
      assert a + b == b;
    } else {
      assert (a + b)[0] == a[0] && (a + b)[1..] == a[1..] + b;
      CsvRowsAppend(a[1..], b);
      AppendAssoc(CsvLine(a[0]), CsvRows(a[1..]), CsvRows(b));
    }
  }

  /** Well-written rows before a text that does not start with a record: the
      reader fails there. */
  lemma {:induction false} ReadCsvStopsAt(txs: seq<Transaction>, x: string)
    requires x != [] && ReadRecord(x) == None
    ensures ReadCsv(EscapedRows(txs) + x) == None
  {
    if txs == [] {
      assert EscapedRows(txs) + x == x;
    } else {
      var line := QuotedRecord(EscapeAll(RowFields(txs[0])));
      var after := EscapedRows(txs[1..]) + x;
      ReadCsvStopsAt(txs[1..], x);
      AppendAssoc(line, EscapedRows(txs[1..]), x);
      ReadQuotedRecord(RowFields(txs[0]), after);
      assert line != [];
      ReadCsvStep(line + after, RowFields(txs[0]), after);
    }
  }
}
