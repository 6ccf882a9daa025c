/** The dashboard's normaliser: the `data.map(...).filter(...)` step that turns
    the records the API returns into the transactions every view works on. */
module DashboardRecords {
  import opened Wrappers
  import opened Text
  import opened JsValues
  import opened Calendar

  /** A record as the API returns it; any field may be absent or of any JSON type. */
  datatype RawRecord = RawRecord(
    id: Value, category: Value, amount: Value, fee: Value, datetime: Value,
    sender: Value, recipient: Value, rawText: Value, code: Value, accountOrPhone: Value)

  /** An element of the payload array. Reading a field of `null` throws; any other
      non-object element has no fields and reads like a record whose fields are all
      `Missing`, so only objects and `null` need telling apart. */
  datatype Element = NullElement | Object(record: RawRecord)

  /** The decoded response body. */
  datatype Payload = NotAnArray | Array(elements: seq<Element>)

  /** The `date` of a transaction: the day `toISOString` reports when the raw
      date-time parses, otherwise the raw value itself (`txn.datetime || ''`). */
  datatype TxDate = Parsed(day: Date) | Unparsed(raw: Value)

  /** A dashboard transaction; `category` is the source's `type` field. */
  datatype Transaction = Transaction(
    id: Value, category: Value, amount: int, fee: int, date: TxDate, displayDate: Value,
    from: Value, to: Value, status: string, rawText: Value, code: Value, accountOrPhone: Value)

  const Completed := "Completed"
  const NotAvailable := "N/A"

  /** `new Date(v)` succeeding with a valid time, reduced to its calendar day.
      The browser's date parser is not modelled; callers supply it. */
  type DateParser = Value -> Option<Date>

  /** The transformation of one record. `token` is the random token
      `Math.random().toString(36).substr(2, 9)` the source would draw. */
  function Normalize(r: RawRecord, token: string, parse: DateParser): Transaction
  {
    var dates := match parse(r.datetime)
      case Some(d) => (Parsed(d), Str(LocaleDate(d)))
      case None => (Unparsed(Or(r.datetime, Str(""))), Or(r.datetime, Str("")));
    Transaction(
      id := Or(r.id, Str(token)),
      category := Or(r.category, Str("Other")),
      amount := IntOrZero(r.amount),
      fee := IntOrZero(r.fee),
      date := dates.0,
      displayDate := dates.1,
      from := Or(r.sender, Str(NotAvailable)),
      to := Or(r.recipient, Str(NotAvailable)),
      status := Completed,
      rawText := Or(r.rawText, Str("")),
      code := Or(r.code, Null),
      accountOrPhone := Or(r.accountOrPhone, Null))
  }

  /** One element through the `try`/`catch` of the map callback: `None` is the
      `null` the callback returns when reading a field throws. */
  function Transform(e: Element, token: string, parse: DateParser): Option<Transaction>
  {
    match e
    case NullElement => None
    case Object(r) => Some(Normalize(r, token, parse))
  }

  /** `xs.map(f).filter(y => y !== null)` where the callback also sees the
      element's position, counted from `start`. */
  function MapCompact<A, B>(xs: seq<A>, start: nat, f: (A, nat) -> Option<B>): seq<B>
  {
    if xs == [] then []
    else
      var head := match f(xs[0], start)
        case Some(y) => [y]
        case None => [];
      head + MapCompact(xs[1..], start + 1, f)
  }

  lemma {:induction false} MapCompactAppend<A, B>(a: seq<A>, b: seq<A>, start: nat, f: (A, nat) -> Option<B>)
    ensures MapCompact(a + b, start, f) == MapCompact(a, start, f) + MapCompact(b, start + |a|, f)
  {
    if a == [] {
      assert a + b == b;
    } else {
      assert (a + b)[0] == a[0] && (a + b)[1..] == a[1..] + b;
      var head: seq<B> := if f(a[0], start).Some? then [f(a[0], start).value] else [];
      var x, y := MapCompact(a[1..], start + 1, f), MapCompact(b, start + 1 + |a[1..]|, f);
      MapCompactAppend(a[1..], b, start + 1, f);
      assert MapCompact(a + b, start, f) == head + (x + y);
      assert MapCompact(a, start, f) == head + x;
      assert head + (x + y) == (head + x) + y;
    }
  }

  /** An element the callback keeps lands right after the ones kept before it. */
  lemma MapCompactAt<A, B>(xs: seq<A>, start: nat, f: (A, nat) -> Option<B>, i: nat)
    requires i < |xs| && f(xs[i], start + i).Some?
    ensures |MapCompact(xs[..i], start, f)| < |MapCompact(xs, start, f)|
    ensures MapCompact(xs, start, f)[|MapCompact(xs[..i], start, f)|] == f(xs[i], start + i).value
  {
    assert xs == xs[..i] + xs[i..];
    MapCompactAppend(xs[..i], xs[i..], start, f);
    assert xs[i..][0] == xs[i];
  }

  /** `data.map(transform).filter(txn => txn !== null)`; element `i` of the
      whole array (counting from `start`) draws token `tokens(i)`. */
  function NormalizeAll(es: seq<Element>, start: nat, tokens: nat -> string, parse: DateParser): seq<Transaction>
  {
    MapCompact(es, start, (e, n) => Transform(e, tokens(n), parse))
  }

  /** Number of elements that are objects. */
  function ObjectCount(es: seq<Element>): nat
  {
    if es == [] then 0 else (if es[0].Object? then 1 else 0) + ObjectCount(es[1..])
  }

  lemma {:induction false} ObjectCountAppend(a: seq<Element>, b: seq<Element>)
    ensures ObjectCount(a + b) == ObjectCount(a) + ObjectCount(b)
  {
    if a == [] {
      assert a + b == b;
    } else {
      assert (a + b)[1..] == a[1..] + b;
      ObjectCountAppend(a[1..], b);
    }
  }

  /** Counting objects before position `i` of `es` is counting the head and
      then the objects before position `i - 1` of the tail. */
  lemma ObjectCountPrefix(es: seq<Element>, i: nat)
    requires 0 < i <= |es|
    ensures ObjectCount(es[..i]) == (if es[0].Object? then 1 else 0) + ObjectCount(es[1..][..i - 1])
  {
    assert es[..i][1..] == es[1..][..i - 1];
  }

  /** Batch normalisation keeps one transaction per object. */
  lemma {:induction false} NormalizeAllLength(es: seq<Element>, start: nat, tokens: nat -> string, parse: DateParser)
    ensures |NormalizeAll(es, start, tokens, parse)| == ObjectCount(es) <= |es|
  {
    if es != [] {
      NormalizeAllLength(es[1..], start + 1, tokens, parse);
      assert es[0].Object? <==> Transform(es[0], tokens(start), parse).Some?;
    }
  }

  /** Batch normalisation drops exactly the `null` elements and keeps the others
      in input order: the object at position `i` becomes output number
      `ObjectCount(es[..i])`, so the output is never longer than the input. */
  lemma NormalizeAllPositions(es: seq<Element>, start: nat, tokens: nat -> string, parse: DateParser)
    ensures |NormalizeAll(es, start, tokens, parse)| == ObjectCount(es) <= |es|
    ensures forall i :: 0 <= i < |es| && es[i].Object? ==>
      ObjectCount(es[..i]) < |NormalizeAll(es, start, tokens, parse)| &&
      NormalizeAll(es, start, tokens, parse)[ObjectCount(es[..i])] == Normalize(es[i].record, tokens(start + i), parse)
  {
    NormalizeAllLength(es, start, tokens, parse);
    forall i | 0 <= i < |es| && es[i].Object?
      ensures ObjectCount(es[..i]) < |NormalizeAll(es, start, tokens, parse)| &&
        NormalizeAll(es, start, tokens, parse)[ObjectCount(es[..i])] == Normalize(es[i].record, tokens(start + i), parse)
    {
      var f := (e: Element, n: nat) => Transform(e, tokens(n), parse);
      assert f(es[i], start + i) == Some(Normalize(es[i].record, tokens(start + i), parse));
      MapCompactAt(es, start, f, i);
      NormalizeAllLength(es[..i], start, tokens, parse);
    }
  }

  /** What a fetch cycle ends in: the two logged failures or the data that
      reaches `initDashboard`. */
  datatype LoadOutcome = MalformedPayload | EmptyResult | Loaded(transactions: seq<Transaction>)

  /** The `.then(data => ...)` handler: a non-array is rejected, an array is
      normalised, and an empty result is rejected before `initDashboard`. */
  function Load(p: Payload, tokens: nat -> string, parse: DateParser): (o: LoadOutcome)
    ensures o.Loaded? ==> p.Array? && 0 < |o.transactions| == ObjectCount(p.elements) <= |p.elements|
    ensures o.Loaded? ==> forall i :: 0 <= i < |p.elements| && p.elements[i].Object? ==>
      ObjectCount(p.elements[..i]) < |o.transactions| &&
      o.transactions[ObjectCount(p.elements[..i])] == Normalize(p.elements[i].record, tokens(i), parse)
    ensures o == MalformedPayload <==> p == NotAnArray
    ensures o == EmptyResult <==> p.Array? && ObjectCount(p.elements) == 0
  {
    match p
    case NotAnArray => MalformedPayload
    case Array(es) =>
      var txs := NormalizeAll(es, 0, tokens, parse);
      NormalizeAllPositions(es, 0, tokens, parse);
      if |txs| == 0 then EmptyResult else Loaded(txs)
  }

  /** The defaults of one record: a falsy category becomes "Other" and any other
      value passes through untouched, a falsy sender or recipient becomes "N/A",
      the status is always "Completed", and `amount`/`fee` are `parseInt(...) || 0`.
      None of the defaulted fields can come out falsy. */
  lemma NormalizeDefaults(r: RawRecord, token: string, parse: DateParser)
    requires token != ""
    ensures var t := Normalize(r, token, parse);
      && Truthy(t.id) && Truthy(t.category) && Truthy(t.from) && Truthy(t.to)
      && (t.category == Str("Other") <==> !Truthy(r.category) || r.category == Str("Other"))
      && (Truthy(r.category) ==> t.category == r.category)
      && (t.from == Str("N/A") <==> !Truthy(r.sender) || r.sender == Str("N/A"))
      && (t.to == Str("N/A") <==> !Truthy(r.recipient) || r.recipient == Str("N/A"))
      && (Truthy(r.id) ==> t.id == r.id) && (!Truthy(r.id) ==> t.id == Str(token))
      && t.status == "Completed"
      && (!Truthy(r.code) <==> t.code == Null) && (!Truthy(r.accountOrPhone) <==> t.accountOrPhone == Null)
      && (t.rawText == Str("") <==> !Truthy(r.rawText))
  {
  }

  /** A date-time that does not parse leaves the raw value (or "" when it is
      falsy) in both `date` and `displayDate`; one that parses yields its day and
      the "Mon D, YYYY" text. */
  lemma NormalizeDate(r: RawRecord, token: string, parse: DateParser)
    ensures var t := Normalize(r, token, parse);
      && (t.date.Unparsed? <==> parse(r.datetime).None?)
      && (t.date.Unparsed? ==>
            t.displayDate == t.date.raw && t.displayDate == (if Truthy(r.datetime) then r.datetime else Str("")))
      && (t.date.Parsed? ==>
            t.date.day == parse(r.datetime).value && t.displayDate == Str(LocaleDate(t.date.day)))
  {
  }

/** Text whose first character is neither white space, a sign nor a digit has no number. */
  lemma NoLeadingDigitText(s: string)
    requires |s| > 0 && !IsSpace(s[0]) && !IsDigit(s[0]) && s[0] != '-' && s[0] != '+'
    ensures ParseInt(s) == None
  {
    UnsignedStart(s);
  }

  /** `parseInt` keeps the sign: "-250" reads as -250. */
  lemma NegativeAmountSurvives()
    ensures IntOrZero(Str("-250")) == -250
  {
    assert IntToString(-250) == "-250" by {
      assert NatToString(2) == "2";
      assert NatToString(25) == "25";
      assert NatToString(250) == "250";
    }
    ParseIntOfIntToString(-250);
  }

  /** Plain decimal text reads as its value: "1500" reads as 1500. */
  lemma PlainAmount()
    ensures IntOrZero(Str("1500")) == 1500
  {
    assert IntToString(1500) == "1500" by {
      assert NatToString(15) == "15";
      assert NatToString(150) == "150";
      assert NatToString(1500) == "1500";
    }
    ParseIntOfIntToString(1500);
  }

  /** The digit run stops at the first non-digit: "1,500" reads as 1. */
  lemma ThousandsSeparatorStops()
    ensures IntOrZero(Str("1,500")) == 1
  {
    var s := "1,500";
    UnsignedStart(s);
    ParseDigitsOf("1", ",500", 10);
    assert s == "1" + ",500";
  }

  /** A currency prefix hides the number: "RWF 1500" reads as 0. */
  lemma CurrencyPrefixHides()
    ensures IntOrZero(Str("RWF 1500")) == 0
  {
    NoLeadingDigitText("RWF 1500");
  }

  /** The record `{amount: "1500", category: "Bank Deposits", datetime: ...}`
      with a date-time that parses to 2024-03-01. */
  lemma BankDepositScenario(r: RawRecord, token: string, parse: DateParser, march1: Date)
    requires r == RawRecord(Missing, Str("Bank Deposits"), Str("1500"), Missing,
                            Str("2024-03-01T10:00:00Z"), Missing, Missing, Missing, Missing, Missing)
    requires march1 == CalDate(2024, 3, 1) && parse(r.datetime) == Some(march1)
    ensures var t := Normalize(r, token, parse);
      && t.amount == 1500 && t.fee == 0 && t.category == Str("Bank Deposits")
      && t.date == Parsed(march1)
      && t.from == Str("N/A") && t.to == Str("N/A") && t.status == "Completed"
  {
    PlainAmount();
    NoLeadingDigitText("undefined");
  }

  /** The empty record `{}`: a generated id, "Other", zero amount and fee, "N/A" parties. */
  lemma EmptyRecordScenario(r: RawRecord, token: string, parse: DateParser)
    requires r == RawRecord(Missing, Missing, Missing, Missing, Missing, Missing, Missing, Missing, Missing, Missing)
    requires token != ""
    ensures var t := Normalize(r, token, parse);
      && t.id == Str(token) && t.category == Str("Other") && t.amount == 0 && t.fee == 0
      && t.from == Str("N/A") && t.to == Str("N/A")
  {
    assert IntOrZero(Missing) == 0 by {
      NoLeadingDigitText("undefined");
    }
  }
}
