/** `parse_sms`: the loop over the `<sms>` elements of an SMS backup that turns
    each message into a transaction record. A message whose `date` attribute
    does not convert is skipped; a failing amount conversion ends the whole
    parse with the exception. */
module SmsParse {
  import opened Wrappers
  import opened Text
  import opened Categories
  import opened SmsCategorize
  import opened SmsExtract
  import opened PyValues

  // ------------------------------------------------------------ the records

  /** An `<sms>` element: its `body` and `date` attributes, when present. */
  datatype Sms = Sms(body: Option<string>, date: Option<string>)

  /** What `ET.fromstring` yields: a `ParseError`, or the `<sms>` children of
      the root in document order. */
  datatype Xml = Malformed | Document(messages: seq<Sms>)

  /** The `base_data` dictionary of one transaction; the last four keys are
      present only when the category's detail pattern matched. */
  datatype SmsRecord = SmsRecord(
    category: string, datetime: string, rawText: string, amount: nat, fee: nat,
    recipient: Option<string>, code: Option<string>,
    accountOrPhone: Option<string>, sender: Option<string>)

  /** The optional keys of a record. */
  datatype Details = Details(
    recipient: Option<string>, code: Option<string>,
    accountOrPhone: Option<string>, sender: Option<string>)

  const NoDetails := Details(None, None, None, None)

  /** `sms.attrib.get('body', '')`. */
  function BodyOf(m: Sms): string { m.body.GetOr("") }

  /** `sms.attrib.get('date', '0')`. */
  function DateOf(m: Sms): string { m.date.GetOr("0") }

  /** The category-specific keys: code holder payments, bank transfers and
      incoming money each try their own pattern; no other category has any. */
  function DetailsOf(category: string, body: string): Details
  {
    if category == CodeHolderPayments then
      var p := CodePayment(body);
      if p.None? then NoDetails else Details(Some(p.value.0), Some(p.value.1), None, None)
    else if category == BankTransfers then
      var t := Transfer(body);
      if t.None? then NoDetails else Details(Some(t.value.0), None, Some(t.value.1), None)
    else if category == IncomingMoney then
      var x := Sender(body);
      if x.None? then NoDetails else Details(None, None, None, Some(x.value))
    else NoDetails
  }

  /** The record of a message with body `body` whose date renders as
      `datetime`; the `ValueError` of the amount conversion propagates. */
  function Record(body: string, datetime: string): Result<SmsRecord, string>
  {
    var category := Categorize(body);
    var amount := ExtractAmount(body);
    if amount.Failure? then Failure(amount.error)
    else
      var d := DetailsOf(category, body);
      Success(SmsRecord(category, datetime, body, amount.value, ExtractFee(body),
        d.recipient, d.code, d.accountOrPhone, d.sender))
  }

  /** The date of a message as `strftime('%Y-%m-%d %H:%M:%S')` renders it, or
      `None` when `int()` or `fromtimestamp` raises. `localTime` stands for
      `datetime.fromtimestamp(ms / 1000)` in the machine's time zone, with its
      rendering, and is `None` where that raises. */
  function DateTime(m: Sms, localTime: int -> Option<string>): Option<string>
  {
    match PyInt(DateOf(m))
    case None => None
    case Some(ms) => localTime(ms)
  }

  /** The messages whose date converts under `date`, in order, each with its
      body and its rendered date. */
  function Dated(ms: seq<Sms>, date: Sms -> Option<string>): seq<(string, string)>
    decreases |ms|
  {
    if ms == [] then []
    else
      var last := ms[|ms| - 1];
      var rest := Dated(ms[..|ms| - 1], date);
      match date(last)
      case None => rest
      case Some(dt) => rest + [(BodyOf(last), dt)]
  }

  /** The records `record` makes of the dated messages, in order, or the
      first failure. */
  function Records(ds: seq<(string, string)>, record: (string, string) -> Result<SmsRecord, string>)
    : Result<seq<SmsRecord>, string>
    decreases |ds|
  {
    if ds == [] then Success([])
    else
      match Records(ds[..|ds| - 1], record)
      case Failure(e) => Failure(e)
      case Success(rs) =>
        match record(ds[|ds| - 1].0, ds[|ds| - 1].1)
        case Failure(e) => Failure(e)
        case Success(r) => Success(rs + [r])
  }

  /** The date of each message under the clock `localTime`. */
  function DateUnder(localTime: int -> Option<string>): Sms -> Option<string>
  {
    m => DateTime(m, localTime)
  }

  /** `parse_sms(xml_data)`: nothing for a document that does not parse,
      otherwise the records of the dated messages. */
  function ParseSmsSpec(xml: Xml, localTime: int -> Option<string>): Result<seq<SmsRecord>, string>
  {
    match xml
    case Malformed => Success([])
    case Document(ms) => Records(Dated(ms, DateUnder(localTime)), Record)
  }

  // ------------------------------------------------------------ the loop

  /** The loop of `parse_sms`: skip a message whose date fails, stop at the
      first amount that fails, append every other record. */
  method ParseSms(xml: Xml, localTime: int -> Option<string>) returns (r: Result<seq<SmsRecord>, string>)
    ensures r == ParseSmsSpec(xml, localTime)
  {
    if xml.Malformed? {
      return Success([]);
    }
    var ms := xml.messages;
    ghost var date := DateUnder(localTime);
    var transactions: seq<SmsRecord> := [];
    var i := 0;
    while i < |ms|
      invariant 0 <= i <= |ms|
      invariant Records(Dated(ms[..i], date), Record) == Success(transactions)
    {
      DatedStep(ms, i, date);
      var dt := DateTime(ms[i], localTime);
      if dt.None? {
        i := i + 1;
        continue;
      }
      var record := Record(BodyOf(ms[i]), dt.value);
      RecordsStep(Dated(ms[..i], date), (BodyOf(ms[i]), dt.value), Record);
      if record.Failure? {
        StopsAtFailure(ms, i + 1, date, Record);
        return Failure(record.error);
      }
      transactions := transactions + [record.value];
      i := i + 1;
    }
    assert ms[..i] == ms;
    r := Success(transactions);
  }

  /** One more message adds its dated entry, if its date converts. */
  lemma DatedStep(ms: seq<Sms>, i: nat, date: Sms -> Option<string>)
    requires i < |ms|
    ensures Dated(ms[..i + 1], date) ==
      match date(ms[i])
      case None => Dated(ms[..i], date)
      case Some(dt) => Dated(ms[..i], date) + [(BodyOf(ms[i]), dt)]
  {
    assert ms[..i + 1][..i] == ms[..i];
  }

  /** One more dated entry adds its record, or fails with it. */
  lemma RecordsStep(ds: seq<(string, string)>, d: (string, string),
                    record: (string, string) -> Result<SmsRecord, string>)
    ensures Records(ds + [d], record) ==
      match Records(ds, record)
      case Failure(e) => Failure(e)
      case Success(rs) =>
        match record(d.0, d.1)
        case Failure(e) => Failure(e)
        case Success(r) => Success(rs + [r])
  {
    assert (ds + [d])[..|ds|] == ds;
  }

  /** Once the records of a prefix fail, the whole parse fails the same way. */
  lemma StopsAtFailure(ms: seq<Sms>, i: nat, date: Sms -> Option<string>,
                       record: (string, string) -> Result<SmsRecord, string>)
    requires i <= |ms| && Records(Dated(ms[..i], date), record).Failure?
    ensures Records(Dated(ms, date), record) == Records(Dated(ms[..i], date), record)
  {
    var a, b := ms[..i], ms[i..];
    SplitAt(ms, i);
    DatedAppend(a, b, date);
    FailureAbsorbs(Dated(a, date), Dated(b, date), record);
  }

  /** A sequence is its prefix followed by its suffix. */
  lemma SplitAt<T>(s: seq<T>, i: nat)
    requires i <= |s|
    ensures s == s[..i] + s[i..]
  {
  }

  /** Dating a concatenation dates each part. */
  lemma {:induction false} DatedAppend(a: seq<Sms>, b: seq<Sms>, date: Sms -> Option<string>)
    ensures Dated(a + b, date) == Dated(a, date) + Dated(b, date)
    decreases |b|
  {
    if b == [] {
      assert a + b == a;
    } else {
      var b' := b[..|b| - 1];
      assert (a + b)[..|a + b| - 1] == a + b';
      assert (a + b)[|a + b| - 1] == b[|b| - 1];
      DatedAppend(a, b', date);
    }
  }

  /** A failure stays the result whatever entries follow. */
  lemma {:induction false} FailureAbsorbs(ds: seq<(string, string)>, more: seq<(string, string)>,
                                          record: (string, string) -> Result<SmsRecord, string>)
    requires Records(ds, record).Failure?
    ensures Records(ds + more, record) == Records(ds, record)
    decreases |more|
  {
    if more == [] {
      assert ds + more == ds;
    } else {
      var more' := more[..|more| - 1];
      assert ds + more == (ds + more') + [more[|more| - 1]];
      FailureAbsorbs(ds, more', record);
      RecordsStep(ds + more', more[|more| - 1], record);
    }
  }

  // ------------------------------------------------------------ one record

  /** A record fails exactly when the amount conversion does; otherwise its
      category is one of the ten tags, assigned from the body, and it keeps
      the body, the date, the amount and the fee read from that body. */
  lemma RecordFields(body: string, dt: string)
    ensures Record(body, dt).Failure? <==> ExtractAmount(body).Failure?
    ensures Record(body, dt).Failure? ==> Record(body, dt).error == ExtractAmount(body).error
    ensures Record(body, dt).Success? ==>
      var r := Record(body, dt).value;
      && r.category in Tags && r.category == Categorize(body)
      && r.datetime == dt && r.rawText == body
      && r.amount == ExtractAmount(body).value && r.fee == ExtractFee(body)
  {
  }

  /** At most one detail pattern applies, and only for its own category: a
      recipient comes with a code or with an account, a sender alone. */
  lemma DetailsExclusive(category: string, body: string)
    ensures var d := DetailsOf(category, body);
      && (d.code.Some? ==> category == CodeHolderPayments)
      && (d.accountOrPhone.Some? ==> category == BankTransfers)
      && (d.sender.Some? ==> category == IncomingMoney)
      && (d.recipient.Some? <==> d.code.Some? || d.accountOrPhone.Some?)
      && (d.code.Some? <==> d.recipient.Some? && d.accountOrPhone.None?)
      && (d.sender.Some? ==> d.recipient.None?)
  {
  }

  /** A code holder payment has a code exactly when its body has the
      `payment of ... RWF to <recipient> <code>` pattern, whose groups are then
      the recipient and the code. */
  lemma DetailsCode(category: string, body: string)
    requires category == CodeHolderPayments
    ensures var d := DetailsOf(category, body);
      d.code.Some? <==> exists mid, x, c :: CodeShape(body, mid, x, c)
    ensures var d := DetailsOf(category, body);
      d.code.Some? ==> d.recipient.Some? && exists mid :: CodeShape(body, mid, d.recipient.value, d.code.value)
  {
    CodePaymentFound(body);
  }

  /** A bank transfer has an account exactly when its body has the
      `transferred to <recipient> (<account>)` pattern, whose groups are then
      the recipient and the account. */
  lemma DetailsTransfer(category: string, body: string)
    requires category == BankTransfers
    ensures var d := DetailsOf(category, body);
      d.accountOrPhone.Some? <==> exists x, a :: TransferShape(body, x, a)
    ensures var d := DetailsOf(category, body);
      d.accountOrPhone.Some? ==> d.recipient.Some? && TransferShape(body, d.recipient.value, d.accountOrPhone.value)
  {
    TransferFound(body);
  }

  /** Incoming money has a sender exactly when its body has the
      `from <sender> (*********<digits>)` pattern, whose group is then the
      sender. */
  lemma DetailsSender(category: string, body: string)
    requires category == IncomingMoney
    ensures var d := DetailsOf(category, body);
      d.sender.Some? <==> exists sp1, x, sp2, st, ds :: SenderShape(body, sp1, x, sp2, st, ds)
    ensures var d := DetailsOf(category, body);
      d.sender.Some? ==> exists sp1, sp2, st, ds :: SenderShape(body, sp1, d.sender.value, sp2, st, ds)
  {
    SenderFound(body);
  }

  // ------------------------------------------------------------ the dates

  /** A message without a `date` attribute is not skipped: it is dated at
      the epoch. */
  lemma MissingDateIsEpoch(m: Sms, localTime: int -> Option<string>)
    requires m.date.None?
    ensures DateTime(m, localTime) == localTime(0)
  {
    PyIntOfIntToString("", 0, "");
    assert "" + (IntToString(0) + "") == "0";
  }

  /** A date attribute written as `str(ms)` is converted at `ms`. */
  lemma WrittenDate(m: Sms, ms: int, localTime: int -> Option<string>)
    requires m.date == Some(IntToString(ms))
    ensures DateTime(m, localTime) == localTime(ms)
  {
    PyIntOfIntToString("", ms, "");
    assert "" + (IntToString(ms) + "") == IntToString(ms);
  }

  /** No message is dated twice: at most one entry per message. */
  lemma {:induction false} DatedBound(ms: seq<Sms>, date: Sms -> Option<string>)
    ensures |Dated(ms, date)| <= |ms|
    decreases |ms|
  {
    if ms != [] {
      DatedBound(ms[..|ms| - 1], date);
    }
  }

  /** A message whose date does not convert leaves no trace. */
  lemma DatedSkips(a: seq<Sms>, m: Sms, b: seq<Sms>, date: Sms -> Option<string>)
    requires date(m).None?
    ensures Dated(a + [m] + b, date) == Dated(a + b, date)
  {
    DatedAppend(a, [m], date);
    DatedAppend(a + [m], b, date);
    DatedAppend(a, b, date);
    assert [m][..0] == [];
  }

  /** A message whose date converts keeps its place. */
  lemma DatedKeeps(a: seq<Sms>, m: Sms, b: seq<Sms>, date: Sms -> Option<string>)
    requires date(m).Some?
    ensures Dated(a + [m] + b, date) == Dated(a, date) + [(BodyOf(m), date(m).value)] + Dated(b, date)
  {
    DatedAppend(a, [m], date);
    DatedAppend(a + [m], b, date);
    assert [m][..0] == [];
  }

  /** When every date converts, the entries are the messages one for one. */
  lemma {:induction false} DatedAll(ms: seq<Sms>, date: Sms -> Option<string>)
    requires forall k :: 0 <= k < |ms| ==> date(ms[k]).Some?
    ensures |Dated(ms, date)| == |ms|
    ensures forall k :: 0 <= k < |ms| ==> Dated(ms, date)[k] == (BodyOf(ms[k]), date(ms[k]).value)
    decreases |ms|
  {
    if ms != [] {
      var ms' := ms[..|ms| - 1];
      assert forall k :: 0 <= k < |ms'| ==> ms'[k] == ms[k];
      DatedAll(ms', date);
    }
  }

  // ------------------------------------------------------------ all records

  /** The records succeed exactly when every entry's record does, and then
      they are those records in order. */
  lemma {:induction false} RecordsAll(ds: seq<(string, string)>, record: (string, string) -> Result<SmsRecord, string>)
    ensures Records(ds, record).Success? <==> forall k :: 0 <= k < |ds| ==> record(ds[k].0, ds[k].1).Success?
    ensures Records(ds, record).Success? ==>
      && |Records(ds, record).value| == |ds|
      && forall k :: 0 <= k < |ds| ==> Records(ds, record).value[k] == record(ds[k].0, ds[k].1).value
    decreases |ds|
  {
    if ds != [] {
      var ds' := ds[..|ds| - 1];
      assert forall k :: 0 <= k < |ds'| ==> ds'[k] == ds[k];
      RecordsAll(ds', record);
    }
  }

  /** A failure is that of the first entry whose record fails. */
  lemma {:induction false} RecordsFirstFailure(ds: seq<(string, string)>, record: (string, string) -> Result<SmsRecord, string>)
    requires Records(ds, record).Failure?
    ensures exists k :: FirstFailure(ds, record, k) && Records(ds, record).error == record(ds[k].0, ds[k].1).error
    decreases |ds|
  {
    var ds' := ds[..|ds| - 1];
    assert forall k :: 0 <= k < |ds'| ==> ds'[k] == ds[k];
    if Records(ds', record).Failure? {
      RecordsFirstFailure(ds', record);
      var k :| FirstFailure(ds', record, k) && Records(ds', record).error == record(ds'[k].0, ds'[k].1).error;
      assert FirstFailure(ds, record, k);
    } else {
      RecordsAll(ds', record);
      assert FirstFailure(ds, record, |ds'|);
    }
  }

  /** Entry `k` is the first whose record fails. */
  predicate FirstFailure(ds: seq<(string, string)>, record: (string, string) -> Result<SmsRecord, string>, k: int) {
    && 0 <= k < |ds| && record(ds[k].0, ds[k].1).Failure?
    && forall j :: 0 <= j < k ==> record(ds[j].0, ds[j].1).Success?
  }

  // ------------------------------------------------------------ the parse

  /** Every transaction carries one of the ten tags, the one its own text
      is categorised as. */
  lemma ParseSmsCategorised(xml: Xml, localTime: int -> Option<string>)
    requires ParseSmsSpec(xml, localTime).Success?
    ensures forall r :: r in ParseSmsSpec(xml, localTime).value ==>
      r.category in Tags && r.category == Categorize(r.rawText)
  {
    if xml.Document? {
      var ds := Dated(xml.messages, DateUnder(localTime));
      RecordsAll(ds, Record);
      forall r | r in Records(ds, Record).value
        ensures r.category in Tags && r.category == Categorize(r.rawText)
      {
        var k :| 0 <= k < |ds| && Records(ds, Record).value[k] == r;
        RecordFields(ds[k].0, ds[k].1);
      }
    }
  }

  /** A successful parse has one transaction per dated message, so never
      more than there are messages. */
  lemma ParseSmsLength(ms: seq<Sms>, localTime: int -> Option<string>)
    requires ParseSmsSpec(Document(ms), localTime).Success?
    ensures |ParseSmsSpec(Document(ms), localTime).value| == |Dated(ms, DateUnder(localTime))| <= |ms|
  {
    RecordsAll(Dated(ms, DateUnder(localTime)), Record);
    DatedBound(ms, DateUnder(localTime));
  }

  /** The parse fails exactly when the amount of some dated message does not
      convert. */
  lemma ParseSmsFails(ms: seq<Sms>, localTime: int -> Option<string>)
    ensures var ds := Dated(ms, DateUnder(localTime));
      ParseSmsSpec(Document(ms), localTime).Failure? <==>
      exists k :: 0 <= k < |ds| && ExtractAmount(ds[k].0).Failure?
  {
    var ds := Dated(ms, DateUnder(localTime));
    RecordsAll(ds, Record);
    if Records(ds, Record).Failure? {
      var k :| 0 <= k < |ds| && !Record(ds[k].0, ds[k].1).Success?;
      RecordFields(ds[k].0, ds[k].1);
    }
    if k :| 0 <= k < |ds| && ExtractAmount(ds[k].0).Failure? {
      RecordFields(ds[k].0, ds[k].1);
    }
  }

  /** One dated message whose amount is only commas loses every transaction
      of the document. */
  lemma CommasOnlyAborts(a: seq<Sms>, m: Sms, b: seq<Sms>, localTime: int -> Option<string>)
    requires DateTime(m, localTime).Some? && m.body == Some("Paid , RWF")
    ensures ParseSmsSpec(Document(a + [m] + b), localTime).Failure?
  {
    var ms := a + [m] + b;
    var date := DateUnder(localTime);
    DatedKeeps(a, m, b, date);
    var k := |Dated(a, date)|;
    assert Dated(ms, date)[k].0 == "Paid , RWF";
    CommasOnlyAmount("Paid , RWF");
    ParseSmsFails(ms, localTime);
  }
}
