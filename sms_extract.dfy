/** The regular expressions `parse_sms` runs over an SMS body, modelled as the
    backtracking search Python's `re.search` performs: start positions are tried
    from the left, a greedy quantifier tries its longest run first and a lazy
    one its shortest, and the first combination that matches wins. `.` matches
    every character but a newline; `\s` and `\d` are their ASCII classes. */
module SmsExtract {
  import opened Wrappers
  import opened Text
  import opened JsValues

  // ---------------------------------------------------------------- character runs

  /** The character classes the patterns repeat. */
  datatype CharClass = Digits | DigitsAndCommas | Spaces | Stars | NotNewline

  predicate InClass(c: char, cls: CharClass) {
    match cls
    case Digits => IsDigit(c)
    case DigitsAndCommas => IsDigit(c) || c == ','
    case Spaces => IsSpace(c)
    case Stars => c == '*'
    case NotNewline => c != '\n'
  }

  predicate All(x: string, cls: CharClass) {
    forall j :: 0 <= j < |x| ==> InClass(x[j], cls)
  }

  /** Length of the longest run of characters of class `cls` starting at `i`:
      what a greedy `+` or `*` takes first. */
  function Run(s: string, i: nat, cls: CharClass): (n: nat)
    requires i <= |s|
    ensures i + n <= |s|
    decreases |s| - i
  {
    if i < |s| && InClass(s[i], cls) then 1 + Run(s, i + 1, cls) else 0
  }

  /** Every character of a run is in its class. */
  lemma {:induction false} RunChars(s: string, i: nat, cls: CharClass)
    requires i <= |s|
    ensures forall j :: i <= j < i + Run(s, i, cls) ==> InClass(s[j], cls)
    decreases |s| - i
  {
    if i < |s| && InClass(s[i], cls) {
      RunChars(s, i + 1, cls);
    }
  }

  /** A piece of a run, taken from its start, is of the run's class and occurs where it was taken. */
  lemma RunSlice(s: string, i: nat, b: nat, cls: CharClass)
    requires i <= b <= |s| && b <= i + Run(s, i, cls)
    ensures All(s[i..b], cls) && OccursAt(s, s[i..b], i) && |s[i..b]| == b - i
  {
    RunChars(s, i, cls);
    OccursSlice(s, i, b);
    assert forall j :: 0 <= j < b - i ==> s[i..b][j] == s[i + j];
  }

  /** The whole run at `i`, as a string of its class occurring at `i`. */
  lemma RunPiece(s: string, i: nat, cls: CharClass) returns (r: string)
    requires i <= |s|
    ensures |r| == Run(s, i, cls) && All(r, cls) && OccursAt(s, r, i)
  {
    RunSlice(s, i, i + Run(s, i, cls), cls);
    r := s[i..i + Run(s, i, cls)];
  }

  /** A run in the first part of a concatenation is the same in the whole,
      unless it reaches the end of the first part and the second part goes on
      with the class. */
  lemma {:induction false} RunInPrefix(pre: string, t: string, i: nat, cls: CharClass)
    requires i <= |pre|
    requires i + Run(pre, i, cls) == |pre| ==> t == [] || !InClass(t[0], cls)
    ensures Run(pre + t, i, cls) == Run(pre, i, cls)
    decreases |pre| - i
  {
    if i < |pre| {
      assert (pre + t)[i] == pre[i];
      if InClass(pre[i], cls) {
        RunInPrefix(pre, t, i + 1, cls);
      }
    } else if t != [] {
      assert (pre + t)[i] == t[0];
    }
  }

  /** A run stops at the end of the text or at a character outside its class. */
  lemma {:induction false} RunStops(s: string, i: nat, cls: CharClass)
    requires i <= |s|
    ensures i + Run(s, i, cls) < |s| ==> !InClass(s[i + Run(s, i, cls)], cls)
    decreases |s| - i
  {
    if i < |s| && InClass(s[i], cls) {
      RunStops(s, i + 1, cls);
    }
  }

  /** A run is determined by where it stops. */
  lemma {:induction false} RunExact(s: string, i: nat, cls: CharClass, n: nat)
    requires i + n <= |s|
    requires forall j :: i <= j < i + n ==> InClass(s[j], cls)
    requires i + n < |s| ==> !InClass(s[i + n], cls)
    ensures Run(s, i, cls) == n
    decreases n
  {
    if n > 0 {
      RunExact(s, i + 1, cls, n - 1);
    }
  }

  /** A run is at least as long as any stretch of its class. */
  lemma {:induction false} RunAtLeast(s: string, i: nat, cls: CharClass, n: nat)
    requires i + n <= |s|
    requires forall j :: i <= j < i + n ==> InClass(s[j], cls)
    ensures Run(s, i, cls) >= n
    decreases n
  {
    if n > 0 {
      RunAtLeast(s, i + 1, cls, n - 1);
    }
  }

  /** Every character of an occurrence of `x` is in a class that covers `x`. */
  lemma OccursAtAll(s: string, x: string, i: nat, cls: CharClass)
    requires OccursAt(s, x, i) && All(x, cls)
    ensures forall j :: i <= j < i + |x| ==> InClass(s[j], cls)
  {
    OccursAtChars(s, x, i);
  }

  // ---------------------------------------------------------------- search

  /** What a search tests a position for: where the amount or the fee pattern
      may start, or where the last group of a detail pattern may end. The
      probes come in three tiers, each tested by a search over the tier below,
      so that every search only calls searches of a lower tier. */
  datatype Probe = AmountStart | DigitAmountStart | FeeStart | TransferEnd | CodeEnd | SenderEnd

  /** Where ` RWF to ` may start in the code holder pattern, and where the
      sender group may start after the spaces that follow `from`. */
  datatype GroupProbe = CodeMiddle | SenderGroup

  /** Where a detail pattern may start. */
  datatype StartProbe = TransferStart | CodeStart | SenderStart

  /** The literal parts of the detail patterns. */
  const TransferredTo := "transferred to "
  const PaymentOf := "payment of "
  const RwfTo := " RWF to "
  const From := "from"

  /** Whether the rest of the pattern matches from position `k` on. */
  predicate Holds(s: string, p: Probe, k: nat) {
    match p
    case AmountStart => AmountAt(s, k)
    case DigitAmountStart => k < |s| && IsDigit(s[k]) && AmountAt(s, k)
    case FeeStart => FeeAt(s, k)
    case TransferEnd => TransferTail(s, k)
    case CodeEnd => CodeTail(s, k)
    case SenderEnd => SenderTail(s, k)
  }

  /** Whether the rest of the pattern matches from position `k` on. */
  predicate GroupHolds(s: string, g: GroupProbe, k: nat) {
    match g
    case CodeMiddle => CodeMiddleAt(s, k)
    case SenderGroup => SenderGroupAt(s, k)
  }

  /** Whether the whole pattern matches from position `k` on. */
  predicate StartHolds(s: string, t: StartProbe, k: nat) {
    match t
    case TransferStart => TransferStartAt(s, k)
    case CodeStart => CodeStartAt(s, k)
    case SenderStart => SenderStartAt(s, k)
  }

  /** The first `k` in `lo .. hi` where the probe holds: the order in which
      `re.search` tries start positions and a lazy quantifier tries lengths. */
  function FirstWhere(s: string, p: Probe, lo: nat, hi: nat): (r: Option<nat>)
    ensures r.Some? ==> lo <= r.value <= hi && Holds(s, p, r.value)
    decreases hi - lo
  {
    if hi < lo then None
    else if Holds(s, p, lo) then Some(lo)
    else FirstWhere(s, p, lo + 1, hi)
  }

  /** A lazy `.*?` from `lo`: the first `k >= lo` where the group probe holds,
      with no newline between `lo` and `k`. */
  function FirstGroup(s: string, g: GroupProbe, lo: nat): (r: Option<nat>)
    requires lo <= |s|
    ensures r.Some? ==> lo <= r.value <= lo + Run(s, lo, NotNewline) && GroupHolds(s, g, r.value)
    decreases |s| - lo
  {
    if GroupHolds(s, g, lo) then Some(lo)
    else if lo < |s| && InClass(s[lo], NotNewline) then FirstGroup(s, g, lo + 1)
    else None
  }

  /** The last `k` in `lo .. hi` where the group probe holds: the order in
      which a greedy quantifier gives characters back. */
  function LastGroup(s: string, g: GroupProbe, lo: nat, hi: nat): (r: Option<nat>)
    ensures r.Some? ==> lo <= r.value <= hi && GroupHolds(s, g, r.value)
    decreases hi - lo
  {
    if hi < lo then None
    else if GroupHolds(s, g, hi) then Some(hi)
    else if hi == lo then None
    else LastGroup(s, g, lo, hi - 1)
  }

  /** The first `k` in `lo .. hi` where the whole pattern matches. */
  function FirstStart(s: string, t: StartProbe, lo: nat, hi: nat): (r: Option<nat>)
    ensures r.Some? ==> lo <= r.value <= hi && StartHolds(s, t, r.value)
    decreases hi - lo
  {
    if hi < lo then None
    else if StartHolds(s, t, lo) then Some(lo)
    else FirstStart(s, t, lo + 1, hi)
  }

  /** A lazy `(.+?)` starting at `q`: the shortest non-empty newline-free
      group after which the probe holds. */
  function LazyGroup(s: string, q: nat, p: Probe): (e: Option<nat>)
    requires q <= |s|
    ensures e.Some? ==> q < e.value <= q + Run(s, q, NotNewline) && Holds(s, p, e.value)
  {
    FirstWhere(s, p, q + 1, q + Run(s, q, NotNewline))
  }

  /** A newline-free group followed by a place where the probe holds makes the
      lazy group succeed. */
  lemma LazyGroupFinds(s: string, q: nat, x: string, p: Probe)
    requires |x| > 0 && NoNewline(x) && OccursAt(s, x, q) && Holds(s, p, q + |x|)
    ensures LazyGroup(s, q, p).Some?
  {
    OccursAtAll(s, x, q, NotNewline);
    RunAtLeast(s, q, NotNewline, |x|);
    FirstWhereFinds(s, p, q + 1, q + Run(s, q, NotNewline), q + |x|);
  }

  /** Whenever the probe holds at some `k` in range, the search succeeds, at `k` or before. */
  lemma {:induction false} FirstWhereFinds(s: string, p: Probe, lo: nat, hi: nat, k: nat)
    requires lo <= k <= hi && Holds(s, p, k)
    ensures FirstWhere(s, p, lo, hi).Some? && FirstWhere(s, p, lo, hi).value <= k
    decreases hi - lo
  {
    if !Holds(s, p, lo) {
      FirstWhereFinds(s, p, lo + 1, hi, k);
    }
  }

  /** The search stops at the first position where the probe holds. */
  lemma {:induction false} FirstWhereAt(s: string, p: Probe, lo: nat, hi: nat, k: nat)
    requires lo <= k <= hi && Holds(s, p, k)
    requires forall j :: lo <= j < k ==> !Holds(s, p, j)
    ensures FirstWhere(s, p, lo, hi) == Some(k)
    decreases hi - lo
  {
    if lo < k {
      FirstWhereAt(s, p, lo + 1, hi, k);
    }
  }

  /** The search passes over every position before the one it stops at. */
  lemma FirstWhereBefore(s: string, p: Probe, lo: nat, hi: nat, j: nat)
    requires FirstWhere(s, p, lo, hi).Some? && lo <= j < FirstWhere(s, p, lo, hi).value
    ensures !Holds(s, p, j)
  {
    if Holds(s, p, j) {
      FirstWhereFinds(s, p, lo, hi, j);
    }
  }

  /** A failed search passes over every position in range. */
  lemma FirstWhereMisses(s: string, p: Probe, lo: nat, hi: nat, j: nat)
    requires FirstWhere(s, p, lo, hi).None? && lo <= j <= hi
    ensures !Holds(s, p, j)
  {
    if Holds(s, p, j) {
      FirstWhereFinds(s, p, lo, hi, j);
    }
  }

  /** When the probe holds nowhere in range, the search fails. */
  lemma {:induction false} FirstWhereNone(s: string, p: Probe, lo: nat, hi: nat)
    requires forall j :: lo <= j <= hi ==> !Holds(s, p, j)
    ensures FirstWhere(s, p, lo, hi) == None
    decreases hi - lo
  {
    if lo <= hi {
      FirstWhereNone(s, p, lo + 1, hi);
    }
  }

  /** Whenever the group probe holds after a newline-free stretch `x` at
      `lo`, the lazy search succeeds. */
  lemma {:induction false} FirstGroupFinds(s: string, g: GroupProbe, lo: nat, x: string)
    requires All(x, NotNewline) && OccursAt(s, x, lo) && GroupHolds(s, g, lo + |x|)
    ensures FirstGroup(s, g, lo).Some?
    decreases |x|
  {
    if !GroupHolds(s, g, lo) {
      assert s[lo] == x[0] by { OccursAtChars(s, x, lo); }
      assert x == x[..1] + x[1..];
      OccursAtConcat(s, x[..1], x[1..], lo);
      FirstGroupFinds(s, g, lo + 1, x[1..]);
    }
  }

  /** Whenever the group probe holds at some `k` in range, the backward search
      succeeds, at `k` or after. */
  lemma {:induction false} LastGroupFinds(s: string, g: GroupProbe, lo: nat, hi: nat, k: nat)
    requires lo <= k <= hi && GroupHolds(s, g, k)
    ensures LastGroup(s, g, lo, hi).Some? && LastGroup(s, g, lo, hi).value >= k
    decreases hi - lo
  {
    if !GroupHolds(s, g, hi) {
      LastGroupFinds(s, g, lo, hi - 1, k);
    }
  }

  /** Whenever the whole pattern matches at some `k` in range, the search succeeds. */
  lemma {:induction false} FirstStartFinds(s: string, t: StartProbe, lo: nat, hi: nat, k: nat)
    requires lo <= k <= hi && StartHolds(s, t, k)
    ensures FirstStart(s, t, lo, hi).Some? && FirstStart(s, t, lo, hi).value <= k
    decreases hi - lo
  {
    if !StartHolds(s, t, lo) {
      FirstStartFinds(s, t, lo + 1, hi, k);
    }
  }

  // ---------------------------------------------------------------- amount

  /** `([0-9,]+)\s*RWF` matches at `i` with a group of length `L` followed by `k` spaces. */
  predicate AmountMatch(s: string, i: nat, L: nat, k: nat) {
    && 1 <= L && i + L + k <= |s|
    && (forall j :: i <= j < i + L ==> InClass(s[j], DigitsAndCommas))
    && (forall j :: i + L <= j < i + L + k ==> IsSpace(s[j]))
    && OccursAt(s, "RWF", i + L + k)
  }

  /** The greedy reading: take the whole run of digits and commas, then the whole run of spaces. */
  predicate AmountAt(s: string, i: nat) {
    && i <= |s|
    && var L := Run(s, i, DigitsAndCommas);
       L >= 1 && OccursAt(s, "RWF", i + L + Run(s, i + L, Spaces))
  }

  /** Any match at `i` is the greedy one: neither run can stop early, because
      the character after a shorter run is a digit, a comma or a space, where
      the pattern needs a space or the `R` of `RWF`. */
  lemma AmountMatchIsGreedy(s: string, i: nat, L: nat, k: nat)
    requires AmountMatch(s, i, L, k)
    ensures L == Run(s, i, DigitsAndCommas) && k == Run(s, i + L, Spaces)
    ensures AmountAt(s, i)
  {
    assert s[i + L + k] == 'R';
    RunExact(s, i, DigitsAndCommas, L);
    RunExact(s, i + L, Spaces, k);
  }

  /** The greedy reading succeeds exactly where the pattern matches at all. */
  lemma AmountAtMatches(s: string, i: nat)
    ensures AmountAt(s, i) <==> exists L, k :: AmountMatch(s, i, L, k)
  {
    if AmountAt(s, i) {
      var L := Run(s, i, DigitsAndCommas);
      RunChars(s, i, DigitsAndCommas);
      RunChars(s, i + L, Spaces);
      assert AmountMatch(s, i, L, Run(s, i + L, Spaces));
    }
    if exists L, k :: AmountMatch(s, i, L, k) {
      var L, k :| AmountMatch(s, i, L, k);
      AmountMatchIsGreedy(s, i, L, k);
    }
  }

  /** `group(1).replace(',', '')`. */
  function RemoveCommas(g: string): (d: string)
    ensures ',' !in d
    ensures All(g, DigitsAndCommas) ==> AllDigits(d)
    ensures AllDigits(g) ==> d == g
  {
    if |g| == 0 then ""
    else (if g[0] == ',' then "" else [g[0]]) + RemoveCommas(g[1..])
  }

  /** The message `int('')` raises. */
  const EmptyIntLiteral := "invalid literal for int() with base 10: ''"

  /** The amount: the number in the leftmost `<digits and commas> RWF`, commas
      dropped; 0 when no such text occurs; `int('')` fails when the run is made
      of commas only. */
  function ExtractAmount(s: string): (r: Result<nat, string>)
  {
    match FirstWhere(s, AmountStart, 0, |s|)
    case None => Success(0)
    case Some(i) =>
      var digits := AmountDigits(s, i);
      if |digits| == 0 then Failure(EmptyIntLiteral) else Success(DigitsValue(digits, 10))
  }

  /** A text in which the pattern matches nowhere has amount 0. */
  lemma NoAmountIsZero(s: string)
    requires forall i, L, k :: !AmountMatch(s, i, L, k)
    ensures ExtractAmount(s) == Success(0)
  {
    if FirstWhere(s, AmountStart, 0, |s|).Some? {
      AmountAtMatches(s, FirstWhere(s, AmountStart, 0, |s|).value);
    }
  }

  /** The group a match at `i` captures, commas dropped. */
  function AmountDigits(s: string, i: nat): (d: string)
    requires i <= |s|
    ensures AllDigits(d)
  {
    RunChars(s, i, DigitsAndCommas);
    RemoveCommas(s[i..i + Run(s, i, DigitsAndCommas)])
  }

  /** A group that starts with a digit keeps that digit. */
  lemma AmountDigitsNonEmpty(s: string, i: nat)
    requires i < |s| && IsDigit(s[i])
    ensures |AmountDigits(s, i)| > 0
  {
    var g := s[i..i + Run(s, i, DigitsAndCommas)];
    assert g[0] == s[i];
    assert RemoveCommas(g)[0] == g[0];
  }

  /** A group made of digits only is read as it is. */
  lemma AmountDigitsExact(s: string, i: nat, ds: string)
    requires AllDigits(ds) && OccursAt(s, ds, i) && Run(s, i, DigitsAndCommas) == |ds|
    ensures AmountDigits(s, i) == ds
  {
  }

  /** An amount written in decimal before `RWF` is read back exactly, after any
      text in which the amount pattern matches nowhere and that does not end in
      a digit or a comma (which would run into the amount). */
  lemma AmountRoundTrip(pre: string, n: nat, sp: string, rest: string)
    requires forall i :: 0 <= i < |pre| ==> !AmountAt(pre, i)
    requires |pre| > 0 ==> !InClass(pre[|pre| - 1], DigitsAndCommas)
    requires All(sp, Spaces)
    ensures ExtractAmount(pre + (NatToString(n) + (sp + ("RWF" + rest)))) == Success(n)
  {
    var ds := NatToString(n);
    var t := ds + (sp + ("RWF" + rest));
    var s := pre + t;
    var p := |pre|;
    OccursAfter(pre, t);
    Join3(s, ds, sp, "RWF" + rest, p);
    OccursAtConcat(s, "RWF", rest, p + |ds| + |sp|);
    forall j | 0 <= j < p ensures !Holds(s, AmountStart, j) {
      if AmountAt(s, j) {
        AmountInPrefix(pre, t, j);
      }
    }
    AmountFoundAt(s, p, ds, sp);
    AmountValueAt(s, p, ds);
    DigitsValueOfNatToString(n);
  }

  /** An amount match that starts before a digit, in text that ends in neither
      a digit nor a comma, lies wholly in that text: its run stops inside it,
      and the digit is neither a space nor the `R` of `RWF`. */
  lemma AmountInPrefix(pre: string, t: string, i: nat)
    requires |t| > 0 && IsDigit(t[0]) && i < |pre| && !InClass(pre[|pre| - 1], DigitsAndCommas)
    requires AmountAt(pre + t, i)
    ensures AmountAt(pre, i)
  {
    var s := pre + t;
    var e := i + Run(s, i, DigitsAndCommas);
    var q := e + Run(s, e, Spaces);
    assert e > i && OccursAt(s, "RWF", q);
    RunChars(pre, i, DigitsAndCommas);
    assert i + Run(pre, i, DigitsAndCommas) < |pre|;
    RunInPrefix(pre, t, i, DigitsAndCommas);
    assert !InClass(t[0], Spaces);
    RunInPrefix(pre, t, e, Spaces);
    assert s[|pre|] == t[0];
    OccursAtChars(s, "RWF", q);
    assert q + 3 <= |pre|;
    OccursInPrefix(pre, t, "RWF", q);
    AmountAtIntro(pre, i, e);
  }

  /** Digits, spaces and `RWF` at `p`, with no amount match before, are where
      the amount scanner stops, and the digits are the run it reads. */
  lemma AmountFoundAt(s: string, p: nat, ds: string, sp: string)
    requires |ds| > 0 && AllDigits(ds) && All(sp, Spaces)
    requires OccursAt(s, ds, p) && OccursAt(s, sp, p + |ds|) && OccursAt(s, "RWF", p + |ds| + |sp|)
    requires forall j :: 0 <= j < p ==> !Holds(s, AmountStart, j)
    ensures FirstWhere(s, AmountStart, 0, |s|) == Some(p)
    ensures Run(s, p, DigitsAndCommas) == |ds|
  {
    assert All(ds, DigitsAndCommas);
    OccursAtAll(s, ds, p, DigitsAndCommas);
    OccursAtAll(s, sp, p + |ds|, Spaces);
    AmountMatchIsGreedy(s, p, |ds|, |sp|);
    FirstWhereAt(s, AmountStart, 0, |s|, p);
  }

  /** What the scanner reads once it stops at `p` with the digits `ds` there. */
  lemma AmountValueAt(s: string, p: nat, ds: string)
    requires FirstWhere(s, AmountStart, 0, |s|) == Some(p)
    requires |ds| > 0 && AllDigits(ds) && OccursAt(s, ds, p) && Run(s, p, DigitsAndCommas) == |ds|
    ensures ExtractAmount(s) == Success(DigitsValue(ds, 10))
  {
    AmountDigitsExact(s, p, ds);
  }

  /** A run of commas alone before `RWF` makes `int('')` fail. */
  lemma CommasOnlyAmount(s: string)
    requires s == "Paid , RWF"
    ensures ExtractAmount(s).Failure?
  {
    forall i | 0 <= i < 5 ensures !Holds(s, AmountStart, i) {
      assert !InClass(s[i], DigitsAndCommas);
    }
    assert AmountMatch(s, 5, 1, 1) by {
      assert s[7..10] == "RWF";
    }
    AmountMatchIsGreedy(s, 5, 1, 1);
    FirstWhereAt(s, AmountStart, 0, |s|, 5);
    assert s[5..6] == ",";
  }

  /** The same scanner with the group required to start with a digit, as
      `[0-9][0-9,]*` would: it never fails. */
  function ExtractAmountDigitFirst(s: string): (r: nat)
    ensures ExtractAmount(s).Success? ==> r == ExtractAmount(s).value
    ensures FirstWhere(s, DigitAmountStart, 0, |s|).None? ==> r == 0
  {
    DigitFirstOfSuccess(s);
    match FirstWhere(s, DigitAmountStart, 0, |s|)
    case None => 0
    case Some(i) => DigitsValue(AmountDigits(s, i), 10)
  }

  /** Wherever the source's scanner succeeds, the digit-first scanner reads
      the same number. */
  lemma DigitFirstOfSuccess(s: string)
    ensures ExtractAmount(s).Success? ==>
      match FirstWhere(s, DigitAmountStart, 0, |s|)
      case None => ExtractAmount(s).value == 0
      case Some(j) => DigitsValue(AmountDigits(s, j), 10) == ExtractAmount(s).value
  {
    if ExtractAmount(s).Success? {
      if FirstWhere(s, AmountStart, 0, |s|).Some? {
        CommaLedMatch(s);
      } else {
        DigitFirstNone(s);
      }
    }
  }

  /** A leftmost group that reads as a number, even one led by commas, has a
      first digit: the digit-first scanner stops there and reads the same
      digits, as the commas before it are dropped anyway. */
  lemma CommaLedMatch(s: string)
    requires ExtractAmount(s).Success? && FirstWhere(s, AmountStart, 0, |s|).Some?
    ensures FirstWhere(s, DigitAmountStart, 0, |s|).Some?
    ensures AmountDigits(s, FirstWhere(s, DigitAmountStart, 0, |s|).value) == AmountDigits(s, FirstWhere(s, AmountStart, 0, |s|).value)
  {
    var i := FirstWhere(s, AmountStart, 0, |s|).value;
    assert |AmountDigits(s, i)| > 0;
    var j := CommaLedStart(s, i);
    forall k | 0 <= k < j ensures !Holds(s, DigitAmountStart, k) {
      DigitFirstIsMatch(s, k);
      if k < i {
        FirstWhereBefore(s, AmountStart, 0, |s|, k);
      }
    }
    FirstWhereAt(s, DigitAmountStart, 0, |s|, j);
  }

  /** Past the commas that lead a group, the pattern matches again, now at a
      digit, and captures the same digits. */
  lemma CommaLedStart(s: string, i: nat) returns (j: nat)
    requires i <= |s| && AmountAt(s, i) && |AmountDigits(s, i)| > 0
    ensures i <= j <= |s| && Holds(s, DigitAmountStart, j)
    ensures forall k :: i <= k < j ==> !IsDigit(s[k])
    ensures AmountDigits(s, j) == AmountDigits(s, i)
  {
    var e := i + Run(s, i, DigitsAndCommas);
    assert OccursAt(s, "RWF", e + Run(s, e, Spaces));
    AmountDigitsTo(s, i, e);
    j := GroupFirstDigit(s, i, e);
    AmountAtIntro(s, j, e);
    AmountDigitsTo(s, j, e);
  }

  /** The first digit of the run of digits and commas from `i` to `e`: the run
      from there ends at `e` too, and drops the same commas. */
  lemma GroupFirstDigit(s: string, i: nat, e: nat) returns (j: nat)
    requires i <= |s| && e == i + Run(s, i, DigitsAndCommas) && RemoveCommas(s[i..e]) != []
    ensures i <= j < e && IsDigit(s[j]) && forall k :: i <= k < j ==> s[k] == ','
    ensures Run(s, j, DigitsAndCommas) == e - j && RemoveCommas(s[j..e]) == RemoveCommas(s[i..e])
  {
    var g := RunPiece(s, i, DigitsAndCommas);
    assert g == s[i..e];
    var c := FirstDigitOfGroup(g);
    j := i + c;
    OccursAtChars(s, g, i);
    RunStops(s, i, DigitsAndCommas);
    RunExact(s, j, DigitsAndCommas, e - j);
    assert s[j..e] == g[c..];
  }

  /** A run of digits and commas from `j` to `e`, then spaces and `RWF`: the pattern matches at `j`. */
  lemma AmountAtIntro(s: string, j: nat, e: nat)
    requires j < e <= |s| && Run(s, j, DigitsAndCommas) == e - j
    requires OccursAt(s, "RWF", e + Run(s, e, Spaces))
    ensures AmountAt(s, j)
  {
  }

  /** The group captured at `j` is the run up to `e`, commas dropped. */
  lemma AmountDigitsTo(s: string, j: nat, e: nat)
    requires j <= e <= |s| && Run(s, j, DigitsAndCommas) == e - j
    ensures AmountDigits(s, j) == RemoveCommas(s[j..e])
  {
  }

  /** The first digit of a group of digits and commas that is not all commas;
      the commas before it contribute nothing to the number. */
  lemma {:induction false} FirstDigitOfGroup(g: string) returns (c: nat)
    requires All(g, DigitsAndCommas) && RemoveCommas(g) != []
    ensures c < |g| && IsDigit(g[c])
    ensures forall k :: 0 <= k < c ==> g[k] == ','
    ensures RemoveCommas(g[c..]) == RemoveCommas(g)
  {
    if g[0] == ',' {
      assert RemoveCommas(g) == RemoveCommas(g[1..]);
      var c' := FirstDigitOfGroup(g[1..]);
      c := c' + 1;
      assert g[c..] == g[1..][c'..];
      forall k | 0 <= k < c ensures g[k] == ',' {
        if k > 0 {
          assert g[k] == g[1..][k - 1];
        }
      }
    } else {
      c := 0;
      assert g[0..] == g;
    }
  }

  /** There is no match, or the leftmost match starts with a digit. */
  predicate LeftmostStartsWithDigit(s: string) {
    match FirstWhere(s, AmountStart, 0, |s|)
    case None => true
    case Some(i) => i < |s| && IsDigit(s[i])
  }

  /** Where the leftmost match starts with a digit, both scanners read the same amount. */
  lemma DigitFirstAgrees(s: string)
    requires LeftmostStartsWithDigit(s)
    ensures ExtractAmount(s).Success?
    ensures ExtractAmountDigitFirst(s) == ExtractAmount(s).value
  {
    if FirstWhere(s, AmountStart, 0, |s|).Some? {
      DigitFirstSomeValue(s);
    } else {
      DigitFirstNoneValue(s);
    }
  }

  /** With a leftmost match that starts with a digit, both scanners read its number. */
  lemma DigitFirstSomeValue(s: string)
    requires var m := FirstWhere(s, AmountStart, 0, |s|); m.Some? && m.value < |s| && IsDigit(s[m.value])
    ensures ExtractAmount(s).Success? && ExtractAmountDigitFirst(s) == ExtractAmount(s).value
  {
    var i := FirstWhere(s, AmountStart, 0, |s|).value;
    DigitFirstSame(s, i);
    DigitFirstValue(s, i);
  }

  /** With no match at all, both scanners read 0. */
  lemma DigitFirstNoneValue(s: string)
    requires FirstWhere(s, AmountStart, 0, |s|) == None
    ensures ExtractAmount(s) == Success(0) && ExtractAmountDigitFirst(s) == 0
  {
    DigitFirstNone(s);
  }

  /** A leftmost match that starts with a digit is also the leftmost digit-first match. */
  lemma DigitFirstSame(s: string, i: nat)
    requires FirstWhere(s, AmountStart, 0, |s|) == Some(i) && i < |s| && IsDigit(s[i])
    ensures FirstWhere(s, DigitAmountStart, 0, |s|) == Some(i)
  {
    forall j | 0 <= j < i ensures !Holds(s, DigitAmountStart, j) {
      DigitFirstIsMatch(s, j);
      FirstWhereBefore(s, AmountStart, 0, |s|, j);
    }
    FirstWhereAt(s, DigitAmountStart, 0, |s|, i);
  }

  /** Both scanners stopped at `i`, where a digit starts the group: they read
      the same number, and the first one does not fail. */
  lemma DigitFirstValue(s: string, i: nat)
    requires FirstWhere(s, AmountStart, 0, |s|) == Some(i) && FirstWhere(s, DigitAmountStart, 0, |s|) == Some(i)
    requires i < |s| && IsDigit(s[i])
    ensures ExtractAmount(s).Success? && ExtractAmountDigitFirst(s) == ExtractAmount(s).value
  {
    AmountDigitsNonEmpty(s, i);
  }

  /** With no match at all there is no digit-first match either. */
  lemma DigitFirstNone(s: string)
    requires FirstWhere(s, AmountStart, 0, |s|) == None
    ensures FirstWhere(s, DigitAmountStart, 0, |s|) == None
  {
    forall j | 0 <= j <= |s| ensures !Holds(s, DigitAmountStart, j) {
      DigitFirstIsMatch(s, j);
      FirstWhereMisses(s, AmountStart, 0, |s|, j);
    }
    FirstWhereNone(s, DigitAmountStart, 0, |s|);
  }

  /** A digit-first match is a match. */
  lemma DigitFirstIsMatch(s: string, j: nat)
    ensures Holds(s, DigitAmountStart, j) ==> Holds(s, AmountStart, j)
  {
  }

  /** The comma-only input that makes `ExtractAmount` fail reads as 0 here. */
  lemma DigitFirstCommasOnly(s: string)
    requires s == "Paid , RWF"
    ensures ExtractAmountDigitFirst(s) == 0
  {
    forall i | 0 <= i <= |s| ensures !Holds(s, DigitAmountStart, i) {
      if i < |s| {
        assert !IsDigit(s[i]);
      }
    }
    FirstWhereNone(s, DigitAmountStart, 0, |s|);
  }

  // ---------------------------------------------------------------- fee

  /** Where group 2 of `Fee (was|:) (\d+)` would start, if the literal part matches at `i`. */
  function FeeDigitsAt(s: string, i: nat): (d: Option<nat>)
    ensures d.Some? ==> d.value <= |s|
  {
    if OccursAt(s, "Fee was ", i) then Some(i + 8)
    else if OccursAt(s, "Fee : ", i) then Some(i + 6)
    else None
  }

  predicate FeeAt(s: string, i: nat) {
    FeeDigitsAt(s, i).Some? && Run(s, FeeDigitsAt(s, i).value, Digits) >= 1
  }

  /** The fee: the digits after the leftmost `Fee was ` or `Fee : `, 0 when there are none. */
  function ExtractFee(s: string): (fee: nat)
  {
    match FirstWhere(s, FeeStart, 0, |s|)
    case None => 0
    case Some(i) => FeeFrom(s, i)
  }

  /** The digits after a fee tag at `i`, as a number. */
  function FeeFrom(s: string, i: nat): nat
    requires FeeAt(s, i)
  {
    var d := FeeDigitsAt(s, i).value;
    DigitsValue(s[d..d + Run(s, d, Digits)], 10)
  }

  /** A text in which the fee pattern matches nowhere has fee 0. */
  lemma NoFeeIsZero(s: string)
    requires forall i :: 0 <= i <= |s| ==> !FeeAt(s, i)
    ensures ExtractFee(s) == 0
  {
  }

  /** A fee written in decimal after `Fee was ` (or `Fee : `), after text in
      which the fee pattern matches nowhere, is read back exactly. */
  lemma FeeRoundTrip(pre: string, tag: string, n: nat, rest: string)
    requires forall i :: 0 <= i < |pre| ==> !FeeAt(pre, i)
    requires tag == "Fee was " || tag == "Fee : "
    requires |rest| > 0 ==> !IsDigit(rest[0])
    ensures ExtractFee(pre + (tag + (NatToString(n) + rest))) == n
  {
    var ds := NatToString(n);
    var t := tag + (ds + rest);
    var s := pre + t;
    var p, d := |pre|, |pre| + |tag|;
    OccursAfter(pre, t);
    Join3(s, tag, ds, rest, p);
    forall i | 0 <= i < p ensures !Holds(s, FeeStart, i) {
      if FeeAt(s, i) {
        FeeInPrefix(pre, t, i);
      }
    }
    if d + |ds| < |s| {
      assert s[d + |ds|] == rest[0];
    }
    FeeFoundAt(s, p, tag, ds);
    FeeValueAt(s, p, d, ds);
    DigitsValueOfNatToString(n);
  }

  /** A fee match that starts before a text beginning with `F` lies wholly in
      the text before: `F` opens both tags and is no digit. */
  lemma FeeInPrefix(pre: string, t: string, i: nat)
    requires |t| > 0 && t[0] == 'F' && i < |pre| && FeeAt(pre + t, i)
    ensures FeeAt(pre, i)
  {
    var s := pre + t;
    var tag := if OccursAt(s, "Fee was ", i) then "Fee was " else "Fee : ";
    var d := i + |tag|;
    assert OccursAt(s, tag, i) && FeeDigitsAt(s, i) == Some(d);
    assert d < |s| && IsDigit(s[d]);
    assert s[|pre|] == 'F';
    OccursAtChars(s, tag, i);
    assert d < |pre|;
    OccursInPrefix(pre, t, tag, i);
    if i + 8 <= |pre| {
      OccursInPrefix(pre, t, "Fee was ", i);
    }
    assert FeeDigitsAt(pre, i) == Some(d);
    assert pre[d] == s[d];
  }

  /** A tag at `p`, with no fee match before it and digits after it, is where
      the fee scanner stops, and those digits are the run it reads. */
  lemma FeeFoundAt(s: string, p: nat, tag: string, ds: string)
    requires tag == "Fee was " || tag == "Fee : "
    requires OccursAt(s, tag, p) && OccursAt(s, ds, p + |tag|)
    requires forall i :: 0 <= i < p ==> !Holds(s, FeeStart, i)
    requires |ds| > 0 && AllDigits(ds)
    requires p + |tag| + |ds| < |s| ==> !IsDigit(s[p + |tag| + |ds|])
    ensures FirstWhere(s, FeeStart, 0, |s|) == Some(p)
    ensures FeeDigitsAt(s, p) == Some(p + |tag|) && Run(s, p + |tag|, Digits) == |ds|
  {
    FeeTagAt(s, p, tag);
    assert All(ds, Digits);
    RunOfOccurrence(s, ds, p + |tag|, Digits);
    FirstWhereAt(s, FeeStart, 0, |s|, p);
  }

  /** What the scanner reads once it stops at `p` with the digits `ds` at `d`. */
  lemma FeeValueAt(s: string, p: nat, d: nat, ds: string)
    requires FirstWhere(s, FeeStart, 0, |s|) == Some(p) && FeeDigitsAt(s, p) == Some(d)
    requires OccursAt(s, ds, d) && Run(s, d, Digits) == |ds|
    ensures ExtractFee(s) == DigitsValue(ds, 10)
  {
    FeeFromValue(s, p, d, ds);
  }

  lemma FeeFromValue(s: string, p: nat, d: nat, ds: string)
    requires FeeAt(s, p) && FeeDigitsAt(s, p) == Some(d)
    requires OccursAt(s, ds, d) && Run(s, d, Digits) == |ds|
    ensures FeeFrom(s, p) == DigitsValue(ds, 10)
  {
  }

  /** Either tag puts the fee digits right after it. */
  lemma FeeTagAt(s: string, p: nat, tag: string)
    requires tag == "Fee was " || tag == "Fee : "
    requires OccursAt(s, tag, p)
    ensures FeeDigitsAt(s, p) == Some(p + |tag|)
  {
    assert !OccursAt(s, "Fee was ", p) || tag == "Fee was " by {
      if tag == "Fee : " && p + 8 <= |s| {
        assert s[p..p + 6][4] == s[p + 4];
      }
    }
  }

  // ---------------------------------------------------------------- details

  predicate NoNewline(x: string) { All(x, NotNewline) }

  /** Five pieces occur one after another exactly when their concatenation occurs. */
  lemma Join5(s: string, a: string, b: string, c: string, d: string, e: string, i: nat)
    ensures OccursAt(s, a + (b + (c + (d + e))), i) <==>
      && OccursAt(s, a, i) && OccursAt(s, b, i + |a|) && OccursAt(s, c, i + |a| + |b|)
      && OccursAt(s, d, i + |a| + |b| + |c|) && OccursAt(s, e, i + |a| + |b| + |c| + |d|)
  {
    Join3(s, c, d, e, i + |a| + |b|);
    Join3(s, a, b, c + (d + e), i);
  }

  /** Three pieces occur one after another exactly when their concatenation occurs. */
  lemma Join3(s: string, a: string, b: string, c: string, i: nat)
    ensures OccursAt(s, a + (b + c), i) <==>
      OccursAt(s, a, i) && OccursAt(s, b, i + |a|) && OccursAt(s, c, i + |a| + |b|)
  {
    OccursAtConcat(s, b, c, i + |a|);
    OccursAtConcat(s, a, b + c, i);
  }

  /** `transferred to (.+?) \((\d+)\)` after the group: ` (`, digits, `)`. */
  predicate TransferTail(s: string, e: nat) {
    && OccursAt(s, " (", e)
    && var d := Run(s, e + 2, Digits);
       d >= 1 && OccursAt(s, ")", e + 2 + d)
  }

  /** The transfer pattern matches from `k` on: the literal, then a lazy group
      with a tail after it. */
  predicate TransferStartAt(s: string, k: nat) {
    OccursAt(s, TransferredTo, k) && LazyGroup(s, k + 15, TransferEnd).Some?
  }

  /** The recipient and the account of a bank transfer, if the pattern matches. */
  function Transfer(s: string): (r: Option<(string, string)>)
  {
    match FirstStart(s, TransferStart, 0, |s|)
    case None => None
    case Some(i) => Some(TransferFrom(s, i))
  }

  /** The groups of a match starting at `i`: the shortest recipient followed
      by ` (<digits>)`, and all of those digits. */
  function TransferFrom(s: string, i: nat): (string, string)
    requires StartHolds(s, TransferStart, i)
  {
    var e := LazyGroup(s, i + 15, TransferEnd).value;
    (s[i + 15..e], s[e + 2..e + 2 + Run(s, e + 2, Digits)])
  }

  /** `transferred to <recipient> (<account>)` occurs in `s`. */
  predicate TransferShape(s: string, recipient: string, account: string) {
    && |recipient| > 0 && NoNewline(recipient)
    && |account| > 0 && AllDigits(account)
    && Contains(s, TransferredTo + (recipient + (" (" + (account + ")"))))
  }

  /** The pattern matches exactly when the text has that shape, and what it
      extracts has it. */
  lemma TransferFound(s: string)
    ensures Transfer(s).Some? <==> exists x, a :: TransferShape(s, x, a)
    ensures Transfer(s).Some? ==> TransferShape(s, Transfer(s).value.0, Transfer(s).value.1)
  {
    if Transfer(s).Some? {
      TransferSound(s);
    }
    if exists x, a :: TransferShape(s, x, a) {
      var x, a :| TransferShape(s, x, a);
      TransferComplete(s, x, a);
    }
  }

  /** The pieces of an occurrence of the transfer text. */
  lemma TransferPieces(s: string, x: string, a: string, i: nat)
    ensures OccursAt(s, TransferredTo + (x + (" (" + (a + ")"))), i) <==>
      && OccursAt(s, TransferredTo, i) && OccursAt(s, x, i + 15)
      && OccursAt(s, " (", i + 15 + |x|) && OccursAt(s, a, i + 17 + |x|) && OccursAt(s, ")", i + 17 + |x| + |a|)
  {
    Join3(s, " (", a, ")", i + 15 + |x|);
    Join3(s, TransferredTo, x, " (" + (a + ")"), i);
  }

  /** The group and the account the pattern found form a transfer text. */
  lemma TransferSound(s: string)
    requires Transfer(s).Some?
    ensures TransferShape(s, Transfer(s).value.0, Transfer(s).value.1)
  {
    TransferFromShape(s, FirstStart(s, TransferStart, 0, |s|).value);
  }

  /** A match starting at `i` has the transfer shape. */
  lemma TransferFromShape(s: string, i: nat)
    requires StartHolds(s, TransferStart, i)
    ensures TransferShape(s, TransferFrom(s, i).0, TransferFrom(s, i).1)
  {
    TransferShapeAt(s, i, LazyGroup(s, i + 15, TransferEnd).value);
  }

  /** The text between the positions the transfer pattern stops at has the transfer shape. */
  lemma TransferShapeAt(s: string, i: nat, e: nat)
    requires OccursAt(s, TransferredTo, i) && i + 15 < e <= i + 15 + Run(s, i + 15, NotNewline)
    requires TransferTail(s, e)
    ensures TransferShape(s, s[i + 15..e], s[e + 2..e + 2 + Run(s, e + 2, Digits)])
  {
    var x, a := s[i + 15..e], s[e + 2..e + 2 + Run(s, e + 2, Digits)];
    TransferParts(s, i, e);
    TransferShapeIntro(s, x, a, i);
  }

  /** The pieces of a transfer text, each where the previous one ends, form one. */
  lemma TransferShapeIntro(s: string, x: string, a: string, i: nat)
    requires |x| > 0 && NoNewline(x) && |a| > 0 && AllDigits(a)
    requires OccursAt(s, TransferredTo, i) && OccursAt(s, x, i + 15) && OccursAt(s, " (", i + 15 + |x|)
    requires OccursAt(s, a, i + 17 + |x|) && OccursAt(s, ")", i + 17 + |x| + |a|)
    ensures TransferShape(s, x, a)
  {
    TransferPieces(s, x, a, i);
    assert OccursAt(s, TransferredTo + (x + (" (" + (a + ")"))), i);
  }

  /** What the transfer pattern's positions say about the text between them. */
  lemma TransferParts(s: string, i: nat, e: nat)
    requires OccursAt(s, TransferredTo, i) && i + 15 < e <= i + 15 + Run(s, i + 15, NotNewline)
    requires TransferTail(s, e)
    ensures var x, a := s[i + 15..e], s[e + 2..e + 2 + Run(s, e + 2, Digits)];
      && |x| > 0 && NoNewline(x) && |a| > 0 && AllDigits(a)
      && OccursAt(s, x, i + 15) && OccursAt(s, " (", i + 15 + |x|)
      && OccursAt(s, a, i + 17 + |x|) && OccursAt(s, ")", i + 17 + |x| + |a|)
  {
    RunSlice(s, i + 15, e, NotNewline);
    RunSlice(s, e + 2, e + 2 + Run(s, e + 2, Digits), Digits);
  }

  /** Any transfer text in `s` makes the pattern match. */
  lemma TransferComplete(s: string, x: string, a: string)
    requires TransferShape(s, x, a)
    ensures Transfer(s).Some?
  {
    var i: nat :| OccursAt(s, TransferredTo + (x + (" (" + (a + ")"))), i);
    TransferStartsAt(s, x, a, i);
    FirstStartFinds(s, TransferStart, 0, |s|, i);
  }

  /** The pattern matches wherever a transfer text occurs. */
  lemma TransferStartsAt(s: string, x: string, a: string, i: nat)
    requires |x| > 0 && NoNewline(x) && |a| > 0 && AllDigits(a)
    requires OccursAt(s, TransferredTo + (x + (" (" + (a + ")"))), i)
    ensures StartHolds(s, TransferStart, i)
  {
    TransferPieces(s, x, a, i);
    TransferEndsAt(s, a, i + 15 + |x|);
    LazyGroupFinds(s, i + 15, x, TransferEnd);
  }

  /** ` (<digits>)` at `e` is the tail of the transfer pattern. */
  lemma TransferEndsAt(s: string, a: string, e: nat)
    requires |a| > 0 && AllDigits(a)
    requires OccursAt(s, " (", e) && OccursAt(s, a, e + 2) && OccursAt(s, ")", e + 2 + |a|)
    ensures Holds(s, TransferEnd, e)
  {
    OccursAtAll(s, a, e + 2, Digits);
    OccursAtChars(s, ")", e + 2 + |a|);
    RunExact(s, e + 2, Digits, |a|);
  }

  /** `payment of .*? RWF to (.+?) (\d+)` after the recipient: a space and digits. */
  predicate CodeTail(s: string, e: nat) {
    OccursAt(s, " ", e) && e + 1 <= |s| && Run(s, e + 1, Digits) >= 1
  }

  /** The code holder pattern matches from `j` on, `j` being where ` RWF to ` starts. */
  predicate CodeMiddleAt(s: string, j: nat) {
    OccursAt(s, RwfTo, j) && LazyGroup(s, j + 8, CodeEnd).Some?
  }

  /** A lazy `.*?` starting at `q`: the shortest newline-free stretch, possibly
      empty, after which ` RWF to ` and the rest match. */
  function LazyMiddle(s: string, q: nat): (j: Option<nat>)
    requires q <= |s|
    ensures j.Some? ==> q <= j.value <= q + Run(s, q, NotNewline) && CodeMiddleAt(s, j.value)
  {
    FirstGroup(s, CodeMiddle, q)
  }

  /** The code holder pattern matches from `k` on. */
  predicate CodeStartAt(s: string, k: nat) {
    OccursAt(s, PaymentOf, k) && LazyMiddle(s, k + 11).Some?
  }

  /** The recipient and the merchant code of a code holder payment, if the pattern matches. */
  function CodePayment(s: string): (r: Option<(string, string)>)
  {
    match FirstStart(s, CodeStart, 0, |s|)
    case None => None
    case Some(i) => Some(CodeFrom(s, i))
  }

  /** The groups of a match starting at `i`: the lazy `.*?` stops at the first
      ` RWF to ` after which the rest matches. */
  function CodeFrom(s: string, i: nat): (string, string)
    requires StartHolds(s, CodeStart, i)
  {
    CodeRest(s, LazyMiddle(s, i + 11).value)
  }

  /** The groups after ` RWF to ` at `j`: the shortest recipient followed by
      a space and digits, and all of those digits. */
  function CodeRest(s: string, j: nat): (string, string)
    requires GroupHolds(s, CodeMiddle, j)
  {
    var e := LazyGroup(s, j + 8, CodeEnd).value;
    (s[j + 8..e], s[e + 1..e + 1 + Run(s, e + 1, Digits)])
  }

  /** `payment of <mid> RWF to <recipient> <code>` occurs in `s`. */
  predicate CodeShape(s: string, mid: string, recipient: string, code: string) {
    && NoNewline(mid)
    && |recipient| > 0 && NoNewline(recipient)
    && |code| > 0 && AllDigits(code)
    && Contains(s, PaymentOf + (mid + (RwfTo + (recipient + (" " + code)))))
  }

  /** The pattern matches exactly when the text has that shape, and what it
      extracts has it. */
  lemma CodePaymentFound(s: string)
    ensures CodePayment(s).Some? <==> exists mid, x, c :: CodeShape(s, mid, x, c)
    ensures CodePayment(s).Some? ==> exists mid :: CodeShape(s, mid, CodePayment(s).value.0, CodePayment(s).value.1)
  {
    if CodePayment(s).Some? {
      var mid := CodeSound(s);
    }
    if exists mid, x, c :: CodeShape(s, mid, x, c) {
      var mid, x, c :| CodeShape(s, mid, x, c);
      CodeComplete(s, mid, x, c);
    }
  }

  /** The pieces of an occurrence of the code holder text. */
  lemma CodePieces(s: string, mid: string, x: string, c: string, i: nat)
    ensures OccursAt(s, PaymentOf + (mid + (RwfTo + (x + (" " + c)))), i) <==>
      && OccursAt(s, PaymentOf, i) && OccursAt(s, mid, i + 11)
      && OccursAt(s, RwfTo, i + 11 + |mid|) && OccursAt(s, x, i + 19 + |mid|)
      && OccursAt(s, " ", i + 19 + |mid| + |x|) && OccursAt(s, c, i + 20 + |mid| + |x|)
  {
    OccursAtConcat(s, " ", c, i + 19 + |mid| + |x|);
    Join5(s, PaymentOf, mid, RwfTo, x, " " + c, i);
  }

  /** The recipient and code the pattern found form a code holder text. */
  lemma CodeSound(s: string) returns (mid: string)
    requires CodePayment(s).Some?
    ensures CodeShape(s, mid, CodePayment(s).value.0, CodePayment(s).value.1)
  {
    var i := FirstStart(s, CodeStart, 0, |s|).value;
    mid := CodeFromShape(s, i);
  }

  /** A match starting at `i` has the code holder shape. */
  lemma CodeFromShape(s: string, i: nat) returns (mid: string)
    requires StartHolds(s, CodeStart, i)
    ensures CodeShape(s, mid, CodeFrom(s, i).0, CodeFrom(s, i).1)
  {
    var j := LazyMiddle(s, i + 11).value;
    mid := s[i + 11..j];
    CodeRestShape(s, i, j);
  }

  /** The rest of a match, after ` RWF to ` at `j`, completes the code holder shape. */
  lemma CodeRestShape(s: string, i: nat, j: nat)
    requires OccursAt(s, PaymentOf, i) && i + 11 <= j <= i + 11 + Run(s, i + 11, NotNewline)
    requires GroupHolds(s, CodeMiddle, j)
    ensures CodeShape(s, s[i + 11..j], CodeRest(s, j).0, CodeRest(s, j).1)
  {
    var e := CodeMiddleEnd(s, j);
    var x, c := CodeRest(s, j).0, CodeRest(s, j).1;
    assert x == s[j + 8..e] && c == s[e + 1..e + 1 + Run(s, e + 1, Digits)];
    CodeShapeAt(s, i, j, e);
  }

  /** Where the recipient ends once ` RWF to ` at `j` starts the rest of a match. */
  lemma CodeMiddleEnd(s: string, j: nat) returns (e: nat)
    requires GroupHolds(s, CodeMiddle, j)
    ensures OccursAt(s, RwfTo, j) && j + 8 < e <= j + 8 + Run(s, j + 8, NotNewline) && CodeTail(s, e)
    ensures CodeRest(s, j) == (s[j + 8..e], s[e + 1..e + 1 + Run(s, e + 1, Digits)])
  {
    e := LazyGroup(s, j + 8, CodeEnd).value;
  }

  /** The text between the positions the code holder pattern stops at has the
      code holder shape. */
  lemma CodeShapeAt(s: string, i: nat, j: nat, e: nat)
    requires OccursAt(s, PaymentOf, i) && i + 11 <= j <= i + 11 + Run(s, i + 11, NotNewline)
    requires OccursAt(s, RwfTo, j) && j + 8 < e <= j + 8 + Run(s, j + 8, NotNewline)
    requires CodeTail(s, e)
    ensures CodeShape(s, s[i + 11..j], s[j + 8..e], s[e + 1..e + 1 + Run(s, e + 1, Digits)])
  {
    var mid, x, c := s[i + 11..j], s[j + 8..e], s[e + 1..e + 1 + Run(s, e + 1, Digits)];
    CodeParts(s, i, j, e);
    assert j == i + 11 + |mid| && e == j + 8 + |x|;
    CodeShapeIntro(s, mid, x, c, i, j, e);
  }

  /** The pieces of a code holder text, each where the previous one ends, form one. */
  lemma CodeShapeIntro(s: string, mid: string, x: string, c: string, i: nat, j: nat, e: nat)
    requires NoNewline(mid) && |x| > 0 && NoNewline(x) && |c| > 0 && AllDigits(c)
    requires OccursAt(s, PaymentOf, i) && OccursAt(s, mid, i + 11)
    requires j == i + 11 + |mid| && OccursAt(s, RwfTo, j) && OccursAt(s, x, j + 8)
    requires e == j + 8 + |x| && OccursAt(s, " ", e) && OccursAt(s, c, e + 1)
    ensures CodeShape(s, mid, x, c)
  {
    CodePieces(s, mid, x, c, i);
    assert OccursAt(s, PaymentOf + (mid + (RwfTo + (x + (" " + c)))), i);
  }

  /** What the code holder pattern's positions say about the text between them. */
  lemma CodeParts(s: string, i: nat, j: nat, e: nat)
    requires OccursAt(s, PaymentOf, i) && i + 11 <= j <= i + 11 + Run(s, i + 11, NotNewline)
    requires OccursAt(s, RwfTo, j) && j + 8 < e <= j + 8 + Run(s, j + 8, NotNewline)
    requires CodeTail(s, e)
    ensures var mid, x, c := s[i + 11..j], s[j + 8..e], s[e + 1..e + 1 + Run(s, e + 1, Digits)];
      && NoNewline(mid) && |x| > 0 && NoNewline(x) && |c| > 0 && AllDigits(c)
      && OccursAt(s, mid, i + 11) && OccursAt(s, x, j + 8) && OccursAt(s, c, e + 1)
  {
    RunSlice(s, i + 11, j, NotNewline);
    RunSlice(s, j + 8, e, NotNewline);
    RunSlice(s, e + 1, e + 1 + Run(s, e + 1, Digits), Digits);
  }

  /** Any code holder text in `s` makes the pattern match. */
  lemma CodeComplete(s: string, mid: string, x: string, c: string)
    requires CodeShape(s, mid, x, c)
    ensures CodePayment(s).Some?
  {
    var i: nat :| i <= |s| && OccursAt(s, PaymentOf + (mid + (RwfTo + (x + (" " + c)))), i);
    CodeStartsAt(s, mid, x, c, i);
    FirstStartFinds(s, CodeStart, 0, |s|, i);
  }

  /** The pattern matches wherever a code holder text occurs. */
  lemma CodeStartsAt(s: string, mid: string, x: string, c: string, i: nat)
    requires NoNewline(mid) && |x| > 0 && NoNewline(x) && |c| > 0 && AllDigits(c)
    requires OccursAt(s, PaymentOf + (mid + (RwfTo + (x + (" " + c)))), i)
    ensures StartHolds(s, CodeStart, i)
  {
    CodePieces(s, mid, x, c, i);
    var j := i + 11 + |mid|;
    assert OccursAt(s, PaymentOf, i) && OccursAt(s, mid, i + 11) && OccursAt(s, RwfTo, j);
    assert OccursAt(s, x, j + 8) && OccursAt(s, " ", j + 8 + |x|) && OccursAt(s, c, j + 9 + |x|);
    CodeStartIntro(s, mid, x, c, i, j);
  }

  /** The pieces of a code holder text, each where the previous one ends, start a match. */
  lemma CodeStartIntro(s: string, mid: string, x: string, c: string, i: nat, j: nat)
    requires NoNewline(mid) && |x| > 0 && NoNewline(x) && |c| > 0 && AllDigits(c)
    requires OccursAt(s, PaymentOf, i) && OccursAt(s, mid, i + 11) && j == i + 11 + |mid|
    requires OccursAt(s, RwfTo, j) && OccursAt(s, x, j + 8)
    requires OccursAt(s, " ", j + 8 + |x|) && OccursAt(s, c, j + 9 + |x|)
    ensures StartHolds(s, CodeStart, i)
  {
    CodeMiddleFrom(s, x, c, j);
    LazyMiddleFinds(s, i + 11, mid);
  }

  /** ` RWF to <recipient> <code>` at `j` is the rest of the code holder pattern. */
  lemma CodeMiddleFrom(s: string, x: string, c: string, j: nat)
    requires |x| > 0 && NoNewline(x) && |c| > 0 && AllDigits(c)
    requires OccursAt(s, RwfTo, j) && OccursAt(s, x, j + 8)
    requires OccursAt(s, " ", j + 8 + |x|) && OccursAt(s, c, j + 9 + |x|)
    ensures GroupHolds(s, CodeMiddle, j)
  {
    CodeEndsAt(s, c, j + 8 + |x|);
    LazyGroupFinds(s, j + 8, x, CodeEnd);
  }

  /** ` <digits>` at `e` is the tail of the code holder pattern. */
  lemma CodeEndsAt(s: string, c: string, e: nat)
    requires |c| > 0 && AllDigits(c) && OccursAt(s, " ", e) && OccursAt(s, c, e + 1)
    ensures Holds(s, CodeEnd, e)
  {
    OccursAtAll(s, c, e + 1, Digits);
    RunAtLeast(s, e + 1, Digits, |c|);
  }

  /** A newline-free stretch followed by the rest of the pattern makes the lazy
      `.*?` succeed. */
  lemma LazyMiddleFinds(s: string, q: nat, mid: string)
    requires NoNewline(mid) && OccursAt(s, mid, q) && GroupHolds(s, CodeMiddle, q + |mid|)
    ensures LazyMiddle(s, q).Some?
  {
    FirstGroupFinds(s, CodeMiddle, q, mid);
  }

  /** `from\s+(.+?)\s+\(\*+\d+\)` after the sender: spaces, `(`, stars, digits, `)`. */
  predicate SenderTail(s: string, e: nat) {
    && e <= |s|
    && var w := Run(s, e, Spaces);
       && w >= 1 && OccursAt(s, "(", e + w)
       && var st := Run(s, e + w + 1, Stars);
          && st >= 1
          && var d := Run(s, e + w + 1 + st, Digits);
             d >= 1 && OccursAt(s, ")", e + w + 1 + st + d)
  }

  /** The sender group may start at `q`: a lazy group with a tail after it. */
  predicate SenderGroupAt(s: string, q: nat) {
    q <= |s| && LazyGroup(s, q, SenderEnd).Some?
  }

  /** Where the sender group starts after `from` at `k`: the greedy `\s+` takes
      every space and gives them back one by one until a sender group fits. */
  function SenderGroupStart(s: string, k: nat): (q: Option<nat>)
    requires k + 4 <= |s|
    ensures q.Some? ==> k + 4 < q.value <= k + 4 + Run(s, k + 4, Spaces) && SenderGroupAt(s, q.value)
  {
    LastGroup(s, SenderGroup, k + 5, k + 4 + Run(s, k + 4, Spaces))
  }

  /** The sender pattern matches from `k` on: `from`, then some of the spaces
      after it, then a sender group. */
  predicate SenderStartAt(s: string, k: nat) {
    OccursAt(s, From, k) && SenderGroupStart(s, k).Some?
  }

  /** The sender of incoming money, if the pattern matches. */
  function Sender(s: string): (r: Option<string>)
  {
    match FirstStart(s, SenderStart, 0, |s|)
    case None => None
    case Some(i) => Some(SenderFrom(s, i))
  }

  /** The group of a match starting at `i`. */
  function SenderFrom(s: string, i: nat): string
    requires StartHolds(s, SenderStart, i)
  {
    SenderRest(s, SenderGroupStart(s, i).value)
  }

  /** The sender group starting at `q`: the shortest one followed by a tail. */
  function SenderRest(s: string, q: nat): string
    requires GroupHolds(s, SenderGroup, q)
  {
    s[q..LazyGroup(s, q, SenderEnd).value]
  }

  /** `from<spaces><sender><spaces>(<stars><digits>)` occurs in `s`. */
  predicate SenderShape(s: string, sp1: string, sender: string, sp2: string, stars: string, ds: string) {
    && |sp1| > 0 && All(sp1, Spaces)
    && |sender| > 0 && NoNewline(sender)
    && |sp2| > 0 && All(sp2, Spaces)
    && |stars| > 0 && All(stars, Stars)
    && |ds| > 0 && AllDigits(ds)
    && Contains(s, From + (sp1 + (sender + (sp2 + ("(" + (stars + (ds + ")")))))))
  }

  /** The pattern matches exactly when the text has that shape, and the sender
      it extracts has it. */
  lemma SenderFound(s: string)
    ensures Sender(s).Some? <==> exists sp1, x, sp2, st, ds :: SenderShape(s, sp1, x, sp2, st, ds)
    ensures Sender(s).Some? ==> exists sp1, sp2, st, ds :: SenderShape(s, sp1, Sender(s).value, sp2, st, ds)
  {
    if Sender(s).Some? {
      var sp1, sp2, st, ds := SenderSound(s);
    }
    if exists sp1, x, sp2, st, ds :: SenderShape(s, sp1, x, sp2, st, ds) {
      var sp1, x, sp2, st, ds :| SenderShape(s, sp1, x, sp2, st, ds);
      SenderComplete(s, sp1, x, sp2, st, ds);
    }
  }

  /** The text after `from` splits into the spaces, the sender and the tail. */
  lemma SenderPieces(s: string, sp1: string, x: string, t: string, i: nat)
    ensures OccursAt(s, From + (sp1 + (x + t)), i) <==>
      OccursAt(s, From, i) && OccursAt(s, sp1, i + 4) && OccursAt(s, x, i + 4 + |sp1|) && OccursAt(s, t, i + 4 + |sp1| + |x|)
  {
    OccursAtConcat(s, x, t, i + 4 + |sp1|);
    Join3(s, From, sp1, x + t, i);
  }

  /** The spaces, the sender and the tail the pattern found form a sender text. */
  lemma SenderSound(s: string) returns (sp1: string, sp2: string, st: string, ds: string)
    requires Sender(s).Some?
    ensures SenderShape(s, sp1, Sender(s).value, sp2, st, ds)
  {
    sp1, sp2, st, ds := SenderFromShape(s, FirstStart(s, SenderStart, 0, |s|).value);
  }

  /** A match starting at `i` has the sender shape. */
  lemma SenderFromShape(s: string, i: nat) returns (sp1: string, sp2: string, st: string, ds: string)
    requires StartHolds(s, SenderStart, i)
    ensures SenderShape(s, sp1, SenderFrom(s, i), sp2, st, ds)
  {
    var q := SenderGroupStart(s, i).value;
    sp1 := s[i + 4..q];
    sp2, st, ds := SenderRestShape(s, i, q);
  }

  /** The sender group at `q`, after `from` at `i`, completes the sender shape. */
  lemma SenderRestShape(s: string, i: nat, q: nat) returns (sp2: string, st: string, ds: string)
    requires OccursAt(s, From, i) && i + 4 < q <= i + 4 + Run(s, i + 4, Spaces)
    requires GroupHolds(s, SenderGroup, q)
    ensures SenderShape(s, s[i + 4..q], SenderRest(s, q), sp2, st, ds)
  {
    sp2, st, ds := SenderShapeAt(s, i, q, LazyGroup(s, q, SenderEnd).value);
  }

  /** The text between the positions the sender pattern stops at has the sender shape. */
  lemma SenderShapeAt(s: string, i: nat, q: nat, e: nat) returns (sp2: string, st: string, ds: string)
    requires OccursAt(s, From, i) && i + 4 < q <= i + 4 + Run(s, i + 4, Spaces)
    requires q < e <= q + Run(s, q, NotNewline) && SenderTail(s, e)
    ensures SenderShape(s, s[i + 4..q], s[q..e], sp2, st, ds)
  {
    var sp1, x := s[i + 4..q], s[q..e];
    SenderParts(s, i, q, e);
    sp2, st, ds := SenderTailParts(s, e);
    assert q == i + 4 + |sp1| && e == q + |x|;
    SenderShapeIntro(s, sp1, x, sp2, st, ds, i, q, e);
  }

  /** The pieces of a sender text, each where the previous one ends, form one. */
  lemma SenderShapeIntro(s: string, sp1: string, x: string, sp2: string, st: string, ds: string, i: nat, q: nat, e: nat)
    requires |sp1| > 0 && All(sp1, Spaces) && |x| > 0 && NoNewline(x)
    requires |sp2| > 0 && All(sp2, Spaces) && |st| > 0 && All(st, Stars) && |ds| > 0 && AllDigits(ds)
    requires OccursAt(s, From, i) && OccursAt(s, sp1, i + 4) && q == i + 4 + |sp1| && OccursAt(s, x, q)
    requires e == q + |x| && OccursAt(s, sp2 + ("(" + (st + (ds + ")"))), e)
    ensures SenderShape(s, sp1, x, sp2, st, ds)
  {
    SenderPieces(s, sp1, x, sp2 + ("(" + (st + (ds + ")"))), i);
    assert OccursAt(s, From + (sp1 + (x + (sp2 + ("(" + (st + (ds + ")")))))), i);
  }

  /** What the sender pattern's positions say about the text between them. */
  lemma SenderParts(s: string, i: nat, q: nat, e: nat)
    requires OccursAt(s, From, i) && i + 4 < q <= i + 4 + Run(s, i + 4, Spaces)
    requires q < e <= q + Run(s, q, NotNewline)
    ensures var sp1, x := s[i + 4..q], s[q..e];
      && |sp1| > 0 && All(sp1, Spaces) && |x| > 0 && NoNewline(x)
      && OccursAt(s, sp1, i + 4) && OccursAt(s, x, q)
  {
    RunSlice(s, i + 4, q, Spaces);
    RunSlice(s, q, e, NotNewline);
  }

  /** The pieces the tail matched after a sender ending at `e`. */
  lemma SenderTailParts(s: string, e: nat) returns (sp2: string, st: string, ds: string)
    requires SenderTail(s, e)
    ensures |sp2| > 0 && All(sp2, Spaces) && |st| > 0 && All(st, Stars) && |ds| > 0 && AllDigits(ds)
    ensures OccursAt(s, sp2 + ("(" + (st + (ds + ")"))), e)
  {
    sp2, st, ds := SenderTailRuns(s, e);
    TailPieces(s, sp2, st, ds, e);
  }

  /** The three runs of a sender tail, one after the other around `(` and `)`. */
  lemma SenderTailRuns(s: string, e: nat) returns (sp2: string, st: string, ds: string)
    requires SenderTail(s, e)
    ensures |sp2| > 0 && All(sp2, Spaces) && |st| > 0 && All(st, Stars) && |ds| > 0 && AllDigits(ds)
    ensures OccursAt(s, sp2, e) && OccursAt(s, "(", e + |sp2|) && OccursAt(s, st, e + |sp2| + 1)
    ensures OccursAt(s, ds, e + |sp2| + 1 + |st|) && OccursAt(s, ")", e + |sp2| + 1 + |st| + |ds|)
  {
    var w := Run(s, e, Spaces);
    var n := Run(s, e + w + 1, Stars);
    var d := Run(s, e + w + 1 + n, Digits);
    sp2, st, ds := TailRunsFrom(s, e, w, n, d);
  }

  /** The three runs of a tail, from their lengths. */
  lemma TailRunsFrom(s: string, e: nat, w: nat, n: nat, d: nat) returns (sp2: string, st: string, ds: string)
    requires e + w + 1 + n <= |s|
    requires w == Run(s, e, Spaces) >= 1 && OccursAt(s, "(", e + w) && n == Run(s, e + w + 1, Stars) >= 1
    requires d == Run(s, e + w + 1 + n, Digits) >= 1 && OccursAt(s, ")", e + w + 1 + n + d)
    ensures |sp2| == w && All(sp2, Spaces) && |st| == n && All(st, Stars) && |ds| == d && AllDigits(ds)
    ensures OccursAt(s, sp2, e) && OccursAt(s, st, e + w + 1) && OccursAt(s, ds, e + w + 1 + n)
  {
    sp2 := RunPiece(s, e, Spaces);
    st := RunPiece(s, e + w + 1, Stars);
    ds := RunPiece(s, e + w + 1 + n, Digits);
  }

  /** The pieces of an occurrence of the tail `<spaces>(<stars><digits>)`. */
  lemma TailPieces(s: string, sp2: string, st: string, ds: string, e: nat)
    ensures OccursAt(s, sp2 + ("(" + (st + (ds + ")"))), e) <==>
      && OccursAt(s, sp2, e) && OccursAt(s, "(", e + |sp2|) && OccursAt(s, st, e + |sp2| + 1)
      && OccursAt(s, ds, e + |sp2| + 1 + |st|) && OccursAt(s, ")", e + |sp2| + 1 + |st| + |ds|)
  {
    Join5(s, sp2, "(", st, ds, ")", e);
  }

  /** Any sender text in `s` makes the pattern match. */
  lemma SenderComplete(s: string, sp1: string, x: string, sp2: string, st: string, ds: string)
    requires SenderShape(s, sp1, x, sp2, st, ds)
    ensures Sender(s).Some?
  {
    var t := sp2 + ("(" + (st + (ds + ")")));
    var i: nat :| i <= |s| && OccursAt(s, From + (sp1 + (x + t)), i);
    SenderStartsAt(s, sp1, x, sp2, st, ds, i);
    FirstStartFinds(s, SenderStart, 0, |s|, i);
  }

  /** The pattern matches wherever a sender text occurs. */
  lemma SenderStartsAt(s: string, sp1: string, x: string, sp2: string, st: string, ds: string, i: nat)
    requires SenderShape(s, sp1, x, sp2, st, ds)
    requires OccursAt(s, From + (sp1 + (x + (sp2 + ("(" + (st + (ds + ")")))))), i)
    ensures StartHolds(s, SenderStart, i)
  {
    var t := sp2 + ("(" + (st + (ds + ")")));
    SenderPieces(s, sp1, x, t, i);
    var q := i + 4 + |sp1|;
    SenderGroupFrom(s, x, sp2, st, ds, q);
    SenderGroupFinds(s, i, sp1);
  }

  /** `<sender><spaces>(<stars><digits>)` at `q` is a sender group. */
  lemma SenderGroupFrom(s: string, x: string, sp2: string, st: string, ds: string, q: nat)
    requires |x| > 0 && NoNewline(x) && OccursAt(s, x, q)
    requires |sp2| > 0 && All(sp2, Spaces) && |st| > 0 && All(st, Stars) && |ds| > 0 && AllDigits(ds)
    requires OccursAt(s, sp2 + ("(" + (st + (ds + ")"))), q + |x|)
    ensures GroupHolds(s, SenderGroup, q)
  {
    var e := q + |x|;
    TailPieces(s, sp2, st, ds, e);
    SenderTailFrom(s, sp2, st, ds, e);
    LazyGroupFinds(s, q, x, SenderEnd);
  }

  /** Spaces after `from` at `i` followed by a sender group make the greedy
      `\s+` find where the group starts. */
  lemma SenderGroupFinds(s: string, i: nat, sp1: string)
    requires |sp1| > 0 && All(sp1, Spaces) && OccursAt(s, From, i) && OccursAt(s, sp1, i + 4)
    requires GroupHolds(s, SenderGroup, i + 4 + |sp1|)
    ensures SenderGroupStart(s, i).Some?
  {
    OccursAtAll(s, sp1, i + 4, Spaces);
    RunAtLeast(s, i + 4, Spaces, |sp1|);
    LastGroupFinds(s, SenderGroup, i + 5, i + 4 + Run(s, i + 4, Spaces), i + 4 + |sp1|);
  }

  /** An occurrence of a well-formed tail is matched by the tail's greedy runs. */
  lemma SenderTailFrom(s: string, sp2: string, st: string, ds: string, e: nat)
    requires |sp2| > 0 && All(sp2, Spaces) && |st| > 0 && All(st, Stars) && |ds| > 0 && AllDigits(ds)
    requires OccursAt(s, sp2, e) && OccursAt(s, "(", e + |sp2|) && OccursAt(s, st, e + |sp2| + 1)
    requires OccursAt(s, ds, e + |sp2| + 1 + |st|) && OccursAt(s, ")", e + |sp2| + 1 + |st| + |ds|)
    ensures SenderTail(s, e)
  {
    var p := e + |sp2| + 1;
    SpacesBeforeParen(s, sp2, e);
    StarsBeforeDigits(s, st, ds, p);
    DigitsBeforeParen(s, ds, p + |st|);
    SenderTailIntro(s, e, |sp2|, |st|, |ds|);
  }

  /** The spaces of a sender tail are the whole run before its `(`. */
  lemma SpacesBeforeParen(s: string, sp2: string, e: nat)
    requires All(sp2, Spaces) && OccursAt(s, sp2, e) && OccursAt(s, "(", e + |sp2|)
    ensures Run(s, e, Spaces) == |sp2|
  {
    assert s[e + |sp2|] == '(' by { OccursAtChars(s, "(", e + |sp2|); }
    RunOfOccurrence(s, sp2, e, Spaces);
  }

  /** The stars of a sender tail are the whole run before its digits. */
  lemma StarsBeforeDigits(s: string, st: string, ds: string, p: nat)
    requires All(st, Stars) && OccursAt(s, st, p)
    requires |ds| > 0 && AllDigits(ds) && OccursAt(s, ds, p + |st|)
    ensures Run(s, p, Stars) == |st|
  {
    assert s[p + |st|] == ds[0] by { OccursAtChars(s, ds, p + |st|); }
    RunOfOccurrence(s, st, p, Stars);
  }

  /** The digits of a sender tail are the whole run before its `)`. */
  lemma DigitsBeforeParen(s: string, ds: string, p: nat)
    requires AllDigits(ds) && OccursAt(s, ds, p) && OccursAt(s, ")", p + |ds|)
    ensures Run(s, p, Digits) == |ds| && p + |ds| < |s|
  {
    assert s[p + |ds|] == ')' by { OccursAtChars(s, ")", p + |ds|); }
    RunOfOccurrence(s, ds, p, Digits);
  }

  /** An occurrence of a string of one class, followed by the end of the text
      or a character outside the class, is exactly the run at its start. */
  lemma RunOfOccurrence(s: string, x: string, i: nat, cls: CharClass)
    requires OccursAt(s, x, i) && All(x, cls)
    requires i + |x| < |s| ==> !InClass(s[i + |x|], cls)
    ensures Run(s, i, cls) == |x|
  {
    OccursAtAll(s, x, i, cls);
    RunExact(s, i, cls, |x|);
  }

  /** The tail after a sender, from the lengths of its three runs. */
  lemma SenderTailIntro(s: string, e: nat, w: nat, n: nat, d: nat)
    requires e + w + 1 + n + d < |s|
    requires Run(s, e, Spaces) == w >= 1 && OccursAt(s, "(", e + w)
    requires Run(s, e + w + 1, Stars) == n >= 1
    requires Run(s, e + w + 1 + n, Digits) == d >= 1 && OccursAt(s, ")", e + w + 1 + n + d)
    ensures SenderTail(s, e)
  {
  }
}
