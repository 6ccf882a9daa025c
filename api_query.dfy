/** The transactions API: the SQL text and parameter list `get_transactions`
    builds from the optional filters of a request, what that query selects,
    and the single-record lookup of `get_transaction`. */
module ApiQuery {
  import opened Wrappers
  import opened Text
  import opened PyValues

  // ------------------------------------------------------------ the filters

  /** A parameter bound to one `?` placeholder. */
  datatype Param = Text(s: string) | Amount(n: int)

  /** The four filters after reading the request: `type` and `date` as given,
      the amount bounds after `type=int`. */
  datatype Filters = Filters(
    txType: Option<string>, minAmount: Option<int>, maxAmount: Option<int>, date: Option<string>)

  /** `request.args.get(key)`. */
  function Arg(args: map<string, string>, key: string): Option<string>
  {
    if key in args then Some(args[key]) else None
  }

  /** `request.args.get(key, type=int)`: a value `int()` rejects reads as
      absent. */
  function Bound(args: map<string, string>, key: string): Option<int>
  {
    if key in args then PyInt(args[key]) else None
  }

  /** The filters of a request with query arguments `args`. */
  function FiltersOf(args: map<string, string>): Filters
  {
    Filters(Arg(args, "type"), Bound(args, "min_amount"), Bound(args, "max_amount"), Arg(args, "date"))
  }

  /** Python truthiness of an optional string: present and not empty. */
  predicate Truthy(s: Option<string>) { s.Some? && s.value != "" }

  // ------------------------------------------------------------ the query

  const BaseQuery := "SELECT * FROM transactions WHERE 1=1"
  const CategoryClause := " AND category = ?"
  const MinClause := " AND amount >= ?"
  const MaxClause := " AND amount <= ?"
  const DateClause := " AND date(datetime) = ?"

  /** The conditions the filters add, each with its parameter, in the order
      type, minimum, maximum, date. */
  function Clauses(f: Filters): seq<(string, Param)>
  {
    TypePart(f) + MinPart(f) + MaxPart(f) + DatePart(f)
  }

  /** The category condition, when `type` is not empty. */
  function TypePart(f: Filters): seq<(string, Param)>
  {
    if Truthy(f.txType) then [(CategoryClause, Text(f.txType.value))] else []
  }

  /** The lower bound, whenever one was read, `0` included. */
  function MinPart(f: Filters): seq<(string, Param)>
  {
    if f.minAmount.Some? then [(MinClause, Amount(f.minAmount.value))] else []
  }

  /** The upper bound, whenever one was read. */
  function MaxPart(f: Filters): seq<(string, Param)>
  {
    if f.maxAmount.Some? then [(MaxClause, Amount(f.maxAmount.value))] else []
  }

  /** The date condition, when `date` is not empty. */
  function DatePart(f: Filters): seq<(string, Param)>
  {
    if Truthy(f.date) then [(DateClause, Text(f.date.value))] else []
  }

  /** The text of a list of conditions, one after another. */
  function Join(cs: seq<(string, Param)>): string
  {
    if cs == [] then "" else Join(cs[..|cs| - 1]) + cs[|cs| - 1].0
  }

  /** The parameters of a list of conditions, in order. */
  function ParamsOf(cs: seq<(string, Param)>): (ps: seq<Param>)
    ensures |ps| == |cs|
    ensures forall k :: 0 <= k < |cs| ==> ps[k] == cs[k].1
  {
    if cs == [] then [] else ParamsOf(cs[..|cs| - 1]) + [cs[|cs| - 1].1]
  }

  /** The SQL text `get_transactions` executes. */
  function Query(f: Filters): string { BaseQuery + Join(Clauses(f)) }

  /** The parameters it binds. */
  function Params(f: Filters): seq<Param> { ParamsOf(Clauses(f)) }

  /** `get_transactions` up to the execution: the base query, then one
      condition and one parameter per filter that applies. */
  method BuildQuery(f: Filters) returns (query: string, params: seq<Param>)
    ensures query == Query(f) && params == Params(f)
  {
    query := BaseQuery;
    params := [];
    ghost var cs: seq<(string, Param)> := [];
    assert Built(query, params, cs) by {
      assert BaseQuery + "" == BaseQuery;
    }
    if Truthy(f.txType) {
      Extend(query, params, cs, (CategoryClause, Text(f.txType.value)));
      query := query + CategoryClause;
      params := params + [Text(f.txType.value)];
    } else {
      Keep(query, params, cs);
    }
    cs := cs + TypePart(f);
    if f.minAmount.Some? {
      Extend(query, params, cs, (MinClause, Amount(f.minAmount.value)));
      query := query + MinClause;
      params := params + [Amount(f.minAmount.value)];
    } else {
      Keep(query, params, cs);
    }
    cs := cs + MinPart(f);
    if f.maxAmount.Some? {
      Extend(query, params, cs, (MaxClause, Amount(f.maxAmount.value)));
      query := query + MaxClause;
      params := params + [Amount(f.maxAmount.value)];
    } else {
      Keep(query, params, cs);
    }
    cs := cs + MaxPart(f);
    if Truthy(f.date) {
      Extend(query, params, cs, (DateClause, Text(f.date.value)));
      query := query + DateClause;
      params := params + [Text(f.date.value)];
    } else {
      Keep(query, params, cs);
    }
    cs := cs + DatePart(f);
    assert [] + TypePart(f) == TypePart(f);
  }

  /** `query` and `params` are the text and parameters of the conditions
      `cs` after the base query. */
  predicate Built(query: string, params: seq<Param>, cs: seq<(string, Param)>)
  {
    query == BaseQuery + Join(cs) && params == ParamsOf(cs)
  }

  /** Appending a condition's text and parameter appends the condition. */
  lemma Extend(query: string, params: seq<Param>, cs: seq<(string, Param)>, c: (string, Param))
    requires Built(query, params, cs)
    ensures Built(query + c.0, params + [c.1], cs + [c])
  {
    assert (cs + [c])[..|cs|] == cs;
  }

  /** Appending nothing appends no condition. */
  lemma Keep(query: string, params: seq<Param>, cs: seq<(string, Param)>)
    requires Built(query, params, cs)
    ensures Built(query, params, cs + [])
  {
    assert cs + [] == cs;
  }

  // ------------------------------------------------------------ placeholders

  /** The number of `?` placeholders in a text. */
  function Placeholders(q: string): nat
  {
    if q == [] then 0 else Placeholders(q[..|q| - 1]) + (if q[|q| - 1] == '?' then 1 else 0)
  }

  lemma {:induction false} PlaceholdersAppend(a: string, b: string)
    ensures Placeholders(a + b) == Placeholders(a) + Placeholders(b)
    decreases |b|
  {
    if b == [] {
      assert a + b == a;
    } else {
      assert (a + b)[..|a + b| - 1] == a + b[..|b| - 1];
      PlaceholdersAppend(a, b[..|b| - 1]);
    }
  }

  lemma {:induction false} NoPlaceholders(a: string)
    requires forall k :: 0 <= k < |a| ==> a[k] != '?'
    ensures Placeholders(a) == 0
    decreases |a|
  {
    if a != [] {
      NoPlaceholders(a[..|a| - 1]);
    }
  }

  /** A condition ending in its one placeholder. */
  lemma OnePlaceholder(head: string)
    requires forall k :: 0 <= k < |head| ==> head[k] != '?'
    ensures Placeholders(head + "?") == 1
  {
    NoPlaceholders(head);
    PlaceholdersAppend(head, "?");
    assert "?"[..0] == "";
  }

  /** Each condition the endpoint writes holds exactly one placeholder, and
      the base query none. */
  lemma ClausePlaceholders()
    ensures Placeholders(BaseQuery) == 0
    ensures Placeholders(CategoryClause) == 1 && Placeholders(MinClause) == 1
    ensures Placeholders(MaxClause) == 1 && Placeholders(DateClause) == 1
  {
    NoPlaceholders(BaseQuery);
    OnePlaceholder(" AND category = ");
    assert CategoryClause == " AND category = " + "?";
    OnePlaceholder(" AND amount >= ");
    assert MinClause == " AND amount >= " + "?";
    OnePlaceholder(" AND amount <= ");
    assert MaxClause == " AND amount <= " + "?";
    OnePlaceholder(" AND date(datetime) = ");
    assert DateClause == " AND date(datetime) = " + "?";
  }

  /** The query always has as many placeholders as parameters. */
  lemma PlaceholdersMatchParams(f: Filters)
    ensures Placeholders(Query(f)) == |Params(f)|
  {
    ClausePlaceholders();
    assert Placeholders(BaseQuery + Join([])) == 0 by {
      assert BaseQuery + "" == BaseQuery;
    }
    CountStep([], TypePart(f));
    assert [] + TypePart(f) == TypePart(f);
    CountStep(TypePart(f), MinPart(f));
    CountStep(TypePart(f) + MinPart(f), MaxPart(f));
    CountStep(TypePart(f) + MinPart(f) + MaxPart(f), DatePart(f));
  }

  /** One more part of at most one condition, with one placeholder, keeps
      the count of placeholders equal to the count of conditions. */
  lemma CountStep(cs: seq<(string, Param)>, part: seq<(string, Param)>)
    requires Placeholders(BaseQuery + Join(cs)) == |cs|
    requires part == [] || (|part| == 1 && Placeholders(part[0].0) == 1)
    ensures Placeholders(BaseQuery + Join(cs + part)) == |cs + part|
  {
    if part == [] {
      assert cs + part == cs;
    } else {
      assert (cs + part)[..|cs|] == cs;
      assert BaseQuery + Join(cs + part) == (BaseQuery + Join(cs)) + part[0].0;
      PlaceholdersAppend(BaseQuery + Join(cs), part[0].0);
    }
  }

  // ------------------------------------------------------------ the filters' effect

  /** No filter that applies: the base query and no parameters. */
  lemma NoFilters(f: Filters)
    requires !Truthy(f.txType) && f.minAmount.None? && f.maxAmount.None? && !Truthy(f.date)
    ensures Query(f) == BaseQuery && Params(f) == []
  {
    assert Clauses(f) == [];
    assert BaseQuery + "" == BaseQuery;
  }

  /** An empty `type` or `date` is ignored, as if it were absent. */
  lemma EmptyTextIgnored(f: Filters)
    requires f.txType == Some("") || f.date == Some("")
    ensures f.txType == Some("") ==> Clauses(f) == Clauses(f.(txType := None))
    ensures f.date == Some("") ==> Clauses(f) == Clauses(f.(date := None))
  {
  }

  /** A bound that applies always adds its condition. */
  lemma BoundsKept(f: Filters)
    ensures f.minAmount.Some? ==> (MinClause, Amount(f.minAmount.value)) in Clauses(f)
    ensures f.maxAmount.Some? ==> (MaxClause, Amount(f.maxAmount.value)) in Clauses(f)
  {
    var a, b, c, d := TypePart(f), MinPart(f), MaxPart(f), DatePart(f);
    assert Clauses(f) == a + b + c + d;
    if f.minAmount.Some? {
      assert Clauses(f)[|a|] == b[0];
    }
    if f.maxAmount.Some? {
      assert Clauses(f)[|a| + |b|] == c[0];
    }
  }

  /** A bound written as a number is read as that number, even `0`, so its
      condition is kept. */
  lemma WrittenBoundKept(args: map<string, string>, key: string, n: int)
    requires key in args && args[key] == IntToString(n)
    ensures Bound(args, key) == Some(n)
  {
    PyIntOfIntToString("", n, "");
    assert "" + (IntToString(n) + "") == IntToString(n);
  }

  /** A blank bound is dropped: `int()` rejects it and `type=int` reads it
      as absent. */
  lemma BlankBoundIgnored(args: map<string, string>, key: string)
    requires key == "min_amount" || key == "max_amount"
    requires key in args && forall j :: 0 <= j < |args[key]| ==> IsSpace(args[key][j])
    ensures key == "min_amount" ==> FiltersOf(args).minAmount.None?
    ensures key == "max_amount" ==> FiltersOf(args).maxAmount.None?
  {
    PyIntOfBlank(args[key]);
  }

  // ------------------------------------------------------------ what it selects

  /** The columns of a `transactions` row that the endpoints look at. */
  datatype Row = Row(id: int, category: string, amount: int, datetime: string)

  /** What the filters ask of a row. `sqlDate` is SQLite's `date()` on the
      stored datetime text (`None` where it yields NULL). */
  predicate Wanted(f: Filters, row: Row, sqlDate: string -> Option<string>)
  {
    && (Truthy(f.txType) ==> row.category == f.txType.value)
    && (f.minAmount.Some? ==> row.amount >= f.minAmount.value)
    && (f.maxAmount.Some? ==> row.amount <= f.maxAmount.value)
    && (Truthy(f.date) ==> sqlDate(row.datetime) == Some(f.date.value))
  }

  /** The meaning of one condition the endpoint writes, with its parameter. */
  predicate ConditionHolds(c: string, p: Param, row: Row, sqlDate: string -> Option<string>)
  {
    if c == CategoryClause then p.Text? && row.category == p.s
    else if c == MinClause then p.Amount? && row.amount >= p.n
    else if c == MaxClause then p.Amount? && row.amount <= p.n
    else if c == DateClause then p.Text? && sqlDate(row.datetime) == Some(p.s)
    else false
  }

  /** The `WHERE 1=1 AND …` of a list of conditions holds for a row. */
  predicate WhereHolds(cs: seq<(string, Param)>, row: Row, sqlDate: string -> Option<string>)
  {
    forall k :: 0 <= k < |cs| ==> ConditionHolds(cs[k].0, cs[k].1, row, sqlDate)
  }

  /** The four conditions are different texts. */
  lemma ClausesDistinct()
    ensures CategoryClause != MinClause && CategoryClause != MaxClause && CategoryClause != DateClause
    ensures MinClause != MaxClause && MinClause != DateClause && MaxClause != DateClause
  {
    assert |CategoryClause| == 17 && |MinClause| == 16 && |MaxClause| == 16 && |DateClause| == 23;
    assert MinClause[12] == '>' && MaxClause[12] == '<';
  }

  /** The query selects exactly the rows the filters describe. */
  lemma SelectsWanted(f: Filters, row: Row, sqlDate: string -> Option<string>)
    ensures WhereHolds(Clauses(f), row, sqlDate) <==> Wanted(f, row, sqlDate)
  {
    ClausesDistinct();
    var cs := Clauses(f);
    var a, b, c, d := TypePart(f), MinPart(f), MaxPart(f), DatePart(f);
    assert cs == a + b + c + d;
    if WhereHolds(cs, row, sqlDate) {
      if Truthy(f.txType) { assert cs[0] == a[0]; }
      if f.minAmount.Some? { assert cs[|a|] == b[0]; }
      if f.maxAmount.Some? { assert cs[|a| + |b|] == c[0]; }
      if Truthy(f.date) { assert cs[|a| + |b| + |c|] == d[0]; }
    }
  }

  /** The rows of `rows` the query selects, in table order. */
  function Select(rows: seq<Row>, f: Filters, sqlDate: string -> Option<string>): (r: seq<Row>)
    ensures forall x :: x in r <==> x in rows && Wanted(f, x, sqlDate)
    ensures forall x :: multiset(r)[x] == if Wanted(f, x, sqlDate) then multiset(rows)[x] else 0
  {
    if rows == [] then []
    else
      SelectsWanted(f, rows[0], sqlDate);
      assert rows == [rows[0]] + rows[1..];
      (if WhereHolds(Clauses(f), rows[0], sqlDate) then [rows[0]] else []) + Select(rows[1..], f, sqlDate)
  }

  // ------------------------------------------------------------ one record

  /** The first row with id `id`, as `fetchone` returns it. */
  function FirstWithId(rows: seq<Row>, id: int): (r: Option<Row>)
    ensures r.Some? ==> r.value in rows && r.value.id == id
    ensures r.None? <==> forall k :: 0 <= k < |rows| ==> rows[k].id != id
  {
    if rows == [] then None
    else if rows[0].id == id then Some(rows[0])
    else FirstWithId(rows[1..], id)
  }

  /** A response of the API: a row as JSON, or an error object with its
      HTTP status. */
  datatype Response = Found(row: Row) | Error(status: int, message: string)

  /** `get_transaction(tx_id)`: the row with that id, or 404. */
  function GetTransaction(rows: seq<Row>, id: int): (r: Response)
    ensures r.Found? <==> exists k :: 0 <= k < |rows| && rows[k].id == id
    ensures r.Found? ==> r.row in rows && r.row.id == id
    ensures r.Error? ==> r.status == 404 && r.message == "Transaction not found"
  {
    match FirstWithId(rows, id)
    case None => Error(404, "Transaction not found")
    case Some(row) => Found(row)
  }
}
