/** Income and expense transactions: the summary fold, the listing filter, the
    creation of a row with its derived month and year, and the allow-listed
    partial update. Dates are parsed by an oracle standing for `new Date(v)`. */
module Transactions {
  import opened Js
  import opened Strings
  import opened Ordering

  /** The `type` column. The column is an enum of the first two; a row of any
      other type never reaches the table, but the summary fold accepts one. */
  datatype TxnKind = Income | Expense | Unlisted(name: string)

  /** What `parseFloat` makes of a stored amount: a finite number, or NaN or an infinity. */
  datatype ParsedFloat = Finite(x: real) | NotFinite

  /** A calendar date in UTC; `monthIndex` counts from 0 as `getUTCMonth` does. */
  datatype Instant = Instant(year: int, monthIndex: int, day: int)

  predicate ValidInstant(d: Instant) {
    0 <= d.monthIndex < 12 && 1 <= d.day <= 31
  }

  /** A row of the transaction table. */
  datatype Txn = Txn(
    id: nat,
    userId: nat,
    kind: TxnKind,
    amount: ParsedFloat,
    category: JsValue,
    description: JsValue,
    transactionDate: Instant,
    month: int,
    year: int,
    loanReference: JsValue,
    paidEmi: bool,
    createdAt: int)

  /** What the column declarations guarantee of a stored row: a listed type, a
      finite amount of at least 0, and a month of 1..12 that, like the year, is
      the one of the transaction date. */
  predicate ValidTxn(t: Txn) {
    && !t.kind.Unlisted?
    && t.amount.Finite? && t.amount.x >= 0.0
    && ValidInstant(t.transactionDate)
    && t.month == t.transactionDate.monthIndex + 1
    && t.year == t.transactionDate.year
  }

  /** `parseFloatSafe`: the number when it is finite, otherwise 0. */
  function ParseFloatSafe(p: ParsedFloat): (x: real)
    ensures p.Finite? ==> x == p.x
    ensures p.NotFinite? ==> x == 0.0
  {
    match p
    case Finite(x) => x
    case NotFinite => 0.0
  }

  // ---------------------------------------------------------------- summary

  datatype Summary = Summary(incomeTotal: real, expenseTotal: real, emiPaid: bool, paidEmiTransactionId: Option<nat>)

  /** The sum of the safely parsed amounts of the rows of one type. */
  function TotalOf(txns: seq<Txn>, kind: TxnKind): real {
    if txns == [] then 0.0
    else (if txns[0].kind == kind then ParseFloatSafe(txns[0].amount) else 0.0) + TotalOf(txns[1..], kind)
  }

  lemma {:induction false} TotalOfSnoc(txns: seq<Txn>, t: Txn, kind: TxnKind)
    ensures TotalOf(txns + [t], kind) == TotalOf(txns, kind) + (if t.kind == kind then ParseFloatSafe(t.amount) else 0.0)
  {
    if txns == [] {
      assert txns + [t] == [t];
    } else {
      assert (txns + [t])[1..] == txns[1..] + [t];
      TotalOfSnoc(txns[1..], t, kind);
    }
  }

  /** Over stored rows, whose amounts are finite and at least 0, every total is at least 0. */
  lemma {:induction false} TotalOfStoredNonNegative(txns: seq<Txn>, kind: TxnKind)
    requires forall i :: 0 <= i < |txns| ==> ValidTxn(txns[i])
    ensures TotalOf(txns, kind) >= 0.0
  {
    if txns != [] {
      TotalOfStoredNonNegative(txns[1..], kind);
    }
  }

  /** The index of the first row with `paidEmi` set. */
  function FirstPaid(txns: seq<Txn>): (r: Option<nat>)
    ensures r.Some? ==> r.value < |txns| && txns[r.value].paidEmi
    ensures r.Some? ==> forall j :: 0 <= j < r.value ==> !txns[j].paidEmi
    ensures r.None? ==> forall j :: 0 <= j < |txns| ==> !txns[j].paidEmi
  {
    if txns == [] then None
    else if txns[0].paidEmi then Some(0)
    else match FirstPaid(txns[1..])
      case Some(k) => Some(k + 1)
      case None => None
  }

  function FirstPaidId(txns: seq<Txn>): Option<nat> {
    match FirstPaid(txns)
    case Some(i) => Some(txns[i].id)
    case None => None
  }

  lemma {:induction false} FirstPaidSnoc(txns: seq<Txn>, t: Txn)
    ensures FirstPaid(txns + [t]) ==
      if FirstPaid(txns).Some? then FirstPaid(txns) else if t.paidEmi then Some(|txns|) else None
  {
    if txns == [] {
      assert txns + [t] == [t];
    } else {
      assert (txns + [t])[0] == txns[0];
      assert (txns + [t])[1..] == txns[1..] + [t];
      FirstPaidSnoc(txns[1..], t);
    }
  }

  predicate AllIdsPositive(txns: seq<Txn>) {
    forall i :: 0 <= i < |txns| ==> txns[i].id > 0
  }

  /** `!acc.paidEmiTransactionId`: null and the id 0 are both falsy. */
  predicate IdUnset(id: Option<nat>) {
    id.None? || id.value == 0
  }

  /** `buildSummary`: one pass over the rows in list order. The totals are the
      per-type sums; `emiPaid` says some row has `paidEmi`; the id is the first
      such row's, since ids are positive. */
  method BuildSummary(txns: seq<Txn>) returns (summary: Summary)
    ensures summary.incomeTotal == TotalOf(txns, Income)
    ensures summary.expenseTotal == TotalOf(txns, Expense)
    ensures summary.emiPaid <==> exists i :: 0 <= i < |txns| && txns[i].paidEmi
    ensures summary.paidEmiTransactionId.None? <==> !summary.emiPaid
    ensures AllIdsPositive(txns) ==> summary.paidEmiTransactionId == FirstPaidId(txns)
    ensures txns == [] ==> summary == Summary(0.0, 0.0, false, None)
  {
    summary := Summary(0.0, 0.0, false, None);
    for i := 0 to |txns|
      invariant summary.incomeTotal == TotalOf(txns[..i], Income)
      invariant summary.expenseTotal == TotalOf(txns[..i], Expense)
      invariant summary.emiPaid <==> FirstPaid(txns[..i]).Some?
      invariant summary.paidEmiTransactionId.None? <==> !summary.emiPaid
      invariant AllIdsPositive(txns) ==> summary.paidEmiTransactionId == FirstPaidId(txns[..i])
    {
      var t := txns[i];
      assert txns[..i + 1] == txns[..i] + [t];
      TotalOfSnoc(txns[..i], t, Income);
      TotalOfSnoc(txns[..i], t, Expense);
      FirstPaidSnoc(txns[..i], t);
      var amount := ParseFloatSafe(t.amount);
      if t.kind == Income {
        summary := summary.(incomeTotal := summary.incomeTotal + amount);
      } else if t.kind == Expense {
        summary := summary.(expenseTotal := summary.expenseTotal + amount);
      }
      if t.paidEmi && IdUnset(summary.paidEmiTransactionId) {
        summary := summary.(emiPaid := true, paidEmiTransactionId := Some(t.id));
      }
    }
    assert txns[..|txns|] == txns;
    if summary.emiPaid {
      var k := FirstPaid(txns).value;
      assert txns[k].paidEmi;
    }
  }

  /** The listing order: `transactionDate` descending, then `createdAt` descending. */
  function DateKey(d: Instant): int {
    d.year * 512 + d.monthIndex * 32 + d.day
  }

  function TxnRank(t: Txn): Rank {
    (DateKey(t.transactionDate), t.createdAt)
  }

  /** Calendar order: year, then month, then day. */
  predicate Earlier(a: Instant, b: Instant) {
    || a.year < b.year
    || (a.year == b.year && a.monthIndex < b.monthIndex)
    || (a.year == b.year && a.monthIndex == b.monthIndex && a.day < b.day)
  }

  /** On valid dates the key orders exactly as the calendar does, so sorting by
      the key is sorting by `transactionDate`. */
  lemma DateKeyOrdersDates(a: Instant, b: Instant)
    requires ValidInstant(a) && ValidInstant(b)
    ensures DateKey(a) < DateKey(b) <==> Earlier(a, b)
    ensures DateKey(a) == DateKey(b) <==> a == b
  {
  }

  /** In a listing in the query's order, the first row with `paidEmi` is the most
      recent of them: it ranks at least as high as every other, and no other paid
      row with a valid date is later in the calendar. */
  lemma FirstPaidIsLatest(txns: seq<Txn>)
    requires SortedDesc(txns, TxnRank)
    requires FirstPaid(txns).Some?
    ensures forall j :: 0 <= j < |txns| && txns[j].paidEmi ==>
      Outranks(TxnRank(txns[FirstPaid(txns).value]), TxnRank(txns[j]))
    ensures forall j :: 0 <= j < |txns| && txns[j].paidEmi
                        && ValidInstant(txns[j].transactionDate)
                        && ValidInstant(txns[FirstPaid(txns).value].transactionDate) ==>
      !Earlier(txns[FirstPaid(txns).value].transactionDate, txns[j].transactionDate)
  {
    var k := FirstPaid(txns).value;
    forall j | 0 <= j < |txns| && txns[j].paidEmi
      ensures Outranks(TxnRank(txns[k]), TxnRank(txns[j]))
      ensures ValidInstant(txns[j].transactionDate) && ValidInstant(txns[k].transactionDate) ==>
        !Earlier(txns[k].transactionDate, txns[j].transactionDate)
    {
      if j != k {
        assert k < j;
      }
      if ValidInstant(txns[j].transactionDate) && ValidInstant(txns[k].transactionDate) {
        DateKeyOrdersDates(txns[k].transactionDate, txns[j].transactionDate);
      }
    }
  }

  // ---------------------------------------------------------------- listing

  /** The `where` of `getTransactions`: the user, and a month and a year when asked for. */
  datatype TxnFilter = TxnFilter(userId: nat, month: Option<int>, year: Option<int>)

  predicate Matches(f: TxnFilter, t: Txn) {
    && t.userId == f.userId
    && (f.month.Some? ==> t.month == f.month.value)
    && (f.year.Some? ==> t.year == f.year.value)
  }

  /** The filter for the query parameters, or `None` when a parameter that is
      present does not parse: the store refuses to compare a column with NaN. */
  function BuildWhere(userId: nat, monthQuery: Option<string>, yearQuery: Option<string>): (r: Option<TxnFilter>)
    ensures r.None? <==>
      (Present(monthQuery) && ParseInt(monthQuery.value).None?)
      || (Present(yearQuery) && ParseInt(yearQuery.value).None?)
    ensures r.Some? ==> r.value.userId == userId
    ensures r.Some? ==> (r.value.month.Some? <==> Present(monthQuery))
    ensures r.Some? ==> (r.value.year.Some? <==> Present(yearQuery))
    ensures r.Some? && Present(monthQuery) ==> r.value.month == ParseInt(monthQuery.value)
    ensures r.Some? && Present(yearQuery) ==> r.value.year == ParseInt(yearQuery.value)
  {
    var month := if Present(monthQuery) then ParseInt(monthQuery.value) else None;
    var year := if Present(yearQuery) then ParseInt(yearQuery.value) else None;
    if (Present(monthQuery) && month.None?) || (Present(yearQuery) && year.None?) then None
    else Some(TxnFilter(userId, month, year))
  }

  /** A query asking for a month and a year by their decimal numerals filters by exactly those. */
  lemma FilterByNumerals(userId: nat, month: nat, year: nat)
    ensures BuildWhere(userId, Some(Decimal(month)), Some(Decimal(year)))
            == Some(TxnFilter(userId, Some(month), Some(year)))
  {
    assert Decimal(month) + [] == Decimal(month);
    assert Decimal(year) + [] == Decimal(year);
    ParseIntDecimal(month, []);
    ParseIntDecimal(year, []);
  }

  /** The `period` of the response: `where.month || null`, so a month or year of 0 reads as null. */
  datatype Period = Period(month: Option<int>, year: Option<int>)

  function PeriodOf(f: TxnFilter): (p: Period)
    ensures p.month.Some? <==> f.month.Some? && f.month.value != 0
    ensures p.month.Some? ==> p.month == f.month
    ensures p.year.Some? <==> f.year.Some? && f.year.value != 0
    ensures p.year.Some? ==> p.year == f.year
  {
    Period(if f.month.Some? && f.month.value != 0 then f.month else None,
           if f.year.Some? && f.year.value != 0 then f.year else None)
  }

  /** The matching rows, in table order. */
  function MatchingRows(rows: seq<Txn>, f: TxnFilter): (r: seq<Txn>)
    ensures forall t :: t in r <==> t in rows && Matches(f, t)
    ensures forall t :: multiset(r)[t] == if Matches(f, t) then multiset(rows)[t] else 0
  {
    if rows == [] then []
    else
      var init := rows[..|rows| - 1];
      var last := rows[|rows| - 1];
      assert rows == init + [last];
      MatchingRows(init, f) + (if Matches(f, last) then [last] else [])
  }

  /** A permutation of the matching rows holds exactly the matching rows, and,
      over a table whose ids are positive and whose rows are valid, only such rows. */
  lemma ListedAreStored(rows: seq<Txn>, f: TxnFilter, listed: seq<Txn>)
    requires forall i :: 0 <= i < |rows| ==> rows[i].id > 0 && ValidTxn(rows[i])
    requires multiset(listed) == multiset(MatchingRows(rows, f))
    ensures forall t :: t in listed <==> t in rows && Matches(f, t)
    ensures forall k :: 0 <= k < |listed| ==> listed[k].id > 0 && ValidTxn(listed[k])
  {
    forall t ensures t in listed <==> t in MatchingRows(rows, f) {
      assert t in listed <==> t in multiset(listed);
    }
    forall k | 0 <= k < |listed|
      ensures listed[k].id > 0 && ValidTxn(listed[k])
    {
      assert listed[k] in rows;
    }
  }

  datatype ListOutcome = ListFailed | Listed(transactions: seq<Txn>, summary: Summary, period: Period)

  function ListStatus(o: ListOutcome): (code: int)
    ensures code == 500 <==> o.ListFailed?
    ensures code == 200 <==> o.Listed?
  {
    if o.ListFailed? then 500 else 200
  }

  // ---------------------------------------------------------------- writing

  /** The fields of a create or update body. */
  datatype TxnRequest = TxnRequest(
    txnType: JsValue, amount: JsValue, category: JsValue, description: JsValue,
    transactionDate: JsValue, loanReference: JsValue, paidEmi: JsValue)

  /** The `type` column's values. Any other value is refused by the store. */
  function KindOf(v: JsValue): Option<TxnKind> {
    if v == Str("INCOME") then Some(Income)
    else if v == Str("EXPENSE") then Some(Expense)
    else None
  }

  /** The `amount` column: a number of at least 0. Anything else is refused by
      the store; the model does not follow the store's conversions of other types. */
  function AmountOf(v: JsValue): Option<ParsedFloat> {
    if v.Num? && v.n >= 0.0 then Some(Finite(v.n)) else None
  }

  /** The `paidEmi` column after a partial update: a boolean. */
  function FlagOf(v: JsValue): Option<bool> {
    if v.Bool? then Some(v.b) else None
  }

  /** A `STRING` column (`category`, `description`, `loanReference`): the
      store's schema check refuses an array or an object; any other value,
      null included, is passed on. */
  function TextOf(v: JsValue): (r: Option<JsValue>)
    ensures r.None? <==> v.Arr? || v.Obj?
    ensures r.Some? ==> r.value == v
  {
    if v.Arr? || v.Obj? then None else Some(v)
  }

  /** The row `createTransaction` inserts for a parsed date, or `None` when the
      store refuses the type, the amount or one of the text fields. */
  function NewTxn(id: nat, userId: nat, req: TxnRequest, date: Instant, now: int): (r: Option<Txn>)
    requires ValidInstant(date)
    ensures r.None? <==>
      || KindOf(req.txnType).None? || AmountOf(req.amount).None?
      || TextOf(req.category).None? || TextOf(req.description).None? || TextOf(req.loanReference).None?
    ensures r.Some? ==>
      var t := r.value;
      && ValidTxn(t) && t.id == id && t.userId == userId && t.createdAt == now
      && Some(t.kind) == KindOf(req.txnType) && Some(t.amount) == AmountOf(req.amount)
      && t.transactionDate == date && 1 <= t.month <= 12
      && t.month == date.monthIndex + 1 && t.year == date.year
      && t.category == (if Truthy(req.category) then req.category else Null)
      && t.description == (if Truthy(req.description) then req.description else Null)
      && t.loanReference == (if Truthy(req.loanReference) then req.loanReference else Null)
      && t.paidEmi == Truthy(req.paidEmi)
  {
    var kind := KindOf(req.txnType);
    var amount := AmountOf(req.amount);
    var category := TextOf(Or(req.category, Null));
    var description := TextOf(Or(req.description, Null));
    var loanReference := TextOf(Or(req.loanReference, Null));
    if kind.None? || amount.None? || category.None? || description.None? || loanReference.None? then None
    else
      Some(Txn(id, userId, kind.value, amount.value, category.value, description.value,
               date, date.monthIndex + 1, date.year, loanReference.value,
               Truthy(if req.paidEmi == Undefined then Bool(false) else req.paidEmi), now))
  }

  /** The fields `updateTransaction` lets a body change. */
  const AllowedFields: seq<string> :=
    ["type", "amount", "category", "description", "transactionDate", "loanReference", "paidEmi"]

  /** The `updates` object: every allowed field the body has with a value other than undefined. */
  method CollectUpdates(body: map<string, JsValue>) returns (updates: map<string, JsValue>)
    ensures forall f :: f in updates <==> f in AllowedFields && Get(body, f) != Undefined
    ensures forall f :: f in updates ==> f in body && updates[f] == body[f]
  {
    updates := map[];
    for i := 0 to |AllowedFields|
      invariant forall f :: f in updates <==> f in AllowedFields[..i] && Get(body, f) != Undefined
      invariant forall f :: f in updates ==> f in body && updates[f] == body[f]
    {
      var field := AllowedFields[i];
      assert AllowedFields[..i + 1] == AllowedFields[..i] + [field];
      if Get(body, field) != Undefined {
        updates := updates[field := body[field]];
      }
    }
    assert AllowedFields[..|AllowedFields|] == AllowedFields;
  }

  /** One column written by the update: the supplied value when there is one and
      the store takes it, the stored value when there is none. */
  function Column<T>(updates: map<string, JsValue>, field: string, stored: T, convert: JsValue -> Option<T>): Option<T> {
    if field in updates then convert(updates[field]) else Some(stored)
  }

  /** The store refuses `transaction.update(updates)` when a supplied date is
      falsy (the column is not null and `new Date` is not applied to it) or a
      supplied value is one its column does not take. */
  predicate UpdateRefused(updates: map<string, JsValue>) {
    || ("transactionDate" in updates && !Truthy(updates["transactionDate"]))
    || ("type" in updates && KindOf(updates["type"]).None?)
    || ("amount" in updates && AmountOf(updates["amount"]).None?)
    || ("category" in updates && TextOf(updates["category"]).None?)
    || ("description" in updates && TextOf(updates["description"]).None?)
    || ("loanReference" in updates && TextOf(updates["loanReference"]).None?)
    || ("paidEmi" in updates && FlagOf(updates["paidEmi"]).None?)
  }

  /** `transaction.update(updates)`, with `date` the parsed transaction date when
      the update carries a truthy one; `None` exactly when the store refuses. */
  function ApplyUpdates(t: Txn, updates: map<string, JsValue>, date: Option<Instant>): (r: Option<Txn>)
    requires date.Some? ==> ValidInstant(date.value)
    requires date.Some? <==> "transactionDate" in updates && Truthy(updates["transactionDate"])
    ensures r.None? <==> UpdateRefused(updates)
    ensures r.Some? ==>
      var u := r.value;
      && u.id == t.id && u.userId == t.userId && u.createdAt == t.createdAt
      && ("type" !in updates ==> u.kind == t.kind)
      && ("type" in updates ==> Some(u.kind) == KindOf(updates["type"]))
      && ("amount" !in updates ==> u.amount == t.amount)
      && ("amount" in updates ==> Some(u.amount) == AmountOf(updates["amount"]))
      && ("category" !in updates ==> u.category == t.category)
      && ("category" in updates ==> u.category == updates["category"])
      && ("description" !in updates ==> u.description == t.description)
      && ("description" in updates ==> u.description == updates["description"])
      && ("loanReference" !in updates ==> u.loanReference == t.loanReference)
      && ("loanReference" in updates ==> u.loanReference == updates["loanReference"])
      && ("paidEmi" !in updates ==> u.paidEmi == t.paidEmi)
      && ("paidEmi" in updates ==> Some(u.paidEmi) == FlagOf(updates["paidEmi"]))
      && (date.None? ==> u.transactionDate == t.transactionDate && u.month == t.month && u.year == t.year)
      && (date.Some? ==> u.transactionDate == date.value
                         && u.month == date.value.monthIndex + 1 && u.year == date.value.year)
    ensures r.Some? && ValidTxn(t) ==> ValidTxn(r.value)
  {
    if "transactionDate" in updates && !Truthy(updates["transactionDate"]) then None
    else
      var kind := Column(updates, "type", t.kind, KindOf);
      var amount := Column(updates, "amount", t.amount, AmountOf);
      var category := Column(updates, "category", t.category, TextOf);
      var description := Column(updates, "description", t.description, TextOf);
      var loanReference := Column(updates, "loanReference", t.loanReference, TextOf);
      var paidEmi := Column(updates, "paidEmi", t.paidEmi, FlagOf);
      if kind.None? || amount.None? || category.None? || description.None? || loanReference.None?
         || paidEmi.None? then None
      else
        var d := date.GetOr(t.transactionDate);
        var month := if date.Some? then d.monthIndex + 1 else t.month;
        var year := if date.Some? then d.year else t.year;
        Some(t.(kind := kind.value, amount := amount.value, category := category.value,
                description := description.value, loanReference := loanReference.value,
                paidEmi := paidEmi.value, transactionDate := d, month := month, year := year))
  }

  datatype CreateOutcome = CreateInvalid | InvalidDate | CreateFailed | Recorded(transaction: Txn)

  function CreateStatus(o: CreateOutcome): (code: int)
    ensures code == 400 <==> o == CreateInvalid || o == InvalidDate
    ensures code == 500 <==> o == CreateFailed
    ensures code == 201 <==> o.Recorded?
  {
    match o
    case CreateInvalid => 400
    case InvalidDate => 400
    case CreateFailed => 500
    case Recorded(_) => 201
  }

  datatype UpdateOutcome = UpdateInvalid | NotFound | UpdateInvalidDate | UpdateFailed | Updated(transaction: Txn)

  function UpdateStatus(o: UpdateOutcome): (code: int)
    ensures code == 400 <==> o == UpdateInvalid || o == UpdateInvalidDate
    ensures code == 404 <==> o == NotFound
    ensures code == 500 <==> o == UpdateFailed
    ensures code == 200 <==> o.Updated?
  {
    match o
    case UpdateInvalid => 400
    case NotFound => 404
    case UpdateInvalidDate => 400
    case UpdateFailed => 500
    case Updated(_) => 200
  }

  /** A date parser that behaves as `new Date(v)` does on the cases the model
      relies on: an absent value is an invalid date, and a parsed date is a date. */
  ghost predicate DateParser(parseDate: JsValue -> Option<Instant>) {
    && parseDate(Undefined).None?
    && forall v :: parseDate(v).Some? ==> ValidInstant(parseDate(v).value)
  }

  /** The transaction table. Ids are 1, 2, 3, ... in insertion order, a
      modelling choice that keeps them unique and positive. */
  class TransactionStore {
    var rows: seq<Txn>

    ghost predicate Valid()
      reads this
    {
      forall i :: 0 <= i < |rows| ==> rows[i].id == i + 1 && ValidTxn(rows[i])
    }

    constructor()
      ensures rows == [] && Valid()
    {
      rows := [];
    }

    /** `getTransactions`: the user's rows of the asked month and year, most recent
        first, with their summary and the period asked for. */
    method GetTransactions(userId: nat, monthQuery: Option<string>, yearQuery: Option<string>)
      returns (outcome: ListOutcome)
      requires Valid()
      ensures outcome.ListFailed? <==> BuildWhere(userId, monthQuery, yearQuery).None?
      ensures outcome.Listed? ==>
        var f := BuildWhere(userId, monthQuery, yearQuery).value;
        && multiset(outcome.transactions) == multiset(MatchingRows(rows, f))
        && (forall t :: t in outcome.transactions <==> t in rows && Matches(f, t))
        && SortedDesc(outcome.transactions, TxnRank)
        && outcome.summary.incomeTotal == TotalOf(outcome.transactions, Income)
        && outcome.summary.expenseTotal == TotalOf(outcome.transactions, Expense)
        && (outcome.summary.emiPaid <==> exists t :: t in outcome.transactions && t.paidEmi)
        && outcome.summary.paidEmiTransactionId == FirstPaidId(outcome.transactions)
        && outcome.summary.incomeTotal >= 0.0 && outcome.summary.expenseTotal >= 0.0
        && outcome.period == PeriodOf(f)
    {
      var where := BuildWhere(userId, monthQuery, yearQuery);
      if where.None? {
        return ListFailed;
      }
      var f := where.value;
      var matching := MatchingRows(rows, f);
      var ordered := SortDesc(matching, TxnRank);
      ListedAreStored(rows, f, ordered);
      TotalOfStoredNonNegative(ordered, Income);
      TotalOfStoredNonNegative(ordered, Expense);
      var summary := BuildSummary(ordered);
      outcome := Listed(ordered, summary, PeriodOf(f));
    }

    /** `createTransaction`: parse the date, derive month and year, normalise the
        optional fields and append the row. */
    method CreateTransaction(userId: nat, bodyValid: bool, req: TxnRequest,
                             parseDate: JsValue -> Option<Instant>, now: int)
      returns (outcome: CreateOutcome)
      modifies this
      requires Valid() && DateParser(parseDate)
      ensures Valid()
      ensures outcome == CreateInvalid <==> !bodyValid
      ensures outcome == InvalidDate <==> bodyValid && parseDate(req.transactionDate).None?
      ensures !outcome.Recorded? ==> rows == old(rows)
      ensures outcome.Recorded? ==>
        && Some(outcome.transaction)
           == NewTxn(|old(rows)| + 1, userId, req, parseDate(req.transactionDate).value, now)
        && rows == old(rows) + [outcome.transaction]
      ensures outcome == CreateFailed ==>
        parseDate(req.transactionDate).Some?
        && NewTxn(|old(rows)| + 1, userId, req, parseDate(req.transactionDate).value, now).None?
    {
      if !bodyValid {
        return CreateInvalid;
      }
      var parsed := parseDate(req.transactionDate);
      if parsed.None? {
        return InvalidDate;
      }
      var row := NewTxn(|rows| + 1, userId, req, parsed.value, now);
      if row.None? {
        return CreateFailed;
      }
      rows := rows + [row.value];
      outcome := Recorded(row.value);
    }

    /** `findOne({ where: { id, userId } })`. */
    method FindOwned(id: nat, userId: nat) returns (idx: Option<nat>)
      ensures idx.Some? ==> idx.value < |rows| && rows[idx.value].id == id && rows[idx.value].userId == userId
      ensures idx.None? ==> forall j :: 0 <= j < |rows| ==> !(rows[j].id == id && rows[j].userId == userId)
    {
      var i := 0;
      while i < |rows|
        invariant 0 <= i <= |rows|
        invariant forall j :: 0 <= j < i ==> !(rows[j].id == id && rows[j].userId == userId)
      {
        if rows[i].id == id && rows[i].userId == userId {
          return Some(i);
        }
        i := i + 1;
      }
      return None;
    }

    /** `updateTransaction`: the caller's own row, changed in the allowed fields the
        body supplies, with month and year following a supplied truthy date. */
    method UpdateTransaction(userId: nat, bodyValid: bool, id: nat, body: map<string, JsValue>,
                             parseDate: JsValue -> Option<Instant>)
      returns (outcome: UpdateOutcome)
      modifies this
      requires Valid() && DateParser(parseDate)
      ensures Valid()
      ensures outcome == UpdateInvalid <==> !bodyValid
      ensures outcome == NotFound <==>
        bodyValid && forall j :: 0 <= j < |old(rows)| ==> !(old(rows)[j].id == id && old(rows)[j].userId == userId)
      ensures outcome == UpdateInvalidDate <==>
        && bodyValid
        && (exists j :: 0 <= j < |old(rows)| && old(rows)[j].id == id && old(rows)[j].userId == userId)
        && Truthy(Get(body, "transactionDate")) && parseDate(Get(body, "transactionDate")).None?
      ensures outcome == UpdateFailed <==>
        && bodyValid
        && (exists j :: 0 <= j < |old(rows)| && old(rows)[j].id == id && old(rows)[j].userId == userId)
        && !(Truthy(Get(body, "transactionDate")) && parseDate(Get(body, "transactionDate")).None?)
        && UpdateRefused(RequestedUpdates(body))
      ensures !outcome.Updated? ==> rows == old(rows)
      ensures outcome.Updated? ==>
        exists i :: 0 <= i < |old(rows)| && old(rows)[i].id == id && old(rows)[i].userId == userId
          && rows == old(rows)[i := outcome.transaction]
          && (Truthy(Get(body, "transactionDate")) ==> parseDate(Get(body, "transactionDate")).Some?)
          && ApplyUpdates(old(rows)[i], RequestedUpdates(body),
                          if Truthy(Get(body, "transactionDate")) then parseDate(Get(body, "transactionDate")) else None)
             == Some(outcome.transaction)
    {
      if !bodyValid {
        return UpdateInvalid;
      }
      var found := FindOwned(id, userId);
      if found.None? {
        return NotFound;
      }
      var i := found.value;
      var updates := CollectUpdates(body);
      assert updates == RequestedUpdates(body);
      var date: Option<Instant> := None;
      if "transactionDate" in updates && Truthy(updates["transactionDate"]) {
        date := parseDate(updates["transactionDate"]);
        if date.None? {
          return UpdateInvalidDate;
        }
      }
      var row := ApplyUpdates(rows[i], updates, date);
      if row.None? {
        return UpdateFailed;
      }
      rows := rows[i := row.value];
      outcome := Updated(row.value);
    }
  }

  /** The `updates` object as a value, for contracts. */
  function RequestedUpdates(body: map<string, JsValue>): (u: map<string, JsValue>)
    ensures forall f :: f in u <==> f in AllowedFields && Get(body, f) != Undefined
    ensures forall f :: f in u ==> f in body && u[f] == body[f]
  {
    map f | f in AllowedFields && Get(body, f) != Undefined :: body[f]
  }
}
