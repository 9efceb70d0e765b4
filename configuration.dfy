/** The per-user configuration record and its upsert: the first write applies
    creation defaults, later writes overwrite exactly the fields the request
    supplies, and `isConfigured` once set stays set. */
module Configuration {
  import opened Js

  /** A stored configuration row; the table holds at most one per user. Amounts
      and the schedule are kept as the JSON values the request carried. */
  datatype Config = Config(
    userId: nat,
    totalEmi: JsValue,
    numberOfLoans: JsValue,
    emiSchedule: JsValue,
    income: JsValue,
    isConfigured: bool)

  /** The four fields `createOrUpdateConfiguration` reads from the body. */
  datatype ConfigRequest = ConfigRequest(totalEmi: JsValue, numberOfLoans: JsValue, emiSchedule: JsValue, income: JsValue)

  /** `numberOfLoans` is declared not null with a minimum of 0: a value the
      model's validation refuses. */
  predicate LoansRejected(v: JsValue) {
    v == Null || (v.Num? && v.n < 0.0)
  }

  /** `!!(income || totalEmi)`: a zero, empty, null or absent value does not count. */
  function RequestConfigured(req: ConfigRequest): (b: bool)
    ensures b <==> Truthy(req.income) || Truthy(req.totalEmi)
  {
    Truthy(Or(req.income, req.totalEmi))
  }

  /** The creation defaults: a falsy field becomes null, or 0 for `numberOfLoans`. */
  function Created(userId: nat, req: ConfigRequest): (c: Config)
    ensures c.userId == userId && c.isConfigured == RequestConfigured(req)
    ensures Truthy(req.totalEmi) ==> c.totalEmi == req.totalEmi
    ensures !Truthy(req.totalEmi) ==> c.totalEmi == Null
    ensures Truthy(req.numberOfLoans) ==> c.numberOfLoans == req.numberOfLoans
    ensures !Truthy(req.numberOfLoans) ==> c.numberOfLoans == Num(0.0)
    ensures Truthy(req.emiSchedule) ==> c.emiSchedule == req.emiSchedule
    ensures !Truthy(req.emiSchedule) ==> c.emiSchedule == Null
    ensures Truthy(req.income) ==> c.income == req.income
    ensures !Truthy(req.income) ==> c.income == Null
  {
    Config(userId, Or(req.totalEmi, Null), Or(req.numberOfLoans, Num(0.0)),
           Or(req.emiSchedule, Null), Or(req.income, Null), RequestConfigured(req))
  }

  /** `v !== undefined ? v : stored`. */
  function Supplied(v: JsValue, stored: JsValue): JsValue {
    if v != Undefined then v else stored
  }

  /** The update of an existing row: an absent field keeps the stored value, any
      supplied one (0 and null included) replaces it, and `isConfigured` is the
      request's verdict or the stored one. */
  function Merged(stored: Config, req: ConfigRequest): (c: Config)
    ensures c.userId == stored.userId
    ensures c.isConfigured == (RequestConfigured(req) || stored.isConfigured)
    ensures req.totalEmi == Undefined ==> c.totalEmi == stored.totalEmi
    ensures req.totalEmi != Undefined ==> c.totalEmi == req.totalEmi
    ensures req.numberOfLoans == Undefined ==> c.numberOfLoans == stored.numberOfLoans
    ensures req.numberOfLoans != Undefined ==> c.numberOfLoans == req.numberOfLoans
    ensures req.emiSchedule == Undefined ==> c.emiSchedule == stored.emiSchedule
    ensures req.emiSchedule != Undefined ==> c.emiSchedule == req.emiSchedule
    ensures req.income == Undefined ==> c.income == stored.income
    ensures req.income != Undefined ==> c.income == req.income
  {
    Config(stored.userId,
           Supplied(req.totalEmi, stored.totalEmi),
           Supplied(req.numberOfLoans, stored.numberOfLoans),
           Supplied(req.emiSchedule, stored.emiSchedule),
           Supplied(req.income, stored.income),
           RequestConfigured(req) || stored.isConfigured)
  }

  /** The row find-or-create-then-update leaves for `userId`, or `None` when the
      row it would write breaks the `numberOfLoans` validation. */
  function Upsert(stored: Option<Config>, userId: nat, req: ConfigRequest): (r: Option<Config>)
    requires stored.Some? ==> stored.value.userId == userId
    ensures r.Some? ==> r.value.userId == userId && !LoansRejected(r.value.numberOfLoans)
    ensures r.Some? ==> r.value == (if stored.None? then Created(userId, req) else Merged(stored.value, req))
    ensures r.None? <==>
      (if stored.None? then LoansRejected(Created(userId, req).numberOfLoans)
       else LoansRejected(Merged(stored.value, req).numberOfLoans))
    ensures stored.Some? && stored.value.isConfigured && r.Some? ==> r.value.isConfigured
  {
    var c := if stored.None? then Created(userId, req) else Merged(stored.value, req);
    if LoansRejected(c.numberOfLoans) then None else Some(c)
  }

  /** A field settles when writing it a second time changes nothing: it is
      absent, truthy, or already the creation default. */
  predicate Settles(v: JsValue, default: JsValue) {
    v == Undefined || Truthy(v) || v == default
  }

  predicate AllSettle(req: ConfigRequest) {
    Settles(req.totalEmi, Null) && Settles(req.numberOfLoans, Num(0.0))
    && Settles(req.emiSchedule, Null) && Settles(req.income, Null)
  }

  /** Sending the same request again after it created the row leaves the row as it
      is exactly when every field settles: a supplied 0 for `totalEmi` or `income`
      is stored as null on creation but as 0 by the repeat. */
  lemma RepeatAfterCreate(userId: nat, req: ConfigRequest)
    requires Upsert(None, userId, req).Some?
    ensures Upsert(Upsert(None, userId, req), userId, req) == Upsert(None, userId, req) <==> AllSettle(req)
  {
    var c := Created(userId, req);
    if AllSettle(req) {
      assert Merged(c, req) == c;
    } else {
      var c2 := Merged(c, req);
      if !Settles(req.totalEmi, Null) {
        assert c2.totalEmi != c.totalEmi;
      } else if !Settles(req.numberOfLoans, Num(0.0)) {
        assert c2.numberOfLoans != c.numberOfLoans;
      } else if !Settles(req.emiSchedule, Null) {
        assert c2.emiSchedule != c.emiSchedule;
      } else {
        assert c2.income != c.income;
      }
    }
  }

  /** On an existing row, repeating an accepted request changes nothing. */
  lemma RepeatAfterUpdate(stored: Config, req: ConfigRequest)
    requires Upsert(Some(stored), stored.userId, req).Some?
    ensures Upsert(Upsert(Some(stored), stored.userId, req), stored.userId, req)
            == Upsert(Some(stored), stored.userId, req)
  {
    var c := Merged(stored, req);
    assert Merged(c, req) == c;
  }

  /** What `createOrUpdateConfiguration` answers. */
  datatype UpsertOutcome =
    | ValidationFailed
    | StoreRejected
    | Saved(created: bool, configuration: Config)

  function UpsertStatus(o: UpsertOutcome): (code: int)
    ensures code == 201 <==> o.Saved? && o.created
    ensures code == 200 <==> o.Saved? && !o.created
    ensures code == 400 <==> !o.Saved?
  {
    match o
    case ValidationFailed => 400
    case StoreRejected => 400
    case Saved(created, _) => if created then 201 else 200
  }

  /** The configuration table, keyed by user (the unique `userId` column). */
  class ConfigurationStore {
    var rows: map<nat, Config>

    ghost predicate Valid()
      reads this
    {
      forall u :: u in rows ==> rows[u].userId == u && !LoansRejected(rows[u].numberOfLoans)
    }

    constructor()
      ensures rows == map[] && Valid()
    {
      rows := map[];
    }

    /** `createOrUpdateConfiguration` for the authenticated `userId`. */
    method CreateOrUpdate(userId: nat, bodyValid: bool, req: ConfigRequest) returns (outcome: UpsertOutcome)
      modifies this
      requires Valid()
      ensures Valid()
      ensures outcome == ValidationFailed <==> !bodyValid
      ensures outcome == StoreRejected <==>
        bodyValid && Upsert(if userId in old(rows) then Some(old(rows)[userId]) else None, userId, req).None?
      ensures !outcome.Saved? ==> rows == old(rows)
      ensures outcome.Saved? ==>
        && outcome.created == (userId !in old(rows))
        && Some(outcome.configuration)
           == Upsert(if userId in old(rows) then Some(old(rows)[userId]) else None, userId, req)
        && rows == old(rows)[userId := outcome.configuration]
      ensures userId in old(rows) && old(rows)[userId].isConfigured ==>
        userId in rows && rows[userId].isConfigured
    {
      if !bodyValid {
        return ValidationFailed;
      }
      var created := userId !in rows;
      var row := if created then Created(userId, req) else Merged(rows[userId], req);
      if LoansRejected(row.numberOfLoans) {
        return StoreRejected;
      }
      rows := rows[userId := row];
      outcome := Saved(created, row);
    }

    /** `getConfiguration`: the row, and its flag, which is false when there is no row. */
    method GetConfiguration(userId: nat) returns (configuration: Option<Config>, isConfigured: bool)
      ensures configuration.None? <==> userId !in rows
      ensures configuration.Some? ==> configuration.value == rows[userId]
      ensures isConfigured <==> userId in rows && rows[userId].isConfigured
    {
      if userId !in rows {
        return None, false;
      }
      configuration := Some(rows[userId]);
      isConfigured := rows[userId].isConfigured;
    }

    /** `checkConfigurationStatus`: the flag alone, false when there is no row. */
    method ConfigurationStatus(userId: nat) returns (isConfigured: bool)
      ensures isConfigured <==> userId in rows && rows[userId].isConfigured
    {
      isConfigured := if userId in rows then rows[userId].isConfigured else false;
    }
  }
}
