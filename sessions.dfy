/** The session table as a sequence of rows, the queries the controllers and the
    middleware run against it, and the new table each writing operation leaves. */
module Sessions {
  import opened Js
  import opened Ordering
  import IpHelper

  /** A row of the session table. `id` is the auto-incremented key, so the row at
      index i has id i + 1; `token` is unique across the whole table; rows are
      never deleted, a logout only clears `isActive`. */
  datatype Session = Session(
    id: nat,
    userId: nat,
    deviceId: string,
    ipAddress: string,
    userAgent: string,
    deviceInfo: IpHelper.DeviceInfo,
    token: string,
    isActive: bool,
    lastActivity: int,
    loggedOutAt: Option<int>)

  /** A registered account: the password is stored as a hash. */
  datatype User = User(id: nat, userName: string, emailId: string, passwordHash: string, isVerified: bool)

  /** The `where` clauses the core runs against the table; all of them ask for `isActive: true`. */
  datatype Where =
    | ActiveDevice(userId: nat, deviceId: string)    // login's findOrCreate
    | ActiveToken(token: string)                     // logout's findOne
    | ActiveTokenOf(token: string, userId: nat)      // authenticate's findOne
    | ActiveOfUser(userId: nat)                      // logoutAll's update, getActiveSessions' findAll

  predicate Selects(w: Where, s: Session) {
    s.isActive &&
    match w
    case ActiveDevice(u, d) => s.userId == u && s.deviceId == d
    case ActiveToken(t) => s.token == t
    case ActiveTokenOf(t, u) => s.token == t && s.userId == u
    case ActiveOfUser(u) => s.userId == u
  }

  /** At most one active session per (userId, deviceId). */
  predicate OneActivePerDevice(rows: seq<Session>) {
    forall i, j ::
      (0 <= i < |rows| && 0 <= j < |rows| && rows[i].isActive
       && Selects(ActiveDevice(rows[i].userId, rows[i].deviceId), rows[j])) ==> i == j
  }

  /** The unique index on `token`. */
  predicate UniqueTokens(rows: seq<Session>) {
    forall i, j :: 0 <= i < |rows| && 0 <= j < |rows| && rows[i].token == rows[j].token ==> i == j
  }

  /** Ids are 1, 2, 3, ... in insertion order. This is a modelling choice: the
      store's sequence can skip a value after a refused insert. It serves only
      to keep ids unique. */
  predicate Numbered(rows: seq<Session>) {
    forall i :: 0 <= i < |rows| ==> rows[i].id == i + 1
  }

  predicate WellFormed(rows: seq<Session>) {
    OneActivePerDevice(rows) && UniqueTokens(rows) && Numbered(rows)
  }

  /** `findOne({ where })`: the first selected row. */
  function FindOne(rows: seq<Session>, w: Where): (r: Option<nat>)
    ensures r.Some? ==> r.value < |rows| && Selects(w, rows[r.value])
    ensures r.Some? ==> forall j :: 0 <= j < r.value ==> !Selects(w, rows[j])
    ensures r.None? ==> forall j :: 0 <= j < |rows| ==> !Selects(w, rows[j])
  {
    if rows == [] then None
    else if Selects(w, rows[0]) then Some(0)
    else
      match FindOne(rows[1..], w)
      case Some(k) => Some(k + 1)
      case None => None
  }

  /** The number of selected rows: what a bulk `update({ where })` reports. */
  function CountWhere(rows: seq<Session>, w: Where): nat {
    if rows == [] then 0
    else CountWhere(rows[..|rows| - 1], w) + (if Selects(w, rows[|rows| - 1]) then 1 else 0)
  }

  /** The selected rows, in table order. */
  function FilterWhere(rows: seq<Session>, w: Where): (r: seq<Session>)
    ensures |r| == CountWhere(rows, w)
    ensures forall s :: s in r <==> s in rows && Selects(w, s)
  {
    if rows == [] then []
    else
      var init := rows[..|rows| - 1];
      var last := rows[|rows| - 1];
      assert rows == init + [last];
      FilterWhere(init, w) + (if Selects(w, last) then [last] else [])
  }

  /** No row selected: the count is zero. */
  lemma {:induction false} CountNone(rows: seq<Session>, w: Where)
    requires forall j :: 0 <= j < |rows| ==> !Selects(w, rows[j])
    ensures CountWhere(rows, w) == 0
  {
    if rows != [] {
      CountNone(rows[..|rows| - 1], w);
    }
  }

  /** Exactly one row selected: the count is one. */
  lemma {:induction false} CountOne(rows: seq<Session>, w: Where, k: nat)
    requires k < |rows| && Selects(w, rows[k])
    requires forall j :: 0 <= j < |rows| && Selects(w, rows[j]) ==> j == k
    ensures CountWhere(rows, w) == 1
  {
    var init := rows[..|rows| - 1];
    if k == |rows| - 1 {
      CountNone(init, w);
    } else {
      CountOne(init, w, k);
    }
  }

  /** Under the table's invariant, a device of a user has at most one active session. */
  lemma {:induction false} AtMostOneActivePerDevice(rows: seq<Session>, userId: nat, deviceId: string)
    requires OneActivePerDevice(rows)
    ensures CountWhere(rows, ActiveDevice(userId, deviceId)) <= 1
  {
    var w := ActiveDevice(userId, deviceId);
    match FindOne(rows, w)
    case None => CountNone(rows, w);
    case Some(k) => CountOne(rows, w, k);
  }

  // ---------------------------------------------------------------- login

  /** The claims login signs into a token. `issuedAt` is the signing time. */
  datatype Claims = Claims(userId: nat, emailId: string, deviceId: string, issuedAt: int)

  datatype LoginFailure = ValidationFailed | InvalidCredentials | EmailNotVerified(emailId: string)

  /** The two ways the core looks a user up: by email at login, by id in the gate. */
  datatype UserKey = EmailIs(emailId: string) | IdIs(id: nat)

  predicate Identifies(k: UserKey, u: User) {
    match k
    case EmailIs(e) => u.emailId == e
    case IdIs(i) => u.id == i
  }

  /** `Users.findOne({ where: { emailId } })` and `Users.findByPk(id)`: the
      first user the key identifies (both columns are unique). */
  function FindUser(users: seq<User>, k: UserKey): (r: Option<User>)
    ensures r.Some? ==> r.value in users && Identifies(k, r.value)
    ensures r.None? ==> forall u :: u in users ==> !Identifies(k, u)
  {
    if users == [] then None
    else if Identifies(k, users[0]) then Some(users[0])
    else FindUser(users[1..], k)
  }

  /** The checks before any session work: request validation, then the account,
      then the password, then verification. An unknown email and a wrong password
      give the same answer; only the right password on an unverified account
      reveals that the account exists. */
  function CheckCredentials(
    users: seq<User>, bodyValid: bool, emailId: string, password: string,
    passwordMatches: (string, string) -> bool): (r: Result<User, LoginFailure>)
    ensures !bodyValid <==> r == Err(ValidationFailed)
    ensures r == Err(InvalidCredentials) <==>
      (bodyValid && (|| FindUser(users, EmailIs(emailId)).None?
                     || !passwordMatches(password, FindUser(users, EmailIs(emailId)).value.passwordHash)))
    ensures (r.Err? && r.error.EmailNotVerified?) <==>
      (bodyValid && FindUser(users, EmailIs(emailId)).Some?
        && passwordMatches(password, FindUser(users, EmailIs(emailId)).value.passwordHash)
        && !FindUser(users, EmailIs(emailId)).value.isVerified)
    ensures (r.Err? && r.error.EmailNotVerified?) ==> r.error.emailId == emailId
    ensures r.Ok? ==>
      (r.value in users && r.value.emailId == emailId && r.value.isVerified
       && passwordMatches(password, r.value.passwordHash))
  {
    if !bodyValid then Err(ValidationFailed)
    else match FindUser(users, EmailIs(emailId))
      case None => Err(InvalidCredentials)
      case Some(user) =>
        if !passwordMatches(password, user.passwordHash) then Err(InvalidCredentials)
        else if !user.isVerified then Err(EmailNotVerified(user.emailId))
        else Ok(user)
  }

  /** `deviceId || uuidv4()`: the supplied device id unless it is missing or empty. */
  function DeviceIdFor(deviceId: Option<string>, generated: string): (d: string)
    ensures Present(deviceId) ==> d == deviceId.value
    ensures !Present(deviceId) ==> d == generated
  {
    if Present(deviceId) then deviceId.value else generated
  }

  /** Some row other than the one at `except` already holds `token`. */
  predicate TokenTaken(rows: seq<Session>, token: string, except: int) {
    exists i :: 0 <= i < |rows| && i != except && rows[i].token == token
  }

  /** The existing active row of a device, refreshed by a new login. */
  function Refreshed(s: Session, token: string, ipAddress: string, info: IpHelper.DeviceInfo, now: int): Session {
    s.(token := token, ipAddress := ipAddress, userAgent := info.userAgent, deviceInfo := info,
       isActive := true, lastActivity := now, loggedOutAt := None)
  }

  /** The table after login's find-or-create-then-update for (userId, deviceId),
      or `None` when the unique index on `token` refuses the write. */
  function LoginRows(
    rows: seq<Session>, userId: nat, deviceId: string, token: string,
    ipAddress: string, info: IpHelper.DeviceInfo, now: int): (r: Option<seq<Session>>)
    ensures r.None? <==> TokenTaken(rows, token, match FindOne(rows, ActiveDevice(userId, deviceId))
                                               case Some(i) => i case None => -1)
    ensures r.Some? && FindOne(rows, ActiveDevice(userId, deviceId)).Some? ==>
      var i := FindOne(rows, ActiveDevice(userId, deviceId)).value;
      && |r.value| == |rows|
      && r.value[i] == Refreshed(rows[i], token, ipAddress, info, now)
      && r.value[i].id == rows[i].id
      && forall j :: 0 <= j < |rows| && j != i ==> r.value[j] == rows[j]
    ensures r.Some? && FindOne(rows, ActiveDevice(userId, deviceId)).None? ==>
      && |r.value| == |rows| + 1
      && r.value[..|rows|] == rows
      && r.value[|rows|] == Session(|rows| + 1, userId, deviceId, ipAddress, info.userAgent, info,
                                    token, true, now, None)
  {
    match FindOne(rows, ActiveDevice(userId, deviceId))
    case Some(i) =>
      if TokenTaken(rows, token, i) then None
      else Some(rows[i := Refreshed(rows[i], token, ipAddress, info, now)])
    case None =>
      if TokenTaken(rows, token, -1) then None
      else
        var created := Session(|rows| + 1, userId, deviceId, ipAddress, info.userAgent, info,
                               token, true, now, None);
        assert (rows + [created])[..|rows|] == rows;
        Some(rows + [created])
  }

  /** Login keeps the table's invariant. */
  lemma LoginKeepsWellFormed(
    rows: seq<Session>, userId: nat, deviceId: string, token: string,
    ipAddress: string, info: IpHelper.DeviceInfo, now: int)
    requires WellFormed(rows)
    requires LoginRows(rows, userId, deviceId, token, ipAddress, info, now).Some?
    ensures WellFormed(LoginRows(rows, userId, deviceId, token, ipAddress, info, now).value)
  {
    var r := LoginRows(rows, userId, deviceId, token, ipAddress, info, now).value;
    var w := ActiveDevice(userId, deviceId);
    match FindOne(rows, w)
    case Some(i) =>
      assert forall j :: 0 <= j < |rows| && j != i ==> rows[j].token != token;
      assert forall j :: 0 <= j < |rows| && j != i ==> !Selects(w, rows[j]);
      forall a, b | 0 <= a < |r| && 0 <= b < |r| && r[a].isActive
        && Selects(ActiveDevice(r[a].userId, r[a].deviceId), r[b])
        ensures a == b
      {
        if a != i && b != i {
          assert rows[a].isActive && Selects(ActiveDevice(rows[a].userId, rows[a].deviceId), rows[b]);
        }
      }
      forall a, b | 0 <= a < |r| && 0 <= b < |r| && r[a].token == r[b].token ensures a == b {
        if a != i && b != i {
          assert rows[a].token == rows[b].token;
        }
      }
    case None =>
      assert forall j :: 0 <= j < |rows| ==> rows[j].token != token;
      forall a, b | 0 <= a < |r| && 0 <= b < |r| && r[a].isActive
        && Selects(ActiveDevice(r[a].userId, r[a].deviceId), r[b])
        ensures a == b
      {
        if a < |rows| && b < |rows| {
          assert rows[a].isActive && Selects(ActiveDevice(rows[a].userId, rows[a].deviceId), rows[b]);
        }
      }
      forall a, b | 0 <= a < |r| && 0 <= b < |r| && r[a].token == r[b].token ensures a == b {
        if a < |rows| && b < |rows| {
          assert rows[a].token == rows[b].token;
        }
      }
  }

  /** After a login the device has exactly one active session, and it holds the new token. */
  lemma LoginLeavesOneActive(
    rows: seq<Session>, userId: nat, deviceId: string, token: string,
    ipAddress: string, info: IpHelper.DeviceInfo, now: int)
    requires WellFormed(rows)
    requires LoginRows(rows, userId, deviceId, token, ipAddress, info, now).Some?
    ensures var r := LoginRows(rows, userId, deviceId, token, ipAddress, info, now).value;
      && CountWhere(r, ActiveDevice(userId, deviceId)) == 1
      && FindOne(r, ActiveDevice(userId, deviceId)).Some?
      && r[FindOne(r, ActiveDevice(userId, deviceId)).value].token == token
  {
    var r := LoginRows(rows, userId, deviceId, token, ipAddress, info, now).value;
    var w := ActiveDevice(userId, deviceId);
    LoginKeepsWellFormed(rows, userId, deviceId, token, ipAddress, info, now);
    var k := match FindOne(rows, w) case Some(i) => i case None => |rows|;
    assert Selects(w, r[k]) && r[k].token == token;
    assert forall j :: 0 <= j < |r| && Selects(w, r[j]) ==> j == k;
    CountOne(r, w, k);
  }

  // ---------------------------------------------------------------- logout

  /** The table after `logout` of `token`, or `None` when no active session holds it. */
  function LogoutRows(rows: seq<Session>, token: string, now: int): (r: Option<seq<Session>>)
    ensures r.None? <==> forall j :: 0 <= j < |rows| ==> !Selects(ActiveToken(token), rows[j])
    ensures r.Some? ==>
      var i := FindOne(rows, ActiveToken(token)).value;
      && |r.value| == |rows|
      && r.value[i] == rows[i].(isActive := false, loggedOutAt := Some(now))
      && forall j :: 0 <= j < |rows| && j != i ==> r.value[j] == rows[j]
  {
    match FindOne(rows, ActiveToken(token))
    case None => None
    case Some(i) => Some(rows[i := rows[i].(isActive := false, loggedOutAt := Some(now))])
  }

  /** Logout keeps the invariant and leaves no active session with that token. */
  lemma LogoutRevokes(rows: seq<Session>, token: string, now: int)
    requires WellFormed(rows)
    requires LogoutRows(rows, token, now).Some?
    ensures WellFormed(LogoutRows(rows, token, now).value)
    ensures forall j :: 0 <= j < |rows| ==> !Selects(ActiveToken(token), LogoutRows(rows, token, now).value[j])
  {
    var r := LogoutRows(rows, token, now).value;
    var i := FindOne(rows, ActiveToken(token)).value;
    forall j | 0 <= j < |rows| && j != i ensures r[j].token != token {
      assert rows[i].token == token;
    }
    assert forall a :: 0 <= a < |r| ==> r[a].token == rows[a].token;
  }

  // ---------------------------------------------------------------- logout from all devices

  /** A row after logoutAll's bulk update for `userId`. */
  function Deactivated(s: Session, userId: nat, now: int): Session {
    if Selects(ActiveOfUser(userId), s) then s.(isActive := false, loggedOutAt := Some(now)) else s
  }

  /** The table after logoutAll for `userId`. */
  function DeactivateAll(rows: seq<Session>, userId: nat, now: int): (r: seq<Session>)
    ensures |r| == |rows|
    ensures forall j :: 0 <= j < |rows| ==> r[j] == Deactivated(rows[j], userId, now)
  {
    seq(|rows|, j requires 0 <= j < |rows| => Deactivated(rows[j], userId, now))
  }

  /** After logoutAll the user has no active session, every other user's rows are
      as they were, and the invariant still holds. */
  lemma DeactivateAllClears(rows: seq<Session>, userId: nat, now: int)
    requires WellFormed(rows)
    ensures CountWhere(DeactivateAll(rows, userId, now), ActiveOfUser(userId)) == 0
    ensures forall j :: 0 <= j < |rows| && rows[j].userId != userId ==> DeactivateAll(rows, userId, now)[j] == rows[j]
    ensures WellFormed(DeactivateAll(rows, userId, now))
  {
    var r := DeactivateAll(rows, userId, now);
    CountNone(r, ActiveOfUser(userId));
    assert forall a :: 0 <= a < |r| ==> r[a].token == rows[a].token && r[a].id == rows[a].id;
    assert forall a :: 0 <= a < |r| && r[a].isActive ==> r[a] == rows[a];
  }

  // ---------------------------------------------------------------- listing

  /** A session as `getActiveSessions` lists it: every column but the token. */
  datatype SessionView = SessionView(
    id: nat,
    userId: nat,
    deviceId: string,
    ipAddress: string,
    userAgent: string,
    deviceInfo: IpHelper.DeviceInfo,
    isActive: bool,
    lastActivity: int,
    loggedOutAt: Option<int>)

  function View(s: Session): SessionView {
    SessionView(s.id, s.userId, s.deviceId, s.ipAddress, s.userAgent, s.deviceInfo,
                s.isActive, s.lastActivity, s.loggedOutAt)
  }

  /** `order: [["lastActivity", "DESC"]]`. */
  function ActivityRank(s: Session): Rank {
    (s.lastActivity, 0)
  }
}
