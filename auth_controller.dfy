/** The session handlers of the auth controller: `login`, `logout`, `logoutAll` and
    `getActiveSessions`, as methods of a store that owns the session table. Each
    writing method is proved against the table function in `Sessions` that says
    what the new table is, and keeps the table's invariant. */
module AuthController {
  import opened Js
  import opened Strings
  import opened Ordering
  import IpHelper
  import opened Sessions

  /** What `login` answers. */
  datatype LoginOutcome =
    | LoginRejected(failure: LoginFailure)
    | LoginFailedInternally
    | LoggedIn(token: string, userId: nat, userName: string, emailId: string,
               deviceId: string, sessionId: nat, ipAddress: string, lastActivity: int)

  function LoginStatus(o: LoginOutcome): (code: int)
    ensures code == 200 <==> o.LoggedIn?
    ensures code == 400 <==> o == LoginRejected(ValidationFailed)
    ensures code == 401 <==> o == LoginRejected(InvalidCredentials)
    ensures code == 403 <==> o.LoginRejected? && o.failure.EmailNotVerified?
    ensures code == 500 <==> o == LoginFailedInternally
  {
    match o
    case LoginRejected(ValidationFailed) => 400
    case LoginRejected(InvalidCredentials) => 401
    case LoginRejected(EmailNotVerified(_)) => 403
    case LoginFailedInternally => 500
    case LoggedIn(_, _, _, _, _, _, _, _) => 200
  }

  /** What `logout` answers. */
  datatype LogoutOutcome = NoTokenProvided | SessionNotFound | LoggedOut(loggedOutAt: int)

  function LogoutStatus(o: LogoutOutcome): (code: int)
    ensures code == 400 <==> o == NoTokenProvided
    ensures code == 404 <==> o == SessionNotFound
    ensures code == 200 <==> o.LoggedOut?
  {
    match o
    case NoTokenProvided => 400
    case SessionNotFound => 404
    case LoggedOut(_) => 200
  }

  /** `req.token || req.headers.authorization?.replace("Bearer ", "")`. The logout
      route runs no authentication middleware, so `req.token` is normally absent
      and the header decides; `replace` drops the first "Bearer " wherever it is. */
  function LogoutToken(reqToken: Option<string>, authHeader: Option<string>): (t: Option<string>)
    ensures Present(reqToken) ==> t == reqToken
    ensures !Present(reqToken) && authHeader.None? ==> t.None?
    ensures !Present(reqToken) && authHeader.Some? && StartsWith(authHeader.value, "Bearer ") ==>
      t == Some(authHeader.value[7..])
    ensures !Present(reqToken) && authHeader.Some? && !Contains(authHeader.value, "Bearer ") ==>
      t == authHeader
    ensures !Present(reqToken) && authHeader.Some? && IndexOf(authHeader.value, "Bearer ").Some? ==>
      var h, i := authHeader.value, IndexOf(authHeader.value, "Bearer ").value;
      t == Some(h[..i] + h[i + 7..])
  {
    if Present(reqToken) then reqToken
    else match authHeader
      case None => None
      case Some(h) =>
        assert |"Bearer "| == 7;
        if StartsWith(h, "Bearer ") then
          assert IndexOf(h, "Bearer ") == Some(0) by { assert OccursAt(h, "Bearer ", 0); }
          assert h[..0] + "" + h[7..] == h[7..];
          Some(ReplaceFirst(h, "Bearer ", ""))
        else if IndexOf(h, "Bearer ").Some? then
          var i := IndexOf(h, "Bearer ").value;
          assert h[..i] + "" + h[i + 7..] == h[..i] + h[i + 7..];
          Some(ReplaceFirst(h, "Bearer ", ""))
        else Some(ReplaceFirst(h, "Bearer ", ""))
  }

  /** The token-free views of `rows`, in order. */
  function Views(rows: seq<Session>): (r: seq<SessionView>)
    ensures |r| == |rows|
    ensures forall k :: 0 <= k < |rows| ==> r[k] == View(rows[k])
  {
    seq(|rows|, k requires 0 <= k < |rows| => View(rows[k]))
  }

  /** Sorting the selected rows and taking their views lists exactly the views
      of the selected rows, in descending order of activity. */
  lemma ListedViews(rows: seq<Session>, w: Where, active: seq<Session>, ordered: seq<Session>)
    requires forall s :: s in active <==> s in rows && Selects(w, s)
    requires multiset(ordered) == multiset(active)
    requires SortedDesc(ordered, ActivityRank)
    ensures forall v :: v in Views(ordered) <==>
      exists j :: 0 <= j < |rows| && Selects(w, rows[j]) && View(rows[j]) == v
    ensures forall a, b :: 0 <= a < b < |ordered| ==> Views(ordered)[a].lastActivity >= Views(ordered)[b].lastActivity
  {
    var sessions := Views(ordered);
    forall v | v in sessions
      ensures exists j :: 0 <= j < |rows| && Selects(w, rows[j]) && View(rows[j]) == v
    {
      var k :| 0 <= k < |sessions| && sessions[k] == v;
      assert ordered[k] in multiset(ordered);
      assert ordered[k] in active;
      var j :| 0 <= j < |rows| && rows[j] == ordered[k];
    }
    forall j | 0 <= j < |rows| && Selects(w, rows[j])
      ensures View(rows[j]) in sessions
    {
      assert rows[j] in active;
      assert rows[j] in multiset(ordered);
      var k :| 0 <= k < |ordered| && ordered[k] == rows[j];
      assert sessions[k] == View(rows[j]);
    }
    forall a, b | 0 <= a < b < |sessions|
      ensures sessions[a].lastActivity >= sessions[b].lastActivity
    {
      assert Outranks(ActivityRank(ordered[a]), ActivityRank(ordered[b]));
    }
  }

  /** The session table and the handlers that read and write it. */
  class SessionStore {
    var rows: seq<Session>

    ghost predicate Valid()
      reads this
    {
      WellFormed(rows)
    }

    constructor()
      ensures rows == [] && Valid()
    {
      rows := [];
    }

    /** `findOne({ where: w })`: the index of the first selected row. */
    method Lookup(w: Where) returns (idx: Option<nat>)
      ensures idx == FindOne(rows, w)
    {
      var i := 0;
      while i < |rows|
        invariant 0 <= i <= |rows|
        invariant forall j :: 0 <= j < i ==> !Selects(w, rows[j])
      {
        if Selects(w, rows[i]) {
          return Some(i);
        }
        i := i + 1;
      }
      return None;
    }

    /** `login`: check the credentials, choose the device id, sign a token and
        find-or-create-then-refresh the device's active session. `passwordMatches`
        stands for bcrypt, `sign` for jwt.sign, `generatedDeviceId` for uuidv4 and
        `now` for the clock. */
    method Login(
      users: seq<User>, bodyValid: bool, emailId: string, password: string,
      deviceId: Option<string>, passwordMatches: (string, string) -> bool,
      req: IpHelper.Request, generatedDeviceId: string, sign: Claims -> string, now: int)
      returns (outcome: LoginOutcome)
      modifies this
      requires Valid()
      ensures Valid()
      ensures outcome.LoginRejected? <==> CheckCredentials(users, bodyValid, emailId, password, passwordMatches).Err?
      ensures outcome.LoginRejected? ==>
        outcome.failure == CheckCredentials(users, bodyValid, emailId, password, passwordMatches).error
      ensures !outcome.LoggedIn? ==> rows == old(rows)
      ensures outcome.LoggedIn? ==>
        var user := CheckCredentials(users, bodyValid, emailId, password, passwordMatches).value;
        var dev := DeviceIdFor(deviceId, generatedDeviceId);
        var token := sign(Claims(user.id, user.emailId, dev, now));
        && outcome.token == token && outcome.userId == user.id && outcome.deviceId == dev
        && outcome.userName == user.userName && outcome.emailId == user.emailId
        && outcome.lastActivity == now
        && outcome.ipAddress == IpHelper.GetClientIp(req)
        && LoginRows(old(rows), user.id, dev, token, IpHelper.GetClientIp(req), IpHelper.GetDeviceInfo(req), now)
           == Some(rows)
        && exists k :: 0 <= k < |rows| && rows[k].id == outcome.sessionId
                       && Selects(ActiveDevice(user.id, dev), rows[k]) && rows[k].token == token
                       && rows[k].lastActivity == now
      ensures outcome == LoginFailedInternally ==>
        var user := CheckCredentials(users, bodyValid, emailId, password, passwordMatches).value;
        var dev := DeviceIdFor(deviceId, generatedDeviceId);
        LoginRows(old(rows), user.id, dev, sign(Claims(user.id, user.emailId, dev, now)),
                  IpHelper.GetClientIp(req), IpHelper.GetDeviceInfo(req), now).None?
    {
      var check := CheckCredentials(users, bodyValid, emailId, password, passwordMatches);
      if check.Err? {
        return LoginRejected(check.error);
      }
      var user := check.value;
      var ipAddress := IpHelper.GetClientIp(req);
      var info := IpHelper.GetDeviceInfo(req);
      var dev := DeviceIdFor(deviceId, generatedDeviceId);
      var token := sign(Claims(user.id, user.emailId, dev, now));
      var found := Lookup(ActiveDevice(user.id, dev));
      var k: nat;
      match found {
        case Some(i) =>
          if TokenTaken(rows, token, i) {
            return LoginFailedInternally;
          }
          rows := rows[i := Refreshed(rows[i], token, ipAddress, info, now)];
          k := i;
        case None =>
          if TokenTaken(rows, token, -1) {
            return LoginFailedInternally;
          }
          k := |rows|;
          rows := rows + [Session(|rows| + 1, user.id, dev, ipAddress, info.userAgent, info,
                                  token, true, now, None)];
      }
      LoginKeepsWellFormed(old(rows), user.id, dev, token, ipAddress, info, now);
      outcome := LoggedIn(token, user.id, user.userName, user.emailId, dev, rows[k].id, ipAddress, now);
    }

    /** `logout`: deactivate the active session holding the request's token. */
    method Logout(reqToken: Option<string>, authHeader: Option<string>, now: int)
      returns (outcome: LogoutOutcome)
      modifies this
      requires Valid()
      ensures Valid()
      ensures outcome == NoTokenProvided <==> !Present(LogoutToken(reqToken, authHeader))
      ensures outcome == SessionNotFound <==>
        Present(LogoutToken(reqToken, authHeader))
        && LogoutRows(old(rows), LogoutToken(reqToken, authHeader).value, now).None?
      ensures !outcome.LoggedOut? ==> rows == old(rows)
      ensures outcome.LoggedOut? ==>
        && outcome.loggedOutAt == now
        && Some(rows) == LogoutRows(old(rows), LogoutToken(reqToken, authHeader).value, now)
    {
      var token := LogoutToken(reqToken, authHeader);
      if !Present(token) {
        return NoTokenProvided;
      }
      var found := Lookup(ActiveToken(token.value));
      if found.None? {
        return SessionNotFound;
      }
      var i := found.value;
      LogoutRevokes(rows, token.value, now);
      rows := rows[i := rows[i].(isActive := false, loggedOutAt := Some(now))];
      outcome := LoggedOut(now);
    }

    /** `logoutAll`: the bulk update of every active session of `userId`; the
        result is the number of rows it changed. */
    method LogoutAll(userId: nat, now: int) returns (sessionsTerminated: nat)
      modifies this
      requires Valid()
      ensures Valid()
      ensures rows == DeactivateAll(old(rows), userId, now)
      ensures sessionsTerminated == CountWhere(old(rows), ActiveOfUser(userId))
    {
      var w := ActiveOfUser(userId);
      ghost var before := rows;
      sessionsTerminated := 0;
      for i := 0 to |rows|
        invariant |rows| == |before|
        invariant forall j :: 0 <= j < i ==> rows[j] == Deactivated(before[j], userId, now)
        invariant forall j :: i <= j < |rows| ==> rows[j] == before[j]
        invariant sessionsTerminated == CountWhere(before[..i], w)
      {
        assert before[..i + 1][..i] == before[..i];
        if Selects(w, rows[i]) {
          sessionsTerminated := sessionsTerminated + 1;
          rows := rows[i := rows[i].(isActive := false, loggedOutAt := Some(now))];
        }
      }
      assert before[..|before|] == before;
      DeactivateAllClears(before, userId, now);
    }

    /** `getActiveSessions`: the user's active sessions, newest activity first,
        without their tokens, and how many there are. */
    method GetActiveSessions(userId: nat) returns (sessions: seq<SessionView>, count: nat)
      ensures count == |sessions| == CountWhere(rows, ActiveOfUser(userId))
      ensures forall v :: v in sessions <==>
        exists j :: 0 <= j < |rows| && Selects(ActiveOfUser(userId), rows[j]) && View(rows[j]) == v
      ensures forall v :: v in sessions ==> v.userId == userId && v.isActive
      ensures forall a, b :: 0 <= a < b < |sessions| ==> sessions[a].lastActivity >= sessions[b].lastActivity
    {
      var w := ActiveOfUser(userId);
      var active: seq<Session> := [];
      for i := 0 to |rows|
        invariant active == FilterWhere(rows[..i], w)
      {
        assert rows[..i + 1][..i] == rows[..i];
        if Selects(w, rows[i]) {
          active := active + [rows[i]];
        }
      }
      assert rows[..|rows|] == rows;
      var ordered := SortDesc(active, ActivityRank);
      sessions := Views(ordered);
      count := |sessions|;
      ListedViews(rows, w, active, ordered);
    }

    /** The authentication middleware's `session.update({ lastActivity })`. */
    method Touch(i: nat, now: int)
      modifies this
      requires Valid() && i < |rows|
      ensures Valid()
      ensures rows == old(rows)[i := old(rows)[i].(lastActivity := now)]
    {
      rows := rows[i := rows[i].(lastActivity := now)];
      assert forall a :: 0 <= a < |rows| ==>
        (rows[a].token == old(rows)[a].token && rows[a].isActive == old(rows)[a].isActive
         && rows[a].id == old(rows)[a].id && rows[a].userId == old(rows)[a].userId
         && rows[a].deviceId == old(rows)[a].deviceId);
    }
  }
}
