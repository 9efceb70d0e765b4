/** The request authentication gate: `authenticate`, which rejects a request
    unless its bearer token verifies and names an active session of an existing
    user, and `optionalAuth`, which never rejects. `jwt.verify` is an oracle. */
module AuthMiddleware {
  import opened Js
  import opened Strings
  import opened Sessions
  import IpHelper
  import AuthController

  /** `authHeader.startsWith("Bearer ") ? authHeader.slice(7) : authHeader`. */
  function ExtractToken(header: string): (t: string)
    ensures StartsWith(header, "Bearer ") ==> header == "Bearer " + t
    ensures !StartsWith(header, "Bearer ") ==> t == header
  {
    if StartsWith(header, "Bearer ") then header[7..] else header
  }

  /** A header built as "Bearer " + token gives back the token. */
  lemma ExtractBearer(token: string)
    ensures ExtractToken("Bearer " + token) == token
  {
    assert StartsWith("Bearer " + token, "Bearer ");
  }

  /** For a header that starts with "Bearer ", the gate and `logout` read the same token. */
  lemma LogoutReadsSameToken(token: string)
    ensures AuthController.LogoutToken(None, Some("Bearer " + token)) == Some(ExtractToken("Bearer " + token))
  {
    ExtractBearer(token);
    assert StartsWith("Bearer " + token, "Bearer ");
  }

  /** How `jwt.verify` ends: the decoded claims, or the error it throws. */
  datatype Verification = Verified(claims: Claims) | Malformed | Expired | OtherFailure

  /** Why `authenticate` rejects a request. */
  datatype AuthFailure =
    | MissingHeader | MissingToken | InvalidSession | UserNotFound
    | InvalidToken | TokenExpired | AuthenticationError

  function FailureStatus(f: AuthFailure): (code: int)
    ensures code == 500 <==> f == AuthenticationError
    ensures code != 500 ==> code == 401
  {
    if f == AuthenticationError then 500 else 401
  }

  /** The `error` field of the rejection. Both missing-token cases share one. */
  function FailureName(f: AuthFailure): (name: string)
    ensures name == "Authentication required" <==> f == MissingHeader || f == MissingToken
    ensures name == "Invalid session" <==> f == InvalidSession
    ensures name == "User not found" <==> f == UserNotFound
    ensures name == "Invalid token" <==> f == InvalidToken
    ensures name == "Token expired" <==> f == TokenExpired
    ensures name == "Authentication error" <==> f == AuthenticationError
  {
    match f
    case MissingHeader => "Authentication required"
    case MissingToken => "Authentication required"
    case InvalidSession => "Invalid session"
    case UserNotFound => "User not found"
    case InvalidToken => "Invalid token"
    case TokenExpired => "Token expired"
    case AuthenticationError => "Authentication error"
  }

  /** The catch block: which verification error gives which failure. */
  function VerifyFailure(v: Verification): (f: AuthFailure)
    requires !v.Verified?
    ensures v == Malformed <==> f == InvalidToken
    ensures v == Expired <==> f == TokenExpired
    ensures v == OtherFailure <==> f == AuthenticationError
  {
    match v
    case Malformed => InvalidToken
    case Expired => TokenExpired
    case OtherFailure => AuthenticationError
  }

  /** A user as the gate attaches it: every column but the password hash. */
  datatype Profile = Profile(id: nat, userName: string, emailId: string, isVerified: bool)

  /** What the gate attaches to an accepted request. */
  datatype Attachment = Attachment(user: Profile, sessionIndex: nat, token: string)

  datatype AuthResult = Rejected(failure: AuthFailure) | Accepted(attached: Attachment)

  /** The decision `authenticate` takes on a table, before it touches anything. */
  function AuthDecision(authHeader: Option<string>, verify: string -> Verification,
                        rows: seq<Session>, users: seq<User>): (r: AuthResult)
    ensures !Present(authHeader) <==> r == Rejected(MissingHeader)
    ensures r == Rejected(MissingToken) <==> Present(authHeader) && ExtractToken(authHeader.value) == ""
    ensures r.Rejected? && r.failure in {InvalidToken, TokenExpired, AuthenticationError} <==>
      (Present(authHeader) && ExtractToken(authHeader.value) != ""
       && !verify(ExtractToken(authHeader.value)).Verified?)
    ensures Present(authHeader) && ExtractToken(authHeader.value) != ""
            && !verify(ExtractToken(authHeader.value)).Verified? ==>
      r == Rejected(VerifyFailure(verify(ExtractToken(authHeader.value))))
    ensures r == Rejected(InvalidSession) <==>
      (Present(authHeader) && ExtractToken(authHeader.value) != ""
       && verify(ExtractToken(authHeader.value)).Verified?
       && forall j :: 0 <= j < |rows| ==>
            !Selects(ActiveTokenOf(ExtractToken(authHeader.value),
                                   verify(ExtractToken(authHeader.value)).claims.userId), rows[j]))
    ensures r == Rejected(UserNotFound) <==>
      (Present(authHeader) && ExtractToken(authHeader.value) != ""
       && verify(ExtractToken(authHeader.value)).Verified?
       && FindOne(rows, ActiveTokenOf(ExtractToken(authHeader.value),
                                      verify(ExtractToken(authHeader.value)).claims.userId)).Some?
       && forall u :: u in users ==> u.id != verify(ExtractToken(authHeader.value)).claims.userId)
    ensures r.Accepted? ==>
      var a := r.attached;
      && Present(authHeader) && a.token == ExtractToken(authHeader.value)
      && verify(a.token).Verified?
      && a.sessionIndex < |rows|
      && Selects(ActiveTokenOf(a.token, verify(a.token).claims.userId), rows[a.sessionIndex])
      && a.user.id == rows[a.sessionIndex].userId
      && exists u :: u in users && u.id == a.user.id && a.user == Profile(u.id, u.userName, u.emailId, u.isVerified)
  {
    if !Present(authHeader) then Rejected(MissingHeader)
    else
      var token := ExtractToken(authHeader.value);
      if token == "" then Rejected(MissingToken)
      else match verify(token)
        case Verified(claims) =>
          (match FindOne(rows, ActiveTokenOf(token, claims.userId))
           case None => Rejected(InvalidSession)
           case Some(i) =>
             match FindUser(users, IdIs(claims.userId))
             case None => Rejected(UserNotFound)
             case Some(u) => Accepted(Attachment(Profile(u.id, u.userName, u.emailId, u.isVerified), i, token)))
        case Malformed => Rejected(VerifyFailure(Malformed))
        case Expired => Rejected(VerifyFailure(Expired))
        case OtherFailure => Rejected(VerifyFailure(OtherFailure))
  }

  /** `authenticate`: decide, and on acceptance touch the matched session's
      `lastActivity`; nothing else in the table changes. */
  method Authenticate(store: AuthController.SessionStore, authHeader: Option<string>,
                      verify: string -> Verification, users: seq<User>, now: int)
    returns (r: AuthResult)
    modifies store
    requires store.Valid()
    ensures store.Valid()
    ensures r == AuthDecision(authHeader, verify, old(store.rows), users)
    ensures r.Rejected? ==> store.rows == old(store.rows)
    ensures r.Accepted? ==>
      store.rows == old(store.rows)[r.attached.sessionIndex :=
                                    old(store.rows)[r.attached.sessionIndex].(lastActivity := now)]
  {
    if !Present(authHeader) {
      return Rejected(MissingHeader);
    }
    var token := ExtractToken(authHeader.value);
    if token == "" {
      return Rejected(MissingToken);
    }
    var v := verify(token);
    if !v.Verified? {
      return Rejected(VerifyFailure(v));
    }
    var found := store.Lookup(ActiveTokenOf(token, v.claims.userId));
    if found.None? {
      return Rejected(InvalidSession);
    }
    var user := FindUser(users, IdIs(v.claims.userId));
    if user.None? {
      return Rejected(UserNotFound);
    }
    var u := user.value;
    r := Accepted(Attachment(Profile(u.id, u.userName, u.emailId, u.isVerified), found.value, token));
    store.Touch(found.value, now);
  }

  /** `optionalAuth`: the request always goes on; the user, session and token are
      attached exactly when `authenticate` would accept, and the table is only read. */
  method OptionalAuth(store: AuthController.SessionStore, authHeader: Option<string>,
                      verify: string -> Verification, users: seq<User>)
    returns (attached: Option<Attachment>)
    ensures attached.Some? <==> AuthDecision(authHeader, verify, store.rows, users).Accepted?
    ensures attached.Some? ==> attached.value == AuthDecision(authHeader, verify, store.rows, users).attached
  {
    if !Present(authHeader) {
      return None;
    }
    var token := ExtractToken(authHeader.value);
    if token == "" {
      return None;
    }
    var v := verify(token);
    if !v.Verified? {
      return None;
    }
    var found := store.Lookup(ActiveTokenOf(token, v.claims.userId));
    if found.Some? {
      var user := FindUser(users, IdIs(v.claims.userId));
      if user.Some? {
        var u := user.value;
        return Some(Attachment(Profile(u.id, u.userName, u.emailId, u.isVerified), found.value, token));
      }
    }
    return None;
  }

  /** A token that verifies but whose session was logged out is refused as an invalid session. */
  lemma LoggedOutTokenRejected(rows: seq<Session>, token: string, now: int,
                               verify: string -> Verification, users: seq<User>)
    requires WellFormed(rows) && token != ""
    requires LogoutRows(rows, token, now).Some?
    requires verify(token).Verified?
    ensures AuthDecision(Some("Bearer " + token), verify, LogoutRows(rows, token, now).value, users)
            == Rejected(InvalidSession)
  {
    LogoutRevokes(rows, token, now);
    ExtractBearer(token);
  }

  /** Logging in again on a device replaces its token: the device's previous
      token no longer passes the gate, even if it has not expired. */
  lemma ReloginRevokesPreviousToken(
    rows: seq<Session>, userId: nat, deviceId: string, token: string,
    ipAddress: string, info: IpHelper.DeviceInfo, now: int,
    verify: string -> Verification, users: seq<User>)
    requires WellFormed(rows)
    requires FindOne(rows, ActiveDevice(userId, deviceId)).Some?
    requires LoginRows(rows, userId, deviceId, token, ipAddress, info, now).Some?
    requires var previous := rows[FindOne(rows, ActiveDevice(userId, deviceId)).value].token;
      previous != token && previous != "" && verify(previous).Verified?
    ensures var previous := rows[FindOne(rows, ActiveDevice(userId, deviceId)).value].token;
      AuthDecision(Some("Bearer " + previous), verify,
                   LoginRows(rows, userId, deviceId, token, ipAddress, info, now).value, users)
      == Rejected(InvalidSession)
  {
    var i := FindOne(rows, ActiveDevice(userId, deviceId)).value;
    var previous := rows[i].token;
    var r := LoginRows(rows, userId, deviceId, token, ipAddress, info, now).value;
    ExtractBearer(previous);
    forall j | 0 <= j < |r| ensures r[j].token != previous {
      if j != i {
        assert r[j] == rows[j];
      }
    }
  }

  /** The token a login hands out passes the gate, as long as it verifies to the
      user's id and the user still exists, and the gate finds the login's row. */
  lemma LoginTokenAccepted(
    rows: seq<Session>, userId: nat, deviceId: string, token: string,
    ipAddress: string, info: IpHelper.DeviceInfo, now: int,
    verify: string -> Verification, users: seq<User>)
    requires WellFormed(rows) && token != ""
    requires LoginRows(rows, userId, deviceId, token, ipAddress, info, now).Some?
    requires verify(token).Verified? && verify(token).claims.userId == userId
    requires exists u :: u in users && u.id == userId
    ensures var r := LoginRows(rows, userId, deviceId, token, ipAddress, info, now).value;
      var d := AuthDecision(Some("Bearer " + token), verify, r, users);
      && d.Accepted?
      && d.attached.sessionIndex == FindOne(r, ActiveDevice(userId, deviceId)).value
      && d.attached.user.id == userId
  {
    var r := LoginRows(rows, userId, deviceId, token, ipAddress, info, now).value;
    ExtractBearer(token);
    LoginLeavesOneActive(rows, userId, deviceId, token, ipAddress, info, now);
    LoginKeepsWellFormed(rows, userId, deviceId, token, ipAddress, info, now);
    var k := FindOne(r, ActiveDevice(userId, deviceId)).value;
    assert Selects(ActiveTokenOf(token, userId), r[k]);
    var u :| u in users && u.id == userId;
    assert FindUser(users, IdIs(userId)).Some?;
    match FindOne(r, ActiveTokenOf(token, userId)) {
      case Some(m) => assert r[m].token == r[k].token;
      case None =>
    }
  }

  /** Two logins on one device, then a logout: after the second login the first
      token is refused as an invalid session, the second token can be logged
      out, and after that it is refused too, although both still verify. */
  lemma ReloginThenLogout(
    rows: seq<Session>, userId: nat, deviceId: string, first: string, second: string,
    ipAddress: string, info: IpHelper.DeviceInfo, t1: int, t2: int, t3: int,
    verify: string -> Verification, users: seq<User>)
    requires WellFormed(rows)
    requires first != "" && second != "" && first != second
    requires verify(first).Verified? && verify(second).Verified?
    requires LoginRows(rows, userId, deviceId, first, ipAddress, info, t1).Some?
    requires LoginRows(LoginRows(rows, userId, deviceId, first, ipAddress, info, t1).value,
                       userId, deviceId, second, ipAddress, info, t2).Some?
    ensures var r1 := LoginRows(rows, userId, deviceId, first, ipAddress, info, t1).value;
      var r2 := LoginRows(r1, userId, deviceId, second, ipAddress, info, t2).value;
      && AuthDecision(Some("Bearer " + first), verify, r2, users) == Rejected(InvalidSession)
      && LogoutRows(r2, second, t3).Some?
      && AuthDecision(Some("Bearer " + second), verify, LogoutRows(r2, second, t3).value, users)
         == Rejected(InvalidSession)
  {
    var r1 := LoginRows(rows, userId, deviceId, first, ipAddress, info, t1).value;
    LoginKeepsWellFormed(rows, userId, deviceId, first, ipAddress, info, t1);
    LoginLeavesOneActive(rows, userId, deviceId, first, ipAddress, info, t1);
    ReloginRevokesPreviousToken(r1, userId, deviceId, second, ipAddress, info, t2, verify, users);
    var r2 := LoginRows(r1, userId, deviceId, second, ipAddress, info, t2).value;
    LoginKeepsWellFormed(r1, userId, deviceId, second, ipAddress, info, t2);
    LoginLeavesOneActive(r1, userId, deviceId, second, ipAddress, info, t2);
    var k := FindOne(r2, ActiveDevice(userId, deviceId)).value;
    assert Selects(ActiveToken(second), r2[k]);
    LoggedOutTokenRejected(r2, second, t3, verify, users);
  }
}
