/**
 * The leave-request application of `functions.py`: a users collection, a leaves
 * collection, the browser's `session_token` cookie and the UI session
 * dictionary, held in one `App` object whose methods update them in place.
 *
 * Login keeps a single live session per user: each successful login overwrites
 * the user's `current_session_id` and issues a token carrying that id, and a
 * request is accepted only while the token's `sid` is still the stored one.
 * Leave requests are inserted as `pending` and later approved or rejected by
 * an administrator; approving an annual-leave request debits the named user's
 * `remaining_days`.
 */
module Functions {
  import opened Store
  import Jwt

  /** The leave type whose approval debits the balance ("annual leave"). */
  const AnnualLeave: string := "Nghỉ phép năm"
  const DefaultRole: string := "employee"
  /** The approver recorded when the session dictionary holds no `full_name`. */
  const DefaultApprover: string := "Admin"
  /** Days debited when an annual-leave request carries no `duration`. */
  const DefaultDuration: real := 1.0

  const Pending: string := "pending"
  const Approved: string := "approved"
  const Rejected: string := "rejected"

  /** `STATUS_COLORS` of `settings.py`: the display label of each known status. */
  const StatusColors: map<string, string> := map[
    "pending" := "\U{1F7E1} Chờ duyệt",
    "approved" := "\U{1F7E2} Đã duyệt",
    "rejected" := "\U{1F534} Từ chối"
  ]

  /** The session-dictionary keys `logout` deletes. */
  const LogoutKeys: seq<string> := ["username", "role", "full_name", "position", "department", "remaining_days"]

  /** A document of the users collection; optional fields may be missing from it. */
  datatype UserDoc = UserDoc(
    id: Id,
    username: string,
    password: Option<string>,
    fullName: Option<string>,
    role: Option<string>,
    position: Option<string>,
    department: Option<string>,
    remainingDays: Option<real>,
    currentSessionId: Option<string>,
    lastLoginAt: Option<int>)

  /** A document of the leaves collection. */
  datatype LeaveDoc = LeaveDoc(
    id: Id,
    username: string,
    startDate: string,
    endDate: string,
    duration: Option<real>,
    reason: string,
    leaveType: Option<string>,
    leaveCase: string,
    status: string,
    requestedAt: int,
    approvedBy: Option<Value>,
    approvedAt: Option<int>)

  /** The profile snapshot `get_current_user` returns. */
  datatype UserView = UserView(
    id: Id,
    username: string,
    fullName: string,
    role: string,
    position: string,
    department: string,
    remainingDays: real)

  /** Why `get_current_user` rejected a token (each of these clears the cookie). */
  datatype Rejection = BadToken | MissingClaims | UnknownUser | StaleSession

  /** The outcome of `get_current_user`: no token at all, a rejected token, or the caller. */
  datatype Verdict = NoToken | Refused(why: Rejection) | Accepted(view: UserView)

  /** The credential check of `do_login`. */
  datatype LoginCheck = NoSuchUser | WrongPassword | Match(index: nat)

  // ---------------------------------------------------------------------------
  // Queries on the collections (`find_one` picks the first match)
  // ---------------------------------------------------------------------------

  /** `USERS_COL.find_one({"_id": id})`. */
  function FindUser(users: seq<UserDoc>, id: Id): (r: Option<nat>)
    ensures r.Some? ==> r.value < |users| && users[r.value].id == id
    ensures r.Some? ==> forall j :: 0 <= j < r.value ==> users[j].id != id
    ensures r.None? <==> forall j :: 0 <= j < |users| ==> users[j].id != id
  {
    First(users, (u: UserDoc) => u.id == id)
  }

  /** `USERS_COL.find_one({"username": name})`. */
  function FindUserNamed(users: seq<UserDoc>, name: string): (r: Option<nat>)
    ensures r.Some? ==> r.value < |users| && users[r.value].username == name
    ensures r.Some? ==> forall j :: 0 <= j < r.value ==> users[j].username != name
    ensures r.None? <==> forall j :: 0 <= j < |users| ==> users[j].username != name
  {
    First(users, (u: UserDoc) => u.username == name)
  }

  /** `LEAVES_COL.find_one({"_id": id})`. */
  function FindLeave(leaves: seq<LeaveDoc>, id: Id): (r: Option<nat>)
    ensures r.Some? ==> r.value < |leaves| && leaves[r.value].id == id
    ensures r.Some? ==> forall j :: 0 <= j < r.value ==> leaves[j].id != id
    ensures r.None? <==> forall j :: 0 <= j < |leaves| ==> leaves[j].id != id
  {
    First(leaves, (d: LeaveDoc) => d.id == id)
  }

  /** `_id` is the collection's primary key. */
  ghost predicate DistinctUserIds(users: seq<UserDoc>) {
    forall i, j :: 0 <= i < j < |users| ==> users[i].id != users[j].id
  }

  ghost predicate DistinctLeaveIds(leaves: seq<LeaveDoc>) {
    forall i, j :: 0 <= i < j < |leaves| ==> leaves[i].id != leaves[j].id
  }

  // ---------------------------------------------------------------------------
  // Session check and login
  // ---------------------------------------------------------------------------

  /** The profile `get_current_user` returns for a user document, with its defaults. */
  function Snapshot(u: UserDoc): (v: UserView)
    ensures v.id == u.id && v.username == u.username
    ensures v.fullName == if u.fullName.Some? then u.fullName.value else u.username
    ensures v.role == if u.role.Some? then u.role.value else DefaultRole
    ensures v.position == if u.position.Some? then u.position.value else ""
    ensures v.department == if u.department.Some? then u.department.value else ""
    ensures v.remainingDays == if u.remainingDays.Some? then u.remainingDays.value else 0.0
  {
    UserView(u.id, u.username, u.fullName.GetOr(u.username), u.role.GetOr(DefaultRole),
             u.position.GetOr(""), u.department.GetOr(""), u.remainingDays.GetOr(0.0))
  }

  /** Both `sub` and `sid` are present and non-empty (Python's `not value` is false). */
  predicate NamesSession(c: Jwt.Claims) {
    c.sub.Some? && c.sub.value != "" && c.sid.Some? && c.sid.value != ""
  }

  /**
   * The decision `get_current_user` takes on the cookie text `token` at time `now`.
   * A token is accepted exactly when it is a genuine, unexpired token naming an
   * existing user and its session id is that user's `current_session_id`.
   */
  function Check(users: seq<UserDoc>, codec: Jwt.Codec, token: string, now: int): (r: Verdict)
    ensures r == NoToken <==> token == ""
    ensures r == Refused(BadToken) <==> token != "" && Jwt.Verify(codec, token, now).None?
    ensures r == Refused(MissingClaims) <==>
      token != "" && Jwt.Verify(codec, token, now).Some? && !NamesSession(Jwt.Verify(codec, token, now).value)
    ensures r == Refused(UnknownUser) <==>
      token != "" && Jwt.Verify(codec, token, now).Some? && NamesSession(Jwt.Verify(codec, token, now).value) &&
      forall j :: 0 <= j < |users| ==> users[j].id != Jwt.Verify(codec, token, now).value.sub.value
    ensures r.Accepted? ==>
      var c := Jwt.Verify(codec, token, now).value;
      token != "" && Jwt.Verify(codec, token, now).Some? && NamesSession(c) &&
      exists i :: 0 <= i < |users| && Some(users[i].id) == c.sub &&
        users[i].currentSessionId == c.sid && r.view == Snapshot(users[i])
    ensures r == Refused(StaleSession) ==>
      var c := Jwt.Verify(codec, token, now).value;
      Jwt.Verify(codec, token, now).Some? && NamesSession(c) &&
      exists i :: 0 <= i < |users| && Some(users[i].id) == c.sub && users[i].currentSessionId != c.sid
  {
    if token == "" then NoToken
    else match Jwt.Verify(codec, token, now)
      case None => Refused(BadToken)
      case Some(c) =>
        if !NamesSession(c) then Refused(MissingClaims)
        else match FindUser(users, c.sub.value)
          case None => Refused(UnknownUser)
          case Some(i) =>
            if users[i].currentSessionId != c.sid then Refused(StaleSession)
            else Accepted(Snapshot(users[i]))
  }

  /** The credential check of `do_login`: the first user with that name, and an exact password match. */
  function LoginTarget(users: seq<UserDoc>, username: string, password: string): (r: LoginCheck)
    ensures r == NoSuchUser <==> forall j :: 0 <= j < |users| ==> users[j].username != username
    ensures r.Match? ==>
      r.index < |users| && users[r.index].username == username && users[r.index].password == Some(password) &&
      forall j :: 0 <= j < r.index ==> users[j].username != username
    ensures r == WrongPassword ==>
      exists i :: 0 <= i < |users| && users[i].username == username && users[i].password != Some(password) &&
        forall j :: 0 <= j < i ==> users[j].username != username
  {
    match FindUserNamed(users, username)
    case None => NoSuchUser
    case Some(i) => if users[i].password != Some(password) then WrongPassword else Match(i)
  }

  /** The `$set` of `do_login`: user `i` gets the new session id and login time, no one else changes. */
  function StartSession(users: seq<UserDoc>, i: nat, sessionId: string, now: int): (r: seq<UserDoc>)
    requires i < |users|
    ensures |r| == |users|
    ensures r[i] == users[i].(currentSessionId := Some(sessionId), lastLoginAt := Some(now))
    ensures forall j :: 0 <= j < |users| && j != i ==> r[j] == users[j]
  {
    users[i := users[i].(currentSessionId := Some(sessionId), lastLoginAt := Some(now))]
  }

  /**
   * What `do_login` copies into the session dictionary: the profile with the
   * same defaults as `get_current_user`, and the `rerun_needed` flag.
   */
  function LoginState(u: UserDoc): (r: map<string, Value>)
    ensures r.Keys == {"username", "full_name", "role", "position", "department", "remaining_days", "rerun_needed"}
    ensures r["username"] == Text(u.username)
    ensures r["full_name"] == Text(if u.fullName.Some? then u.fullName.value else u.username)
    ensures r["role"] == Text(if u.role.Some? then u.role.value else DefaultRole)
    ensures r["position"] == Text(if u.position.Some? then u.position.value else "")
    ensures r["department"] == Text(if u.department.Some? then u.department.value else "")
    ensures r["remaining_days"] == Number(if u.remainingDays.Some? then u.remainingDays.value else 0.0)
    ensures r["rerun_needed"] == Flag(true)
  {
    var v := Snapshot(u);
    map[
      "username" := Text(v.username),
      "full_name" := Text(v.fullName),
      "role" := Text(v.role),
      "position" := Text(v.position),
      "department" := Text(v.department),
      "remaining_days" := Number(v.remainingDays),
      "rerun_needed" := Flag(true)
    ]
  }

  // ---------------------------------------------------------------------------
  // Leave requests
  // ---------------------------------------------------------------------------

  /** The document `request_leave` and `send_leave_request` insert. */
  function NewLeave(id: Id, username: string, startDate: string, endDate: string, duration: real,
                    reason: string, leaveType: string, leaveCase: string, now: int): (d: LeaveDoc)
    ensures d.status == Pending && d.approvedBy.None? && d.approvedAt.None?
    ensures d.id == id && d.username == username && d.startDate == startDate && d.endDate == endDate
    ensures d.duration == Some(duration) && d.reason == reason
    ensures d.leaveType == Some(leaveType) && d.leaveCase == leaveCase && d.requestedAt == now
  {
    LeaveDoc(id, username, startDate, endDate, Some(duration), reason, Some(leaveType), leaveCase,
             Pending, now, None, None)
  }

  /**
   * `LEAVES_COL.find({"username": u})`: the requests of `u`, each as often as it
   * occurs in the collection; `OwnedByConcat` states that collection order is kept.
   */
  function OwnedBy(leaves: seq<LeaveDoc>, u: string): (r: seq<LeaveDoc>)
    ensures |r| <= |leaves|
    ensures forall d :: d in r <==> d in leaves && d.username == u
    ensures forall d :: multiset(r)[d] == if d.username == u then multiset(leaves)[d] else 0
  {
    if |leaves| == 0 then []
    else
      assert leaves == [leaves[0]] + leaves[1..];
      (if leaves[0].username == u then [leaves[0]] else []) + OwnedBy(leaves[1..], u)
  }

  /** `view_leaves(username)`: an empty or missing name lists every request. */
  function ViewLeaves(leaves: seq<LeaveDoc>, username: Option<string>): (r: seq<LeaveDoc>)
    ensures username == None || username == Some("") ==> r == leaves
    ensures username.Some? && username.value != "" ==>
      forall d :: d in r <==> d in leaves && d.username == username.value
    ensures username.Some? && username.value != "" ==>
      forall d :: multiset(r)[d] == if d.username == username.value then multiset(leaves)[d] else 0
  {
    if username.Some? && username.value != "" then OwnedBy(leaves, username.value) else leaves
  }

  /** `update_leave_status`: only the `status` of the first request with that id changes. */
  function SetStatus(leaves: seq<LeaveDoc>, id: Id, status: string): (r: seq<LeaveDoc>)
    ensures |r| == |leaves|
    ensures FindLeave(leaves, id).None? ==> r == leaves
    ensures FindLeave(leaves, id).Some? ==>
      var k := FindLeave(leaves, id).value;
      r[k] == leaves[k].(status := status) &&
      forall j :: 0 <= j < |leaves| && j != k ==> r[j] == leaves[j]
  {
    match FindLeave(leaves, id)
    case None => leaves
    case Some(k) => leaves[k := leaves[k].(status := status)]
  }

  /**
   * The `$set` of `approve_leave` and `reject_leave`: the first request with that
   * id gets its status, approver and decision time together; nothing else changes.
   */
  function Decide(leaves: seq<LeaveDoc>, id: Id, status: string, approver: Value, at: int): (r: seq<LeaveDoc>)
    ensures |r| == |leaves|
    ensures FindLeave(leaves, id).None? ==> r == leaves
    ensures FindLeave(leaves, id).Some? ==>
      var k := FindLeave(leaves, id).value;
      r[k] == leaves[k].(status := status, approvedBy := Some(approver), approvedAt := Some(at)) &&
      forall j :: 0 <= j < |leaves| && j != k ==> r[j] == leaves[j]
  {
    match FindLeave(leaves, id)
    case None => leaves
    case Some(k) => leaves[k := leaves[k].(status := status, approvedBy := Some(approver), approvedAt := Some(at))]
  }

  /** `st.session_state.get("full_name", "Admin")`: the approver recorded on a decision. */
  function Approver(state: map<string, Value>): (r: Value)
    ensures "full_name" in state ==> r == state["full_name"]
    ensures "full_name" !in state ==> r == Text(DefaultApprover)
  {
    if "full_name" in state then state["full_name"] else Text(DefaultApprover)
  }

  /** The days an approval debits: the duration (default 1) of an annual-leave request, nothing otherwise. */
  function ApprovalDebit(d: LeaveDoc): (r: Option<real>)
    ensures r.Some? <==> d.leaveType == Some(AnnualLeave)
    ensures r.Some? ==> r.value == if d.duration.Some? then d.duration.value else DefaultDuration
  {
    if d.leaveType == Some(AnnualLeave) then Some(d.duration.GetOr(DefaultDuration)) else None
  }

  /**
   * `$inc: {remaining_days: -amount}` on the first user with that name; a
   * missing balance counts as 0, and no user with that name means no change.
   */
  function Debit(users: seq<UserDoc>, name: string, amount: real): (r: seq<UserDoc>)
    ensures |r| == |users|
    ensures FindUserNamed(users, name).None? ==> r == users
    ensures FindUserNamed(users, name).Some? ==>
      var k := FindUserNamed(users, name).value;
      r[k] == users[k].(remainingDays := Some(users[k].remainingDays.GetOr(0.0) - amount)) &&
      forall j :: 0 <= j < |users| && j != k ==> r[j] == users[j]
  {
    match FindUserNamed(users, name)
    case None => users
    case Some(k) => users[k := users[k].(remainingDays := Some(users[k].remainingDays.GetOr(0.0) - amount))]
  }

  /** The two collections `approve_leave` writes. */
  datatype Tables = Tables(users: seq<UserDoc>, leaves: seq<LeaveDoc>)

  /**
   * The effect of `approve_leave` on both collections: the request is marked
   * approved, then the named user is debited when the request (as read before
   * the update) is annual leave. A missing request debits nobody.
   */
  function Approval(users: seq<UserDoc>, leaves: seq<LeaveDoc>, id: Id, name: string, approver: Value, at: int): (r: Tables)
    ensures r.leaves == Decide(leaves, id, Approved, approver, at)
    ensures FindLeave(leaves, id).None? ==> r.users == users
    ensures FindLeave(leaves, id).Some? && ApprovalDebit(leaves[FindLeave(leaves, id).value]).None? ==> r.users == users
    ensures FindLeave(leaves, id).Some? && ApprovalDebit(leaves[FindLeave(leaves, id).value]).Some? ==>
      r.users == Debit(users, name, ApprovalDebit(leaves[FindLeave(leaves, id).value]).value)
  {
    var decided := Decide(leaves, id, Approved, approver, at);
    match FindLeave(leaves, id)
    case None => Tables(users, decided)
    case Some(k) =>
      match ApprovalDebit(leaves[k])
      case None => Tables(users, decided)
      case Some(a) => Tables(Debit(users, name, a), decided)
  }

  /** The balance of the first user with that name, as `get_current_user` would report it. */
  function Balance(users: seq<UserDoc>, name: string): Option<real> {
    match FindUserNamed(users, name)
    case None => None
    case Some(k) => Some(users[k].remainingDays.GetOr(0.0))
  }

  /** `status_badge`: the label of a known status, any other status unchanged. */
  function StatusBadge(status: string): (r: string)
    ensures status == Pending ==> r == "\U{1F7E1} Chờ duyệt"
    ensures status == Approved ==> r == "\U{1F7E2} Đã duyệt"
    ensures status == Rejected ==> r == "\U{1F534} Từ chối"
    ensures r == status <==> status != Pending && status != Approved && status != Rejected
  {
    if status in StatusColors then StatusColors[status] else status
  }

  // ---------------------------------------------------------------------------
  // The application state
  // ---------------------------------------------------------------------------

  class App {
    /** The JWT encoder and decoder under the server's secret. */
    const codec: Jwt.Codec
    var users: seq<UserDoc>
    var leaves: seq<LeaveDoc>
    /** `COOKIES["session_token"]`; "" when absent or cleared. */
    var cookie: string
    /** `st.session_state`. */
    var sessionState: map<string, Value>

    ghost predicate Valid()
      reads this
    {
      DistinctUserIds(users) && DistinctLeaveIds(leaves)
    }

    constructor (codec: Jwt.Codec, users: seq<UserDoc>, leaves: seq<LeaveDoc>, cookie: string,
                 sessionState: map<string, Value>)
      requires DistinctUserIds(users) && DistinctLeaveIds(leaves)
      ensures Valid()
      ensures this.codec == codec && this.users == users && this.leaves == leaves
      ensures this.cookie == cookie && this.sessionState == sessionState
    {
      this.codec := codec;
      this.users := users;
      this.leaves := leaves;
      this.cookie := cookie;
      this.sessionState := sessionState;
    }

    /**
     * `get_current_user()` at time `now`: the caller's profile when the cookie
     * holds an accepted token. A rejected token clears the cookie; no token
     * leaves everything as it is. No collection changes.
     */
    method GetCurrentUser(now: int) returns (user: Option<UserView>)
      requires Valid()
      modifies this`cookie
      ensures Valid()
      ensures var v := Check(users, codec, old(cookie), now);
        user == (if v.Accepted? then Some(v.view) else None) &&
        cookie == (if v.Refused? then "" else old(cookie))
    {
      var token := cookie;
      if token == "" {
        return None;
      }
      var payload := Jwt.Verify(codec, token, now);
      if payload.None? {
        cookie := "";
        return None;
      }
      var userId, sessionId := payload.value.sub, payload.value.sid;
      if userId.None? || userId.value == "" || sessionId.None? || sessionId.value == "" {
        cookie := "";
        return None;
      }
      var found := FindUser(users, userId.value);
      if found.None? {
        cookie := "";
        return None;
      }
      var u := users[found.value];
      if u.currentSessionId != sessionId {
        cookie := "";
        return None;
      }
      return Some(Snapshot(u));
    }

    /**
     * `do_login(username, password)`, with `sessionId` the fresh `uuid4` and
     * `now` the login time. On a bad name or password nothing changes.
     */
    method DoLogin(username: string, password: string, sessionId: string, now: int) returns (ok: bool)
      requires Valid()
      modifies this`users, this`cookie, this`sessionState
      ensures Valid()
      ensures ok <==> LoginTarget(old(users), username, password).Match?
      ensures !ok ==> users == old(users) && cookie == old(cookie) && sessionState == old(sessionState)
      ensures ok ==>
        var i := LoginTarget(old(users), username, password).index;
        users == StartSession(old(users), i, sessionId, now) &&
        cookie == Jwt.Issue(codec, old(users)[i].id, sessionId, now).token &&
        sessionState == old(sessionState) + LoginState(old(users)[i])
    {
      var found := FindUserNamed(users, username);
      if found.None? {
        return false;
      }
      var user := users[found.value];
      if user.password != Some(password) {
        return false;
      }
      // The update is addressed by `_id`, which picks out this same user.
      FindUserDistinct(users, found.value);
      var target := FindUser(users, user.id);
      StartSessionKeepsIds(users, target.value, sessionId, now);
      users := StartSession(users, target.value, sessionId, now);
      var issued := Jwt.Issue(codec, user.id, sessionId, now);
      cookie := issued.token;
      sessionState := sessionState + LoginState(user);
      return true;
    }

    /** `logout()`: clears the cookie and drops the profile keys from the session dictionary. */
    method Logout()
      requires Valid()
      modifies this`cookie, this`sessionState
      ensures Valid()
      ensures cookie == ""
      ensures sessionState == (old(sessionState) - set k | k in LogoutKeys)["rerun_needed" := Flag(true)]
    {
      cookie := "";
      var i := 0;
      while i < |LogoutKeys|
        invariant 0 <= i <= |LogoutKeys|
        invariant cookie == ""
        invariant sessionState == old(sessionState) - set k | k in LogoutKeys[..i]
      {
        var k := LogoutKeys[i];
        if k in sessionState {
          sessionState := sessionState - {k};
        }
        i := i + 1;
      }
      assert LogoutKeys[..i] == LogoutKeys;
      assert (set k | k in LogoutKeys[..i]) == set k | k in LogoutKeys;
      sessionState := sessionState["rerun_needed" := Flag(true)];
    }

    /** `request_leave(...)`, with `id` the fresh `ObjectId` and `now` the request time. */
    method RequestLeave(id: Id, username: string, startDate: string, endDate: string, duration: real,
                        reason: string, leaveType: string, leaveCase: string, now: int)
      requires Valid()
      requires FindLeave(leaves, id).None?
      modifies this`leaves
      ensures Valid()
      ensures leaves == old(leaves) + [NewLeave(id, username, startDate, endDate, duration, reason, leaveType, leaveCase, now)]
    {
      leaves := leaves + [NewLeave(id, username, startDate, endDate, duration, reason, leaveType, leaveCase, now)];
    }

    /** `send_leave_request(...)`: the same insertion as `request_leave`, followed by a UI message. */
    method SendLeaveRequest(id: Id, username: string, startDate: string, endDate: string, duration: real,
                            reason: string, leaveType: string, leaveCase: string, now: int)
      requires Valid()
      requires FindLeave(leaves, id).None?
      modifies this`leaves
      ensures Valid()
      ensures leaves == old(leaves) + [NewLeave(id, username, startDate, endDate, duration, reason, leaveType, leaveCase, now)]
    {
      RequestLeave(id, username, startDate, endDate, duration, reason, leaveType, leaveCase, now);
    }

    /** `update_leave_status(leave_id, new_status)`. */
    method UpdateLeaveStatus(leaveId: Id, newStatus: string)
      requires Valid()
      modifies this`leaves
      ensures Valid()
      ensures leaves == SetStatus(old(leaves), leaveId, newStatus)
    {
      leaves := SetStatus(leaves, leaveId, newStatus);
    }

    /**
     * `approve_leave(l_id, user_name)` at time `now`. The status update and the
     * balance debit are two separate writes, in this order. The current status
     * is not checked, so approving again debits again. When no request has that
     * id the update matches nothing and the source then fails reading the
     * missing request: `found` is false and nothing has changed.
     */
    method ApproveLeave(leaveId: Id, userName: string, now: int) returns (found: bool)
      requires Valid()
      modifies this`leaves, this`users, this`sessionState
      ensures Valid()
      ensures found <==> FindLeave(old(leaves), leaveId).Some?
      ensures Tables(users, leaves) == Approval(old(users), old(leaves), leaveId, userName, Approver(old(sessionState)), now)
      ensures leaves == Decide(old(leaves), leaveId, Approved, Approver(old(sessionState)), now)
      ensures !found ==> users == old(users) && sessionState == old(sessionState)
      ensures found ==>
        var debit := ApprovalDebit(old(leaves)[FindLeave(old(leaves), leaveId).value]);
        users == (if debit.Some? then Debit(old(users), userName, debit.value) else old(users)) &&
        sessionState == old(sessionState)["rerun_needed" := Flag(true)]
    {
      var leave := FindLeave(leaves, leaveId);
      var before := leaves;
      leaves := Decide(leaves, leaveId, Approved, Approver(sessionState), now);
      if leave.None? {
        return false;
      }
      var d := before[leave.value];
      if d.leaveType == Some(AnnualLeave) {
        users := Debit(users, userName, d.duration.GetOr(DefaultDuration));
      }
      sessionState := sessionState["rerun_needed" := Flag(true)];
      return true;
    }

    /** `reject_leave(l_id, user_name)` at time `now`: records the decision, never touches a balance. */
    method RejectLeave(leaveId: Id, userName: string, now: int)
      requires Valid()
      modifies this`leaves, this`sessionState
      ensures Valid()
      ensures leaves == Decide(old(leaves), leaveId, Rejected, Approver(old(sessionState)), now)
      ensures users == old(users)
      ensures sessionState == old(sessionState)["rerun_needed" := Flag(true)]
    {
      leaves := Decide(leaves, leaveId, Rejected, Approver(sessionState), now);
      sessionState := sessionState["rerun_needed" := Flag(true)];
    }
  }

  // ---------------------------------------------------------------------------
  // Properties
  // ---------------------------------------------------------------------------

  /** With distinct ids, the user found by `_id` is the one with that id. */
  lemma FindUserDistinct(users: seq<UserDoc>, i: nat)
    requires DistinctUserIds(users) && i < |users|
    ensures FindUser(users, users[i].id) == Some(i)
  {
  }

  /** A login changes no `_id`, so the ids stay distinct. */
  lemma StartSessionKeepsIds(users: seq<UserDoc>, i: nat, sessionId: string, now: int)
    requires DistinctUserIds(users) && i < |users|
    ensures DistinctUserIds(StartSession(users, i, sessionId, now))
  {
    var after := StartSession(users, i, sessionId, now);
    forall a, b | 0 <= a < b < |after| ensures after[a].id != after[b].id {
      assert after[a].id == users[a].id && after[b].id == users[b].id;
    }
  }

  /** A successful login's token is accepted, until it expires, as that user's current session. */
  lemma LoginThenAccepted(users: seq<UserDoc>, codec: Jwt.Codec, i: nat, sessionId: string, loginAt: int, now: int)
    requires Jwt.Lawful(codec)
    requires DistinctUserIds(users) && i < |users|
    requires users[i].id != "" && sessionId != ""
    requires now < loginAt + Jwt.SessionDurationSeconds
    ensures var after := StartSession(users, i, sessionId, loginAt);
      Check(after, codec, Jwt.Issue(codec, users[i].id, sessionId, loginAt).token, now) == Accepted(Snapshot(after[i]))
  {
    var after := StartSession(users, i, sessionId, loginAt);
    StartSessionKeepsIds(users, i, sessionId, loginAt);
    FindUserDistinct(after, i);
  }

  /**
   * One live session per user: once the same user logs in again with a new session
   * id, a token issued by the earlier login is refused (and so clears the cookie).
   */
  lemma LaterLoginEvictsEarlierToken(users: seq<UserDoc>, codec: Jwt.Codec, i: nat,
                                     first: string, firstAt: int, second: string, secondAt: int, now: int)
    requires Jwt.Lawful(codec)
    requires DistinctUserIds(users) && i < |users|
    requires first != second
    ensures var after := StartSession(StartSession(users, i, first, firstAt), i, second, secondAt);
      Check(after, codec, Jwt.Issue(codec, users[i].id, first, firstAt).token, now).Refused?
  {
    var mid := StartSession(users, i, first, firstAt);
    var after := StartSession(mid, i, second, secondAt);
    StartSessionKeepsIds(users, i, first, firstAt);
    StartSessionKeepsIds(mid, i, second, secondAt);
    FindUserDistinct(after, i);
  }

  /** Filtering by owner distributes over concatenation, so it keeps collection order. */
  lemma {:induction false} OwnedByConcat(a: seq<LeaveDoc>, b: seq<LeaveDoc>, u: string)
    ensures OwnedBy(a + b, u) == OwnedBy(a, u) + OwnedBy(b, u)
  {
    if |a| == 0 {
      assert a + b == b;
    } else {
      assert (a + b)[0] == a[0];
      assert (a + b)[1..] == a[1..] + b;
      OwnedByConcat(a[1..], b, u);
    }
  }

  /** Submitting a request appends it to its owner's list and leaves every other list as it was. */
  lemma SubmitThenView(leaves: seq<LeaveDoc>, d: LeaveDoc, u: string)
    ensures OwnedBy(leaves + [d], u) == OwnedBy(leaves, u) + (if d.username == u then [d] else [])
  {
    OwnedByConcat(leaves, [d], u);
    assert [d][1..] == [];
  }

  /**
   * Approval does not check the current status: an approved annual-leave request
   * stays debitable, so approving it a second time debits the named user again.
   */
  lemma RepeatedApprovalDebitsAgain(users: seq<UserDoc>, leaves: seq<LeaveDoc>, id: Id, name: string,
                                    firstBy: Value, firstAt: int, secondBy: Value, secondAt: int)
    requires FindLeave(leaves, id).Some?
    requires ApprovalDebit(leaves[FindLeave(leaves, id).value]).Some?
    requires FindUserNamed(users, name).Some?
    ensures var k := FindLeave(leaves, id).value;
      var a := ApprovalDebit(leaves[k]).value;
      var once := Approval(users, leaves, id, name, firstBy, firstAt);
      var twice := Approval(once.users, once.leaves, id, name, secondBy, secondAt);
      once.leaves[k].status == Approved && twice.leaves[k].status == Approved &&
      Balance(once.users, name) == Some(Balance(users, name).value - a) &&
      Balance(twice.users, name) == Some(Balance(users, name).value - a - a)
  {
    var k := FindLeave(leaves, id).value;
    var a := ApprovalDebit(leaves[k]).value;
    DecideKeepsTarget(leaves, id, Approved, firstBy, firstAt);
    DebitKeepsTarget(users, name, a);
    DebitKeepsTarget(Debit(users, name, a), name, a);
  }

  /** A decision changes no id or type, so the same request stays targeted and debitable. */
  lemma DecideKeepsTarget(leaves: seq<LeaveDoc>, id: Id, status: string, approver: Value, at: int)
    requires FindLeave(leaves, id).Some?
    ensures var after := Decide(leaves, id, status, approver, at);
      var k := FindLeave(leaves, id).value;
      FindLeave(after, id) == Some(k) && ApprovalDebit(after[k]) == ApprovalDebit(leaves[k])
  {
    var after := Decide(leaves, id, status, approver, at);
    assert forall j :: 0 <= j < |leaves| ==> after[j].id == leaves[j].id;
  }

  /** A debit changes no username, so the same user stays the first with that name. */
  lemma DebitKeepsTarget(users: seq<UserDoc>, name: string, amount: real)
    ensures FindUserNamed(Debit(users, name, amount), name) == FindUserNamed(users, name)
  {
    var after := Debit(users, name, amount);
    assert forall j :: 0 <= j < |users| ==> after[j].username == users[j].username;
  }
}
