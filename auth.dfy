/**
 * The older session-document lookup of `auth.py`: the cookie holds an opaque
 * session token, and a server-side session document with that token and an
 * expiry time names the caller. It is a read-only lookup, so it is a function:
 * it can change neither the sessions collection nor the cookie.
 */
module Auth {
  import opened Store

  /** A document of the sessions collection. */
  datatype SessionDoc = SessionDoc(token: string, username: string, role: string, expiredAt: int)

  /** What the lookup returns: `{"username": …, "role": …}`. */
  datatype Identity = Identity(username: string, role: string)

  /** `SESSIONS_COL.find_one({"token": token})`: the first session document with that token. */
  function FindSession(sessions: seq<SessionDoc>, token: string): (r: Option<nat>)
    ensures r.Some? ==> r.value < |sessions| && sessions[r.value].token == token
    ensures r.Some? ==> forall j :: 0 <= j < r.value ==> sessions[j].token != token
    ensures r.None? <==> forall j :: 0 <= j < |sessions| ==> sessions[j].token != token
  {
    First(sessions, (s: SessionDoc) => s.token == token)
  }

  /**
   * `get_current_user()` of `auth.py`, with the cookie's `session_token` ("" when
   * absent) and the current time as parameters. A session whose `expired_at`
   * equals `now` is still accepted: only a strictly earlier expiry rejects.
   */
  function CurrentUser(sessions: seq<SessionDoc>, cookie: string, now: int): (r: Option<Identity>)
    ensures cookie == "" ==> r.None?
    ensures (forall j :: 0 <= j < |sessions| ==> sessions[j].token != cookie) ==> r.None?
    ensures r.Some? <==>
      cookie != "" &&
      exists i :: 0 <= i < |sessions| && sessions[i].token == cookie &&
        (forall j :: 0 <= j < i ==> sessions[j].token != cookie) &&
        now <= sessions[i].expiredAt
    ensures forall i ::
      (0 <= i < |sessions| && sessions[i].token == cookie &&
       (forall j :: 0 <= j < i ==> sessions[j].token != cookie)) ==>
      (r.Some? <==> cookie != "" && now <= sessions[i].expiredAt) &&
      (r.Some? ==> r.value == Identity(sessions[i].username, sessions[i].role))
  {
    if cookie == "" then None
    else match FindSession(sessions, cookie)
      case None => None
      case Some(i) =>
        if sessions[i].expiredAt < now then None
        else Some(Identity(sessions[i].username, sessions[i].role))
  }
}
