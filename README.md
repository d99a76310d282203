# Leave-request workflow and session check, modelled in Dafny

This project models the core of a small leave-management application. Employees file
time-off requests. Administrators approve or reject them. Approving an annual-leave
request ("Nghỉ phép năm") debits the named user's `remaining_days`.

Callers are identified by a signed session token (a JSON Web Token) kept in the browser's
`session_token` cookie. Each successful login overwrites the user's
`current_session_id`. A token is accepted only while its `sid` claim is still that stored
id, so every user has at most one live session.

Modules, one per Dafny file:

- `Store` (`store.dfy`): an optional field (`Option`, with `GetOr` as Python's
  `dict.get(key, default)`), the first-match search behind every `find_one` and
  `update_one` (`First`), and the values of the UI session dictionary.
- `Jwt` (`jwt.dfy`): the token claims (`sub`, `sid`, `exp`), token issue (`create_jwt`)
  and token check (`verify_jwt`).
  - Tokens are HS256 JSON Web Tokens (section 3.2 of RFC 7518). Their serialisation and
    HMAC stay abstract: a `Codec` pairs the signing encoder with the decoder.
  - `Lawful(codec)` says that what the server signed decodes back to the same claims with
    a valid signature.
  - Expiry follows section 4.1.4 of RFC 7519: a token is live only while `now < exp`.
- `Functions` (`functions.py`): the `App` class. It holds the users and leaves collections,
  the cookie and the session dictionary, and its methods update them in place. Beside it
  are the pure functions that specify those methods, and lemmas about them.
- `Auth` (`auth.py`): the older session-document lookup, as a pure function of the
  sessions collection, the cookie and the time.

A MongoDB collection is a sequence of documents in natural order. `find_one` and
`update_one` act on the first document that matches their filter. `view_leaves` returns
documents in collection order. `_id` is a primary key, so ids are distinct; this is the
`App.Valid()` invariant. The fresh `uuid4` session id, the fresh `ObjectId` of an
inserted request, and the current time (integer seconds) are method parameters.

Three facts about the code shape the model:

- `approve_leave` and `reject_leave` do not check that the request is still `pending`.
  Approving twice therefore debits twice (`RepeatedApprovalDebitsAgain`).
- Neither `request_leave` nor `send_leave_request` rejects an empty reason.
- The status update and the balance debit are two separate writes. The model makes them
  sequential steps of one method and claims no atomicity.

## Model

| member | source | states |
|---|---|---|
| `Jwt.Issue` | functions.py:18-27 | The token expires 8 hours (28800 s) after issue. Under a lawful codec it is non-empty, and verifying it at any time before expiry yields exactly the claims `{sub: user id, sid: session id, exp}`; at or after expiry it yields nothing. |
| `Jwt.Verify` | functions.py:30-36 | Returns claims only for a text that decodes to a token with a valid signature, and only when that token has not expired (`now < exp`, or no `exp`). Every such token is returned; a malformed, forged or expired token gives `None`. |
| `Store.First` | functions.py:90 | The first index whose document satisfies the filter; none exactly when no document does. This is the document `find_one` returns and `update_one` changes. |
| `Functions.FindUser` | functions.py:61 | `find_one` by `_id`: the first user with that id, or none exactly when no user has it. |
| `Functions.FindUserNamed` | functions.py:90 | `find_one` by `username`: the first user with that name, or none exactly when no user has it. |
| `Functions.FindLeave` | functions.py:208 | `find_one` of a leave request by `_id`: the first request with that id, or none exactly when none has it. |
| `Functions.Snapshot` | functions.py:73-81 | The returned profile copies id and username. `full_name` defaults to the username, `role` to `"employee"`, `position` and `department` to `""`, `remaining_days` to 0. |
| `Functions.Check` | functions.py:41-81 | An empty cookie is "no token". A token that does not verify, or lacks a non-empty `sub` or `sid`, is refused. A token naming no user is refused. A token is accepted only if it verifies, names a user, and carries that user's `current_session_id`; the result is then that user's snapshot. A mismatching session id is refused. |
| `Functions.App.GetCurrentUser` | functions.py:41-81 | Returns the profile exactly when `Check` accepts the cookie. It clears the cookie exactly when `Check` refuses it, and leaves it alone when there is no token. It changes nothing else. |
| `Functions.LoginTarget` | functions.py:90-100 | Login fails as unknown user exactly when no user has that name. Otherwise the first user with that name is used. Login succeeds only when that user's stored password equals the given one exactly. |
| `Functions.StartSession` | functions.py:103-105 | The logged-in user gets the new `current_session_id` and `last_login_at`. No other field changes and no other user changes. |
| `Functions.LoginState` | functions.py:114-122 | The session dictionary gets exactly the keys `username`, `full_name`, `role`, `position`, `department`, `remaining_days` and `rerun_needed`. `full_name` defaults to the username, `role` to `"employee"`, `position` and `department` to `""`, `remaining_days` to 0; `rerun_needed` is true. |
| `Functions.App.DoLogin` | functions.py:84-129 | Returns true exactly when the credentials match. On failure the users, the cookie and the session dictionary are unchanged. On success the user is updated by `_id`, the cookie holds the token issued for that user and session id, and the profile is copied into the session dictionary. The leaves are untouched. |
| `Functions.LoginThenAccepted` | functions.py:103-111 | After a successful login (non-empty id and session id), the issued token is accepted until it expires. The result is the snapshot of the updated user. |
| `Functions.LaterLoginEvictsEarlierToken` | functions.py:68-71 | After the same user logs in again with a different session id, `get_current_user` refuses the token from the earlier login, and so clears the cookie. |
| `Functions.App.Logout` | functions.py:132-138 | The cookie becomes `""`, so the next `Check` finds no token. The six profile keys are removed from the session dictionary and `rerun_needed` is set. Nothing else changes. |
| `Functions.NewLeave` | functions.py:150-162 | The inserted request is `pending` with no approver and no approval time. It carries the given id, username, dates, duration, reason, type, case and request time unchanged. |
| `Functions.App.RequestLeave` | functions.py:145-162 | Appends exactly one new request (`NewLeave`) under a fresh id. Existing requests and everything else are untouched. |
| `Functions.App.SendLeaveRequest` | functions.py:180-200 | The same single insertion as `request_leave`. |
| `Functions.OwnedBy` | functions.py:167 | The filtered list holds exactly the requests whose username is the given one, each as many times as it occurs in the collection, and no other. It is no longer than the collection. |
| `Functions.OwnedByConcat` | functions.py:167 | Filtering a concatenation is the concatenation of the filtered parts, so the filtered list keeps collection order. |
| `Functions.ViewLeaves` | functions.py:165-168 | A non-empty username lists exactly the requests of that user, each with its multiplicity in the collection, in collection order (it is `OwnedBy`). A missing or empty username lists the whole collection. |
| `Functions.SubmitThenView` | functions.py:145-168 | Filing a request appends it at the end of its owner's list. Every other user's list is unchanged. |
| `Functions.SetStatus` | functions.py:171-173 | Only `status` of the first request with that id changes. Every other request is unchanged. With no such request nothing changes. |
| `Functions.App.UpdateLeaveStatus` | functions.py:171-173 | The leaves become `SetStatus` of the old leaves; users, cookie and session dictionary are untouched. |
| `Functions.Decide` | functions.py:210-214 | The targeted request gets its status, its approver and its decision time together. No other request changes. With no such request nothing changes. |
| `Functions.Approver` | functions.py:212 | The approver is the session's `full_name` when it has one, and `"Admin"` otherwise. |
| `Functions.ApprovalDebit` | functions.py:215-216 | An approval debits something exactly when the type is annual leave. The amount is the request's duration, or 1 when it has none. |
| `Functions.Debit` | functions.py:217-218 | `$inc` of `-amount` on the first user with that name, a missing balance counting as 0. No other user changes. With no such user nothing changes. |
| `Functions.Approval` | functions.py:208-218 | Both collections after an approval: the request is decided as `approved`. The named user is debited by the request's amount exactly when the request, as read before the update, is annual leave. A missing request debits nobody. |
| `Functions.App.ApproveLeave` | functions.py:203-223 | Records `approved`, the approver (session `full_name`, else `"Admin"`) and the time. The named user is debited exactly when the request is annual leave. The current status is not checked. A missing request changes nothing and reports failure. |
| `Functions.RepeatedApprovalDebitsAgain` | functions.py:208-218 | Approving the same annual-leave request twice, for an existing user, leaves it `approved` each time and lowers that user's balance by its amount after the first approval and by twice its amount after the second. |
| `Functions.DecideKeepsTarget` | functions.py:208-214 | A decision changes no id and no type, so a second `find_one` by the same id finds the same request, still debitable by the same amount. |
| `Functions.DebitKeepsTarget` | functions.py:217-218 | A debit changes no username, so the same user stays the first with that name. |
| `Functions.App.RejectLeave` | functions.py:226-241 | Records `rejected`, the approver and the time. No balance changes. |
| `Functions.StatusBadge` | functions.py:176-177 | `pending`, `approved` and `rejected` map to their labels from `STATUS_COLORS` (settings.py:23-27). Exactly the other strings are returned unchanged. |
| `Auth.FindSession` | auth.py:10 | `find_one` by token: the first session document with that token, or none exactly when no document has it. |
| `Auth.CurrentUser` | auth.py:5-14 | No identity for an empty cookie or a token with no session document. Otherwise there is an identity exactly when the first matching session's `expired_at` is not before `now`; `expired_at == now` is accepted. The identity is that session's `username` and `role`. Being a function, it changes neither store nor cookie. |

## Left out

- The Streamlit UI is not modelled: placeholders, info/success/error messages, `time.sleep` pacing and the `rerun` mechanics. The model keeps only the `rerun_needed` flag that the core writes into the session dictionary.
- `app.py` is page layout and widget wiring, and is not modelled.
- `settings.py`, `db.py`, `test_db.py` and `make_admin.py` are connection setup, an SQL smoke test and a bcrypt hash printer, and are not modelled.
- `COOKIES`, `JWT_SECRET` and `SESSIONS_COL` are not defined in `settings.py`. The model treats them as abstract state: the `cookie` field, the `Codec`, and the `sessions` parameter of `Auth.CurrentUser`.
- JWT serialisation and HMAC-SHA256 are foreign code. They stay abstract behind `Jwt.Codec` and `Jwt.Lawful`. PyJWT's checks of other registered claims (`nbf`, `iat`, `aud`) are not modelled; the core never sets them.
- `COOKIES.save()` (writing the cookie to the browser) is not modelled separately: the `cookie` field is the saved value. An absent cookie and an empty one are both `""`, since the core treats them alike.
- `uuid.uuid4()`, `ObjectId()` generation and `datetime.utcnow()`/`datetime.now()` become parameters. `strftime` formatting of dates and timestamps is not modelled: dates arrive as already formatted strings, and timestamps are integer seconds.
- Balances and durations are `real`; floating-point rounding of `float(...)` and `$inc` is not modelled.
- `Functions.App.GetCurrentUser`: `ObjectId(user_id)` raises an uncaught error for a `sub` that is not a valid ObjectId. The model treats such a `sub` as naming no user, so it refuses the token.
- `Functions.App.ApproveLeave`: for a missing request, the source raises an error once the no-op update is done. The model returns `false` with everything unchanged.
- Document fields the core reads by direct indexing (`user["username"]`, `session["expired_at"]`) are always present in the model. A document lacking them, which would raise `KeyError`, is not modelled. A field stored as `null` is modelled the same as a missing field.
- Concurrency between callers, and the lack of atomicity between the status write and the balance write, are not modelled.
