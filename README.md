# Discord invite redirector — a Dafny model

The service hands out short custom URLs that point to Discord server
invites. Owners log in through Discord OAuth2, create links
(`/invite/<custom_url>` → `https://discord.gg/<code>`) up to a per-user
quota, and delete their own links. An administrator moves quotas up or
down in steps of 5. A visitor who opens a link is sent through Discord's
authorisation, passes an hCaptcha check, and is added to the guild the
invite belongs to through the bot's `PUT /guilds/<guild>/members/<user>`.

Two revisions are modelled:

- `app.js`, the full service, is `module LinkStore`. Its two SQLite tables,
  `users` and `urls`, are the fields of the class `Store`, and the route
  handlers are the methods that change them. `Store.Valid()` is the
  invariant every handler keeps:
  - every stored link has a well-formed custom URL, a well-formed invite and
    an existing owner;
  - user ids are unique, and so are emails that are present;
  - every quota is a non-negative multiple of 5.
- `src/index.ts`, the prototype, is `module Prototype`. It has one ownerless
  table (`UrlTable`), no captcha and no quota.
- `module Validation` holds the string rules:
  - the two input patterns (`/^[a-zA-Z0-9-_]+$/` and
    `/^https:\/\/discord\.gg\/[a-zA-Z0-9]+$/`), used by both revisions;
  - the whitespace removal `replace(/\s+/g, "")`, with `\s` as ECMAScript
    defines it, which only app.js applies (the prototype checks the invite
    as typed);
  - the code extraction, used by both revisions, `split("/").pop()`, modelled as `Split` and its last
    element.
- `module Common` holds `Option` and the Discord calls a handler makes.

Outside services are parameters of the handlers:
- the OAuth2 token and profile lookups, as their results;
- hCaptcha's verdict, as `Captcha`;
- Discord's answer to the invite lookup, as a map from code to guild id;
- Discord's answer to the member add, as a boolean.

The Discord calls a redemption makes are returned, in order, as a
`seq<DiscordCall>`.

## Model

| member | source | states |
|---|---|---|
| Validation.ValidCustomUrl | app.js:283-284 | `/^[a-zA-Z0-9-_]+$/` accepts exactly the non-empty strings of ASCII letters, digits, `-` and `_` (the `-` after `0-9` is a literal) |
| Validation.ValidInvite | app.js:318-319 | `/^https:\/\/discord\.gg\/[a-zA-Z0-9]+$/` accepts exactly `https://discord.gg/` followed by one or more ASCII letters or digits |
| Validation.IsJsWhitespace | app.js:235 | the `\s` class of ECMAScript: tab, LF, VT, FF, CR, space, NBSP, the Zs separators, LS, PS and the byte-order mark |
| Validation.StripWhitespace | app.js:235 | removing every ECMAScript whitespace character never lengthens the input and leaves no whitespace behind |
| Validation.StripConcat | app.js:235 | a global replace works piecewise: stripping a concatenation is the concatenation of the stripped parts |
| Validation.StripKeeps | app.js:235 | a string without whitespace is left unchanged |
| Validation.StripIdempotent | app.js:235 | stripping twice is the same as stripping once |
| Validation.ValidInviteUnstripped | app.js:235 | a well-formed invite contains no whitespace, so stripping leaves it unchanged |
| Validation.WhitespaceInviteRejected | src/index.ts:52-55 | the prototype, which does not strip, rejects every invite that contains whitespace |
| Validation.StripWidensInviteRule | app.js:235 | app.js accepts every invite the prototype accepts, and also some the prototype rejects (for example one with a leading space) |
| Validation.Split | app.js:1003-1006 | `split("/")` returns at least one part and no part contains `/` |
| Validation.InviteCode | app.js:1004-1006 | `split("/").pop()` is the last part of the split, so it never contains `/` |
| Validation.JoinSplit | app.js:1003-1006 | joining the parts of a split with `/` gives back the original string |
| Validation.SplitNoSlash | app.js:1003-1006 | a string without `/` splits into itself alone |
| Validation.SplitAtSlash | app.js:1003-1006 | splitting `a + "/" + b` gives the parts of `a` followed by the parts of `b` |
| Validation.SplitJoin | app.js:1003-1006 | splitting a join of slash-free parts gives back those parts |
| Validation.LastSegmentOfSuffix | app.js:1003-1006 | the last segment after a `/` is also the last segment of the whole string |
| Validation.LastSegmentAfterSlash | app.js:1003-1006 | for a string that starts with `/`, the code is the code of the rest after that `/`; if that code is the last segment of the rest, it is also the last segment of the whole string |
| Validation.LastSegmentWhole | app.js:1003-1006 | a string without `/` is its own last segment |
| Validation.InviteCodeOfTail | app.js:1003-1006 | a string that does not start with `/` but contains a `/` splits at its first `/` into a head ending in that `/` and a shorter tail, and the code of the string is the code of the tail |
| Validation.InviteCodeIsLastSegment | app.js:1003-1006 | `split("/").pop()` is exactly the slash-free suffix that follows the last `/`, or the whole string if there is no `/` |
| Validation.InviteCodeEmpty | src/index.ts:112-113 | the extracted code is empty exactly when the stored invite is empty or ends in `/` |
| Validation.InviteCodeAfterLastSlash | app.js:1003-1006 | the code of `head + "/" + code` is `code` when `code` has no `/` |
| Validation.InviteCodeOfLink | app.js:1003-1006 | the code of `https://discord.gg/<code>` is `<code>` when `<code>` has no `/` |
| Validation.InviteCodeOfValid | app.js:318-350 | for a well-formed invite, the extracted code is the non-empty text after `https://discord.gg/` |
| Validation.InviteRoundTrip | app.js:318 | `https://discord.gg/` followed by `code` is well formed exactly when `code` is non-empty ASCII alphanumerics, and extraction then gives `code` back |
| Validation.CustomUrlIsSegment | app.js:283 | an accepted custom URL contains no `/` and no whitespace, so it fits in one path segment of `/invite/<custom_url>` |
| LinkStore.LinkCount | app.js:366 | `SELECT COUNT(*) FROM urls WHERE user_id = ?` is the number of custom URLs whose row belongs to the user |
| LinkStore.Registrable | app.js:141-143 | `INSERT OR IGNORE` adds a user only when no row has the same discord_id and no row has the same email (an absent email never conflicts) |
| LinkStore.AdminGateAsWritten | app.js:772 | `req.session.userId !== ADMIN_USER_ID` lets the request through exactly when the two are equal, both undefined included |
| LinkStore.LinkCountInsert | app.js:365-446 | inserting a new link adds one to its owner's count and leaves every other owner's count unchanged |
| LinkStore.LinkCountDelete | app.js:630-648 | removing a link subtracts one from its owner's count and leaves every other owner's count unchanged |
| LinkStore.Deleted | app.js:630-648 | `DELETE ... WHERE custom_url = ? AND user_id = ?` removes the link only when the session user owns it, keeps every other row, and lowers that user's count by one when a row goes |
| LinkStore.Adjusted | app.js:771-825 | `UPDATE users SET invite_limit = invite_limit ± 5 WHERE id = ?` changes the limit of the row with that id only, and keeps every key, id and email |
| LinkStore.DecreaseKeepsLimitsValid | app.js:810-812 | a decrease applied to a positive limit keeps every limit a non-negative multiple of 5 |
| LinkStore.AdminGateAdmitsAnonymous | app.js:19 | the admin gate as written admits a visitor with no session when ADMIN_USER_ID is unset |
| LinkStore.IsAdminCorrectsGate | app.js:771-773 | the corrected gate requires a logged-in session, and agrees with the written gate whenever an admin id is configured |
| LinkStore.Store.constructor | app.js:23-37 | the database starts with both tables empty and ids counting from 1 |
| LinkStore.Store.Login | app.js:107-161 | a failed OAuth exchange changes nothing and gives the OAuth error; otherwise the session becomes the Discord id, a new account is added with limit 5 unless its discord_id or email is already taken, and logging in again changes nothing |
| LinkStore.Store.Create | app.js:229-515 | the checks run in this order: session, captcha, custom URL, stripped invite, account, quota, uniqueness; each failure leaves the tables unchanged and gives its own response; a success stores the stripped invite under the session user, and the owner's count stays within the limit |
| LinkStore.Store.Delete | app.js:630-648 | without a session nothing changes; otherwise only the session user's own link with that custom URL is removed |
| LinkStore.Store.AdminIncrease | app.js:771-789 | only the admin can raise the limit of the row with the given id by 5; anyone else is sent home and nothing changes |
| LinkStore.Store.AdminDecrease | app.js:792-825 | only the admin can act; an unknown id throws (`Crashed`); a positive limit drops by 5; a limit of 0 is refused and kept |
| LinkStore.Store.Invite | app.js:828-849 | a known custom URL redirects to Discord's authorisation with itself as `state`; an unknown one gives 404 |
| LinkStore.Store.Verify | app.js:949-1233 | a failed captcha or a captcha error makes no Discord call; an unknown link gives 404; the invite lookup uses the code after the last `/`, which for any stored link is the text after `https://discord.gg/`; an unresolved code is an invalid invite; the join adds the visitor to the resolved guild |
| LinkStore.OwnerCreatesLink | app.js:107-446 | on a fresh database, an owner who logs in and creates a link with a well-formed custom URL and code ends up with exactly that link |
| LinkStore.JoinScenario | app.js:949-1233 | end to end: a visitor who passes the captcha is looked up by code and added to that code's guild; a visitor who fails the captcha causes no Discord call |
| Prototype.UrlTable.constructor | src/index.ts:18-24 | the table starts empty |
| Prototype.UrlTable.Create | src/index.ts:40-63 | the custom URL is checked first, then the unstripped invite, then the UNIQUE insert; only a success changes the table |
| Prototype.UrlTable.Invite | src/index.ts:66-77 | an unknown custom URL gives 404 before the REDIRECT_URI check; a known one redirects with itself as `state`, or fails when REDIRECT_URI is unset |
| Prototype.UrlTable.Callback | src/index.ts:80-140 | a non-2xx token response or a failed profile lookup leaves the request unanswered; a 2xx other than 200 gives the OAuth error; a stored invite that is empty or ends in `/` is rejected, which never happens for a table filled through Create; an unresolved code leaves the request unanswered; otherwise the user is added to the resolved guild |

## Left out

- Database errors are not modelled. Every database-error branch is left out, including the "Error occurred" replies and the "An error occurred" page of POST /verify (app.js:972-1001), except the UNIQUE violations on insert, which are modelled as `AlreadyExists` or an ignored login insert.
- The HTTP calls to Discord and hCaptcha are not modelled. The model receives their outcomes as parameters. This includes the OAuth2 token and profile calls of both revisions.
- LinkStore.Store.Login: `identity` None stands for every failure of the token or profile call. The email is taken as given. GET /login asks only for the `identify` scope (app.js:102), and with that scope `/users/@me` returns no email. So in this program every stored email is NULL, and the email clause of `Registrable` never applies. The model keeps the clause because it states the UNIQUE constraint of the table.
- GET /callback/join (app.js:852-897) is not modelled. It exchanges the code, looks up the user, and redirects to GET /verify/:custom_url with the user id and token in the query string. That page (app.js:899-947) renders the captcha form that posts to POST /verify. The user id and token are parameters of `Verify`.
- GET /login is not modelled. It only redirects to Discord's authorize URL (app.js:99-104).
- The read-only pages are not modelled: GET /, /create, /manage, /verify/:custom_url and /admin. They redirect on session state and read the tables, but never write:
  - GET / sends a logged-in user to /manage (app.js:54-56).
  - GET /create and GET /manage send a visitor with no session home (app.js:164-166, 518-520).
  - GET /manage reads the user's links and limit (app.js:522-537).
  - GET /admin is behind the same admin gate (app.js:663). It lists every user's id, discord_id, email and limit (app.js:669-687), and offers the admin's `LIKE` search.
- POST /logout is not modelled. Sessions are an `Option<string>` parameter, and cookies and expiry are not modelled.
- Absent form fields are not modelled. Every field is a string. In JavaScript, a missing `discord_invite` would make `.replace` throw.
- LinkStore.Store.AdminIncrease and LinkStore.Store.AdminDecrease use the corrected admin gate. The gate as written is modelled separately; see Findings.
- `users.id` is matched as an integer. SQLite converts the posted text id to the column's integer affinity.
- Prototype.UrlTable.Callback: when the member add fails, the source sends "Failed to join" and then tries to send a second response. That second send throws, so only the first response is modelled.
- In the prototype, a `guild` field missing from Discord's invite answer throws. It is modelled the same as an unresolved code: no response.
- LinkStore.Store.AdminDecrease: `Crashed` is the TypeError of reading `row.invite_limit` for an unknown id (app.js:808). It is thrown inside a node-sqlite3 callback and nothing catches it, so Node ends the whole server process. Every later request then fails until a restart. The model's `Store` carries on after `Crashed` and does not capture that outage. With the admin gate as written and ADMIN_USER_ID unset, an anonymous POST /admin/decrease with an unknown id is enough to stop the service.
- Prototype.UrlTable.Callback: `Unanswered` is a rejected promise that escapes the async handler. On Node 15 and later an unhandled rejection also ends the process. The model only records that no response is sent; the outage that follows is not captured.
- Concurrency between requests is not modelled. Each handler runs as one atomic step, and the nested callbacks of app.js's handlers do not interleave.

## Findings

| source | as written | input that shows it | evidently intended | confidence | as-written member | corrected member |
|---|---|---|---|---|---|---|
| app.js:19, app.js:663, app.js:771-773 | the admin routes run whenever `req.session.userId === ADMIN_USER_ID` | ADMIN_USER_ID unset and a visitor who never logged in: both are undefined, so the visitor sees every user's row on GET /admin (app.js:669-687), including the ids to post, and can change any user's quota | only a logged-in user whose id equals a configured ADMIN_USER_ID passes | high, not executed | LinkStore.AdminGateAdmitsAnonymous | LinkStore.IsAdminCorrectsGate |
