/** The full revision of the service (app.js): two tables, `urls` and `users`,
    changed in place by the route handlers for login, link creation, deletion
    and the admin limit buttons, and read by the redemption routes.

    The session user, the hCaptcha verdict and the answers of the Discord API
    are parameters of the handlers; what the handler sends back is a Response. */
module LinkStore {
  import opened Common
  import opened Validation

  /** A row of `urls`, keyed by its unique custom_url: the stored invite and
      `user_id`, which holds the Discord id of the session user who created it. */
  datatype Link = Link(invite: string, owner: string)

  /** A row of `users`, keyed in the model by its unique discord_id. */
  datatype Account = Account(id: int, email: Option<string>, inviteLimit: int)

  /** What Discord's `/users/@me` returned at login. */
  datatype Profile = Profile(discordId: string, email: Option<string>)

  /** The answer of hCaptcha's `siteverify`: success, failure, or no answer. */
  datatype Captcha = Passed | Failed | CallFailed

  /** `invite_limit INTEGER DEFAULT 5` */
  const DefaultInviteLimit := 5
  /** The admin buttons move a limit by this much. */
  const InviteLimitStep := 5

  /** What a handler sends back, one tag per distinct page or redirect. */
  datatype Response =
    | RedirectHome                      // res.redirect("/")
    | RedirectManage                    // res.redirect("/manage")
    | RedirectAdmin                     // res.redirect("/admin")
    | OAuthError                        // "Error during OAuth2 process."
    | CaptchaFailed                     // "hCaptcha verification failed."
    | CaptchaError                      // "An error occurred during hCaptcha verification."
    | InvalidCustomUrl                  // "Invalid URL. Only alphanumeric characters, ..."
    | InvalidInviteLink                 // "Invalid Discord invite link."
    | UserNotFound                      // "Error occurred: User not found"
    | LimitReached                      // "You have reached your invite limit. ..."
    | AlreadyExists                     // "This custom URL already exists. ..."
    | UrlCreated(customUrl: string)     // "URL created: /invite/<custom_url>"
    | BelowZero                         // "Cannot decrease invite limit below 0"
    | Crashed                           // an uncaught TypeError: the server process exits
    | RedirectAuthorize(state: string)  // redirect to Discord's authorize page
    | UrlNotFound                       // 404 "URL not found"
    | InvalidInvite                     // "Invalid invite link."
    | JoinFailed                        // "Failed to join the server."
    | Joined(guild: string)             // "Successfully joined the server!"

  /** The limits the service can reach: the default and steps of 5, never below 0. */
  predicate ValidLimit(n: int) { n >= 0 && n % InviteLimitStep == 0 }

  /** `SELECT COUNT(*) FROM urls WHERE user_id = ?` */
  function LinkCount(urls: map<string, Link>, owner: string): (n: nat) {
    |set k | k in urls && urls[k].owner == owner|
  }

  /** Inserting a new row adds one to its owner's count and nothing to anyone else's. */
  lemma LinkCountInsert(urls: map<string, Link>, k: string, link: Link, owner: string)
    requires k !in urls
    ensures LinkCount(urls[k := link], owner) == LinkCount(urls, owner) + (if link.owner == owner then 1 else 0)
  {
    var m := urls[k := link];
    var before := set j | j in urls && urls[j].owner == owner;
    var after := set j | j in m && m[j].owner == owner;
    if link.owner == owner {
      assert after == before + {k};
    } else {
      assert after == before;
    }
  }

  /** Deleting a row takes one from its owner's count and nothing from anyone else's. */
  lemma LinkCountDelete(urls: map<string, Link>, k: string, owner: string)
    requires k in urls
    ensures LinkCount(urls - {k}, owner) == LinkCount(urls, owner) - (if urls[k].owner == owner then 1 else 0)
  {
    var m := urls - {k};
    var before := set j | j in urls && urls[j].owner == owner;
    var after := set j | j in m && m[j].owner == owner;
    if urls[k].owner == owner {
      assert after == before - {k};
    } else {
      assert after == before;
    }
  }

  /** `UPDATE users SET invite_limit = invite_limit + delta WHERE id = ?`:
      every row keeps its key, id and email, and exactly the rows with that id
      have their limit moved by delta. */
  function Adjusted(users: map<string, Account>, id: int, delta: int): (r: map<string, Account>)
    ensures r.Keys == users.Keys
    ensures forall d :: d in r ==> r[d].id == users[d].id && r[d].email == users[d].email
    ensures forall d :: d in r ==> r[d].inviteLimit == users[d].inviteLimit + (if users[d].id == id then delta else 0)
  {
    map d | d in users :: if users[d].id == id then users[d].(inviteLimit := users[d].inviteLimit + delta) else users[d]
  }

  /** `DELETE FROM urls WHERE custom_url = ? AND user_id = ?`: exactly the
      rows matching both are gone, every other row is kept as it was, and the
      owner's count drops by the number of rows removed. */
  function Deleted(urls: map<string, Link>, customUrl: string, owner: string): (r: map<string, Link>)
    ensures forall k :: k in r <==> k in urls && !(k == customUrl && urls[k].owner == owner)
    ensures forall k :: k in r ==> r[k] == urls[k]
    ensures LinkCount(r, owner) ==
      LinkCount(urls, owner) - (if customUrl in urls && urls[customUrl].owner == owner then 1 else 0)
  {
    if customUrl in urls && urls[customUrl].owner == owner then
      LinkCountDelete(urls, customUrl, owner);
      urls - {customUrl}
    else
      urls
  }

  /** Taking a step off the one row with this id keeps every limit valid,
      provided that row's limit was above 0. */
  lemma DecreaseKeepsLimitsValid(users: map<string, Account>, d: string)
    requires d in users && users[d].inviteLimit > 0
    requires forall e :: e in users ==> ValidLimit(users[e].inviteLimit)
    requires forall e :: e in users && users[e].id == users[d].id ==> e == d
    ensures forall e :: e in users ==> ValidLimit(Adjusted(users, users[d].id, -InviteLimitStep)[e].inviteLimit)
  {
    assert users[d].inviteLimit >= InviteLimitStep;
  }

  /** Some row of `users` has this id. */
  predicate HasId(users: map<string, Account>, id: int) {
    exists d :: d in users && users[d].id == id
  }

  /** `INSERT OR IGNORE INTO users (discord_id, email)` inserts only when
      neither unique column is taken (two NULL emails do not clash). */
  predicate Registrable(users: map<string, Account>, p: Profile) {
    && p.discordId !in users
    && (p.email.Some? ==> forall d :: d in users ==> users[d].email != p.email)
  }

  /** The inputs pass the checks that come before any database access:
      logged in, captcha passed, custom URL and whitespace-free invite valid. */
  predicate FormAccepted(session: Option<string>, customUrl: string, rawInvite: string, captcha: Captcha) {
    && session.Some?
    && captcha.Passed?
    && ValidCustomUrl(customUrl)
    && ValidInvite(StripWhitespace(rawInvite))
  }

  // ---------------------------------------------------------------------------
  // The admin gate
  // ---------------------------------------------------------------------------

  /** The gate as app.js writes it: `req.session.userId !== ADMIN_USER_ID`
      sends the request home, so the route runs whenever the two are equal,
      including when both are undefined. */
  predicate AdminGateAsWritten(session: Option<string>, admin: Option<string>) {
    session == admin
  }

  /** With ADMIN_USER_ID unset, a visitor who never logged in passes the gate. */
  lemma AdminGateAdmitsAnonymous(session: Option<string>, admin: Option<string>)
    requires session.None? && admin.None?
    ensures AdminGateAsWritten(session, admin)
  {
  }

  /** The gate as intended: an admin id is configured and the session user is it. */
  predicate IsAdmin(session: Option<string>, admin: Option<string>) {
    admin.Some? && session == admin
  }

  /** The intended gate needs a logged-in session, and agrees with the gate as
      written whenever an admin id is configured. */
  lemma IsAdminCorrectsGate(session: Option<string>, admin: Option<string>)
    ensures IsAdmin(session, admin) ==> session.Some? && AdminGateAsWritten(session, admin)
    ensures admin.Some? ==> (IsAdmin(session, admin) <==> AdminGateAsWritten(session, admin))
  {
  }

  /** Every stored link has a valid custom URL, a valid invite and an
      existing owner. */
  predicate LinksValid(urls: map<string, Link>, users: map<string, Account>) {
    forall k :: k in urls ==> ValidCustomUrl(k) && ValidInvite(urls[k].invite) && urls[k].owner in users
  }

  /** Ids are unique and allocated from 1 below nextId, emails are unique,
      and every limit is a multiple of 5 that is not negative. */
  predicate AccountsValid(users: map<string, Account>, nextId: int) {
    && nextId > 0
    && (forall d :: d in users ==> 0 < users[d].id < nextId && ValidLimit(users[d].inviteLimit))
    && (forall d, e :: d in users && e in users && users[d].id == users[e].id ==> d == e)
    && (forall d, e :: d in users && e in users && d != e && users[d].email.Some? ==> users[d].email != users[e].email)
  }

  // ---------------------------------------------------------------------------
  // The two tables
  // ---------------------------------------------------------------------------

  class Store {
    /** `urls`: custom_url -> (discord_invite, user_id) */
    var urls: map<string, Link>
    /** `users`: discord_id -> (id, email, invite_limit) */
    var users: map<string, Account>
    /** The next AUTOINCREMENT value of `users.id`. */
    var nextId: int

    /** What the handlers keep true of the two tables. */
    ghost predicate Valid()
      reads this
    {
      LinksValid(urls, users) && AccountsValid(users, nextId)
    }

    /** CREATE TABLE IF NOT EXISTS on a fresh database. */
    constructor ()
      ensures Valid()
      ensures urls == map[] && users == map[] && nextId == 1
    {
      urls := map[];
      users := map[];
      nextId := 1;
    }

    /** GET /callback/login after the OAuth exchange: `identity` is the profile
        Discord returned, or None when the token or profile call failed. The
        returned session is the request's session user afterwards. */
    method Login(session: Option<string>, identity: Option<Profile>) returns (r: Response, session': Option<string>)
      requires Valid()
      modifies this
      ensures Valid() && urls == old(urls)
      ensures identity.None? ==> r == OAuthError && session' == session && users == old(users) && nextId == old(nextId)
      ensures identity.Some? ==> r == RedirectManage && session' == Some(identity.value.discordId)
      ensures identity.Some? && Registrable(old(users), identity.value) ==>
        && users == old(users)[identity.value.discordId := Account(old(nextId), identity.value.email, DefaultInviteLimit)]
        && nextId == old(nextId) + 1
      ensures identity.Some? && !Registrable(old(users), identity.value) ==> users == old(users) && nextId == old(nextId)
      // logging in again with a known discord_id changes nothing, the limit included
      ensures identity.Some? && identity.value.discordId in old(users) ==> users == old(users) && nextId == old(nextId)
    {
      if identity.None? {
        return OAuthError, session;
      }
      var p := identity.value;
      if Registrable(users, p) {
        users := users[p.discordId := Account(nextId, p.email, DefaultInviteLimit)];
        nextId := nextId + 1;
      }
      r, session' := RedirectManage, Some(p.discordId);
    }

    /** POST /create. The checks run in this order: session, captcha, custom
        URL, invite (after removing all whitespace), owner's row, quota, and
        the UNIQUE custom_url of the insert. Only the last step writes. */
    method Create(session: Option<string>, customUrl: string, rawInvite: string, captcha: Captcha) returns (r: Response)
      requires Valid()
      modifies this
      ensures Valid() && users == old(users) && nextId == old(nextId)
      ensures session.None? ==> r == RedirectHome
      ensures session.Some? && !captcha.Passed? ==> r == CaptchaFailed
      ensures session.Some? && captcha.Passed? && !ValidCustomUrl(customUrl) ==> r == InvalidCustomUrl
      ensures session.Some? && captcha.Passed? && ValidCustomUrl(customUrl) && !ValidInvite(StripWhitespace(rawInvite)) ==>
        r == InvalidInviteLink
      ensures FormAccepted(session, customUrl, rawInvite, captcha) && session.value !in old(users) ==> r == UserNotFound
      ensures (&& FormAccepted(session, customUrl, rawInvite, captcha)
               && session.value in old(users)
               && LinkCount(old(urls), session.value) >= old(users)[session.value].inviteLimit) ==>
        r == LimitReached
      ensures (&& FormAccepted(session, customUrl, rawInvite, captcha)
               && session.value in old(users)
               && LinkCount(old(urls), session.value) < old(users)[session.value].inviteLimit
               && customUrl in old(urls)) ==>
        r == AlreadyExists
      ensures r.UrlCreated? <==>
        && FormAccepted(session, customUrl, rawInvite, captcha)
        && session.value in old(users)
        && LinkCount(old(urls), session.value) < old(users)[session.value].inviteLimit
        && customUrl !in old(urls)
      ensures r.UrlCreated? ==>
        && r.customUrl == customUrl
        && urls == old(urls)[customUrl := Link(StripWhitespace(rawInvite), session.value)]
        && LinkCount(urls, session.value) == LinkCount(old(urls), session.value) + 1
        && LinkCount(urls, session.value) <= users[session.value].inviteLimit
      ensures !r.UrlCreated? ==> urls == old(urls)
    {
      if session.None? {
        return RedirectHome;
      }
      var invite := StripWhitespace(rawInvite);
      if !captcha.Passed? {
        return CaptchaFailed;
      }
      if !ValidCustomUrl(customUrl) {
        return InvalidCustomUrl;
      }
      if !ValidInvite(invite) {
        return InvalidInviteLink;
      }
      var user := session.value;
      if user !in users {
        return UserNotFound;
      }
      var count := LinkCount(urls, user);
      if count >= users[user].inviteLimit {
        return LimitReached;
      }
      if customUrl in urls {
        return AlreadyExists;
      }
      LinkCountInsert(urls, customUrl, Link(invite, user), user);
      urls := urls[customUrl := Link(invite, user)];
      r := UrlCreated(customUrl);
    }

    /** POST /delete: `DELETE FROM urls WHERE custom_url = ? AND user_id = ?`
        with the session user, so only the user's own link goes. */
    method Delete(session: Option<string>, customUrl: string) returns (r: Response)
      requires Valid()
      modifies this
      ensures Valid() && users == old(users) && nextId == old(nextId)
      ensures session.None? ==> r == RedirectHome && urls == old(urls)
      ensures session.Some? ==> r == RedirectManage
      ensures session.Some? ==> urls == Deleted(old(urls), customUrl, session.value)
    {
      if session.None? {
        return RedirectHome;
      }
      urls := Deleted(urls, customUrl, session.value);
      r := RedirectManage;
    }

    /** POST /admin/increase for the row with this `id`. */
    method AdminIncrease(session: Option<string>, admin: Option<string>, target: int) returns (r: Response)
      requires Valid()
      modifies this
      ensures Valid() && urls == old(urls) && nextId == old(nextId)
      ensures !IsAdmin(session, admin) ==> r == RedirectHome && users == old(users)
      ensures IsAdmin(session, admin) ==> r == RedirectAdmin && users == Adjusted(old(users), target, InviteLimitStep)
    {
      if !IsAdmin(session, admin) {
        return RedirectHome;
      }
      users := Adjusted(users, target, InviteLimitStep);
      r := RedirectAdmin;
    }

    /** POST /admin/decrease for the row with this `id`: refused unless the
        current limit is above 0. The source reads `row.invite_limit` without
        checking that the row exists, so an unknown id throws. */
    method AdminDecrease(session: Option<string>, admin: Option<string>, target: int) returns (r: Response)
      requires Valid()
      modifies this
      ensures Valid() && urls == old(urls) && nextId == old(nextId)
      ensures !IsAdmin(session, admin) ==> r == RedirectHome
      ensures IsAdmin(session, admin) && !HasId(old(users), target) ==> r == Crashed
      ensures IsAdmin(session, admin) ==>
        forall d :: d in old(users) && old(users)[d].id == target ==>
          && (r == RedirectAdmin <==> old(users)[d].inviteLimit > 0)
          && (r == BelowZero <==> old(users)[d].inviteLimit <= 0)
      ensures r == RedirectAdmin ==> users == Adjusted(old(users), target, -InviteLimitStep)
      ensures r != RedirectAdmin ==> users == old(users)
    {
      if !IsAdmin(session, admin) {
        return RedirectHome;
      }
      if !HasId(users, target) {
        return Crashed;
      }
      var d :| d in users && users[d].id == target;
      if users[d].inviteLimit > 0 {
        DecreaseKeepsLimitsValid(users, d);
        users := Adjusted(users, target, -InviteLimitStep);
        r := RedirectAdmin;
      } else {
        r := BelowZero;
      }
    }

    /** GET /invite/:custom_url: a known link starts the join OAuth with the
        custom URL as `state`; an unknown one is a 404 and goes nowhere. */
    method Invite(customUrl: string) returns (r: Response)
      ensures r == UrlNotFound <==> customUrl !in urls
      ensures r != UrlNotFound ==> r == RedirectAuthorize(customUrl)
    {
      if customUrl in urls {
        r := RedirectAuthorize(customUrl);
      } else {
        r := UrlNotFound;
      }
    }

    /** POST /verify/:custom_url: the captcha gate, the lookup of the link, the
        invite lookup with the code after the last `/`, and the member add.
        `guilds` is Discord's answer to the invite lookup (code -> guild id, a
        code it does not resolve is absent), `added` its answer to the member
        add; `calls` lists the Discord calls made, in order. */
    method Verify(customUrl: string, userId: string, accessToken: string, captcha: Captcha,
                  guilds: map<string, string>, added: bool)
      returns (r: Response, calls: seq<DiscordCall>)
      ensures captcha.Failed? ==> r == CaptchaFailed && calls == []
      ensures captcha.CallFailed? ==> r == CaptchaError && calls == []
      ensures captcha.Passed? ==> (r == UrlNotFound <==> customUrl !in urls)
      ensures r == UrlNotFound ==> calls == []
      ensures captcha.Passed? && customUrl in urls ==>
        |calls| > 0 && calls[0] == LookupInvite(InviteCode(urls[customUrl].invite))
      ensures captcha.Passed? && customUrl in urls && Valid() ==>
        |calls| > 0 && calls[0] == LookupInvite(urls[customUrl].invite[|InvitePrefix|..])
      ensures r == InvalidInvite <==>
        captcha.Passed? && customUrl in urls && InviteCode(urls[customUrl].invite) !in guilds
      ensures r == InvalidInvite ==> |calls| == 1
      ensures r.Joined? <==>
        captcha.Passed? && customUrl in urls && InviteCode(urls[customUrl].invite) in guilds && added
      ensures r == JoinFailed <==>
        captcha.Passed? && customUrl in urls && InviteCode(urls[customUrl].invite) in guilds && !added
      ensures r.Joined? || r == JoinFailed ==>
        var code := InviteCode(urls[customUrl].invite);
        code in guilds && calls == [LookupInvite(code), AddMember(guilds[code], userId, accessToken)] &&
        (r.Joined? ==> r.guild == guilds[code])
    {
      if captcha.CallFailed? {
        return CaptchaError, [];
      }
      if captcha.Failed? {
        return CaptchaFailed, [];
      }
      if customUrl !in urls {
        return UrlNotFound, [];
      }
      var code := InviteCode(urls[customUrl].invite);
      if Valid() {
        InviteCodeOfValid(urls[customUrl].invite);
      }
      calls := [LookupInvite(code)];
      if code !in guilds {
        return InvalidInvite, calls;
      }
      var guild := guilds[code];
      calls := calls + [AddMember(guild, userId, accessToken)];
      if added {
        r := Joined(guild);
      } else {
        r := JoinFailed;
      }
    }
  }

  /** The set-up of the end-to-end run: on a fresh database, an owner logs in
      and creates a link from a valid custom URL to a valid invite. */
  method OwnerCreatesLink(owner: string, customUrl: string, code: string) returns (store: Store)
    requires ValidCustomUrl(customUrl) && IsInviteCode(code)
    ensures fresh(store) && store.Valid()
    ensures store.urls == map[customUrl := Link(InvitePrefix + code, owner)]
  {
    store := new Store();
    var login, session := store.Login(None, Some(Profile(owner, None)));
    var invite := InvitePrefix + code;
    InviteRoundTrip(code);
    ValidInviteUnstripped(invite);
    assert LinkCount(store.urls, owner) == 0;
    var created := store.Create(session, customUrl, invite, Passed);
  }

  /** End to end: once the link exists, a visitor who passes the captcha has
      the link's code looked up and is added to the guild Discord names for it;
      one who fails the captcha causes no Discord call at all. */
  method JoinScenario(owner: string, customUrl: string, code: string, guild: string, visitor: string, accessToken: string)
    returns (r: Response, calls: seq<DiscordCall>, rejected: Response, rejectedCalls: seq<DiscordCall>)
    requires ValidCustomUrl(customUrl) && IsInviteCode(code)
    ensures r == Joined(guild)
    ensures calls == [LookupInvite(code), AddMember(guild, visitor, accessToken)]
    ensures rejected == CaptchaFailed && rejectedCalls == []
  {
    var store := OwnerCreatesLink(owner, customUrl, code);
    InviteRoundTrip(code);
    r, calls := store.Verify(customUrl, visitor, accessToken, Passed, map[code := guild], true);
    rejected, rejectedCalls := store.Verify(customUrl, visitor, accessToken, Failed, map[code := guild], true);
  }
}
