/** The prototype revision (src/index.ts): a single table `urls` without
    owners, sessions, captcha or quota, and a join callback that redeems a
    link directly after the OAuth exchange. */
module Prototype {
  import opened Common
  import opened Validation

  /** What a handler sends back, one tag per distinct page or redirect. */
  datatype Response =
    | InvalidUrl                        // "Invalid URL. Only alphanumeric characters, ..."
    | InvalidInviteLink                 // "Invalid Discord invite link."
    | AlreadyExists                     // "This custom URL already exists. ..."
    | UrlCreated(customUrl: string)     // "URL created: /invite/<custom_url>"
    | UrlNotFound                       // 404 "URL not found"
    | RedirectUriMissing                // "Redirect URI is not defined."
    | RedirectAuthorize(state: string)  // redirect to Discord's authorize page
    | OAuthError                        // "Error during OAuth2 process."
    | Unanswered                        // a rejected promise escaped the handler: no response
    | JoinFailed                        // "Failed to join the server."
    | Joined(guild: string)             // "Successfully joined the server!"

  class UrlTable {
    /** `urls`: custom_url -> discord_invite */
    var urls: map<string, string>

    /** Every stored row passed both patterns on its way in. */
    ghost predicate Valid()
      reads this
    {
      forall k :: k in urls ==> ValidCustomUrl(k) && ValidInvite(urls[k])
    }

    /** CREATE TABLE IF NOT EXISTS on a fresh database. */
    constructor ()
      ensures Valid() && urls == map[]
    {
      urls := map[];
    }

    /** POST /create: the custom URL is checked first, then the invite as
        typed (no whitespace is removed), then the UNIQUE insert. */
    method Create(customUrl: string, invite: string) returns (r: Response)
      requires Valid()
      modifies this
      ensures Valid()
      ensures !ValidCustomUrl(customUrl) ==> r == InvalidUrl
      ensures ValidCustomUrl(customUrl) && !ValidInvite(invite) ==> r == InvalidInviteLink
      ensures ValidCustomUrl(customUrl) && ValidInvite(invite) && customUrl in old(urls) ==> r == AlreadyExists
      ensures r.UrlCreated? <==> ValidCustomUrl(customUrl) && ValidInvite(invite) && customUrl !in old(urls)
      ensures r.UrlCreated? ==> r.customUrl == customUrl && urls == old(urls)[customUrl := invite]
      ensures !r.UrlCreated? ==> urls == old(urls)
    {
      if !ValidCustomUrl(customUrl) {
        return InvalidUrl;
      }
      if !ValidInvite(invite) {
        return InvalidInviteLink;
      }
      if customUrl in urls {
        return AlreadyExists;
      }
      urls := urls[customUrl := invite];
      r := UrlCreated(customUrl);
    }

    /** GET /invite/:custom_url: 404 for an unknown link; otherwise, if the
        redirect URI is configured, the join OAuth starts with the custom URL
        as `state`. */
    method Invite(customUrl: string, redirectUriSet: bool) returns (r: Response)
      ensures r == UrlNotFound <==> customUrl !in urls
      ensures customUrl in urls && !redirectUriSet ==> r == RedirectUriMissing
      ensures customUrl in urls && redirectUriSet ==> r == RedirectAuthorize(customUrl)
    {
      if customUrl !in urls {
        return UrlNotFound;
      }
      if !redirectUriSet {
        return RedirectUriMissing;
      }
      r := RedirectAuthorize(customUrl);
    }

    /** GET /callback. `tokenStatus` is the HTTP status of the token exchange:
        axios rejects anything outside 2xx, and that rejection escapes the
        async handler, as does a failed profile lookup (`profile` None), so no
        response is sent; a 2xx other than 200 gets the OAuth error page. Then
        the link named by `state` is looked up, its code taken after the last
        `/`, an empty code rejected, the code resolved by Discord (`guilds`)
        and the member added (`added`). `calls` lists the Discord calls made
        after the profile lookup, in order. */
    method Callback(state: string, tokenStatus: int, profile: Option<string>, accessToken: string,
                    guilds: map<string, string>, added: bool)
      returns (r: Response, calls: seq<DiscordCall>)
      ensures tokenStatus != 200 ==> calls == []
      ensures tokenStatus != 200 && 200 <= tokenStatus < 300 ==> r == OAuthError
      ensures !(200 <= tokenStatus < 300) ==> r == Unanswered
      ensures tokenStatus == 200 && profile.None? ==> r == Unanswered && calls == []
      ensures tokenStatus == 200 && profile.Some? ==> (r == UrlNotFound <==> state !in urls)
      ensures r == UrlNotFound ==> calls == []
      ensures r == InvalidInviteLink <==>
        && tokenStatus == 200 && profile.Some? && state in urls
        && (urls[state] == [] || urls[state][|urls[state]| - 1] == '/')
      ensures r == InvalidInviteLink ==> calls == []
      // a table filled through Create never holds a link with an empty code
      ensures Valid() ==> r != InvalidInviteLink
      // a code Discord does not resolve stops the handler before the member add
      ensures (&& tokenStatus == 200 && profile.Some? && state in urls
               && InviteCode(urls[state]) != [] && InviteCode(urls[state]) !in guilds) ==>
        calls == [LookupInvite(InviteCode(urls[state]))]
      ensures tokenStatus == 200 && profile.Some? && state in urls && InviteCode(urls[state]) != [] ==>
        && |calls| > 0 && calls[0] == LookupInvite(InviteCode(urls[state]))
        && (r == Unanswered <==> InviteCode(urls[state]) !in guilds)
      ensures r.Joined? <==>
        && tokenStatus == 200 && profile.Some? && state in urls
        && InviteCode(urls[state]) != [] && InviteCode(urls[state]) in guilds && added
      ensures r == JoinFailed <==>
        && tokenStatus == 200 && profile.Some? && state in urls
        && InviteCode(urls[state]) != [] && InviteCode(urls[state]) in guilds && !added
      ensures r.Joined? || r == JoinFailed ==>
        var code := InviteCode(urls[state]);
        code in guilds && calls == [LookupInvite(code), AddMember(guilds[code], profile.value, accessToken)] &&
        (r.Joined? ==> r.guild == guilds[code])
    {
      if tokenStatus != 200 {
        if 200 <= tokenStatus < 300 {
          return OAuthError, [];
        }
        return Unanswered, [];
      }
      if profile.None? {
        return Unanswered, [];
      }
      if state !in urls {
        return UrlNotFound, [];
      }
      var code := InviteCode(urls[state]);
      InviteCodeEmpty(urls[state]);
      if Valid() {
        InviteCodeOfValid(urls[state]);
      }
      if code == [] {
        return InvalidInviteLink, [];
      }
      calls := [LookupInvite(code)];
      if code !in guilds {
        return Unanswered, calls;
      }
      var guild := guilds[code];
      calls := calls + [AddMember(guild, profile.value, accessToken)];
      if added {
        r := Joined(guild);
      } else {
        r := JoinFailed;
      }
    }
  }
}
