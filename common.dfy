/** Values shared by the two revisions of the service. */
module Common {

  datatype Option<T> = None | Some(value: T)

  /** A call the service makes to the Discord HTTP API while redeeming a link.
      Token exchange and the `/users/@me` lookup happen before the handlers
      modelled here and are passed in as their results. */
  datatype DiscordCall =
    | LookupInvite(code: string)                              // GET /api/v8/invites/<code>
    | AddMember(guild: string, user: string, accessToken: string) // PUT /api/v8/guilds/<guild>/members/<user>
}
