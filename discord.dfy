/**
 * The parts of the chat platform's client that the dispatcher consults, as values.
 * Every query the client answers (from its state cache or over the network) is a
 * partial map here: a missing key is the lookup returning an error or nil.
 */
module Discord {

  datatype Channel = Channel(id: string)

  datatype User = User(id: string)

  datatype Guild = Guild(id: string, ownerId: string)

  /** A guild member: the ids of its roles, in the order the platform lists them. */
  datatype Member = Member(roles: seq<string>)

  /** A role and its permission bitfield (a 64-bit Go int, kept as its bit pattern). */
  datatype Role = Role(id: string, permissions: bv64)

  /** A message-create event: who wrote what, and in which guild. */
  datatype Message = Message(authorId: string, guildId: string, content: string)

  /** The client handle (*discordgo.Session) as the lookups it answers. */
  datatype Session = Session(
    selfId: string,                                // s.State.User.ID
    channels: map<string, Channel>,                // s.Channel(id)
    users: map<string, User>,                      // s.User(id)
    guilds: map<string, Guild>,                    // s.Guild(id)
    cachedMembers: map<(string, string), Member>,  // s.State.Member(guildID, userID)
    remoteMembers: map<(string, string), Member>,  // s.GuildMember(guildID, userID)
    roles: map<(string, string), Role>             // s.State.Role(guildID, roleID)
  )

  /** The error a failed lookup reports. */
  datatype LookupError =
    | GuildNotFound(guildId: string)
    | MemberNotFound(guildId: string, userId: string)
    | RoleNotFound(guildId: string, roleId: string)
}
