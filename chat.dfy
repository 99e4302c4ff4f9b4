/** The entities the live-messaging engine passes between the store, the handlers and the clients. */
module Chat {
  import opened Json

  /** User ids are the relational store's positive row ids. */
  type UserId = nat

  /** One emoji's reaction group on a message: the users who reacted with it, in the order they did. */
  datatype ReactionGroup = ReactionGroup(emoji: string, userIds: seq<UserId>)

  /**
   * A chat message as stored under `bbb:msg:<id>` and sent as `message:new`.
   * `kind` is the message's `type` field: "text", "drawing" or "image".
   */
  datatype Message = Message(
    id: string,
    roomId: string,
    userId: UserId,
    username: string,
    kind: string,
    content: Json,
    reactions: seq<ReactionGroup>,
    timestamp: string)

  /** The identity attached to an authenticated socket (`socket.user`). */
  datatype SocketUser = SocketUser(id: UserId, username: string)

  /** A row of the room-members query: a user id and its name. */
  datatype DbMember = DbMember(id: UserId, username: string)

  /** An entry of a `room:members` list. */
  datatype MemberEntry = MemberEntry(userId: UserId, username: string, online: bool)

  /** An entry of a `typing:update` list. */
  datatype TypingEntry = TypingEntry(userId: UserId, username: string)
}
