/** The rows without a time stamp that the collectors join with: users, recipients and streams. */
module World {
  import opened CountTables
  import opened Events

  datatype User = User(realm: int, isBot: bool, dateJoined: Time)

  /** zerver_recipient: `typeId` is a user, stream or huddle id, depending on `kind`. */
  datatype Recipient = Recipient(kind: int, typeId: int)

  const PERSONAL := 1
  const STREAM := 2
  const HUDDLE := 3

  datatype Stream = Stream(realm: int, inviteOnly: bool, dateCreated: Time)

  datatype World = World(users: map<int, User>, recipients: map<int, Recipient>, streams: map<int, Stream>)

  /** `log[i]` is a message sent in the half-open window [start, end). */
  predicate SentIn(log: seq<Event>, i: int, start: Time, end: Time) {
    0 <= i < |log| && log[i].Message? && start <= log[i].time < end
  }

  /** Foreign keys: every message has a known sender and recipient. */
  ghost predicate KnownMessages(w: World, log: seq<Event>) {
    forall i | 0 <= i < |log| && log[i].Message? :: log[i].sender in w.users && log[i].recipient in w.recipients
  }

  /** Nobody sends before joining. */
  ghost predicate SendersHaveJoined(w: World, log: seq<Event>) {
    forall i | 0 <= i < |log| && log[i].Message? && log[i].sender in w.users :: w.users[log[i].sender].dateJoined <= log[i].time
  }
}
