/** The time-stamped source rows that the collectors read. */
module Events {
  import opened CountTables

  datatype AccountChange = UserCreated | UserActivated | UserDeactivated | UserReactivated

  /** A row of zerver_message, of zerver_realmauditlog (user events only), of zerver_attachment, or of
      zerver_useractivityinterval, where `time` is the start of the interval. */
  datatype Event =
    | Message(time: Time, sender: int, recipient: int, client: int)
    | AccountEvent(time: Time, user: int, change: AccountChange)
    | Activity(time: Time, user: int, until: Time)
    | Attachment(time: Time, realm: int, size: int)
}
