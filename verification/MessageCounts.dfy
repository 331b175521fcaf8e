/** The queries that count messages per user (analytics/lib/counts.py). */
module MessageCounts {
  import opened Options
  import opened Sums
  import opened CountTables
  import opened Events
  import opened World

  /** The column that count_message_by_user_query groups by besides the user. */
  datatype GroupBy = ByIsBot | ByClient

  function Digit(n: nat): char
    requires n < 10
  {
    "0123456789"[n]
  }

  /** An integer column cast to text. */
  function Decimal(n: int): string
    decreases if n < 0 then -n + 1 else n
  {
    if n < 0 then "-" + Decimal(-n)
    else if n < 10 then [Digit(n)]
    else Decimal(n / 10) + [Digit(n % 10)]
  }

  function SubgroupText(w: World, m: Event, group: GroupBy): string
    requires m.Message? && m.sender in w.users
  {
    match group
    case ByIsBot => if w.users[m.sender].isBot then "true" else "false"
    case ByClient => Decimal(m.client)
  }

  /** Each message that passes the WHERE clause of count_message_by_user_query, once. */
  function CountedByUser(w: World, log: seq<Event>, start: Time, end: Time): map<int, int> {
    map i: int | 0 <= i < |log| && SentIn(log, i, start, end) && log[i].sender in w.users
                 && w.users[log[i].sender].dateJoined < end :: 1
  }

  function ByUserKeys(w: World, p: string, log: seq<Event>, start: Time, end: Time, group: GroupBy): map<int, Key> {
    map i | i in CountedByUser(w, log, start, end) :: Key(p, end, log[i].sender, Some(SubgroupText(w, log[i], group)))
  }

  function RealmOf(w: World, user: int): int {
    if user in w.users then w.users[user].realm else 0
  }

  /** UserCount rows from counts per key. */
  function UserRows(w: World, sums: map<Key, int>): Rows {
    map k | k in sums :: Cell(RealmOf(w, k.id), sums[k])
  }

  /** count_message_by_user_query. */
  ghost function MessagesByUser(w: World, p: string, log: seq<Event>, start: Time, end: Time, group: GroupBy): Rows {
    UserRows(w, Grouped(CountedByUser(w, log, start, end), ByUserKeys(w, p, log, start, end, group)))
  }

  /* What these rows count. */

  /** The messages that `user` sent in the window, as a bot or as a human. */
  function SentAs(w: World, log: seq<Event>, start: Time, end: Time, user: int, isBot: bool): set<int> {
    set i: int | 0 <= i < |log| && log[i].Message? && start <= log[i].time < end && log[i].sender == user
                 && user in w.users && w.users[user].dateJoined < end && w.users[user].isBot == isBot
  }

  /** Grouped by is_bot, a user's row is in their own realm and counts exactly the messages they sent. */
  lemma UserMessagesAreCounted(w: World, p: string, log: seq<Event>, start: Time, end: Time, user: int, isBot: bool)
    ensures var rows, k := MessagesByUser(w, p, log, start, end, ByIsBot), Key(p, end, user, Some(if isBot then "true" else "false"));
            var messages := SentAs(w, log, start, end, user, isBot);
            (k in rows <==> messages != {}) && (k in rows ==> user in w.users && rows[k] == Cell(w.users[user].realm, |messages|))
  {
    hide Sum;
    hide Grouped;
    var counted, keys := CountedByUser(w, log, start, end), ByUserKeys(w, p, log, start, end, ByIsBot);
    var k := Key(p, end, user, Some(if isBot then "true" else "false"));
    GroupedCount(counted, keys, k);
    assert "true"[0] != "false"[0];
    assert Fiber(counted, keys, k).Keys == SentAs(w, log, start, end, user, isBot);
  }

  /** The messages that `user` sent in the window with one client. */
  function SentWith(w: World, log: seq<Event>, start: Time, end: Time, user: int, client: int): set<int> {
    set i: int | 0 <= i < |log| && log[i].Message? && start <= log[i].time < end && log[i].sender == user
                 && user in w.users && w.users[user].dateJoined < end && log[i].client == client
  }

  /** Grouped by client, likewise; the subgroup is the client's id in decimal. */
  lemma ClientMessagesAreCounted(w: World, p: string, log: seq<Event>, start: Time, end: Time, user: int, client: int)
    ensures var rows, k := MessagesByUser(w, p, log, start, end, ByClient), Key(p, end, user, Some(Decimal(client)));
            var messages := SentWith(w, log, start, end, user, client);
            (k in rows <==> messages != {}) && (k in rows ==> user in w.users && rows[k] == Cell(w.users[user].realm, |messages|))
  {
    hide Sum;
    hide Grouped;
    hide Decimal;
    var counted, keys := CountedByUser(w, log, start, end), ByUserKeys(w, p, log, start, end, ByClient);
    var k := Key(p, end, user, Some(Decimal(client)));
    GroupedCount(counted, keys, k);
    forall c | Decimal(c) == Decimal(client) ensures c == client {
      DecimalReadsBack(c);
      DecimalReadsBack(client);
    }
    assert Fiber(counted, keys, k).Keys == SentWith(w, log, start, end, user, client);
  }

  /** There is no other row. */
  lemma EveryRowIsOfBotOrHuman(w: World, p: string, log: seq<Event>, start: Time, end: Time, k: Key)
    requires k in MessagesByUser(w, p, log, start, end, ByIsBot)
    ensures k.property == p && k.endTime == end && (k.subgroup == Some("true") || k.subgroup == Some("false"))
  {
    hide Sum;
  }

  lemma EveryRowIsOfClient(w: World, p: string, log: seq<Event>, start: Time, end: Time, k: Key)
    requires k in MessagesByUser(w, p, log, start, end, ByClient)
    ensures k.property == p && k.endTime == end && exists client :: k.subgroup == Some(Decimal(client))
  {
    hide Sum;
    hide Decimal;
    var i :| i in CountedByUser(w, log, start, end) && ByUserKeys(w, p, log, start, end, ByClient)[i] == k;
    assert k.subgroup == Some(Decimal(log[i].client));
  }

  /** The number that a text of digits denotes, perhaps with a sign. */
  function Digits(s: string): int
    decreases |s|
  {
    if s == "" then 0 else Digits(s[..|s| - 1]) * 10 + (s[|s| - 1] as int - '0' as int)
  }

  function Denoted(s: string): int {
    if s != "" && s[0] == '-' then -Digits(s[1..]) else Digits(s)
  }

  lemma {:induction false} DecimalDigits(n: nat)
    ensures Digits(Decimal(n)) == n && Decimal(n) != "" && '0' <= Decimal(n)[0] <= '9'
    ensures n > 0 ==> Decimal(n)[0] != '0'
    decreases n
  {
    if n >= 10 {
      DecimalDigits(n / 10);
      assert Decimal(n)[..|Decimal(n)| - 1] == Decimal(n / 10);
    } else {
      assert Decimal(n)[..0] == "";
    }
  }

  /** So the text of a number is its usual one, and different numbers have different texts. */
  lemma DecimalReadsBack(n: int)
    ensures Denoted(Decimal(n)) == n
  {
    if n < 0 {
      DecimalDigits(-n);
      assert Decimal(n)[1..] == Decimal(-n);
    } else {
      DecimalDigits(n);
    }
  }

  /** The columns of the inner query of count_message_type_by_user_query. The stream comes from a
      LEFT JOIN on the recipient's type_id whatever the recipient's type is. */
  datatype Inner = Inner(realm: int, user: int, kind: int, inviteOnly: Option<bool>)

  function LeftJoinStream(w: World, typeId: int): Option<bool> {
    if typeId in w.streams then Some(w.streams[typeId].inviteOnly) else None
  }

  /** The CASE expression. */
  function MessageType(x: Inner): string {
    if x.kind == 1 then "private_message"
    else if x.kind == 3 then "huddle_message"
    else if x.inviteOnly == Some(true) then "private_stream"
    else "public_stream"
  }

  function CountedByType(w: World, log: seq<Event>, start: Time, end: Time): map<int, int> {
    map i: int | 0 <= i < |log| && SentIn(log, i, start, end) && log[i].sender in w.users && log[i].recipient in w.recipients :: 1
  }

  function InnerKey(w: World, m: Event): Inner
    requires m.Message? && m.sender in w.users && m.recipient in w.recipients
  {
    var r := w.recipients[m.recipient];
    Inner(w.users[m.sender].realm, m.sender, r.kind, LeftJoinStream(w, r.typeId))
  }

  function InnerKeys(w: World, log: seq<Event>, start: Time, end: Time): map<int, Inner> {
    map i | i in CountedByType(w, log, start, end) :: InnerKey(w, log[i])
  }

  ghost function InnerQuery(w: World, log: seq<Event>, start: Time, end: Time): map<Inner, int> {
    Grouped(CountedByType(w, log, start, end), InnerKeys(w, log, start, end))
  }

  function OuterKeys(p: string, end: Time, inner: map<Inner, int>): map<Inner, Key> {
    map x | x in inner :: Key(p, end, x.user, Some(MessageType(x)))
  }

  /** count_message_type_by_user_query. */
  ghost function MessagesByType(w: World, p: string, log: seq<Event>, start: Time, end: Time): Rows {
    var inner := InnerQuery(w, log, start, end);
    UserRows(w, Grouped(inner, OuterKeys(p, end, inner)))
  }

  /* Nested grouping is faithful. */

  /** What a message is, told from its own recipient alone. */
  function TypeOf(w: World, m: Event): string
    requires m.Message? && m.recipient in w.recipients
  {
    var r := w.recipients[m.recipient];
    if r.kind == PERSONAL then "private_message"
    else if r.kind == HUDDLE then "huddle_message"
    else if r.typeId in w.streams && w.streams[r.typeId].inviteOnly then "private_stream"
    else "public_stream"
  }

  /** The messages of `user` of one type in the window. */
  function OfType(w: World, log: seq<Event>, start: Time, end: Time, user: int, messageType: string): set<int> {
    set i: int | 0 <= i < |log| && log[i].Message? && start <= log[i].time < end && log[i].sender == user && log[i].sender in w.users
                 && log[i].recipient in w.recipients && TypeOf(w, log[i]) == messageType
  }

  function DirectKeys(w: World, p: string, log: seq<Event>, start: Time, end: Time): map<int, Key> {
    map i | i in CountedByType(w, log, start, end) :: Key(p, end, log[i].sender, Some(TypeOf(w, log[i])))
  }

  lemma NestedIsDirect(w: World, p: string, log: seq<Event>, start: Time, end: Time)
    ensures MessagesByType(w, p, log, start, end)
         == UserRows(w, Grouped(CountedByType(w, log, start, end), DirectKeys(w, p, log, start, end)))
  {
    var counted, inner := CountedByType(w, log, start, end), InnerQuery(w, log, start, end);
    var innerKeys, outerKeys := InnerKeys(w, log, start, end), OuterKeys(p, end, inner);
    var direct := DirectKeys(w, p, log, start, end);
    hide Grouped;
    hide CountedByType;
    forall i | i in counted ensures innerKeys[i] in outerKeys && outerKeys[innerKeys[i]] == direct[i] {
      InGrouped(counted, innerKeys, i);
    }
    GroupedTwice(counted, innerKeys, outerKeys, direct);
  }

  /** The inner GROUP BY and outer SUM count each message exactly once, under its own type, even
      when a personal or huddle recipient's type_id happens to be the id of some stream. */
  lemma NestedGroupingIsFaithful(w: World, p: string, log: seq<Event>, start: Time, end: Time, user: int,
                                 messageType: string)
    ensures var rows, k := MessagesByType(w, p, log, start, end), Key(p, end, user, Some(messageType));
            var messages := OfType(w, log, start, end, user, messageType);
            (k in rows <==> messages != {}) && (k in rows ==> user in w.users && rows[k] == Cell(w.users[user].realm, |messages|))
  {
    hide Sum;
    hide Grouped;
    NestedIsDirect(w, p, log, start, end);
    var counted, direct := CountedByType(w, log, start, end), DirectKeys(w, p, log, start, end);
    var k, messages := Key(p, end, user, Some(messageType)), OfType(w, log, start, end, user, messageType);
    GroupedCount(counted, direct, k);
    assert Fiber(counted, direct, k).Keys == messages;
  }

  /* count_message_by_stream_query. */

  /** `log[i]` goes to a stream that exists at `end`, from a known sender. */
  predicate ToStream(w: World, log: seq<Event>, i: int, start: Time, end: Time) {
    && SentIn(log, i, start, end) && log[i].sender in w.users && log[i].recipient in w.recipients
    && w.recipients[log[i].recipient].kind == STREAM && w.recipients[log[i].recipient].typeId in w.streams
    && w.streams[w.recipients[log[i].recipient].typeId].dateCreated < end
  }

  function CountedByStream(w: World, log: seq<Event>, start: Time, end: Time): map<int, int> {
    map i: int | 0 <= i < |log| && ToStream(w, log, i, start, end) :: 1
  }

  function ByStreamKeys(w: World, p: string, log: seq<Event>, start: Time, end: Time, group: GroupBy): map<int, Key> {
    map i | i in CountedByStream(w, log, start, end) ::
      Key(p, end, w.recipients[log[i].recipient].typeId, Some(SubgroupText(w, log[i], group)))
  }

  function StreamRows(w: World, sums: map<Key, int>): Rows {
    map k | k in sums :: Cell(if k.id in w.streams then w.streams[k.id].realm else 0, sums[k])
  }

  ghost function MessagesByStream(w: World, p: string, log: seq<Event>, start: Time, end: Time, group: GroupBy): Rows {
    StreamRows(w, Grouped(CountedByStream(w, log, start, end), ByStreamKeys(w, p, log, start, end, group)))
  }

  /** The messages that bots, or humans, sent to one stream in the window. */
  function SentTo(w: World, log: seq<Event>, start: Time, end: Time, stream: int, isBot: bool): set<int> {
    set i: int | 0 <= i < |log| && log[i].Message? && start <= log[i].time < end
                 && log[i].sender in w.users && w.users[log[i].sender].isBot == isBot
                 && log[i].recipient in w.recipients && w.recipients[log[i].recipient] == Recipient(STREAM, stream)
                 && stream in w.streams && w.streams[stream].dateCreated < end
  }

  /** messages_in_stream counts each message to a stream once, under its stream and kind of sender. */
  lemma StreamMessagesAreCounted(w: World, p: string, log: seq<Event>, start: Time, end: Time, stream: int, isBot: bool)
    ensures var rows, k := MessagesByStream(w, p, log, start, end, ByIsBot), Key(p, end, stream, Some(if isBot then "true" else "false"));
            var messages := SentTo(w, log, start, end, stream, isBot);
            (k in rows <==> messages != {})
            && (k in rows ==> stream in w.streams && rows[k] == Cell(w.streams[stream].realm, |messages|))
  {
    hide Sum;
    hide Grouped;
    var counted, keys := CountedByStream(w, log, start, end), ByStreamKeys(w, p, log, start, end, ByIsBot);
    var k := Key(p, end, stream, Some(if isBot then "true" else "false"));
    GroupedCount(counted, keys, k);
    assert "true"[0] != "false"[0];
    assert Fiber(counted, keys, k).Keys == SentTo(w, log, start, end, stream, isBot);
  }

  /* count_upload_space_used_by_realm_query: everything uploaded before the end time. */

  function Uploads(log: seq<Event>, end: Time): map<int, int> {
    map i: int | 0 <= i < |log| && log[i].Attachment? && log[i].time < end :: log[i].size
  }

  function UploadKeys(p: string, log: seq<Event>, end: Time): map<int, Key> {
    map i | i in Uploads(log, end) :: Key(p, end, log[i].realm, None)
  }

  ghost function UploadSpace(p: string, log: seq<Event>, end: Time): Rows {
    var sums := Grouped(Uploads(log, end), UploadKeys(p, log, end));
    map k | k in sums :: Cell(k.id, sums[k])
  }

  /** The sizes of what was uploaded in a realm before `end`. */
  function UploadedIn(log: seq<Event>, end: Time, realm: int): map<int, int> {
    map i: int | 0 <= i < |log| && log[i].Attachment? && log[i].time < end && log[i].realm == realm :: log[i].size
  }

  /** A realm's row adds up the sizes of all that was uploaded in it. */
  lemma UploadsAreAddedUp(p: string, log: seq<Event>, end: Time, realm: int)
    ensures var rows, k, sizes := UploadSpace(p, log, end), Key(p, end, realm, None), UploadedIn(log, end, realm);
            (k in rows <==> sizes != map[]) && (k in rows ==> rows[k] == Cell(realm, Sum(sizes)))
  {
    hide Sum;
    hide Grouped;
    var k := Key(p, end, realm, None);
    GroupedAt(Uploads(log, end), UploadKeys(p, log, end), k);
    assert Fiber(Uploads(log, end), UploadKeys(p, log, end), k) == UploadedIn(log, end, realm);
  }
}
