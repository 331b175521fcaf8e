/** The bouncer's table of push device registrations, and the views that change it
    (zilencer/views.py). A user may be known by id, by uuid, or by both. */
module PushRegistrations {
  import opened Options

  /** A row of RemotePushDeviceToken. */
  datatype Registration = Registration(
    id: int, server: int, userId: Option<int>, userUuid: Option<string>, kind: int, token: string,
    remoteRealm: Option<int>, iosAppId: Option<string>)

  const APNS := 1
  const FCM := 2

  /** UserPushIdentityCompat. */
  datatype Identity = Identity(userId: Option<int>, userUuid: Option<string>) {
    predicate Known() {
      userId.Some? || userUuid.Some?
    }

    /** filter_q. */
    predicate Matches(r: Registration) {
      (userId.Some? && r.userId == userId) || (userUuid.Some? && r.userUuid == userUuid)
    }
  }

  /* Queries. */

  function Filter(s: seq<Registration>, p: Registration -> bool): seq<Registration>
    decreases |s|
  {
    if s == [] then []
    else Filter(s[..|s| - 1], p) + if p(s[|s| - 1]) then [s[|s| - 1]] else []
  }

  function OfUser(server: int, user: Identity, kind: int): Registration -> bool {
    (r: Registration) => r.server == server && r.kind == kind && user.Matches(r)
  }

  /** objects.filter(filter_q, kind, server).order_by("id"). */
  function Query(rows: seq<Registration>, server: int, user: Identity, kind: int): seq<Registration> {
    Filter(rows, OfUser(server, user, kind))
  }

  function HasToken(token: string): Registration -> bool {
    (r: Registration) => r.token == token
  }

  /** How many of the registrations are for `token`. */
  function Count(s: seq<Registration>, token: string): nat {
    |Filter(s, HasToken(token))|
  }

  /* Constraints and invariant. */

  /** The two unique_together constraints; a null never equals anything. */
  predicate Clash(a: Registration, b: Registration) {
    && a.server == b.server && a.kind == b.kind && a.token == b.token
    && ((a.userId.Some? && a.userId == b.userId) || (a.userUuid.Some? && a.userUuid == b.userUuid))
  }

  predicate OneIdentity(r: Registration) {
    r.userId.Some? != r.userUuid.Some?
  }

  ghost predicate ValidRows(rows: seq<Registration>, nextId: int) {
    && (forall r | r in rows :: OneIdentity(r) && r.id < nextId)
    && (forall i, j | 0 <= i < j < |rows| :: rows[i].id < rows[j].id && !Clash(rows[i], rows[j]))
  }

  /* register_remote_push_device. */

  /** What looking up realm_uuid gives. Text that is not a uuid and another server's realm raise. */
  datatype RealmLookup = NotSent | NotAUuid | Unknown | Known(remoteRealm: int) | OfOtherServer

  /** The parameters that name a user. user_uuid is free text: `isUuid` tells whether a UUIDField can
      read it, and `user` then has the uuid it reads, in whatever spelling it came. */
  datatype Sender = Sender(user: Identity, isUuid: bool, realm: RealmLookup)

  datatype Request = Request(sender: Sender, token: string, decodes: bool, kind: int, iosAppId: Option<string>)

  datatype Fault =
    | InvalidKind | InvalidToken | MissingAppId
    | MissingUser | MissingUuid | InvalidRealmUuid | RealmMismatch | InvalidUserUuid
    | TokenMissing | TooManyRegistrations

  /** `r` registers this device for this user. */
  predicate IsFor(r: Registration, server: int, q: Request) {
    r.server == server && r.token == q.token && r.kind == q.kind && q.sender.user.Matches(r)
  }

  /** validate_bouncer_token_request; `decodes` tells whether an APNs token is well-formed base64. */
  function TokenFault(token: string, decodes: bool, kind: int): Option<Fault> {
    if kind != APNS && kind != FCM then Some(InvalidKind)
    else if token == "" || |token| > 4096 || (kind == APNS && !decodes) then Some(InvalidToken)
    else None
  }

  /** No user, or no user_uuid beside a realm_uuid. */
  function MissingFault(s: Sender): Option<Fault> {
    if !s.user.Known() then Some(MissingUser)
    else if s.realm != NotSent && s.user.userUuid.None? then Some(MissingUuid)
    else None
  }

  /** What get_remote_realm_helper raises, and then any use of user_uuid as a column. */
  function UuidFault(s: Sender): Option<Fault> {
    if s.realm.NotAUuid? then Some(InvalidRealmUuid)
    else if s.realm.OfOtherServer? then Some(RealmMismatch)
    else if s.user.userUuid.Some? && !s.isUuid then Some(InvalidUserUuid)
    else None
  }

  function SenderFault(s: Sender): Option<Fault> {
    if MissingFault(s).Some? then MissingFault(s) else UuidFault(s)
  }

  /** The errors before the delete, and the assertion after it that needs a missing user_uuid. */
  function RegisterFault(q: Request): Option<Fault> {
    if TokenFault(q.token, q.decodes, q.kind).Some? then TokenFault(q.token, q.decodes, q.kind)
    else if q.kind == APNS && q.iosAppId.None? then Some(MissingAppId)
    else MissingFault(q.sender)
  }

  function LacksKey(server: int, token: string, kind: int, user: Identity): Registration -> bool {
    (r: Registration) => !(r.server == server && r.token == token && r.kind == kind && user.Matches(r))
  }

  /** The id registration that a request with both identities replaces is deleted first. */
  function AfterReplacing(rows: seq<Registration>, server: int, q: Request): seq<Registration> {
    if q.sender.user.userId.Some? && q.sender.user.userUuid.Some? then
      Filter(rows, LacksKey(server, q.token, q.kind, Identity(q.sender.user.userId, None)))
    else rows
  }

  function NewRow(server: int, q: Request, id: int): Registration {
    Registration(id, server, if q.sender.user.userUuid.Some? then None else q.sender.user.userId, q.sender.user.userUuid, q.kind, q.token,
                 if q.sender.realm.Known? then Some(q.sender.realm.remoteRealm) else None, q.iosAppId)
  }

  /** bulk_create with ignore_conflicts. */
  function Insert(rows: seq<Registration>, r: Registration): seq<Registration> {
    if exists x | x in rows :: Clash(x, r) then rows else rows + [r]
  }

  /** The rows after a request, and the error it raises, if any. */
  function Register(rows: seq<Registration>, server: int, q: Request, id: int): (Option<Fault>, seq<Registration>) {
    if RegisterFault(q).Some? then (RegisterFault(q), rows)
    else if UuidFault(q.sender).Some? then (UuidFault(q.sender), AfterReplacing(rows, server, q))
    else (None, Insert(AfterReplacing(rows, server, q), NewRow(server, q, id)))
  }

  /* delete_duplicate_registrations. */

  predicate Duplicated(s: seq<Registration>, token: string) {
    Count(s, token) == 2
  }

  /** What the delete statement leaves. */
  function Survives(registrations: seq<Registration>, kind: int, server: int, userId: int): Registration -> bool {
    (r: Registration) => !(Duplicated(registrations, r.token) && r.kind == kind && r.server == server && r.userId == Some(userId))
  }

  /** What the returned list leaves. */
  function Kept(registrations: seq<Registration>): Registration -> bool {
    (r: Registration) => !(Duplicated(registrations, r.token) && r.userId.Some?)
  }

  class DeviceTable {
    var rows: seq<Registration>
    var nextId: int

    ghost predicate Valid()
      reads this
    {
      ValidRows(rows, nextId)
    }

    constructor ()
      ensures Valid() && rows == []
    {
      rows, nextId := [], 1;
    }

    /** DELETE ... WHERE: keeps the rows that `keep` accepts, in order. */
    method DeleteExcept(keep: Registration -> bool) returns (deleted: int)
      modifies this`rows
      ensures rows == Filter(old(rows), keep) && deleted == |old(rows)| - |rows|
    {
      var kept: seq<Registration>, i := [], 0;
      while i < |rows|
        invariant 0 <= i <= |rows| && rows == old(rows) && kept == Filter(rows[..i], keep)
      {
        assert rows[..i + 1][..i] == rows[..i];
        if keep(rows[i]) {
          kept := kept + [rows[i]];
        }
        i := i + 1;
      }
      assert rows[..|rows|] == rows;
      deleted := |rows| - |kept|;
      rows := kept;
    }

    /** register_remote_push_device. No transaction surrounds it. */
    method RegisterDevice(server: int, q: Request) returns (fault: Option<Fault>)
      requires Valid()
      modifies this
      ensures Valid() && (fault, rows) == Register(old(rows), server, q, old(nextId))
    {
      hide ValidRows;
      var tokenFault := TokenFault(q.token, q.decodes, q.kind);
      if tokenFault.Some? {
        return tokenFault;
      }
      if q.kind == APNS && q.iosAppId.None? {
        return Some(MissingAppId);
      }
      if !q.sender.user.Known() {
        return Some(MissingUser);
      }
      if q.sender.user.userId.Some? && q.sender.user.userUuid.Some? {
        FilterKeepsValid(rows, nextId, LacksKey(server, q.token, q.kind, Identity(q.sender.user.userId, None)));
        var deleted := DeleteExcept(LacksKey(server, q.token, q.kind, Identity(q.sender.user.userId, None)));
      }
      fault := LookUpRealm(q.sender);
      if fault.Some? {
        return;
      }
      if q.sender.user.userUuid.Some? && !q.sender.isUuid {
        return Some(InvalidUserUuid);
      }
      InsertKeepsValid(rows, nextId, NewRow(server, q, nextId));
      rows, nextId := Insert(rows, NewRow(server, q, nextId)), nextId + 1;
      fault := None;
    }

    /** unregister_remote_push_device. */
    method UnregisterDevice(server: int, q: Request) returns (fault: Option<Fault>)
      requires Valid()
      modifies this`rows
      ensures Valid()
      ensures fault == if TokenFault(q.token, q.decodes, q.kind).Some? then TokenFault(q.token, q.decodes, q.kind)
                       else if SenderFault(q.sender).Some? then SenderFault(q.sender)
                       else if exists r | r in old(rows) :: IsFor(r, server, q) then None
                       else Some(TokenMissing)
      ensures fault.None? ==> rows == Filter(old(rows), LacksKey(server, q.token, q.kind, q.sender.user))
      ensures fault.None? ==>
                var user := q.sender.user;
                forall r :: r in rows <==>
                  r in old(rows)
                  && !(r.server == server && r.token == q.token && r.kind == q.kind
                    && ((user.userId.Some? && r.userId == user.userId) || (user.userUuid.Some? && r.userUuid == user.userUuid)))
      ensures fault.Some? ==> rows == old(rows)
    {
      fault := TokenFault(q.token, q.decodes, q.kind);
      if fault.Some? {
        return;
      }
      fault := IdentifySender(q.sender);
      if fault.Some? {
        return;
      }
      Unregistered(rows, nextId, server, q);
      hide TokenFault;
      hide Filter;
      hide ValidRows;
      hide LacksKey;
      hide IsFor;
      var deleted := DeleteExcept(LacksKey(server, q.token, q.kind, q.sender.user));
      if deleted == 0 {
        return Some(TokenMissing);
      }
    }

    /** unregister_all_remote_push_devices. */
    method UnregisterAll(server: int, s: Sender) returns (fault: Option<Fault>)
      requires Valid()
      modifies this`rows
      ensures Valid() && fault == SenderFault(s)
      ensures fault.Some? ==> rows == old(rows)
      ensures fault.None? ==>
                forall r :: r in rows <==>
                  r in old(rows)
                  && !(r.server == server
                       && ((s.user.userId.Some? && r.userId == s.user.userId) || (s.user.userUuid.Some? && r.userUuid == s.user.userUuid)))
    {
      fault := IdentifySender(s);
      if fault.Some? {
        return;
      }
      var keep := (r: Registration) => !(r.server == server && s.user.Matches(r));
      FilterKeepsValid(rows, nextId, keep);
      FilterIn(rows, keep);
      var deleted := DeleteExcept(keep);
    }

    /** delete_duplicate_registrations. */
    method DeleteDuplicateRegistrations(registrations: seq<Registration>, server: int, userId: int, userUuid: string)
      returns (fault: Option<Fault>, remaining: seq<Registration>)
      requires Valid() && registrations != [] && forall r | r in registrations :: r.kind == registrations[0].kind
      modifies this`rows
      ensures Valid()
      ensures fault == if exists t :: Count(registrations, t) > 2 then Some(TooManyRegistrations) else None
      ensures fault.Some? ==> rows == old(rows)
      ensures fault.None? ==> remaining == Filter(registrations, Kept(registrations))
      ensures fault.None? ==> rows == Filter(old(rows), Survives(registrations, registrations[0].kind, server, userId))
    {
      hide ValidRows;
      hide Count;
      remaining := [];
      var kind, duplicates := registrations[0].kind, {};
      fault, duplicates := TokensToDeduplicate(registrations);
      if fault.Some? {
        return;
      }
      ghost var survives := Survives(registrations, kind, server, userId);
      if duplicates == {} {
        assert forall t :: !Duplicated(registrations, t);
        FilterAll(registrations, Kept(registrations));
        FilterAll(rows, survives);
        remaining := registrations;
        return;
      }
      FilterKeepsValid(rows, nextId, survives);
      var keep := (r: Registration) => !(r.token in duplicates && r.kind == kind && r.server == server && r.userId == Some(userId));
      FilterAgree(rows, keep, survives);
      var deleted := DeleteExcept(keep);
      remaining := WithoutIds(registrations, duplicates);
    }
  }

  /** get_remote_realm_helper, where a realm_uuid was sent. */
  method LookUpRealm(s: Sender) returns (fault: Option<Fault>)
    ensures fault == if s.realm != NotSent && s.user.userUuid.None? then Some(MissingUuid)
                     else if s.realm.NotAUuid? then Some(InvalidRealmUuid)
                     else if s.realm.OfOtherServer? then Some(RealmMismatch)
                     else None
  {
    fault := None;
    if s.realm != NotSent {
      if s.user.userUuid.None? {
        return Some(MissingUuid);
      }
      if s.realm.NotAUuid? {
        return Some(InvalidRealmUuid);
      }
      if s.realm.OfOtherServer? {
        return Some(RealmMismatch);
      }
    }
  }

  /** What both unregister views do up to their query: UserPushIdentityCompat, the realm, filter_q. */
  method IdentifySender(s: Sender) returns (fault: Option<Fault>)
    ensures fault == SenderFault(s)
  {
    if !s.user.Known() {
      return Some(MissingUser);
    }
    fault := LookUpRealm(s);
    if fault.None? && s.user.userUuid.Some? && !s.isUuid {
      fault := Some(InvalidUserUuid);
    }
  }

  /** The list comprehension at the end of delete_duplicate_registrations. */
  method WithoutIds(registrations: seq<Registration>, duplicates: set<string>) returns (remaining: seq<Registration>)
    requires forall t :: t in duplicates <==> Duplicated(registrations, t)
    ensures remaining == Filter(registrations, Kept(registrations))
  {
    hide Count;
    remaining := [];
    var i := 0;
    while i < |registrations|
      invariant 0 <= i <= |registrations| && remaining == Filter(registrations[..i], Kept(registrations))
    {
      assert registrations[..i + 1][..i] == registrations[..i];
      if !(registrations[i].token in duplicates && registrations[i].userId.Some?) {
        remaining := remaining + [registrations[i]];
      }
      i := i + 1;
    }
    assert registrations[..|registrations|] == registrations;
  }

  /** The loop over the counter: the tokens registered twice, unless one is registered more often. */
  method TokensToDeduplicate(registrations: seq<Registration>) returns (fault: Option<Fault>, duplicates: set<string>)
    ensures fault == if exists t :: Count(registrations, t) > 2 then Some(TooManyRegistrations) else None
    ensures fault.None? ==> forall t :: t in duplicates <==> Duplicated(registrations, t)
  {
    hide Count;
    var counter := CountTokens(registrations);
    var tokens := counter.Keys;
    duplicates := {};
    while tokens != {}
      invariant tokens <= counter.Keys
      invariant forall t | t in counter && t !in tokens :: counter[t] <= 2
      invariant duplicates == set t | t in counter && t !in tokens && counter[t] == 2
      decreases tokens
    {
      var t :| t in tokens;
      tokens := tokens - {t};
      if counter[t] > 2 {
        assert Count(registrations, t) > 2;
        return Some(TooManyRegistrations), {};
      }
      if counter[t] == 2 {
        duplicates := duplicates + {t};
      }
    }
    fault := None;
  }

  /** Counter(device.token for device in registrations). */
  method CountTokens(registrations: seq<Registration>) returns (counter: map<string, nat>)
    ensures forall t :: Count(registrations, t) == if t in counter then counter[t] else 0
  {
    counter := map[];
    var i := 0;
    while i < |registrations|
      invariant 0 <= i <= |registrations|
      invariant forall t :: Count(registrations[..i], t) == if t in counter then counter[t] else 0
    {
      assert registrations[..i + 1][..i] == registrations[..i];
      var t := registrations[i].token;
      counter := counter[t := (if t in counter then counter[t] else 0) + 1];
      i := i + 1;
    }
    assert registrations[..|registrations|] == registrations;
  }

  /* Filters. */

  lemma {:induction false} FilterIn(s: seq<Registration>, p: Registration -> bool)
    ensures forall r :: r in Filter(s, p) <==> r in s && p(r)
    ensures |Filter(s, p)| <= |s| && (|Filter(s, p)| == |s| <==> forall r | r in s :: p(r))
    ensures (forall r | r in s :: p(r)) ==> Filter(s, p) == s
    decreases |s|
  {
    if s != [] {
      var rest, last := s[..|s| - 1], s[|s| - 1];
      assert s == rest + [last];
      FilterIn(rest, p);
    }
  }

  lemma FilterAll(s: seq<Registration>, p: Registration -> bool)
    requires forall r | r in s :: p(r)
    ensures Filter(s, p) == s
  {
    FilterIn(s, p);
  }

  lemma {:induction false} FilterAgree(s: seq<Registration>, p: Registration -> bool, q: Registration -> bool)
    requires forall r | r in s :: p(r) == q(r)
    ensures Filter(s, p) == Filter(s, q)
    decreases |s|
  {
    if s != [] {
      assert forall r | r in s[..|s| - 1] :: r in s;
      FilterAgree(s[..|s| - 1], p, q);
    }
  }

  lemma ValidPlus(s: seq<Registration>, r: Registration, nextId: int)
    requires ValidRows(s, nextId) && OneIdentity(r) && r.id < nextId
    requires forall x | x in s :: x.id < r.id && !Clash(x, r)
    ensures ValidRows(s + [r], nextId)
  {
    hide Clash;
  }

  lemma ValidParts(s: seq<Registration>, nextId: int)
    requires ValidRows(s, nextId) && s != []
    ensures var rest, last := s[..|s| - 1], s[|s| - 1];
            ValidRows(rest, nextId) && OneIdentity(last) && last.id < nextId && forall x | x in rest :: x.id < last.id && !Clash(x, last)
  {
    hide Clash;
    hide OneIdentity;
    var rest := s[..|s| - 1];
    assert forall i | 0 <= i < |rest| :: rest[i] == s[i];
  }

  /** A filter keeps the order, so every pairwise property survives it. */
  lemma {:induction false} FilterKeepsValid(s: seq<Registration>, nextId: int, p: Registration -> bool)
    requires ValidRows(s, nextId)
    ensures ValidRows(Filter(s, p), nextId)
    decreases |s|
  {
    hide ValidRows;
    hide Clash;
    hide OneIdentity;
    if s == [] {
      EmptyIsValid(nextId);
    } else {
      var rest := s[..|s| - 1];
      ValidParts(s, nextId);
      FilterKeepsValid(rest, nextId, p);
      FilterIn(rest, p);
      if p(s[|s| - 1]) {
        ValidPlus(Filter(rest, p), s[|s| - 1], nextId);
      } else {
        assert Filter(s, p) == Filter(rest, p);
      }
    }
  }

  lemma EmptyIsValid(nextId: int)
    ensures ValidRows([], nextId)
  {}

  lemma InsertKeepsValid(rows: seq<Registration>, nextId: int, r: Registration)
    requires ValidRows(rows, nextId) && OneIdentity(r) && r.id == nextId
    ensures ValidRows(Insert(rows, r), nextId + 1)
  {}

  lemma {:induction false} FilterTwice(s: seq<Registration>, p: Registration -> bool, q: Registration -> bool)
    ensures Filter(Filter(s, p), q) == Filter(s, (r: Registration) => p(r) && q(r))
    decreases |s|
  {
    if s != [] {
      var rest, last := s[..|s| - 1], s[|s| - 1];
      FilterTwice(rest, p, q);
      if p(last) {
        assert Filter(s, p)[..|Filter(s, p)| - 1] == Filter(rest, p);
      } else {
        assert Filter(s, p) == Filter(rest, p);
      }
    }
  }

  lemma FilterSwap(s: seq<Registration>, p: Registration -> bool, q: Registration -> bool)
    ensures Filter(Filter(s, p), q) == Filter(Filter(s, q), p)
  {
    FilterTwice(s, p, q);
    FilterTwice(s, q, p);
    FilterAgree(s, (r: Registration) => p(r) && q(r), (r: Registration) => q(r) && p(r));
  }

  lemma {:induction false} FilterSplit(s: seq<Registration>, p: Registration -> bool, q: Registration -> bool)
    ensures |Filter(s, p)| == |Filter(s, (r: Registration) => p(r) && q(r))| + |Filter(s, (r: Registration) => p(r) && !q(r))|
    decreases |s|
  {
    if s != [] {
      FilterSplit(s[..|s| - 1], p, q);
    }
  }

  lemma {:induction false} FilterNone(s: seq<Registration>, p: Registration -> bool)
    requires forall r | r in s :: !p(r)
    ensures Filter(s, p) == []
    decreases |s|
  {
    if s != [] {
      assert forall r | r in s[..|s| - 1] :: r in s;
      FilterNone(s[..|s| - 1], p);
    }
  }

  /** At most one row passes a filter whose rows would violate a unique constraint together. */
  lemma {:induction false} AtMostOne(s: seq<Registration>, nextId: int, p: Registration -> bool)
    requires ValidRows(s, nextId) && forall a, b | a in s && b in s && p(a) && p(b) :: Clash(a, b)
    ensures |Filter(s, p)| <= 1
    decreases |s|
  {
    hide Clash;
    hide OneIdentity;
    if s != [] {
      var rest, last := s[..|s| - 1], s[|s| - 1];
      assert forall r | r in rest :: r in s;
      ValidParts(s, nextId);
      AtMostOne(rest, nextId, p);
      if p(last) {
        assert last in s;
        FilterNone(rest, p);
      }
    }
  }

  /* The theorems. */

  function IdRow(token: string): Registration -> bool {
    (r: Registration) => r.token == token && r.userId.Some?
  }

  function UuidRow(token: string): Registration -> bool {
    (r: Registration) => r.token == token && r.userId.None?
  }

  /** One user, kind and token match at most two registrations, one by id and one by uuid: the
      "more than two" error of delete_duplicate_registrations cannot happen. */
  lemma AtMostTwoMatch(rows: seq<Registration>, nextId: int, server: int, userId: int, userUuid: string, kind: int,
                       token: string)
    requires ValidRows(rows, nextId)
    ensures var found := Query(rows, server, Identity(Some(userId), Some(userUuid)), kind);
            && Count(found, token) <= 2
            && |Filter(found, IdRow(token))| <= 1 && |Filter(found, UuidRow(token))| <= 1
            && Count(found, token) == |Filter(found, IdRow(token))| + |Filter(found, UuidRow(token))|
  {
    var user := Identity(Some(userId), Some(userUuid));
    var found := Query(rows, server, user, kind);
    FilterKeepsValid(rows, nextId, OfUser(server, user, kind));
    QueriedIdentity(rows, nextId, server, userId, userUuid, kind);
    SameTokenClashes(found, server, userId, userUuid, kind, token);
    hide Query;
    hide ValidRows;
    hide Clash;
    AtMostOne(found, nextId, IdRow(token));
    AtMostOne(found, nextId, UuidRow(token));
    CountSplits(found, token);
  }

  lemma SameTokenClashes(found: seq<Registration>, server: int, userId: int, userUuid: string, kind: int, token: string)
    requires forall r | r in found ::
               && r.server == server && r.kind == kind
               && (r.userId.Some? ==> r.userId == Some(userId)) && (r.userId.None? ==> r.userUuid == Some(userUuid))
    ensures forall a, b | a in found && b in found && IdRow(token)(a) && IdRow(token)(b) :: Clash(a, b)
    ensures forall a, b | a in found && b in found && UuidRow(token)(a) && UuidRow(token)(b) :: Clash(a, b)
  {}

  lemma CountSplits(found: seq<Registration>, token: string)
    ensures Count(found, token) == |Filter(found, IdRow(token))| + |Filter(found, UuidRow(token))|
  {
    FilterSplit(found, HasToken(token), (r: Registration) => r.userId.Some?);
    FilterAgree(found, (r: Registration) => HasToken(token)(r) && r.userId.Some?, IdRow(token));
    FilterAgree(found, (r: Registration) => HasToken(token)(r) && !r.userId.Some?, UuidRow(token));
  }

  /** A matching row with an id has this user's id, and one without has this user's uuid. */
  lemma QueriedIdentity(rows: seq<Registration>, nextId: int, server: int, userId: int, userUuid: string, kind: int)
    requires ValidRows(rows, nextId)
    ensures forall r | r in Query(rows, server, Identity(Some(userId), Some(userUuid)), kind) ::
              && r in rows && r.server == server && r.kind == kind
              && (r.userId.Some? ==> r.userId == Some(userId)) && (r.userId.None? ==> r.userUuid == Some(userUuid))
  {
    FilterIn(rows, OfUser(server, Identity(Some(userId), Some(userUuid)), kind));
  }

  /** What is queried: all the user's registrations of that kind, by either identity, by ascending id. */
  lemma {:induction false} QueryFinds(rows: seq<Registration>, nextId: int, server: int, user: Identity, kind: int)
    requires ValidRows(rows, nextId)
    ensures var found := Query(rows, server, user, kind);
            && (forall r :: r in found <==>
                  r in rows && r.server == server && r.kind == kind
                  && ((user.userId.Some? && r.userId == user.userId) || (user.userUuid.Some? && r.userUuid == user.userUuid)))
            && (forall i, j | 0 <= i < j < |found| :: found[i].id < found[j].id)
  {
    FilterIn(rows, OfUser(server, user, kind));
    FilterKeepsValid(rows, nextId, OfUser(server, user, kind));
  }

  /** The delete: of all rows on the bouncer, exactly the user's registrations by id go for which there
      is one by uuid of the same device. */
  lemma OnlyDuplicatesGo(rows: seq<Registration>, nextId: int, server: int, userId: int, userUuid: string, kind: int)
    requires ValidRows(rows, nextId)
    ensures var found := Query(rows, server, Identity(Some(userId), Some(userUuid)), kind);
            var after := Filter(rows, Survives(found, kind, server, userId));
            forall r :: r in after <==>
              r in rows
              && !(r.server == server && r.kind == kind && r.userId == Some(userId)
                   && exists u :: u in rows && u.server == server && u.kind == kind && u.token == r.token && u.userUuid == Some(userUuid))
  {
    var found := Query(rows, server, Identity(Some(userId), Some(userUuid)), kind);
    FilterIn(rows, Survives(found, kind, server, userId));
    QueryFinds(rows, nextId, server, Identity(Some(userId), Some(userUuid)), kind);
    hide Query;
    hide Count;
    forall r | r in rows && r.server == server && r.kind == kind && r.userId == Some(userId)
      ensures Duplicated(found, r.token)
         <==> exists u :: u in rows && u.server == server && u.kind == kind && u.token == r.token && u.userUuid == Some(userUuid)
    {
      IdRowIsDuplicated(rows, nextId, server, userId, userUuid, kind, r);
    }
  }

  lemma IdRowIsDuplicated(rows: seq<Registration>, nextId: int, server: int, userId: int, userUuid: string, kind: int, r: Registration)
    requires ValidRows(rows, nextId) && r in rows && r.server == server && r.kind == kind && r.userId == Some(userId)
    ensures Duplicated(Query(rows, server, Identity(Some(userId), Some(userUuid)), kind), r.token)
       <==> exists u :: u in rows && u.server == server && u.kind == kind && u.token == r.token && u.userUuid == Some(userUuid)
  {
    var user := Identity(Some(userId), Some(userUuid));
    var found := Query(rows, server, user, kind);
    AtMostTwoMatch(rows, nextId, server, userId, userUuid, kind, r.token);
    UuidRowIsFound(rows, nextId, server, userId, userUuid, kind, r.token);
    QueryFinds(rows, nextId, server, user, kind);
    hide Query;
    hide Count;
    hide ValidRows;
    hide Filter;
    FilterIn(found, IdRow(r.token));
    assert r in Filter(found, IdRow(r.token));
  }

  lemma UuidRowIsFound(rows: seq<Registration>, nextId: int, server: int, userId: int, userUuid: string, kind: int, token: string)
    requires ValidRows(rows, nextId)
    ensures Filter(Query(rows, server, Identity(Some(userId), Some(userUuid)), kind), UuidRow(token)) != []
       <==> exists u :: u in rows && u.server == server && u.kind == kind && u.token == token && u.userUuid == Some(userUuid)
  {
    var found := Query(rows, server, Identity(Some(userId), Some(userUuid)), kind);
    FilterFinds(found, UuidRow(token));
    QueryFinds(rows, nextId, server, Identity(Some(userId), Some(userUuid)), kind);
    hide Query;
    hide Filter;
    if u :| u in rows && u.server == server && u.kind == kind && u.token == token && u.userUuid == Some(userUuid) {
      OneIdentityOf(rows, nextId, u);
      assert u in found && UuidRow(token)(u);
    }
    if r :| r in found && UuidRow(token)(r) {
      OneIdentityOf(rows, nextId, r);
    }
  }

  /** What deleting the registrations of a device leaves. */
  lemma Unregistered(rows: seq<Registration>, nextId: int, server: int, q: Request)
    requires ValidRows(rows, nextId)
    ensures var after, user := Filter(rows, LacksKey(server, q.token, q.kind, q.sender.user)), q.sender.user;
            && ValidRows(after, nextId) && (|after| == |rows| ==> after == rows)
            && (|after| == |rows| <==> !exists r | r in rows :: IsFor(r, server, q))
            && (forall r :: r in after <==>
                  r in rows
                  && !(r.server == server && r.token == q.token && r.kind == q.kind
                       && ((user.userId.Some? && r.userId == user.userId) || (user.userUuid.Some? && r.userUuid == user.userUuid))))
  {
    var keep := LacksKey(server, q.token, q.kind, q.sender.user);
    FilterKeepsValid(rows, nextId, keep);
    hide ValidRows;
    FilterIn(rows, keep);
    hide Filter;
    assert forall r :: keep(r) == !IsFor(r, server, q);
  }

  lemma FilterFinds(s: seq<Registration>, p: Registration -> bool)
    ensures Filter(s, p) != [] <==> exists r :: r in s && p(r)
  {
    FilterIn(s, p);
    if Filter(s, p) != [] {
      assert Filter(s, p)[0] in Filter(s, p);
    }
  }

  lemma OneIdentityOf(rows: seq<Registration>, nextId: int, r: Registration)
    requires ValidRows(rows, nextId) && r in rows
    ensures OneIdentity(r)
  {}

  /** The list that delete_duplicate_registrations returns, and the rows it leaves. */
  function Remaining(registrations: seq<Registration>): seq<Registration> {
    Filter(registrations, Kept(registrations))
  }

  /** The returned list is what a fresh query finds in the database after the delete. */
  lemma ReturnedListIsFresh(rows: seq<Registration>, nextId: int, server: int, userId: int, userUuid: string, kind: int)
    requires ValidRows(rows, nextId)
    ensures var user := Identity(Some(userId), Some(userUuid));
            var found := Query(rows, server, user, kind);
            Remaining(found) == Query(Filter(rows, Survives(found, kind, server, userId)), server, user, kind)
  {
    var user := Identity(Some(userId), Some(userUuid));
    var found := Query(rows, server, user, kind);
    QueriedIdentity(rows, nextId, server, userId, userUuid, kind);
    hide ValidRows;
    hide Duplicated;
    FilterAgree(found, Kept(found), Survives(found, kind, server, userId));
    FilterSwap(rows, OfUser(server, user, kind), Survives(found, kind, server, userId));
  }

  /** Each token once, no token lost, and of a pair the registration by uuid stays. */
  lemma DeduplicationIsExact(rows: seq<Registration>, nextId: int, server: int, userId: int, userUuid: string,
                             kind: int)
    requires ValidRows(rows, nextId)
    ensures var found := Query(rows, server, Identity(Some(userId), Some(userUuid)), kind);
            var kept := Remaining(found);
            && (forall i, j | 0 <= i < j < |kept| :: kept[i].token != kept[j].token)
            && (forall r | r in found :: exists k :: k in kept && k.token == r.token)
            && (forall k | k in kept :: k in found)
            && (forall r | r in found && r.userUuid.Some? :: r in kept)
  {
    hide ValidRows;
    hide Query;
    hide Count;
    hide Remaining;
    var found := Query(rows, server, Identity(Some(userId), Some(userUuid)), kind);
    forall t ensures Count(Remaining(found), t) == (if Count(found, t) == 2 then 1 else Count(found, t)) && Count(found, t) <= 2 {
      AtMostTwoMatch(rows, nextId, server, userId, userUuid, kind, t);
      KeptCount(found, t);
    }
    OneOfEach(found);
    UuidRowsStay(rows, nextId, server, Identity(Some(userId), Some(userUuid)), kind);
  }

  lemma UuidRowsStay(rows: seq<Registration>, nextId: int, server: int, user: Identity, kind: int)
    requires ValidRows(rows, nextId)
    ensures var found := Query(rows, server, user, kind);
            && (forall k | k in Remaining(found) :: k in found)
            && (forall r | r in found && r.userUuid.Some? :: r in Remaining(found))
  {
    hide Count;
    FilterIn(rows, OfUser(server, user, kind));
    FilterIn(Query(rows, server, user, kind), Kept(Query(rows, server, user, kind)));
  }

  lemma OneOfEach(found: seq<Registration>)
    requires forall t :: Count(found, t) <= 2 && Count(Remaining(found), t) == if Count(found, t) == 2 then 1 else Count(found, t)
    ensures var kept := Remaining(found);
            && (forall i, j | 0 <= i < j < |kept| :: kept[i].token != kept[j].token)
            && (forall r | r in found :: exists k :: k in kept && k.token == r.token)
  {
    hide Count;
    hide Remaining;
    var kept := Remaining(found);
    forall i, j | 0 <= i < j < |kept| ensures kept[i].token != kept[j].token {
      if kept[i].token == kept[j].token {
        TwoCount(kept, i, j);
      }
    }
    forall r | r in found ensures exists k :: k in kept && k.token == r.token {
      CountPositive(found, r.token);
      CountPositive(kept, r.token);
    }
  }

  lemma CountPositive(s: seq<Registration>, t: string)
    ensures Count(s, t) > 0 <==> exists r :: r in s && r.token == t
  {
    FilterIn(s, HasToken(t));
    if Count(s, t) > 0 {
      assert Filter(s, HasToken(t))[0] in s;
    }
  }

  /** Of a pair exactly the id row goes. */
  lemma KeptCount(found: seq<Registration>, t: string)
    requires Count(found, t) <= 2 && |Filter(found, IdRow(t))| <= 1 && |Filter(found, UuidRow(t))| <= 1
    requires Count(found, t) == |Filter(found, IdRow(t))| + |Filter(found, UuidRow(t))|
    ensures Count(Remaining(found), t) == if Count(found, t) == 2 then 1 else Count(found, t)
  {
    FilterSwap(found, Kept(found), HasToken(t));
    var both := (r: Registration) => Kept(found)(r) && HasToken(t)(r);
    FilterTwice(found, Kept(found), HasToken(t));
    if Duplicated(found, t) {
      FilterAgree(found, both, UuidRow(t));
    } else {
      FilterAgree(found, both, HasToken(t));
    }
  }

  lemma {:induction false} TwoCount(s: seq<Registration>, i: nat, j: nat)
    requires i < j < |s| && s[i].token == s[j].token
    ensures Count(s, s[j].token) >= 2
    decreases |s|
  {
    var rest := s[..|s| - 1];
    if j == |s| - 1 {
      assert rest[i] == s[i];
      CountPositive(rest, s[j].token);
    } else {
      TwoCount(rest, i, j);
    }
  }

  /** After a successful request the device is registered for the user exactly once, by uuid if the
      request has one. */
  lemma RegisteredOnce(rows: seq<Registration>, nextId: int, server: int, q: Request)
    requires ValidRows(rows, nextId) && Register(rows, server, q, nextId).0 == None
    ensures var after, user := Register(rows, server, q, nextId).1, q.sender.user;
            && (exists r :: r in after && r.server == server && r.token == q.token && r.kind == q.kind
                            && (if user.userUuid.Some? then r.userUuid == user.userUuid else r.userId == user.userId && user.userId.Some?))
            && (forall a, b | a in after && b in after
                              && a.server == b.server == server && a.token == b.token == q.token && a.kind == b.kind == q.kind
                              && ((user.userId.Some? && a.userId == user.userId) || (user.userUuid.Some? && a.userUuid == user.userUuid))
                              && ((user.userId.Some? && b.userId == user.userId) || (user.userUuid.Some? && b.userUuid == user.userUuid)) :: a == b)
  {
    hide ValidRows;
    hide Clash;
    hide AfterReplacing;
    hide Filter;
    var before, row := AfterReplacing(rows, server, q), NewRow(server, q, nextId);
    OthersAreReplaced(rows, nextId, server, q);
    InsertKeepsValid(before, nextId, row);
    InsertedOnce(before, row, nextId + 1);
    NewRowIsFor(server, q, nextId);
    RegisteredForUser(Insert(before, row), server, q, row);
  }

  lemma RegisteredForUser(after: seq<Registration>, server: int, q: Request, row: Registration)
    requires q.sender.user.Known()
    requires exists r :: r in after && Clash(r, row)
    requires forall a, b | a in after && b in after && Clash(a, row) && Clash(b, row) :: a == b
    requires forall r | Clash(r, row) :: IsFor(r, server, q) && (q.sender.user.userUuid.Some? ==> r.userUuid == q.sender.user.userUuid)
    requires forall r | r in after && IsFor(r, server, q) :: Clash(r, row)
    ensures exists r :: r in after && IsFor(r, server, q) && (q.sender.user.userUuid.Some? ==> r.userUuid == q.sender.user.userUuid)
    ensures forall a, b | a in after && b in after && IsFor(a, server, q) && IsFor(b, server, q) :: a == b
  {
    hide Clash;
  }

  /** Who may call: exactly these requests succeed, told from their parameters. */
  lemma SucceedsIff(rows: seq<Registration>, server: int, q: Request, id: int)
    ensures Register(rows, server, q, id).0.None? <==>
              && (q.kind == 1 || q.kind == 2) && 1 <= |q.token| <= 4096 && (q.kind == 1 ==> q.decodes && q.iosAppId.Some?)
              && (q.sender.user.userId.Some? || q.sender.user.userUuid.Some?)
              && (q.sender.user.userUuid.Some? ==> q.sender.isUuid)
              && (q.sender.realm.NotSent? || (q.sender.user.userUuid.Some? && (q.sender.realm.Unknown? || q.sender.realm.Known?)))
  {}

  /** Which error any other request gets: that of the first check it fails, in the order of the view. */
  lemma FirstError(rows: seq<Registration>, server: int, q: Request, id: int)
    ensures var s := q.sender;
            Register(rows, server, q, id).0
            == if q.kind != 1 && q.kind != 2 then Some(InvalidKind)
               else if q.token == "" || |q.token| > 4096 || (q.kind == 1 && !q.decodes) then Some(InvalidToken)
               else if q.kind == 1 && q.iosAppId.None? then Some(MissingAppId)
               else if s.user.userId.None? && s.user.userUuid.None? then Some(MissingUser)
               else if !s.realm.NotSent? && s.user.userUuid.None? then Some(MissingUuid)
               else if s.realm.NotAUuid? then Some(InvalidRealmUuid)
               else if s.realm.OfOtherServer? then Some(RealmMismatch)
               else if s.user.userUuid.Some? && !s.isUuid then Some(InvalidUserUuid)
               else None
  {}

  /** Nobody else's registration changes: of the old rows only the one of this device and user_id goes,
      and only when a user_uuid was sent too; and at most one row is new, the one asked for. */
  lemma OthersStayRegistered(rows: seq<Registration>, server: int, q: Request, id: int)
    requires Register(rows, server, q, id).0.None?
    ensures var after, user := Register(rows, server, q, id).1, q.sender.user;
            && (forall r | r in rows :: r in after <==>
                  !(user.userId.Some? && user.userUuid.Some? && r.server == server && r.token == q.token && r.kind == q.kind
                    && r.userId == user.userId))
            && (forall r | r in after && r !in rows ::
                  && r.id == id && r.server == server && r.token == q.token && r.kind == q.kind && r.iosAppId == q.iosAppId
                  && r.remoteRealm == (if q.sender.realm.Known? then Some(q.sender.realm.remoteRealm) else None)
                  && (if user.userUuid.Some? then r.userId == None && r.userUuid == user.userUuid
                      else r.userId == user.userId && r.userUuid == None))
            && |after| <= |rows| + 1
  {
    FilterIn(rows, LacksKey(server, q.token, q.kind, Identity(q.sender.user.userId, None)));
    assert forall r | q.sender.user.userId.Some? ::
        LacksKey(server, q.token, q.kind, Identity(q.sender.user.userId, None))(r) == !IdRowFor(r, server, q);
  }

  lemma NewRowIsFor(server: int, q: Request, id: int)
    requires q.sender.user.Known()
    ensures var row := NewRow(server, q, id);
            && IsFor(row, server, q) && OneIdentity(row)
            && forall r | Clash(r, row) :: IsFor(r, server, q) && (q.sender.user.userUuid.Some? ==> r.userUuid == q.sender.user.userUuid)
  {}

  /** Before the new row goes in, only rows that clash with it register the device for the user. */
  lemma OthersAreReplaced(rows: seq<Registration>, nextId: int, server: int, q: Request)
    requires ValidRows(rows, nextId) && q.sender.user.Known()
    ensures var before := AfterReplacing(rows, server, q);
            ValidRows(before, nextId) && forall r | r in before && IsFor(r, server, q) :: Clash(r, NewRow(server, q, nextId))
  {
    var keep := LacksKey(server, q.token, q.kind, Identity(q.sender.user.userId, None));
    FilterKeepsValid(rows, nextId, keep);
    hide ValidRows;
    FilterIn(rows, keep);
  }

  lemma InsertedOnce(rows: seq<Registration>, row: Registration, nextId: int)
    requires ValidRows(Insert(rows, row), nextId) && OneIdentity(row)
    ensures var after := Insert(rows, row);
            && (exists r :: r in after && Clash(r, row))
            && (forall a, b | a in after && b in after && Clash(a, row) && Clash(b, row) :: a == b)
  {
    var after := Insert(rows, row);
    assert Clash(row, row);
    assert rows + [row] == after || rows == after;
    assert row in rows + [row];
    forall a, b | a in after && b in after && Clash(a, row) && Clash(b, row) ensures a == b {
      assert a == row || b == row || OneIdentity(a);
      var i :| 0 <= i < |after| && after[i] == a;
      var j :| 0 <= j < |after| && after[j] == b;
      assert Clash(a, b) && Clash(b, a);
    }
  }

  /** A user's registration of the device by id. */
  predicate IdRowFor(r: Registration, server: int, q: Request) {
    r.server == server && r.token == q.token && r.kind == q.kind && q.sender.user.userId.Some? && r.userId == q.sender.user.userId
  }

  /** A failed request usually changes nothing. Exactly when one without an earlier error carries both
      identities, the device is registered by id, and realm_uuid is no uuid or another server's realm or
      user_uuid is no uuid, does it fail and still delete that registration. */
  lemma FailureLosesIdRegistration(rows: seq<Registration>, server: int, q: Request, id: int)
    ensures Register(rows, server, q, id).0.Some? && Register(rows, server, q, id).1 != rows
       <==> && RegisterFault(q).None? && q.sender.user.userId.Some? && q.sender.user.userUuid.Some?
            && (q.sender.realm.NotAUuid? || q.sender.realm.OfOtherServer? || !q.sender.isUuid)
            && exists r :: r in rows && IdRowFor(r, server, q)
  {
    var keep := LacksKey(server, q.token, q.kind, Identity(q.sender.user.userId, None));
    FilterIn(rows, keep);
    assert forall r | q.sender.user.userId.Some? :: keep(r) == !IdRowFor(r, server, q);
  }

  /** After any such request no registration by id is left, and none took its place. */
  lemma LostForGood(rows: seq<Registration>, server: int, q: Request, id: int)
    requires Register(rows, server, q, id).0.Some? && Register(rows, server, q, id).1 != rows
    ensures forall r :: r in Register(rows, server, q, id).1 <==> r in rows && !IdRowFor(r, server, q)
  {
    FilterIn(rows, LacksKey(server, q.token, q.kind, Identity(q.sender.user.userId, None)));
  }

  /** Device t registered by id 7 only, and a request that also carries a user_uuid. */
  function BothIdentities(isUuid: bool, realm: RealmLookup): Request {
    Request(Sender(Identity(Some(7), Some("u")), isUuid, realm), "t", true, FCM, None)
  }

  /** Each kind of such a request: the device's only registration is gone, and none took its place. */
  lemma RegistrationCanBeLost()
    ensures var rows := [Registration(1, 9, Some(7), None, FCM, "t", None, None)];
            && ValidRows(rows, 2)
            && Register(rows, 9, BothIdentities(true, OfOtherServer), 2) == (Some(RealmMismatch), [])
            && Register(rows, 9, BothIdentities(true, NotAUuid), 2) == (Some(InvalidRealmUuid), [])
            && Register(rows, 9, BothIdentities(false, NotSent), 2) == (Some(InvalidUserUuid), [])
  {
    var rows := [Registration(1, 9, Some(7), None, FCM, "t", None, None)];
    assert |"t"| == 1;
    FilterNone(rows, LacksKey(9, "t", FCM, Identity(Some(7), None)));
  }
}
