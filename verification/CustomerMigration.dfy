/** handle_customer_migration_from_server_to_realm (zilencer/views.py): moves a billing customer,
    or its plan, from a self-hosted server to its only realm. */
module CustomerMigration {
  import opened Options

  datatype Customer = Customer(
    realm: Option<int>, remoteRealm: Option<int>, remoteServer: Option<int>, stripeId: Option<string>, sponsorshipPending: bool)

  datatype Plan = Plan(customer: int, status: int)

  const LIVE_STATUS_THRESHOLD := 10
  const SWITCH_PLAN_TIER_AT_PLAN_END := 8
  const PLAN_TYPE_SELF_MANAGED := 100

  datatype Realm = Realm(
    server: int, host: string, planType: int, deactivated: bool, locallyDeleted: bool, registrationDeactivated: bool, isSystemBotRealm: bool)

  /** A REMOTE_PLAN_TRANSFERRED_SERVER_TO_REALM entry. */
  datatype Transfer = Transfer(server: int, realm: int, oldType: int, newType: int)

  /** The tables, by primary key; `planTypes` is the plan_type column of RemoteZulipServer. */
  datatype Billing = Billing(
    customers: map<int, Customer>, plans: map<int, Plan>, realms: map<int, Realm>, planTypes: map<int, int>, transfers: seq<Transfer>)

  /* Queries. */

  lemma SomeElement<T>(s: set<T>) returns (x: T)
    requires s != {}
    ensures x in s
  {
    x :| x in s;
  }

  lemma {:induction false} LeastExists(s: set<int>)
    requires s != {}
    ensures exists m :: m in s && forall x | x in s :: m <= x
    decreases s
  {
    var a := SomeElement(s);
    var rest := s - {a};
    if rest == {} {
      assert s == {a};
    } else {
      LeastExists(rest);
      var m :| m in rest && forall x | x in rest :: m <= x;
      var least := if a < m then a else m;
      forall x | x in s ensures least <= x {
        assert x == a || x in rest;
      }
      assert least in s;
    }
  }

  /** .first(): the row with the least primary key. */
  function First(s: set<int>): (first: Option<int>)
    ensures first.None? ==> forall x :: x !in s
    ensures first.Some? ==> first.value in s
  {
    if s == {} then None
    else
      LeastExists(s);
      var m :| m in s && forall x | x in s :: m <= x;
      Some(m)
  }

  function CustomersOfServer(db: Billing, server: int): set<int> {
    set c | c in db.customers && db.customers[c].remoteServer == Some(server)
  }

  function CustomersOfRealm(db: Billing, realm: int): set<int> {
    set c | c in db.customers && db.customers[c].remoteRealm == Some(realm)
  }

  function CustomerOfServer(db: Billing, server: int): Option<int> {
    First(CustomersOfServer(db, server))
  }

  function CustomerOfRealm(db: Billing, realm: int): Option<int> {
    First(CustomersOfRealm(db, realm))
  }

  predicate IsLive(plan: Plan, customer: int) {
    plan.customer == customer && plan.status < LIVE_STATUS_THRESHOLD
  }

  function LivePlans(db: Billing, customer: int): set<int> {
    set p | p in db.plans && IsLive(db.plans[p], customer)
  }

  /** get_current_plan_by_customer. */
  function CurrentPlan(db: Billing, customer: int): Option<int> {
    First(LivePlans(db, customer))
  }

  const INTERNAL_HOST := "zulipinternal."

  /** get_human_user_realm_uuids. */
  function HumanRealms(db: Billing, server: int): set<int> {
    set r | r in db.realms && db.realms[r].server == server && !db.realms[r].deactivated && !db.realms[r].locallyDeleted
            && !db.realms[r].registrationDeactivated && !db.realms[r].isSystemBotRealm && !(INTERNAL_HOST <= db.realms[r].host)
  }

  /* What must hold whenever a transaction may be observed. */

  predicate OneOwner(c: Customer) {
    (if c.realm.Some? then 1 else 0) + (if c.remoteRealm.Some? then 1 else 0) + (if c.remoteServer.Some? then 1 else 0) == 1
  }

  /** Two customers share no owner and no Stripe customer. */
  predicate Apart(a: Customer, b: Customer) {
    && (a.realm.Some? ==> a.realm != b.realm)
    && (a.remoteRealm.Some? ==> a.remoteRealm != b.remoteRealm)
    && (a.remoteServer.Some? ==> a.remoteServer != b.remoteServer)
    && (a.stripeId.Some? ==> a.stripeId != b.stripeId)
  }

  ghost predicate Sound(db: Billing) {
    && (forall c | c in db.customers :: OneOwner(db.customers[c]))
    && (forall a, b | a in db.customers && b in db.customers && a != b :: Apart(db.customers[a], db.customers[b]))
    && (forall p, q | p in db.plans && q in db.plans && p != q && IsLive(db.plans[p], db.plans[p].customer) ::
          !IsLive(db.plans[q], db.plans[p].customer))
  }

  /** The plans are the same, up to which customer they belong to. */
  ghost predicate SamePlans(before: Billing, after: Billing) {
    && before.plans.Keys == after.plans.Keys
    && (forall p | p in before.plans :: after.plans[p].status == before.plans[p].status)
  }

  /* The migration. */

  datatype Outcome = NothingToDo | Migrated | CannotReconcile

  /** The guards: the server's customer, its plan and the realm, when there is something to move. */
  function Subject(db: Billing, server: int): Option<(int, int, int)> {
    var customer := CustomerOfServer(db, server);
    if customer.None? then None
    else if db.customers[customer.value].sponsorshipPending then None
    else
      var plan, realms := CurrentPlan(db, customer.value), HumanRealms(db, server);
      if plan.None? || |realms| != 1 then None else Some((customer.value, plan.value, First(realms).value))
  }

  /** The realm has a customer of its own that nothing can be merged into automatically. */
  predicate Conflicting(db: Billing, plan: int, other: int)
    requires plan in db.plans && other in db.customers
  {
    CurrentPlan(db, other).Some? || db.plans[plan].status == SWITCH_PLAN_TIER_AT_PLAN_END || db.customers[other].stripeId.Some?
  }

  /** The database after each save of a migration, in order. */
  function Saves(db: Billing, server: int): (saves: seq<Billing>)
    requires server in db.planTypes
  {
    match Subject(db, server)
    case None => []
    case Some((customer, plan, realm)) =>
      var c := db.customers[customer];
      match CustomerOfRealm(db, realm)
      case None =>
        var d := db.(customers := db.customers[customer := c.(remoteRealm := Some(realm), remoteServer := None)]);
        [d] + PlanTypeSaves(d, server, realm)
      case Some(other) =>
        if Conflicting(db, plan, other) then []
        else
          var d1 := db.(plans := db.plans[plan := db.plans[plan].(customer := other)]);
          var d2 := d1.(customers := d1.customers[customer := c.(stripeId := None)]);
          var d3 := d2.(customers := d2.customers[other := d2.customers[other].(stripeId := c.stripeId)]);
          [d1, d2, d3] + PlanTypeSaves(d3, server, realm)
  }

  function PlanTypeSaves(db: Billing, server: int, realm: int): seq<Billing>
    requires server in db.planTypes && realm in db.realms
  {
    var d1 := db.(realms := db.realms[realm := db.realms[realm].(planType := db.planTypes[server])]);
    var d2 := d1.(planTypes := d1.planTypes[server := PLAN_TYPE_SELF_MANAGED]);
    var d3 := d2.(transfers := d2.transfers + [Transfer(server, realm, PLAN_TYPE_SELF_MANAGED, db.planTypes[server])]);
    [d1, d2, d3]
  }

  function OutcomeOf(db: Billing, server: int): Outcome {
    match Subject(db, server)
    case None => NothingToDo
    case Some((_, plan, realm)) =>
      match CustomerOfRealm(db, realm)
      case None => Migrated
      case Some(other) => if Conflicting(db, plan, other) then CannotReconcile else Migrated
  }

  /** The database after the migration; the error that cannot be reconciled rolls it back. */
  function Migrate(db: Billing, server: int): Billing
    requires server in db.planTypes
  {
    if OutcomeOf(db, server) == Migrated then Saves(db, server)[|Saves(db, server)| - 1] else db
  }

  class BillingDatabase {
    var customers: map<int, Customer>
    var plans: map<int, Plan>
    var realms: map<int, Realm>
    var planTypes: map<int, int>
    var transfers: seq<Transfer>

    /** The database after each save so far. */
    ghost var saved: seq<Billing>

    function State(): Billing
      reads this
    {
      Billing(customers, plans, realms, planTypes, transfers)
    }

    method SaveCustomer(id: int, c: Customer)
      modifies this`customers, this`saved
      ensures customers == old(customers)[id := c] && saved == old(saved) + [State()]
    {
      customers := customers[id := c];
      saved := saved + [State()];
    }

    method SavePlan(id: int, p: Plan)
      modifies this`plans, this`saved
      ensures plans == old(plans)[id := p] && saved == old(saved) + [State()]
    {
      plans := plans[id := p];
      saved := saved + [State()];
    }

    method SavePlanTypes(server: int, realm: int)
      requires server in planTypes && realm in realms
      modifies this`realms, this`planTypes, this`transfers, this`saved
      ensures saved == old(saved) + PlanTypeSaves(old(State()), server, realm) && State() == saved[|saved| - 1]
    {
      var planType := planTypes[server];
      realms := realms[realm := realms[realm].(planType := planType)];
      saved := saved + [State()];
      planTypes := planTypes[server := PLAN_TYPE_SELF_MANAGED];
      saved := saved + [State()];
      transfers := transfers + [Transfer(server, realm, PLAN_TYPE_SELF_MANAGED, planType)];
      saved := saved + [State()];
    }

    /** handle_customer_migration_from_server_to_realm. */
    method MigrateCustomer(server: int) returns (outcome: Outcome)
      requires server in planTypes
      modifies this
      ensures outcome == OutcomeOf(old(State()), server)
      ensures saved == old(saved) + Saves(old(State()), server)
      ensures State() == Migrate(old(State()), server)
    {
      hide PlanTypeSaves;
      hide HumanRealms;
      hide Conflicting;
      ghost var before := State();
      var customer := CustomerOfServer(State(), server);
      if customer.None? {
        return NothingToDo;
      }
      var c := customers[customer.value];
      if c.sponsorshipPending {
        return NothingToDo;
      }
      var plan := CurrentPlan(State(), customer.value);
      if plan.None? {
        return NothingToDo;
      }
      var human := HumanRealms(State(), server);
      if |human| != 1 {
        return NothingToDo;
      }
      var realm := First(human).value;
      assert realm in realms by { HumanRealmsExist(State(), server); }
      var other := CustomerOfRealm(State(), realm);
      if other.None? {
        SaveCustomer(customer.value, c.(remoteRealm := Some(realm), remoteServer := None));
      } else if Conflicting(State(), plan.value, other.value) {
        return CannotReconcile;
      } else {
        SavePlan(plan.value, plans[plan.value].(customer := other.value));
        SaveCustomer(customer.value, c.(stripeId := None));
        SaveCustomer(other.value, customers[other.value].(stripeId := c.stripeId));
      }
      SavePlanTypes(server, realm);
      outcome := Migrated;
      assert saved[|old(saved)|..] == Saves(before, server);
    }
  }

  lemma HumanRealmsExist(db: Billing, server: int)
    ensures forall r | r in HumanRealms(db, server) :: r in db.realms
  {}

  /* What holds after each save. */

  /** Changing the plan types and logging the transfer touches neither customers nor plans. */
  lemma PlanTypeSavesAreSound(db: Billing, server: int, realm: int)
    requires server in db.planTypes && realm in db.realms && Sound(db)
    ensures forall d | d in PlanTypeSaves(db, server, realm) :: Sound(d) && d.customers == db.customers && d.plans == db.plans
  {
    forall d | d in PlanTypeSaves(db, server, realm) ensures Sound(d) && d.customers == db.customers && d.plans == db.plans {
      assert d.customers == db.customers && d.plans == db.plans;
      SoundIsLocal(db, d);
    }
  }

  lemma SoundIsLocal(db: Billing, d: Billing)
    requires Sound(db) && d.customers == db.customers && d.plans == db.plans
    ensures Sound(d)
  {}

  lemma SubjectIs(db: Billing, server: int)
    requires Subject(db, server).Some?
    ensures var (customer, plan, realm) := Subject(db, server).value;
            && customer in db.customers && db.customers[customer].remoteServer == Some(server)
            && plan in db.plans && IsLive(db.plans[plan], customer) && realm in db.realms
  {
    hide PlanTypeSaves;
    HumanRealmsExist(db, server);
  }

  /** Moving the customer: its only owner changes from the server to the realm. */
  lemma MovedCustomerIsSound(db: Billing, customer: int, server: int, realm: int)
    requires Sound(db) && customer in db.customers && db.customers[customer].remoteServer == Some(server)
    requires CustomerOfRealm(db, realm).None?
    ensures var c := db.customers[customer].(remoteRealm := Some(realm), remoteServer := None);
            Sound(db.(customers := db.customers[customer := c]))
  {
    assert forall x | x in db.customers :: db.customers[x].remoteRealm == Some(realm) ==> x in CustomersOfRealm(db, realm);
  }

  lemma NoLivePlan(db: Billing, customer: int)
    requires CurrentPlan(db, customer).None?
    ensures forall p | p in db.plans :: !IsLive(db.plans[p], customer)
  {
    assert forall p | p in db.plans :: IsLive(db.plans[p], customer) ==> p in LivePlans(db, customer);
  }

  /** Moving the plan: the receiving customer had no live one. */
  lemma MovedPlanIsSound(db: Billing, plan: int, other: int)
    requires Sound(db) && plan in db.plans && CurrentPlan(db, other).None?
    ensures Sound(db.(plans := db.plans[plan := db.plans[plan].(customer := other)]))
  {
    NoLivePlan(db, other);
  }

  /** Moving the Stripe customer in two saves: taken away first, given second. */
  lemma MovedStripeIsSound(db: Billing, customer: int, other: int)
    requires Sound(db) && customer in db.customers && other in db.customers && customer != other
    ensures var d := db.(customers := db.customers[customer := db.customers[customer].(stripeId := None)]);
            && Sound(d)
            && Sound(d.(customers := d.customers[other := d.customers[other].(stripeId := db.customers[customer].stripeId)]))
  {}

  /** After every intermediate save each customer has one owner and at most one live plan, no two
      share an owner or a Stripe customer, and the plans are those there were. */
  lemma EverySaveIsSound(db: Billing, server: int)
    requires Sound(db) && server in db.planTypes
    ensures forall d | d in Saves(db, server) :: Sound(d) && SamePlans(db, d) && d.customers.Keys == db.customers.Keys
  {
    hide Sound;
    hide CurrentPlan;
    hide PlanTypeSaves;
    if Subject(db, server).Some? {
      SubjectIs(db, server);
      var (customer, plan, realm) := Subject(db, server).value;
      hide Subject;
      var c := db.customers[customer];
      match CustomerOfRealm(db, realm)
      case None =>
        var d := db.(customers := db.customers[customer := c.(remoteRealm := Some(realm), remoteServer := None)]);
        MovedCustomerIsSound(db, customer, server, realm);
        PlanTypeSavesAreSound(d, server, realm);
      case Some(other) =>
        if !Conflicting(db, plan, other) {
          var d1 := db.(plans := db.plans[plan := db.plans[plan].(customer := other)]);
          var d2 := d1.(customers := d1.customers[customer := c.(stripeId := None)]);
          var d3 := d2.(customers := d2.customers[other := d2.customers[other].(stripeId := c.stripeId)]);
          MovedPlanIsSound(db, plan, other);
          OwnersDiffer(db, customer, other, server, realm);
          MovedStripeIsSound(d1, customer, other);
          PlanTypeSavesAreSound(d3, server, realm);
        }
    }
  }

  /** The server's customer and the realm's are two customers. */
  lemma OwnersDiffer(db: Billing, customer: int, other: int, server: int, realm: int)
    requires Sound(db) && customer in db.customers && db.customers[customer].remoteServer == Some(server)
    requires CustomerOfRealm(db, realm) == Some(other)
    ensures customer != other
  {}

  /* What the migration achieves. */

  lemma OnlyLivePlan(db: Billing, plan: int, customer: int)
    requires Sound(db) && plan in db.plans && IsLive(db.plans[plan], customer)
    ensures CurrentPlan(db, customer) == Some(plan)
  {
    assert plan in LivePlans(db, customer);
  }

  lemma OnlyCustomerOfRealm(db: Billing, customer: int, realm: int)
    requires Sound(db) && customer in db.customers && db.customers[customer].remoteRealm == Some(realm)
    ensures CustomerOfRealm(db, realm) == Some(customer)
  {
    hide OneOwner;
    assert customer in CustomersOfRealm(db, realm);
  }

  /** The last save of a migration. */
  lemma MigratedState(db: Billing, server: int)
    requires Sound(db) && server in db.planTypes && OutcomeOf(db, server) == Migrated
    ensures Subject(db, server).Some? && Sound(Migrate(db, server))
    ensures var (customer, plan, realm) := Subject(db, server).value; var after := Migrate(db, server);
            && customer in db.customers && plan in db.plans && realm in db.realms
            && after.realms == db.realms[realm := db.realms[realm].(planType := db.planTypes[server])]
            && after.planTypes == db.planTypes[server := PLAN_TYPE_SELF_MANAGED]
            && after.transfers == db.transfers + [Transfer(server, realm, PLAN_TYPE_SELF_MANAGED, db.planTypes[server])]
            && match CustomerOfRealm(db, realm)
               case None =>
                 after.plans == db.plans
                 && after.customers == db.customers[customer := db.customers[customer].(remoteRealm := Some(realm), remoteServer := None)]
               case Some(other) =>
                 customer != other && other in db.customers && !Conflicting(db, plan, other)
                 && after.plans == db.plans[plan := db.plans[plan].(customer := other)]
                 && after.customers == db.customers[customer := db.customers[customer].(stripeId := None)]
                                                   [other := db.customers[other].(stripeId := db.customers[customer].stripeId)]
  {
    hide Conflicting;
    hide HumanRealms;
    hide CustomerOfRealm;
    EverySaveIsSound(db, server);
    SubjectIs(db, server);
    assert Migrate(db, server) in Saves(db, server);
    var (customer, plan, realm) := Subject(db, server).value;
    if CustomerOfRealm(db, realm).Some? {
      OwnersDiffer(db, customer, CustomerOfRealm(db, realm).value, server, realm);
    }
    hide Sound;
    hide CurrentPlan;
    hide Subject;
  }

  /** After a migration the realm's customer has the plan and the Stripe customer that the server's
      had, and the server's customer, if it still exists as such, has no live plan. */
  lemma MigrationMovesThePlan(db: Billing, server: int)
    requires Sound(db) && server in db.planTypes && OutcomeOf(db, server) == Migrated
    ensures Subject(db, server).Some?
    ensures var (customer, plan, realm) := Subject(db, server).value; var after := Migrate(db, server);
            && customer in db.customers && CustomerOfRealm(after, realm).Some?
            && CurrentPlan(after, CustomerOfRealm(after, realm).value) == Some(plan)
            && after.customers[CustomerOfRealm(after, realm).value].stripeId == db.customers[customer].stripeId
            && Subject(after, server).None?
  {
    MigratedState(db, server);
    SubjectIs(db, server);
    var (customer, plan, realm) := Subject(db, server).value;
    var after := Migrate(db, server);
    hide Migrate;
    match CustomerOfRealm(db, realm) {
      case None =>
        OnlyCustomerOfRealm(after, customer, realm);
        OnlyLivePlan(after, plan, customer);
        NoCustomerLeft(db, after, customer, server, realm);
      case Some(other) =>
        OnlyCustomerOfRealm(after, other, realm);
        OnlyLivePlan(after, plan, other);
        NoPlanLeft(db, after, customer, plan, server, other);
    }
  }

  lemma NoCustomerLeft(db: Billing, after: Billing, customer: int, server: int, realm: int)
    requires Sound(db) && customer in db.customers && db.customers[customer].remoteServer == Some(server)
    requires after.customers == db.customers[customer := db.customers[customer].(remoteRealm := Some(realm), remoteServer := None)]
    ensures Subject(after, server).None?
  {
    hide OneOwner;
    assert forall c :: c !in CustomersOfServer(after, server);
  }

  lemma NoPlanLeft(db: Billing, after: Billing, customer: int, plan: int, server: int, other: int)
    requires Sound(db) && Sound(after) && customer in db.customers && db.customers[customer].remoteServer == Some(server)
    requires plan in db.plans && IsLive(db.plans[plan], customer) && customer != other && other in db.customers
    requires after.plans == db.plans[plan := db.plans[plan].(customer := other)]
    requires customer in after.customers && after.customers[customer].remoteServer == Some(server)
    ensures Subject(after, server).None?
  {
    hide OneOwner;
    assert forall p | p in after.plans :: !IsLive(after.plans[p], customer);
    assert forall p :: p !in LivePlans(after, customer);
    assert customer in CustomersOfServer(after, server);
    assert CustomerOfServer(after, server) == Some(customer);
  }

  /** A second run saves nothing. */
  lemma SecondRunSavesNothing(db: Billing, server: int)
    requires Sound(db) && server in db.planTypes
    ensures var after := Migrate(db, server);
            server in after.planTypes && Saves(after, server) == [] && Migrate(after, server) == after
  {
    hide Sound;
    hide CurrentPlan;
    hide Subject;
    if OutcomeOf(db, server) == Migrated {
      MigrationMovesThePlan(db, server);
      MigratedState(db, server);
    }
  }

  /* The same without the queries. */

  predicate IsHumanRealm(r: Realm, server: int) {
    r.server == server && !r.deactivated && !r.locallyDeleted && !r.registrationDeactivated && !r.isSystemBotRealm
    && (|r.host| < 14 || r.host[..14] != "zulipinternal.")
  }

  /** Customer `c` is the server's and asks for no sponsorship, plan `p` is its live plan, and `r` is
      the one realm on the server that people use. */
  ghost predicate Movable(db: Billing, server: int, c: int, p: int, r: int) {
    && c in db.customers && db.customers[c].remoteServer == Some(server) && !db.customers[c].sponsorshipPending
    && p in db.plans && db.plans[p].customer == c && db.plans[p].status < 10
    && (forall x :: x in db.realms && IsHumanRealm(db.realms[x], server) <==> x == r)
  }

  /** Customer `o` of realm `r` has something that plan `p` of the server's customer cannot be merged with. */
  ghost predicate Blocked(db: Billing, p: int, r: int, o: int)
    requires p in db.plans
  {
    && o in db.customers && db.customers[o].remoteRealm == Some(r)
    && ((exists q :: q in db.plans && db.plans[q].customer == o && db.plans[q].status < 10)
        || db.plans[p].status == 8 || db.customers[o].stripeId.Some?)
  }

  lemma OneElement<T>(s: set<T>, x: T)
    requires |s| == 1 && x in s
    ensures s == {x}
  {
    assert |s - {x}| == 0;
  }

  lemma NoMore(s: set<int>, x: int)
    requires x in s && forall y | y in s :: y == x
    ensures |s| == 1
  {
    var rest := s - {x};
    if rest != {} {
      var y := SomeElement(rest);
      assert false;
    }
    assert s == rest + {x};
  }

  lemma HumanRealmsAre(db: Billing, server: int)
    ensures forall r :: r in HumanRealms(db, server) <==> r in db.realms && IsHumanRealm(db.realms[r], server)
  {
    assert |INTERNAL_HOST| == 14;
  }

  lemma SubjectIsMovable(db: Billing, server: int)
    requires Subject(db, server).Some?
    ensures var (c, p, r) := Subject(db, server).value; Movable(db, server, c, p, r)
  {
    SubjectIs(db, server);
    HumanRealmsAre(db, server);
    hide HumanRealms;
    hide IsHumanRealm;
    var (c, p, r) := Subject(db, server).value;
    OneElement(HumanRealms(db, server), r);
  }

  lemma MovableIsSubject(db: Billing, server: int, c: int, p: int, r: int)
    requires Sound(db) && Movable(db, server, c, p, r)
    ensures Subject(db, server) == Some((c, p, r))
  {
    HumanRealmsAre(db, server);
    hide HumanRealms;
    hide IsHumanRealm;
    OnlyLivePlan(db, p, c);
    OnlyCustomerOfServer(db, c, server);
    hide CurrentPlan;
    hide Sound;
    NoMore(HumanRealms(db, server), r);
    assert First(HumanRealms(db, server)) == Some(r);
  }

  lemma OnlyCustomerOfServer(db: Billing, customer: int, server: int)
    requires Sound(db) && customer in db.customers && db.customers[customer].remoteServer == Some(server)
    ensures CustomerOfServer(db, server) == Some(customer)
  {
    hide OneOwner;
    assert customer in CustomersOfServer(db, server);
  }

  lemma ConflictIsBlock(db: Billing, p: int, r: int, o: int)
    requires Sound(db) && p in db.plans && o in db.customers && db.customers[o].remoteRealm == Some(r)
    ensures Conflicting(db, p, o) <==> Blocked(db, p, r, o)
  {
    if q :| q in db.plans && db.plans[q].customer == o && db.plans[q].status < 10 {
      assert q in LivePlans(db, o);
    }
  }

  /** When something is moved, when nothing is, and when the two customers cannot be reconciled. */
  lemma OutcomeIff(db: Billing, server: int)
    requires Sound(db) && server in db.planTypes
    ensures OutcomeOf(db, server) == NothingToDo <==> forall c, p, r :: !Movable(db, server, c, p, r)
    ensures OutcomeOf(db, server) == CannotReconcile
       <==> exists c, p, r, o :: Movable(db, server, c, p, r) && Blocked(db, p, r, o)
    ensures OutcomeOf(db, server) == Migrated
       <==> exists c, p, r :: Movable(db, server, c, p, r) && forall o :: !Blocked(db, p, r, o)
  {
    forall c, p, r | Movable(db, server, c, p, r) ensures Subject(db, server) == Some((c, p, r)) {
      MovableIsSubject(db, server, c, p, r);
    }
    if Subject(db, server).Some? {
      SubjectIsMovable(db, server);
      var (c, p, r) := Subject(db, server).value;
      WhatBlocks(db, p, r);
      hide Subject;
      hide Movable;
      hide Blocked;
      hide Conflicting;
      if OutcomeOf(db, server) == CannotReconcile {
        assert Movable(db, server, c, p, r) && Blocked(db, p, r, CustomerOfRealm(db, r).value);
      } else {
        assert forall o :: !Blocked(db, p, r, o);
      }
    }
  }

  lemma WhatBlocks(db: Billing, p: int, r: int)
    requires Sound(db) && p in db.plans
    ensures match CustomerOfRealm(db, r)
            case None => forall o :: !Blocked(db, p, r, o)
            case Some(other) => other in db.customers && forall o :: Blocked(db, p, r, o) <==> o == other && Conflicting(db, p, other)
  {
    hide Conflicting;
    hide Sound;
    forall o | o in db.customers && db.customers[o].remoteRealm == Some(r) ensures CustomerOfRealm(db, r) == Some(o) {
      OnlyCustomerOfRealm(db, o, r);
      ConflictIsBlock(db, p, r, o);
    }
    if CustomerOfRealm(db, r).Some? {
      var o := CustomerOfRealm(db, r).value;
      assert o in CustomersOfRealm(db, r);
      ConflictIsBlock(db, p, r, o);
    }
  }

  /** What a migration does to the customers of the server and of its realm, the plan and the realm; and
      that it leaves all else alone. */
  lemma MigrationIs(db: Billing, server: int, c: int, p: int, r: int)
    requires Sound(db) && server in db.planTypes && Movable(db, server, c, p, r) && forall o :: !Blocked(db, p, r, o)
    ensures var after := Migrate(db, server);
            && OutcomeOf(db, server) == Migrated && r in db.realms
            && (exists o :: o in after.customers && after.customers[o].remoteRealm == Some(r)
                            && after.plans == db.plans[p := db.plans[p].(customer := o)]
                            && after.customers[o].stripeId == db.customers[c].stripeId
                            && (if o == c then after.customers[c].remoteServer == None
                                else o in db.customers && db.customers[o].remoteRealm == Some(r)
                                     && after.customers[c] == db.customers[c].(stripeId := None)))
            && after.customers.Keys == db.customers.Keys
            && (forall x | x in db.customers && x != c && db.customers[x].remoteRealm != Some(r) :: after.customers[x] == db.customers[x])
            && after.realms == db.realms[r := db.realms[r].(planType := db.planTypes[server])]
            && after.planTypes == db.planTypes[server := 100]
            && after.transfers == db.transfers + [Transfer(server, r, 100, db.planTypes[server])]
  {
    MovableIsSubject(db, server, c, p, r);
    OutcomeIff(db, server);
    MigratedState(db, server);
    hide Subject;
    hide Migrate;
    hide Movable;
    hide Blocked;
    hide Conflicting;
    var after := Migrate(db, server);
    match CustomerOfRealm(db, r) {
      case None =>
        assert after.plans == db.plans[p := db.plans[p].(customer := c)] by { SubjectIs(db, server); }
        assert after.customers[c].remoteRealm == Some(r);
      case Some(other) =>
        assert other in CustomersOfRealm(db, r);
        assert after.customers[other].remoteRealm == Some(r);
    }
  }

  /** No Stripe customer appears or is lost. */
  lemma StripeCustomersStay(db: Billing, server: int, x: string)
    requires Sound(db) && server in db.planTypes
    ensures (exists c :: c in Migrate(db, server).customers && Migrate(db, server).customers[c].stripeId == Some(x))
       <==> (exists c :: c in db.customers && db.customers[c].stripeId == Some(x))
  {
    var after := Migrate(db, server);
    if OutcomeOf(db, server) == Migrated {
      MigratedState(db, server);
      hide Sound;
      hide Migrate;
      hide Subject;
      hide CurrentPlan;
      var (customer, plan, realm) := Subject(db, server).value;
      if c :| c in db.customers && db.customers[c].stripeId == Some(x) {
        var holder := if c == customer && CustomerOfRealm(db, realm).Some? then CustomerOfRealm(db, realm).value else c;
        assert holder in after.customers && after.customers[holder].stripeId == Some(x);
      }
      if c :| c in after.customers && after.customers[c].stripeId == Some(x) {
        assert c in db.customers;
        assert db.customers[c].stripeId == Some(x) || db.customers[customer].stripeId == Some(x);
      }
    }
  }
}
