/** Entitlement rows and the per-store resolver `module_enabled` (app/module_catalog.py). */
module ModuleCatalog {
  import opened Options
  import opened DependencyGraph
  import opened Sequences

  type Time = int
  type Family = string

  datatype StoreStatus =
    StoreActive | StoreSuspended | StoreArchived | StoreOnboarding | StoreProvisioning | StoreDisabled | StoreDeleted
  datatype Store = Store(id: int, tenantId: int, status: StoreStatus)

  datatype Availability = Ready | Beta | Planned
  datatype Definition = Definition(dependencies: seq<Code>, availability: Availability)

  datatype EntitlementStatus = Inactive | Trial | Active | Suspended
  datatype Entitlement = Entitlement(
    status: EntitlementStatus,
    startsAt: Option<Time>, endsAt: Option<Time>, trialEndsAt: Option<Time>, currentPeriodEnd: Option<Time>)

  datatype SubscriptionStatus = SubscriptionActive | SubscriptionExpired | SubscriptionCancelled
  datatype Subscription = Subscription(
    id: int, tenantId: int, storeId: int, planId: int, family: Family,
    status: SubscriptionStatus, startsAt: Time, currentPeriodEnd: Option<Time>)

  /** The tables the resolvers read; map keys are the unique constraints of app/models.py. */
  datatype Db = Db(
    stores: map<int, Store>,
    definitions: map<Code, Definition>,
    entitlements: map<(int, Code), Entitlement>,
    subscriptions: seq<Subscription>,
    plans: map<int, seq<Code>>)

  /** Foreign keys and primary keys: every entitlement names a defined module, subscription ids are unique. */
  ghost predicate ValidDb(db: Db) {
    && (forall key :: key in db.entitlements ==> key.1 in db.definitions)
    && (forall id :: id in db.stores ==> db.stores[id].id == id)
    && (forall i, j :: 0 <= i < j < |db.subscriptions| ==> db.subscriptions[i].id != db.subscriptions[j].id)
  }

  predicate Operational(store: Store) {
    store.status != StoreSuspended && store.status != StoreDisabled && store.status != StoreDeleted
  }

  predicate TimeValid(e: Entitlement, now: Time) {
    if e.startsAt.Some? && e.startsAt.value > now then false
    else if e.endsAt.Some? && e.endsAt.value <= now then false
    else if e.status == Trial && e.trialEndsAt.Some? then e.trialEndsAt.value > now
    else if e.status == Active && e.currentPeriodEnd.Some? then e.currentPeriodEnd.value > now
    else true
  }

  function EntitledCodes(entitlements: map<(int, Code), Entitlement>, storeId: int): set<Code> {
    set key | key in entitlements.Keys && key.0 == storeId :: key.1
  }

  predicate ModuleEnabled(db: Db, store: Store, code: Code, now: Time, seen: set<Code>)
    requires ValidDb(db)
    decreases EntitledCodes(db.entitlements, store.id) - seen, 0
  {
    if !Operational(store) then false
    else if (store.id, code) !in db.entitlements then false
    else
      var entitlement := db.entitlements[(store.id, code)];
      if entitlement.status != Active && entitlement.status != Trial then false
      else if db.definitions[code].availability == Planned then false
      else if !TimeValid(entitlement, now) then false
      else if code in seen then false
      else AllModulesEnabled(db, store, db.definitions[code].dependencies, now, seen + {code})
  }

  predicate AllModulesEnabled(db: Db, store: Store, codes: seq<Code>, now: Time, seen: set<Code>)
    requires ValidDb(db)
    decreases EntitledCodes(db.entitlements, store.id) - seen, |codes|
  {
    if codes == [] then true
    else if !ModuleEnabled(db, store, codes[0], now, seen) then false
    else AllModulesEnabled(db, store, codes[1..], now, seen)
  }

  /** The entitlement of `code` is live now, dependencies aside. */
  predicate Live(db: Db, store: Store, code: Code, now: Time)
    requires ValidDb(db)
  {
    && Operational(store)
    && (store.id, code) in db.entitlements
    && var e := db.entitlements[(store.id, code)];
       && (e.status == Active || e.status == Trial)
       && db.definitions[code].availability != Planned
       && TimeValid(e, now)
  }

  function Dependencies(definitions: map<Code, Definition>): map<Code, seq<Code>> {
    map code | code in definitions :: definitions[code].dependencies
  }

  function GraphOf(db: Db, store: Store, now: Time): Graph
    requires ValidDb(db)
  {
    Graph((set code | code in EntitledCodes(db.entitlements, store.id) && Live(db, store, code, now) :: code),
          Dependencies(db.definitions))
  }

  lemma {:induction false} ModuleEnabledIsResolve(db: Db, store: Store, code: Code, now: Time, seen: set<Code>)
    requires ValidDb(db)
    ensures ModuleEnabled(db, store, code, now, seen) <==> Resolve(GraphOf(db, store, now), code, seen)
    decreases EntitledCodes(db.entitlements, store.id) - seen, 0
  {
    var g := GraphOf(db, store, now);
    if Live(db, store, code, now) && code !in seen {
      AllModulesEnabledIsResolveAll(db, store, db.definitions[code].dependencies, now, seen + {code});
      assert (store.id, code).1 in EntitledCodes(db.entitlements, store.id);
    }
  }

  lemma {:induction false} AllModulesEnabledIsResolveAll(db: Db, store: Store, codes: seq<Code>, now: Time, seen: set<Code>)
    requires ValidDb(db)
    ensures AllModulesEnabled(db, store, codes, now, seen) <==> ResolveAll(GraphOf(db, store, now), codes, seen)
    decreases EntitledCodes(db.entitlements, store.id) - seen, |codes|
  {
    if codes != [] {
      ModuleEnabledIsResolve(db, store, codes[0], now, seen);
      AllModulesEnabledIsResolveAll(db, store, codes[1..], now, seen);
    }
  }

  /** `module_enabled` decides the least set of codes that are live with all their dependencies in the set. */
  lemma ModuleEnabledIsLfp(db: Db, store: Store, code: Code, now: Time)
    requires ValidDb(db)
    ensures ModuleEnabled(db, store, code, now, {}) <==> code in Lfp(GraphOf(db, store, now))
  {
    ModuleEnabledIsResolve(db, store, code, now, {});
    ResolveIsLfp(GraphOf(db, store, now), code);
  }

  /** When a module is enabled, with the store, the entitlement, its dates and the dependencies spelled out. */
  lemma EnabledExactly(db: Db, store: Store, code: Code, now: Time)
    requires ValidDb(db)
    ensures ModuleEnabled(db, store, code, now, {}) <==>
            && store.status !in {StoreSuspended, StoreDisabled, StoreDeleted}
            && (store.id, code) in db.entitlements
            && db.definitions[code].availability != Planned
            && (forall d :: d in db.definitions[code].dependencies ==> ModuleEnabled(db, store, d, now, {}))
            && var e := db.entitlements[(store.id, code)];
               && e.status in {Active, Trial}
               && (e.startsAt.Some? ==> e.startsAt.value <= now) && (e.endsAt.Some? ==> now < e.endsAt.value)
               && (e.status == Trial && e.trialEndsAt.Some? ==> now < e.trialEndsAt.value)
               && (e.status == Active && e.currentPeriodEnd.Some? ==> now < e.currentPeriodEnd.value)
  {
    var g := GraphOf(db, store, now);
    forall c {
      ModuleEnabledIsLfp(db, store, c, now);
    }
    InLfp(g, code);
    assert (store.id, code) in db.entitlements ==> (store.id, code).1 in EntitledCodes(db.entitlements, store.id);
  }

  /** If every code live in the first state is live in the second with no further dependency, every module
      enabled in the first is enabled in the second. Taken both ways, the order and the repetition of
      declared dependencies do not matter. */
  lemma MoreLiveNeverDisables(db: Db, db': Db, store: Store, store': Store, now: Time, now': Time, code: Code)
    requires ValidDb(db) && ValidDb(db')
    requires forall c :: Live(db, store, c, now) ==> Live(db', store', c, now')
    requires forall c, d :: Live(db, store, c, now) && d in DepsOf(GraphOf(db', store', now'), c) ==> d in DepsOf(GraphOf(db, store, now), c)
    requires ModuleEnabled(db, store, code, now, {})
    ensures ModuleEnabled(db', store', code, now', {})
  {
    var g, h := GraphOf(db, store, now), GraphOf(db', store', now');
    forall c | c in g.live
      ensures c in h.live
    {
      assert (store'.id, c).1 in EntitledCodes(db'.entitlements, store'.id);
    }
    LfpMonotone(g, h);
    ModuleEnabledIsLfp(db, store, code, now);
    ModuleEnabledIsLfp(db', store', code, now');
  }

  /** A module from which a dependency cycle can be reached is never enabled. */
  lemma CyclicModuleNeverEnabled(db: Db, store: Store, code: Code, now: Time, x: Code, cycle: seq<Code>)
    requires ValidDb(db)
    requires Reaches(GraphOf(db, store, now), code, x)
    requires PathFromTo(GraphOf(db, store, now), cycle, x, x) && |cycle| > 1
    ensures !ModuleEnabled(db, store, code, now, {})
  {
    CycleNeverResolved(GraphOf(db, store, now), code, x, cycle);
    ModuleEnabledIsResolve(db, store, code, now, {});
  }

  const PRODUCT_FAMILIES: set<Family> := {"AUTOMATION", "AI_ASSISTANT", "LEGACY_BUNDLE"}

  /** ORDER BY starts_at DESC, id DESC. */
  predicate NewerFirst(a: Subscription, b: Subscription) {
    a.startsAt > b.startsAt || (a.startsAt == b.startsAt && a.id >= b.id)
  }

  predicate Unexpired(s: Subscription, now: Time) {
    s.currentPeriodEnd.None? || s.currentPeriodEnd.value > now
  }

  function EffectiveSubscriptionForFamily(db: Db, tenantId: int, storeId: int, family: Family, now: Time): Option<Subscription> {
    if family !in PRODUCT_FAMILIES then None
    else
      var candidates := Sort(
        Filter(db.subscriptions, (s: Subscription) =>
          s.tenantId == tenantId && s.storeId == storeId && s.family == family
          && s.status == SubscriptionActive && s.startsAt <= now),
        NewerFirst);
      FirstWhere(candidates, (s: Subscription) => Unexpired(s, now))
  }

  /** The row counts for this scope and family right now. */
  predicate Eligible(s: Subscription, tenantId: int, storeId: int, family: Family, now: Time) {
    && s.tenantId == tenantId && s.storeId == storeId && s.family == family
    && s.status == SubscriptionActive && s.startsAt <= now && Unexpired(s, now)
  }

  /** `r` is the newest eligible row, ties by id, and absent exactly when there is none. */
  ghost predicate IsNewestEligible(db: Db, tenantId: int, storeId: int, family: Family, now: Time, r: Option<Subscription>) {
    match r
    case None => forall s :: s in db.subscriptions ==> !Eligible(s, tenantId, storeId, family, now)
    case Some(best) =>
      && best in db.subscriptions && Eligible(best, tenantId, storeId, family, now)
      && forall s :: s in db.subscriptions && Eligible(s, tenantId, storeId, family, now) ==> NewerFirst(best, s)
  }

  lemma NewestEligibleUnique(db: Db, tenantId: int, storeId: int, family: Family, now: Time, a: Option<Subscription>, b: Option<Subscription>)
    requires ValidDb(db)
    requires IsNewestEligible(db, tenantId, storeId, family, now, a)
    requires IsNewestEligible(db, tenantId, storeId, family, now, b)
    ensures a == b
  {
    if a.Some? && b.Some? {
      assert NewerFirst(a.value, b.value) && NewerFirst(b.value, a.value);
      var i :| 0 <= i < |db.subscriptions| && db.subscriptions[i] == a.value;
      var j :| 0 <= j < |db.subscriptions| && db.subscriptions[j] == b.value;
    }
  }

  /** The per-family query returns the newest eligible subscription. */
  lemma EffectiveSubscriptionIsNewest(db: Db, tenantId: int, storeId: int, family: Family, now: Time)
    requires ValidDb(db) && family in PRODUCT_FAMILIES
    ensures IsNewestEligible(db, tenantId, storeId, family, now,
                             EffectiveSubscriptionForFamily(db, tenantId, storeId, family, now))
  {
    var rows := Filter(db.subscriptions, (s: Subscription) =>
      s.tenantId == tenantId && s.storeId == storeId && s.family == family
      && s.status == SubscriptionActive && s.startsAt <= now);
    SortSorts(rows, NewerFirst);
    FirstIsNewest(db, tenantId, storeId, family, now, Sort(rows, NewerFirst), (s: Subscription) => Unexpired(s, now));
  }

  /** Taking the first match of rows that are ordered within the family gives the newest eligible one. */
  lemma FirstIsNewest(db: Db, tenantId: int, storeId: int, family: Family, now: Time, rows: seq<Subscription>, p: Subscription -> bool)
    requires forall i, j :: 0 <= i < j < |rows| && p(rows[i]) && p(rows[j]) ==> NewerFirst(rows[i], rows[j])
    requires forall s :: s in rows && p(s) <==> s in db.subscriptions && Eligible(s, tenantId, storeId, family, now)
    ensures IsNewestEligible(db, tenantId, storeId, family, now, FirstWhere(rows, p))
  {
    var r := FirstWhere(rows, p);
    if r.Some? {
      var k :| 0 <= k < |rows| && rows[k] == r.value && p(rows[k]) && forall j :: 0 <= j < k ==> !p(rows[j]);
      forall s | s in db.subscriptions && Eligible(s, tenantId, storeId, family, now)
        ensures NewerFirst(r.value, s)
      {
        var i :| 0 <= i < |rows| && rows[i] == s;
      }
    }
  }
}
