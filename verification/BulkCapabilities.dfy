/** The bulk in-memory capability resolver and its agreement with the per-store one
    (app/module_catalog.py, `effective_capabilities_for_stores`). */
module BulkCapabilities {
  import opened Options
  import opened DependencyGraph
  import opened Sequences
  import opened ModuleCatalog

  const CAPABILITY_CODES: set<Code> := {"instagram_automation", "knowledge_base", "ai_assistant"}

  /** `loaded_module_enabled`: like `module_enabled`, over dictionaries loaded beforehand. */
  predicate LoadedModuleEnabled(definitions: map<Code, Definition>, entitlements: map<(int, Code), Entitlement>,
                                store: Store, code: Code, now: Time, seen: set<Code>)
    decreases EntitledCodes(entitlements, store.id) - seen, 0
  {
    if !Operational(store) then false
    else if (store.id, code) !in entitlements || code !in definitions then false
    else
      var entitlement := entitlements[(store.id, code)];
      if (entitlement.status != Active && entitlement.status != Trial)
         || definitions[code].availability == Planned
         || !TimeValid(entitlement, now) then false
      else if code in seen then false
      else AllLoadedModulesEnabled(definitions, entitlements, store, definitions[code].dependencies, now, seen + {code})
  }

  predicate AllLoadedModulesEnabled(definitions: map<Code, Definition>, entitlements: map<(int, Code), Entitlement>,
                                    store: Store, codes: seq<Code>, now: Time, seen: set<Code>)
    decreases EntitledCodes(entitlements, store.id) - seen, |codes|
  {
    codes == [] || (LoadedModuleEnabled(definitions, entitlements, store, codes[0], now, seen)
                    && AllLoadedModulesEnabled(definitions, entitlements, store, codes[1..], now, seen))
  }

  /** `capability_enabled`: walks granted codes and asks for the loaded module last. */
  predicate CapabilityEnabled(granted: set<Code>, definitions: map<Code, Definition>, entitlements: map<(int, Code), Entitlement>,
                              store: Store, code: Code, now: Time, seen: set<Code>)
    decreases granted - seen, 0
  {
    if code !in granted then false
    else if code in seen then false
    else if code !in definitions then false
    else if !AllCapabilitiesEnabled(granted, definitions, entitlements, store, definitions[code].dependencies, now, seen + {code})
    then false
    else LoadedModuleEnabled(definitions, entitlements, store, code, now, {})
  }

  predicate AllCapabilitiesEnabled(granted: set<Code>, definitions: map<Code, Definition>, entitlements: map<(int, Code), Entitlement>,
                                   store: Store, codes: seq<Code>, now: Time, seen: set<Code>)
    decreases granted - seen, |codes|
  {
    codes == [] || (CapabilityEnabled(granted, definitions, entitlements, store, codes[0], now, seen)
                    && AllCapabilitiesEnabled(granted, definitions, entitlements, store, codes[1..], now, seen))
  }

  /** What the bulk query loads for one store is what the database holds for it. */
  ghost predicate LoadedFor(db: Db, store: Store, entitlements: map<(int, Code), Entitlement>) {
    forall code :: ((store.id, code) in entitlements <==> (store.id, code) in db.entitlements)
                   && ((store.id, code) in entitlements ==> entitlements[(store.id, code)] == db.entitlements[(store.id, code)])
  }

  lemma {:induction false} LoadedIsModuleEnabled(db: Db, entitlements: map<(int, Code), Entitlement>, store: Store, code: Code, now: Time, seen: set<Code>)
    requires ValidDb(db) && LoadedFor(db, store, entitlements)
    ensures LoadedModuleEnabled(db.definitions, entitlements, store, code, now, seen) <==> ModuleEnabled(db, store, code, now, seen)
    decreases EntitledCodes(entitlements, store.id) - seen, 0
  {
    if Live(db, store, code, now) && code !in seen {
      assert (store.id, code).1 in EntitledCodes(entitlements, store.id);
      AllLoadedIsAllModulesEnabled(db, entitlements, store, db.definitions[code].dependencies, now, seen + {code});
    }
  }

  lemma {:induction false} AllLoadedIsAllModulesEnabled(db: Db, entitlements: map<(int, Code), Entitlement>, store: Store, codes: seq<Code>, now: Time, seen: set<Code>)
    requires ValidDb(db) && LoadedFor(db, store, entitlements)
    ensures AllLoadedModulesEnabled(db.definitions, entitlements, store, codes, now, seen) <==> AllModulesEnabled(db, store, codes, now, seen)
    decreases EntitledCodes(entitlements, store.id) - seen, |codes|
  {
    if codes != [] {
      LoadedIsModuleEnabled(db, entitlements, store, codes[0], now, seen);
      AllLoadedIsAllModulesEnabled(db, entitlements, store, codes[1..], now, seen);
    }
  }

  lemma {:induction false} CapabilityIsResolve(g: Graph, granted: set<Code>, db: Db, entitlements: map<(int, Code), Entitlement>, store: Store, code: Code, now: Time, seen: set<Code>)
    requires ValidDb(db) && LoadedFor(db, store, entitlements)
    requires g == Graph(granted * Lfp(GraphOf(db, store, now)), Dependencies(db.definitions))
    ensures CapabilityEnabled(granted, db.definitions, entitlements, store, code, now, seen) <==> Resolve(g, code, seen)
    decreases granted - seen, 0
  {
    LoadedIsModuleEnabled(db, entitlements, store, code, now, {});
    ModuleEnabledIsLfp(db, store, code, now);
    if code in granted && code !in seen && code in db.definitions {
      AllCapabilitiesIsResolveAll(g, granted, db, entitlements, store, db.definitions[code].dependencies, now, seen + {code});
    }
  }

  lemma {:induction false} AllCapabilitiesIsResolveAll(g: Graph, granted: set<Code>, db: Db, entitlements: map<(int, Code), Entitlement>, store: Store, codes: seq<Code>, now: Time, seen: set<Code>)
    requires ValidDb(db) && LoadedFor(db, store, entitlements)
    requires g == Graph(granted * Lfp(GraphOf(db, store, now)), Dependencies(db.definitions))
    ensures AllCapabilitiesEnabled(granted, db.definitions, entitlements, store, codes, now, seen) <==> ResolveAll(g, codes, seen)
    decreases granted - seen, |codes|
  {
    if codes != [] {
      CapabilityIsResolve(g, granted, db, entitlements, store, codes[0], now, seen);
      AllCapabilitiesIsResolveAll(g, granted, db, entitlements, store, codes[1..], now, seen);
    }
  }

  /** "Granted, live, and every dependency is in the set." */
  ghost function CapabilityGraph(db: Db, store: Store, granted: set<Code>, now: Time): Graph
    requires ValidDb(db)
  {
    Graph(granted * GraphOf(db, store, now).live, Dependencies(db.definitions))
  }

  /** The nested walks of the bulk resolver decide the least fixed point of `CapabilityGraph`. */
  lemma CapabilityEnabledIsLfp(db: Db, entitlements: map<(int, Code), Entitlement>, store: Store, granted: set<Code>, code: Code, now: Time)
    requires ValidDb(db) && LoadedFor(db, store, entitlements)
    ensures CapabilityEnabled(granted, db.definitions, entitlements, store, code, now, {})
            <==> code in Lfp(CapabilityGraph(db, store, granted, now))
  {
    var deep := Graph(granted * Lfp(GraphOf(db, store, now)), Dependencies(db.definitions));
    CapabilityIsResolve(deep, granted, db, entitlements, store, code, now, {});
    ResolveIsLfp(deep, code);
    LfpOfGranted(GraphOf(db, store, now), granted);
  }

  /** Plan codes granted to one store by its own per-family subscription queries. */
  ghost function GrantedTo(db: Db, store: Store, now: Time): set<Code> {
    GrantedIn(db, store, PRODUCT_FAMILIES, now)
  }

  ghost function GrantedIn(db: Db, store: Store, families: set<Family>, now: Time): set<Code> {
    set family, code | family in families && code in FamilyCodes(db, store, family, now) :: code
  }

  function FamilyCodes(db: Db, store: Store, family: Family, now: Time): set<Code> {
    PlanCodes(db, EffectiveSubscriptionForFamily(db, store.tenantId, store.id, family, now))
  }

  function PlanCodes(db: Db, s: Option<Subscription>): set<Code> {
    if s.Some? && s.value.planId in db.plans then set code | code in db.plans[s.value.planId] else {}
  }

  /** The codes whose whole chain of dependencies is granted and enabled. */
  ghost function Held(db: Db, store: Store, now: Time): set<Code>
    requires ValidDb(db)
  {
    Lfp(CapabilityGraph(db, store, GrantedTo(db, store, now), now))
  }

  ghost function EffectiveCapabilitySet(db: Db, store: Store, now: Time): set<Code>
    requires ValidDb(db)
  {
    CAPABILITY_CODES * Held(db, store, now)
  }

  /** A subscription of the store that is active, has begun and has not run out. */
  ghost predicate IsCurrent(db: Db, store: Store, s: Subscription, now: Time) {
    && s in db.subscriptions && s.tenantId == store.tenantId && s.storeId == store.id && s.status == SubscriptionActive
    && s.startsAt <= now && (s.currentPeriodEnd.Some? ==> now < s.currentPeriodEnd.value)
  }

  /** No current subscription of its family is newer, by start and then by id. */
  ghost predicate IsNewest(db: Db, store: Store, s: Subscription, now: Time) {
    && IsCurrent(db, store, s, now)
    && forall t :: IsCurrent(db, store, t, now) && t.family == s.family ==> t.startsAt < s.startsAt || (t.startsAt == s.startsAt && t.id <= s.id)
  }

  lemma NewestIsNewest(db: Db, store: Store, s: Subscription, now: Time)
    ensures IsNewest(db, store, s, now) <==> IsNewestEligible(db, store.tenantId, store.id, s.family, now, Some(s))
  {
    forall t
      ensures IsCurrent(db, store, t, now) <==> t in db.subscriptions && Eligible(t, store.tenantId, store.id, t.family, now)
    {
    }
  }

  /** A code is granted exactly by the plan of a current subscription of the store that is the newest in its family. */
  lemma GrantedExactly(db: Db, store: Store, code: Code, now: Time)
    requires ValidDb(db)
    ensures code in GrantedTo(db, store, now) <==>
            exists s :: IsNewest(db, store, s, now) && s.family in {"AUTOMATION", "AI_ASSISTANT", "LEGACY_BUNDLE"}
                        && s.planId in db.plans && code in db.plans[s.planId]
  {
    if code in GrantedTo(db, store, now) {
      var family :| family in PRODUCT_FAMILIES && code in FamilyCodes(db, store, family, now);
      var s := EffectiveSubscriptionForFamily(db, store.tenantId, store.id, family, now).value;
      EffectiveSubscriptionIsNewest(db, store.tenantId, store.id, family, now);
      NewestIsNewest(db, store, s, now);
    }
    forall s | IsNewest(db, store, s, now) && s.family in PRODUCT_FAMILIES && s.planId in db.plans && code in db.plans[s.planId]
      ensures code in GrantedTo(db, store, now)
    {
      NewestIsNewest(db, store, s, now);
      NewestGrants(db, store, s, code, now);
    }
  }

  lemma NewestGrants(db: Db, store: Store, s: Subscription, code: Code, now: Time)
    requires ValidDb(db) && s in db.subscriptions && s.family in PRODUCT_FAMILIES && s.planId in db.plans && code in db.plans[s.planId]
    requires IsNewestEligible(db, store.tenantId, store.id, s.family, now, Some(s))
    ensures code in GrantedTo(db, store, now)
  {
    EffectiveSubscriptionIsNewest(db, store.tenantId, store.id, s.family, now);
    NewestEligibleUnique(db, store.tenantId, store.id, s.family, now, Some(s),
                         EffectiveSubscriptionForFamily(db, store.tenantId, store.id, s.family, now));
    assert code in FamilyCodes(db, store, s.family, now);
  }

  /** A store's effective capabilities are the three canonical codes it holds, and it holds a code exactly when a
      current plan grants it, its module is enabled, and it holds every dependency. */
  lemma CapabilitiesExactly(db: Db, store: Store, code: Code, now: Time)
    requires ValidDb(db)
    ensures EffectiveCapabilitySet(db, store, now) == {"instagram_automation", "knowledge_base", "ai_assistant"} * Held(db, store, now)
    ensures code in Held(db, store, now)
            <==> code in GrantedTo(db, store, now) && ModuleEnabled(db, store, code, now, {})
                 && forall d :: d in db.definitions[code].dependencies ==> d in Held(db, store, now)
  {
    HeldInGraph(GraphOf(db, store, now), GrantedTo(db, store, now), code);
    ModuleEnabledIsLfp(db, store, code, now);
    EnabledIsDefined(db, store, code, now);
  }

  lemma EnabledIsDefined(db: Db, store: Store, code: Code, now: Time)
    requires ValidDb(db)
    ensures ModuleEnabled(db, store, code, now, {}) ==> code in db.definitions
  {
  }

  lemma HeldInGraph(h: Graph, granted: set<Code>, code: Code)
    ensures var g := Graph(granted * h.live, h.deps);
            code in Lfp(g) <==> code in granted && code in Lfp(h) && forall d :: d in DepsOf(h, code) ==> d in Lfp(g)
  {
    var g := Graph(granted * h.live, h.deps);
    InLfp(g, code);
    InLfp(h, code);
    LfpMonotone(g, h);
  }

  /** ORDER BY store_id, product_family, starts_at DESC, id DESC. */
  predicate BulkOrder(a: Subscription, b: Subscription) {
    a.storeId < b.storeId
    || (a.storeId == b.storeId
        && (if a.family == b.family then NewerFirst(a, b) else StringLe(a.family, b.family)))
  }

  lemma BulkOrderIsTotal()
    ensures TotalPreorder(BulkOrder)
  {
    forall a: Subscription, b: Subscription
      ensures BulkOrder(a, b) || BulkOrder(b, a)
    {
      StringLeTotal(a.family, b.family);
    }
    forall a: Subscription, b: Subscription, c: Subscription | BulkOrder(a, b) && BulkOrder(b, c)
      ensures BulkOrder(a, c)
    {
      StringLeTotal(a.family, b.family);
      if StringLe(a.family, b.family) && StringLe(b.family, c.family) {
        StringLeTransitive(a.family, b.family, c.family);
      }
    }
  }

  function Selects(store: Store, family: Family): Subscription -> bool {
    (s: Subscription) => s.storeId == store.id && s.family == family && s.tenantId == store.tenantId
  }

  /** The rows of the bulk query. */
  function BulkRows(db: Db, ids: set<int>, now: Time): seq<Subscription> {
    Sort(Filter(db.subscriptions, (s: Subscription) =>
           s.storeId in ids && s.status == SubscriptionActive && s.family in PRODUCT_FAMILIES
           && s.startsAt <= now && Unexpired(s, now)),
         BulkOrder)
  }

  /** The first bulk row for a store and family is what that store's own query returns. */
  lemma FirstBulkRowIsEffective(db: Db, ids: set<int>, store: Store, family: Family, now: Time)
    requires ValidDb(db) && store.id in ids && family in PRODUCT_FAMILIES
    ensures FirstWhere(BulkRows(db, ids, now), Selects(store, family))
            == EffectiveSubscriptionForFamily(db, store.tenantId, store.id, family, now)
  {
    BulkOrderIsTotal();
    SortSorts(Filter(db.subscriptions, (s: Subscription) =>
                s.storeId in ids && s.status == SubscriptionActive && s.family in PRODUCT_FAMILIES
                && s.startsAt <= now && Unexpired(s, now)), BulkOrder);
    FirstIsNewest(db, store.tenantId, store.id, family, now, BulkRows(db, ids, now), Selects(store, family));
    EffectiveSubscriptionIsNewest(db, store.tenantId, store.id, family, now);
    NewestEligibleUnique(db, store.tenantId, store.id, family, now,
                         FirstWhere(BulkRows(db, ids, now), Selects(store, family)),
                         EffectiveSubscriptionForFamily(db, store.tenantId, store.id, family, now));
  }

  function Lookup(selected: map<(int, Family), Subscription>, storeId: int, family: Family): Option<Subscription> {
    if (storeId, family) in selected then Some(selected[(storeId, family)]) else None
  }

  ghost predicate DistinctStores(stores: seq<Store>) {
    forall s, t :: s in stores && t in stores && s.id == t.id ==> s == t
  }

  lemma SelectOneMore(byId: map<int, Store>, before: map<(int, Family), Subscription>, row: Subscription,
                      after: map<(int, Family), Subscription>, rows: seq<Subscription>, store: Store, family: Family)
    requires store.id in byId && byId[store.id] == store
    requires Lookup(before, store.id, family) == FirstWhere(rows, Selects(store, family))
    requires after == if row.storeId in byId && row.tenantId == byId[row.storeId].tenantId && (row.storeId, row.family) !in before
                      then before[(row.storeId, row.family) := row] else before
    ensures Lookup(after, store.id, family) == FirstWhere(rows + [row], Selects(store, family))
  {
    FirstWhereOfSnoc(rows, row, Selects(store, family));
  }

  /** One pass of `setdefault` over the bulk rows selects, for every store and family, what that store gets alone. */
  method SelectSubscriptions(db: Db, stores: seq<Store>, now: Time) returns (selected: map<(int, Family), Subscription>)
    requires ValidDb(db) && DistinctStores(stores)
    ensures forall store :: store in stores ==> SelectedFor(db, store, selected, now)
  {
    var byId: map<int, Store> := map store | store in stores :: store.id := store;
    var rows := BulkRows(db, byId.Keys, now);
    selected := map[];
    for i := 0 to |rows|
      invariant forall store, family :: store in stores && family in PRODUCT_FAMILIES ==>
                  Lookup(selected, store.id, family) == FirstWhere(rows[..i], Selects(store, family))
    {
      var row := rows[i];
      ghost var before := selected;
      if row.storeId in byId && row.tenantId == byId[row.storeId].tenantId {
        if (row.storeId, row.family) !in selected {
          selected := selected[(row.storeId, row.family) := row];
        }
      }
      assert rows[..i + 1] == rows[..i] + [row];
      forall store, family | store in stores && family in PRODUCT_FAMILIES
        ensures Lookup(selected, store.id, family) == FirstWhere(rows[..i + 1], Selects(store, family))
      {
        SelectOneMore(byId, before, row, selected, rows[..i], store, family);
      }
    }
    forall store, family | store in stores && family in PRODUCT_FAMILIES
      ensures Lookup(selected, store.id, family) == EffectiveSubscriptionForFamily(db, store.tenantId, store.id, family, now)
    {
      assert rows[..|rows|] == rows;
      FirstBulkRowIsEffective(db, byId.Keys, store, family, now);
    }
  }

  ghost predicate StrictlySorted(codes: seq<Code>) {
    forall i, j :: 0 <= i < j < |codes| ==> StringLe(codes[i], codes[j]) && codes[i] != codes[j]
  }

  /** `codes` is the tuple `sorted` makes of the set. */
  ghost predicate IsSortedSet(codes: seq<Code>, s: set<Code>) {
    StrictlySorted(codes) && forall code :: code in codes <==> code in s
  }

  method SortedCodes(codes: set<Code>) returns (r: seq<Code>)
    ensures IsSortedSet(r, codes)
  {
    var unsorted: seq<Code> := [];
    var rest := codes;
    while rest != {}
      invariant rest <= codes
      invariant forall code :: code in unsorted <==> code in codes - rest
      invariant forall i, j :: 0 <= i < j < |unsorted| ==> unsorted[i] != unsorted[j]
      decreases rest
    {
      var code :| code in rest;
      unsorted := unsorted + [code];
      rest := rest - {code};
    }
    r := Sort(unsorted, StringLe);
    StringOrderIsTotal();
    ghost var idx := SortIndices(unsorted, StringLe);
    SortSorts(unsorted, StringLe);
  }

  lemma StringOrderIsTotal()
    ensures TotalPreorder(StringLe)
  {
    forall a, b
      ensures StringLe(a, b) || StringLe(b, a)
    {
      StringLeTotal(a, b);
    }
    forall a, b, c | StringLe(a, b) && StringLe(b, c)
      ensures StringLe(a, c)
    {
      StringLeTransitive(a, b, c);
    }
  }

  lemma GrantedInSplit(db: Db, store: Store, families: set<Family>, family: Family, now: Time)
    ensures GrantedIn(db, store, families + {family}, now) == GrantedIn(db, store, families, now) + FamilyCodes(db, store, family, now)
  {
    forall code | code in FamilyCodes(db, store, family, now)
      ensures code in GrantedIn(db, store, families + {family}, now)
    {
      assert family in families + {family};
    }
  }

  /** `plans` holds the rows of the selected subscriptions, and those only. */
  ghost predicate PlansLoaded(db: Db, selected: map<(int, Family), Subscription>, plans: map<int, seq<Code>>) {
    && (forall key :: key in selected ==> (selected[key].planId in plans <==> selected[key].planId in db.plans))
    && (forall id :: id in plans ==> id in db.plans && plans[id] == db.plans[id])
  }

  method LoadPlans(db: Db, selected: map<(int, Family), Subscription>) returns (plans: map<int, seq<Code>>)
    ensures PlansLoaded(db, selected, plans)
  {
    var planIds := set key | key in selected :: selected[key].planId;
    plans := map id | id in db.plans && id in planIds :: db.plans[id];
  }

  method GrantedCodes(db: Db, store: Store, selected: map<(int, Family), Subscription>, plans: map<int, seq<Code>>, now: Time)
    returns (granted: set<Code>)
    requires SelectedFor(db, store, selected, now)
    requires PlansLoaded(db, selected, plans)
    ensures granted == GrantedTo(db, store, now)
  {
    granted := {};
    var families := PRODUCT_FAMILIES;
    while families != {}
      invariant families <= PRODUCT_FAMILIES
      invariant granted == GrantedIn(db, store, PRODUCT_FAMILIES - families, now)
      decreases families
    {
      var family :| family in families;
      var subscription := Lookup(selected, store.id, family);
      GrantedInSplit(db, store, PRODUCT_FAMILIES - families, family, now);
      families, granted := families - {family},
        if subscription.Some? && subscription.value.planId in plans
        then granted + (set code | code in plans[subscription.value.planId]) else granted;
      assert PRODUCT_FAMILIES - families == PRODUCT_FAMILIES - (families + {family}) + {family};
    }
  }

  /** The body of the per-store loop: grants, both walks, then the sorted tuple. */
  method StoreCapabilities(db: Db, store: Store, selected: map<(int, Family), Subscription>, plans: map<int, seq<Code>>,
                           entitlements: map<(int, Code), Entitlement>, now: Time) returns (codes: seq<Code>)
    requires ValidDb(db) && LoadedFor(db, store, entitlements)
    requires SelectedFor(db, store, selected, now)
    requires PlansLoaded(db, selected, plans)
    ensures IsSortedSet(codes, EffectiveCapabilitySet(db, store, now))
  {
    var granted := GrantedCodes(db, store, selected, plans, now);
    var enabled := set code | code in CAPABILITY_CODES * granted
                              && CapabilityEnabled(granted, db.definitions, entitlements, store, code, now, {});
    forall code
      ensures code in enabled <==> code in EffectiveCapabilitySet(db, store, now)
    {
      CapabilityEnabledIsLfp(db, entitlements, store, granted, code, now);
      LfpIsLeast(CapabilityGraph(db, store, granted, now));
    }
    codes := SortedCodes(enabled);
  }

  /** `result` holds an answer for exactly these stores, each the one the store would get alone. */
  ghost predicate Answers(db: Db, stores: seq<Store>, now: Time, result: map<int, seq<Code>>)
    requires ValidDb(db)
  {
    && (forall id :: id in result ==> exists store :: store in stores && store.id == id)
    && (forall store :: store in stores ==> store.id in result && IsSortedSet(result[store.id], EffectiveCapabilitySet(db, store, now)))
  }

  lemma AnswersOneMore(db: Db, stores: seq<Store>, store: Store, now: Time, result: map<int, seq<Code>>, codes: seq<Code>)
    requires ValidDb(db) && DistinctStores(stores + [store]) && Answers(db, stores, now, result)
    requires IsSortedSet(codes, EffectiveCapabilitySet(db, store, now))
    ensures Answers(db, stores + [store], now, result[store.id := codes])
  {
    var more := stores + [store];
    var after := result[store.id := codes];
    assert store in more;
    forall s | s in more
      ensures s.id in after && IsSortedSet(after[s.id], EffectiveCapabilitySet(db, s, now))
    {
      if s.id == store.id {
        assert s == store;
      }
    }
    forall id | id in after
      ensures exists s :: s in more && s.id == id
    {
      if id != store.id {
        var s :| s in stores && s.id == id;
        assert s in more;
      }
    }
  }

  /** `selected` gives every family of the store what its own query returns. */
  ghost predicate SelectedFor(db: Db, store: Store, selected: map<(int, Family), Subscription>, now: Time) {
    forall family :: family in PRODUCT_FAMILIES ==>
      Lookup(selected, store.id, family) == EffectiveSubscriptionForFamily(db, store.tenantId, store.id, family, now)
  }

  method LoadEntitlements(db: Db, stores: seq<Store>) returns (entitlements: map<(int, Code), Entitlement>)
    ensures forall store :: store in stores ==> LoadedFor(db, store, entitlements)
  {
    var ids := set store | store in stores :: store.id;
    entitlements := map key | key in db.entitlements && key.0 in ids :: db.entitlements[key];
    forall store | store in stores
      ensures LoadedFor(db, store, entitlements)
    {
      assert store.id in ids;
    }
  }

  /** The loop over the stores, each resolved in memory from the loaded dictionaries. */
  method ResolveEach(db: Db, stores: seq<Store>, selected: map<(int, Family), Subscription>, plans: map<int, seq<Code>>,
                     entitlements: map<(int, Code), Entitlement>, now: Time) returns (result: map<int, seq<Code>>)
    requires ValidDb(db) && DistinctStores(stores) && PlansLoaded(db, selected, plans)
    requires forall store :: store in stores ==> LoadedFor(db, store, entitlements) && SelectedFor(db, store, selected, now)
    ensures Answers(db, stores, now, result)
  {
    result := map[];
    for i := 0 to |stores|
      invariant Answers(db, stores[..i], now, result)
    {
      var codes := StoreCapabilities(db, stores[i], selected, plans, entitlements, now);
      assert stores[..i + 1] == stores[..i] + [stores[i]];
      AnswersOneMore(db, stores[..i], stores[i], now, result, codes);
      result := result[stores[i].id := codes];
    }
    assert stores[..|stores|] == stores;
  }

  /** Whatever else is in the collection, each store gets the sorted canonical codes that are granted to it,
      live, and closed under dependencies. */
  method EffectiveCapabilitiesForStores(db: Db, stores: seq<Store>, now: Time) returns (result: map<int, seq<Code>>)
    requires ValidDb(db) && DistinctStores(stores)
    ensures Answers(db, stores, now, result)
  {
    if stores == [] {
      return map[];
    }
    var selected := SelectSubscriptions(db, stores, now);
    var plans := LoadPlans(db, selected);
    var entitlements := LoadEntitlements(db, stores);
    result := ResolveEach(db, stores, selected, plans, entitlements, now);
  }

  /** One trusted scope: empty for an unknown store or another tenant's. */
  method EffectiveCapabilities(db: Db, tenantId: int, storeId: int, now: Time) returns (codes: seq<Code>)
    requires ValidDb(db)
    ensures IsSortedSet(codes, if storeId in db.stores && db.stores[storeId].tenantId == tenantId
                               then EffectiveCapabilitySet(db, db.stores[storeId], now) else {})
  {
    if storeId !in db.stores || db.stores[storeId].tenantId != tenantId {
      return [];
    }
    var store := db.stores[storeId];
    var result := EffectiveCapabilitiesForStores(db, [store], now);
    assert store in [store];
    codes := result[store.id];
  }
}
