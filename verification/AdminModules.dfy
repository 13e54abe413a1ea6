/** Provider-side activation and deactivation of one store module (app/admin_modules.py). */
module AdminModules {
  import opened Options
  import opened DependencyGraph
  import opened ModuleCatalog

  const DAY: Time := 86400
  const DEFAULT_TRIAL_DAYS := 7

  datatype ModuleUpdate = ModuleUpdate(status: EntitlementStatus, trialDays: Option<nat>)
  datatype Outcome = Updated | NotFound | NotYetAvailable | MissingDependencies(codes: set<Code>)

  const NO_ENTITLEMENT := Entitlement(Inactive, None, None, None, None)

  function NewEntitlement(code: Code, defaults: set<Code>): Entitlement {
    if code in defaults then NO_ENTITLEMENT.(status := Active) else NO_ENTITLEMENT
  }

  /** `ensure_store_modules`: seeds missing definitions and gives the store a row for each; `defaults` are the codes
      that start active, none unless the legacy defaults are asked for. */
  function EnsureStoreModules(db: Db, seeds: map<Code, Definition>, store: Store, defaults: set<Code>): Db {
    var definitions := seeds + db.definitions;
    db.(definitions := definitions,
        entitlements := (map code | code in definitions :: (store.id, code) := NewEntitlement(code, defaults)) + db.entitlements)
  }

  /** `_dependency_names`: dependencies with a row that is not enabled, then those without a row. */
  function DependencyNames(db: Db, store: Store, definition: Definition, now: Time): set<Code>
    requires ValidDb(db)
  {
    (set code | code in definition.dependencies && (store.id, code) in db.entitlements && !ModuleEnabled(db, store, code, now, {}))
    + (set code | code in definition.dependencies && (store.id, code) !in db.entitlements)
  }

  function Rewritten(e: Entitlement, update: ModuleUpdate, now: Time): Entitlement {
    e.(status := update.status,
       startsAt := if e.startsAt.Some? then e.startsAt else Some(now),
       trialEndsAt := if update.status == Trial
                      then Some(now + DAY * (if update.trialDays.Some? then update.trialDays.value else DEFAULT_TRIAL_DAYS))
                      else None)
  }

  predicate Activates(update: ModuleUpdate) {
    update.status == Active || update.status == Trial
  }

  /** `trial_days` is at least 1 in the request schema (app/admin_schemas.py). */
  predicate ValidUpdate(update: ModuleUpdate) {
    update.trialDays.Some? ==> update.trialDays.value >= 1
  }

  function UpdateOutcome(db: Db, store: Store, code: Code, update: ModuleUpdate, now: Time): Outcome
    requires ValidDb(db)
  {
    if (store.id, code) !in db.entitlements then NotFound
    else if Activates(update) && db.definitions[code].availability == Planned then NotYetAvailable
    else if Activates(update) && DependencyNames(db, store, db.definitions[code], now) != {}
    then MissingDependencies(DependencyNames(db, store, db.definitions[code], now))
    else Updated
  }

  class ModuleAdmin {
    var db: Db
    const seeds: map<Code, Definition>

    constructor (db: Db, seeds: map<Code, Definition>)
      ensures this.db == db && this.seeds == seeds
    {
      this.db, this.seeds := db, seeds;
    }

    /** A refused request leaves every table as it was: the request transaction is never committed. */
    method UpdateStoreModule(store: Store, code: Code, update: ModuleUpdate, now: Time) returns (outcome: Outcome)
      requires ValidDb(db) && ValidUpdate(update)
      modifies this
      ensures ValidDb(db)
      ensures outcome == UpdateOutcome(EnsureStoreModules(old(db), seeds, store, {}), store, code, update, now)
      ensures db == if outcome.Updated?
                    then WithEntitlement(EnsureStoreModules(old(db), seeds, store, {}), store, code, update, now)
                    else old(db)
    {
      var session := EnsureStoreModules(db, seeds, store, {});
      EnsureValid(db, seeds, store, {});
      if (store.id, code) !in session.entitlements {
        return NotFound;
      }
      var entitlement := session.entitlements[(store.id, code)];
      if session.definitions[code].availability == Planned && Activates(update) {
        return NotYetAvailable;
      }
      if Activates(update) {
        var missing := DependencyNames(session, store, session.definitions[code], now);
        if missing != {} {
          return MissingDependencies(missing);
        }
      }
      entitlement := Rewrite(entitlement, update, now);
      db := session.(entitlements := session.entitlements[(store.id, code) := entitlement]);
      WithEntitlementValid(session, store, code, update, now);
      outcome := Updated;
    }

    method Rewrite(entitlement: Entitlement, update: ModuleUpdate, now: Time) returns (e: Entitlement)
      ensures e == Rewritten(entitlement, update, now)
    {
      e := entitlement.(status := update.status);
      if e.startsAt.None? {
        e := e.(startsAt := Some(now));
      }
      if update.status == Trial {
        var days := if update.trialDays.Some? then update.trialDays.value else DEFAULT_TRIAL_DAYS;
        e := e.(trialEndsAt := Some(now + DAY * days));
      } else {
        e := e.(trialEndsAt := None);
      }
    }
  }

  ghost function WithEntitlement(db: Db, store: Store, code: Code, update: ModuleUpdate, now: Time): Db
    requires (store.id, code) in db.entitlements
  {
    db.(entitlements := db.entitlements[(store.id, code) := Rewritten(db.entitlements[(store.id, code)], update, now)])
  }

  lemma WithEntitlementValid(db: Db, store: Store, code: Code, update: ModuleUpdate, now: Time)
    requires ValidDb(db) && (store.id, code) in db.entitlements
    ensures ValidDb(WithEntitlement(db, store, code, update, now))
  {
  }

  lemma EnsureValid(db: Db, seeds: map<Code, Definition>, store: Store, defaults: set<Code>)
    requires ValidDb(db)
    ensures ValidDb(EnsureStoreModules(db, seeds, store, defaults))
  {
  }

  lemma WithEntitlementLive(db: Db, store: Store, code: Code, update: ModuleUpdate, now: Time)
    requires ValidDb(db) && (store.id, code) in db.entitlements
    ensures ValidDb(WithEntitlement(db, store, code, update, now))
    ensures var db' := WithEntitlement(db, store, code, update, now);
            var g, g' := GraphOf(db, store, now), GraphOf(db', store, now);
            g'.deps == g.deps && g'.live - {code} == g.live - {code}
            && (code in g'.live <==> Live(db', store, code, now))
  {
    var db' := WithEntitlement(db, store, code, update, now);
    var g, g' := GraphOf(db, store, now), GraphOf(db', store, now);
    assert (store.id, code).1 in EntitledCodes(db'.entitlements, store.id);
    forall c | c != code
      ensures c in g'.live <==> c in g.live
    {
      assert Live(db', store, c, now) == Live(db, store, c, now);
      assert (store.id, c) in db.entitlements ==> (store.id, c).1 in EntitledCodes(db.entitlements, store.id);
      assert (store.id, c) in db'.entitlements ==> (store.id, c).1 in EntitledCodes(db'.entitlements, store.id);
    }
  }

  lemma EnsureLive(db: Db, seeds: map<Code, Definition>, store: Store, defaults: set<Code>, now: Time, c: Code)
    requires ValidDb(db)
    ensures var db' := EnsureStoreModules(db, seeds, store, defaults);
            && ValidDb(db')
            && (c in GraphOf(db, store, now).live ==> c in GraphOf(db', store, now).live)
            && (c !in defaults || c !in db'.definitions || (store.id, c) in db.entitlements
                ==> (c in GraphOf(db', store, now).live ==> c in GraphOf(db, store, now).live))
  {
    var db' := EnsureStoreModules(db, seeds, store, defaults);
    EnsureValid(db, seeds, store, defaults);
    assert (store.id, c) in db.entitlements ==> (store.id, c).1 in EntitledCodes(db.entitlements, store.id);
    assert (store.id, c) in db'.entitlements ==> (store.id, c).1 in EntitledCodes(db'.entitlements, store.id);
  }

  /** Seeding rows disables nothing, and enables nothing either unless a default module had no row yet. */
  lemma EnsureKeepsEnabled(db: Db, seeds: map<Code, Definition>, store: Store, defaults: set<Code>, now: Time, x: Code)
    requires ValidDb(db)
    ensures var db' := EnsureStoreModules(db, seeds, store, defaults);
            && ValidDb(db')
            && (ModuleEnabled(db, store, x, now, {}) ==> ModuleEnabled(db', store, x, now, {}))
            && ((forall c :: c in defaults && c in db'.definitions ==> (store.id, c) in db.entitlements)
                ==> (ModuleEnabled(db', store, x, now, {}) ==> ModuleEnabled(db, store, x, now, {})))
  {
    var db' := EnsureStoreModules(db, seeds, store, defaults);
    EnsureValid(db, seeds, store, defaults);
    var g, h := GraphOf(db, store, now), GraphOf(db', store, now);
    forall c {
      EnsureLive(db, seeds, store, defaults, now, c);
    }
    LfpMonotone(g, h);
    ModuleEnabledIsLfp(db, store, x, now);
    ModuleEnabledIsLfp(db', store, x, now);
    if forall c :: c in defaults && c in db'.definitions ==> (store.id, c) in db.entitlements {
      LfpMonotone(h, g);
    }
  }

  /** After an accepted activation the module is enabled at once, exactly when the store is operational and
      the dates the request does not set allow it; the dependency check has already ruled out a cycle. */
  lemma ActivationEnables(db: Db, store: Store, code: Code, update: ModuleUpdate, now: Time)
    requires ValidDb(db) && ValidUpdate(update) && Activates(update)
    requires UpdateOutcome(db, store, code, update, now) == Updated
    ensures var e := db.entitlements[(store.id, code)];
            var db' := WithEntitlement(db, store, code, update, now);
            ValidDb(db') &&
            (ModuleEnabled(db', store, code, now, {}) <==>
               Operational(store)
               && (e.startsAt.None? || e.startsAt.value <= now)
               && (e.endsAt.None? || e.endsAt.value > now)
               && (update.status == Active ==> e.currentPeriodEnd.None? || e.currentPeriodEnd.value > now))
  {
    var db' := WithEntitlement(db, store, code, update, now);
    WithEntitlementLive(db, store, code, update, now);
    var g, g' := GraphOf(db, store, now), GraphOf(db', store, now);
    forall d | d in DepsOf(g, code)
      ensures d in Lfp(g')
    {
      assert d !in DependencyNames(db, store, db.definitions[code], now);
      ModuleEnabledIsLfp(db, store, d, now);
      ResolvedDependenciesAvoid(g, code, d);
      LfpWithout(g, code, d);
      LfpMonotone(Graph(g.live - {code}, g.deps), g');
    }
    InLfp(g', code);
    ModuleEnabledIsLfp(db', store, code, now);
  }

  /** After an accepted trial of `n` days given at `t` the module is enabled at a later time exactly while less than `n`
      days have passed (7 when the request names none), the store is operational, the dates the request does not set
      allow it, and every dependency is enabled at that time. */
  lemma TrialRunsOut(db: Db, store: Store, code: Code, update: ModuleUpdate, t: Time, now: Time)
    requires ValidDb(db) && ValidUpdate(update) && update.status == Trial && t <= now
    requires UpdateOutcome(db, store, code, update, t) == Updated
    ensures var e := db.entitlements[(store.id, code)];
            var db' := WithEntitlement(db, store, code, update, t);
            ValidDb(db') &&
            (ModuleEnabled(db', store, code, now, {}) <==>
               && now < t + 86400 * (if update.trialDays.Some? then update.trialDays.value else 7)
               && store.status !in {StoreSuspended, StoreDisabled, StoreDeleted}
               && (e.startsAt.Some? ==> e.startsAt.value <= now) && (e.endsAt.Some? ==> now < e.endsAt.value)
               && forall d :: d in db.definitions[code].dependencies ==> ModuleEnabled(db', store, d, now, {}))
  {
    WithEntitlementValid(db, store, code, update, t);
    EnabledExactly(WithEntitlement(db, store, code, update, t), store, code, now);
  }

  /** After an accepted activation it is the paid period that bounds the module. */
  lemma PaidPeriodRunsOut(db: Db, store: Store, code: Code, update: ModuleUpdate, t: Time, now: Time)
    requires ValidDb(db) && ValidUpdate(update) && update.status == Active && t <= now
    requires UpdateOutcome(db, store, code, update, t) == Updated
    ensures var e := db.entitlements[(store.id, code)];
            var db' := WithEntitlement(db, store, code, update, t);
            ValidDb(db') &&
            (ModuleEnabled(db', store, code, now, {}) <==>
               && (e.currentPeriodEnd.Some? ==> now < e.currentPeriodEnd.value)
               && store.status !in {StoreSuspended, StoreDisabled, StoreDeleted}
               && (e.startsAt.Some? ==> e.startsAt.value <= now) && (e.endsAt.Some? ==> now < e.endsAt.value)
               && forall d :: d in db.definitions[code].dependencies ==> ModuleEnabled(db', store, d, now, {}))
  {
    WithEntitlementValid(db, store, code, update, t);
    EnabledExactly(WithEntitlement(db, store, code, update, t), store, code, now);
  }

  /** When an update is accepted, and which dependencies a refusal names, in terms of what is enabled before it. */
  lemma AcceptedExactly(db: Db, store: Store, code: Code, update: ModuleUpdate, now: Time)
    requires ValidDb(db)
    ensures UpdateOutcome(db, store, code, update, now) == Updated <==>
            && (store.id, code) in db.entitlements
            && (update.status in {Active, Trial} ==>
                  && db.definitions[code].availability != Planned
                  && forall d :: d in db.definitions[code].dependencies ==> ModuleEnabled(db, store, d, now, {}))
    ensures UpdateOutcome(db, store, code, update, now).MissingDependencies? ==>
              forall d :: d in UpdateOutcome(db, store, code, update, now).codes
                          <==> d in db.definitions[code].dependencies && !ModuleEnabled(db, store, d, now, {})
  {
    if (store.id, code) in db.entitlements {
      forall d | d in db.definitions[code].dependencies
        ensures d in DependencyNames(db, store, db.definitions[code], now) <==> !ModuleEnabled(db, store, d, now, {})
      {
        EnabledExactly(db, store, d, now);
      }
    }
  }

  /** Seeding keeps every row and adds one for each definition without one: active when it is a default. */
  lemma SeedingExactly(db: Db, seeds: map<Code, Definition>, store: Store, defaults: set<Code>, other: int, code: Code)
    ensures var db' := EnsureStoreModules(db, seeds, store, defaults);
            && (code in db'.definitions <==> code in db.definitions || code in seeds)
            && (code in db'.definitions ==> db'.definitions[code] == if code in db.definitions then db.definitions[code] else seeds[code])
            && ((other, code) in db'.entitlements <==> (other, code) in db.entitlements || (other == store.id && code in db'.definitions))
            && ((other, code) in db'.entitlements ==>
                  db'.entitlements[(other, code)]
                  == if (other, code) in db.entitlements then db.entitlements[(other, code)]
                     else Entitlement(if code in defaults then Active else Inactive, None, None, None, None))
  {
  }

  /** `x` is `code` or depends on it, directly or through other modules. */
  ghost predicate DependsOn(db: Db, x: Code, code: Code) {
    Reaches(Graph({}, Dependencies(db.definitions)), x, code)
  }

  /** Deactivating a module turns off exactly itself and the enabled modules that depend on it. */
  lemma DeactivationIsExact(db: Db, store: Store, code: Code, update: ModuleUpdate, now: Time, x: Code)
    requires ValidDb(db) && !Activates(update)
    requires UpdateOutcome(db, store, code, update, now) == Updated
    ensures var db' := WithEntitlement(db, store, code, update, now);
            ValidDb(db') &&
            (ModuleEnabled(db', store, x, now, {}) <==> ModuleEnabled(db, store, x, now, {}) && !DependsOn(db, x, code))
  {
    var db' := WithEntitlement(db, store, code, update, now);
    WithEntitlementLive(db, store, code, update, now);
    var g := GraphOf(db, store, now);
    assert GraphOf(db', store, now) == Graph(g.live - {code}, g.deps);
    LfpWithout(g, code, x);
    ReachesIgnoresLive(g, Graph({}, g.deps), x, code);
    ModuleEnabledIsLfp(db, store, x, now);
    ModuleEnabledIsLfp(db', store, x, now);
  }
}
