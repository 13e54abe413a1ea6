/** Role assignments, memberships and the permissions they give (app/authz/access.py 87-245, app/authz/service.py,
    app/authz/repository.py 23-72, app/authentication/service.py 480-544). Every mutation is one transaction: it
    commits whole or leaves the tables as they were. */
module Authorization {
  import opened Options

  type TenantId = int
  type UserId = int
  type RoleCode = string
  type Code = string

  datatype Scope = Platform | InTenant
  datatype PrincipalType = UserType | ProviderAdmin | ServiceAccount | ApiKey | Anonymous
  datatype Principal = Principal(kind: PrincipalType, id: string)

  datatype BootstrapRole = BootstrapRole(scope: Scope, codes: set<Code>)

  /** The catalogue in the code (`definitions`, `bootstrap`), the role tables, and the rows that assignments refer
      to. `strip` and `lower` stand for the string methods, `show` for `str` of a user id. */
  datatype Directory = Directory(
    definitions: map<Code, Scope>, bootstrap: map<RoleCode, BootstrapRole>,
    roles: map<RoleCode, Scope>, permissions: map<Code, Scope>, grants: set<(RoleCode, Code)>,
    tenants: set<TenantId>, users: set<UserId>, strip: string -> string, lower: string -> string, show: UserId -> string)

  const PLATFORM_ACCESS_MANAGE := "platform.access_manage"
  const TENANT_MEMBERS_MANAGE := "tenant.members_manage"
  const TENANT_ACCESS_MANAGE := "tenant.access_manage"

  function Clean(dir: Directory, text: string): string {
    dir.lower(dir.strip(text))
  }

  /** Catalogued codes match the pattern of lower-case words, and `str` tells user ids apart. */
  ghost predicate ValidDirectory(dir: Directory) {
    && (forall code :: code in dir.definitions ==> Clean(dir, code) == code)
    && (forall u, v :: dir.show(u) == dir.show(v) ==> u == v)
  }

  /** `AuthorizationPrincipal`: who acts, and the tenant and membership the session is bound to, if any. */
  datatype Actor = Actor(
    subject: Option<string>, kind: PrincipalType, authenticated: bool,
    tenantId: Option<TenantId>, membershipId: Option<nat>, bootstrapRoles: seq<RoleCode>)

  datatype RoleStatus = RoleActive | RoleRevoked
  datatype MembershipStatus = MembershipActive | MembershipSuspended
  datatype Membership = Membership(id: nat, status: MembershipStatus, userId: Option<UserId>)
  datatype AuditRow = AuditRow(target: Principal, role: RoleCode, tenant: Option<TenantId>, grant: bool, changed: bool)

  /** `memberships` and the two assignment tables are keyed by their unique constraints. */
  datatype State = State(
    platform: map<(Principal, RoleCode), RoleStatus>, memberships: map<(TenantId, Principal), Membership>,
    tenantRoles: map<(nat, RoleCode), RoleStatus>, nextMembership: nat, audits: seq<AuditRow>)

  const EMPTY := State(map[], map[], map[], 0, [])

  datatype Reason =
    | Granted
    | UnknownPermission
    | Unauthenticated
    | PermissionMissing
    | TenantContextMissing
    | CrossTenantDenied
    | MembershipMissing
    | MembershipInactive

  datatype Decision = Decision(allowed: bool, reason: Reason)

  datatype Reply = Succeeded(changed: bool) | Invalid | Denied | Conflict | Raised

  /** The role carries the permission, both of this scope: the joins of the repository. */
  predicate Grants(dir: Directory, role: RoleCode, code: Code, scope: Scope) {
    && role in dir.roles && dir.roles[role] == scope
    && code in dir.permissions && dir.permissions[code] == scope && (role, code) in dir.grants
  }

  predicate HoldsPlatform(s: State, p: Principal, role: RoleCode) {
    (p, role) in s.platform && s.platform[(p, role)] == RoleActive
  }

  predicate HoldsInTenant(s: State, p: Principal, role: RoleCode, tenant: TenantId) {
    (tenant, p) in s.memberships
    && var id := s.memberships[(tenant, p)].id; (id, role) in s.tenantRoles && s.tenantRoles[(id, role)] == RoleActive
  }

  /** `platform_permissions`. */
  function PlatformPermissions(dir: Directory, s: State, p: Principal): set<Code> {
    set code | code in dir.permissions && exists role | role in dir.roles :: Grants(dir, role, code, Platform) && HoldsPlatform(s, p, role)
  }

  predicate IsActiveMember(s: State, p: Principal, tenant: TenantId) {
    (tenant, p) in s.memberships && s.memberships[(tenant, p)].status == MembershipActive
  }

  /** `tenant_permissions`: the permissions, the membership and, when there are none to look up, why. */
  function TenantPermissions(dir: Directory, s: State, p: Principal, tenant: TenantId): (set<Code>, Option<nat>, Reason) {
    if (tenant, p) !in s.memberships then ({}, None, MembershipMissing)
    else
      var m := s.memberships[(tenant, p)];
      if m.status != MembershipActive then ({}, Some(m.id), MembershipInactive)
      else (PermissionsInTenant(dir, s, p, tenant), Some(m.id), PermissionMissing)
  }

  function PermissionsInTenant(dir: Directory, s: State, p: Principal, tenant: TenantId): set<Code> {
    set code | code in dir.permissions && exists role | role in dir.roles :: Grants(dir, role, code, InTenant) && HoldsInTenant(s, p, role, tenant)
  }

  function BootstrapOf(dir: Directory, role: RoleCode, scope: Scope): set<Code> {
    if role in dir.bootstrap && dir.bootstrap[role].scope == scope then dir.bootstrap[role].codes else {}
  }

  function BootstrapPermissions(dir: Directory, roles: seq<RoleCode>, scope: Scope): set<Code> {
    if roles == [] then {} else BootstrapPermissions(dir, roles[..|roles| - 1], scope) + BootstrapOf(dir, roles[|roles| - 1], scope)
  }

  predicate BoundElsewhere(actor: Actor, tenant: TenantId) {
    actor.tenantId.Some? && actor.tenantId.value != tenant
  }

  function CheckTenant(dir: Directory, s: State, actor: Actor, code: Code, tenant: TenantId): Decision
    requires actor.subject.Some?
  {
    if BoundElsewhere(actor, tenant) then Decision(false, CrossTenantDenied)
    else
      var (effective, membership, reason) := TenantPermissions(dir, s, Principal(actor.kind, actor.subject.value), tenant);
      if actor.membershipId.Some? && membership != actor.membershipId then Decision(false, CrossTenantDenied)
      else if code in effective then Decision(true, Granted)
      else Decision(false, reason)
  }

  /** `AuthorizationService.check`. */
  function Check(dir: Directory, s: State, actor: Actor, permission: string, tenant: Option<TenantId>): Decision {
    var code := Clean(dir, permission);
    if code !in dir.definitions then Decision(false, UnknownPermission)
    else if !actor.authenticated || actor.subject.None? then Decision(false, Unauthenticated)
    else if dir.definitions[code] == Platform then
      if code in BootstrapPermissions(dir, actor.bootstrapRoles, Platform)
         || code in PlatformPermissions(dir, s, Principal(actor.kind, actor.subject.value))
      then Decision(true, Granted)
      else Decision(false, PermissionMissing)
    else if tenant.None? then Decision(false, TenantContextMissing)
    else CheckTenant(dir, s, actor, code, tenant.value)
  }

  function Effective(dir: Directory, s: State, actor: Actor, tenant: Option<TenantId>): set<Code> {
    set code | code in dir.definitions && Check(dir, s, actor, code, tenant).allowed
  }

  /** `_authorize_assignment`. */
  predicate MayAssign(dir: Directory, s: State, actor: Actor, tenant: Option<TenantId>) {
    if tenant.None? then Check(dir, s, actor, PLATFORM_ACCESS_MANAGE, None).allowed
    else Check(dir, s, actor, TENANT_MEMBERS_MANAGE, tenant).allowed || Check(dir, s, actor, TENANT_ACCESS_MANAGE, None).allowed
  }

  datatype Event =
    | Mutate(actor: Actor, kind: Option<PrincipalType>, id: string, role: string, tenant: Option<TenantId>, grant: bool, auditFails: bool)
    | AddMembership(user: UserId, memberTenant: TenantId)
    | SetEnabled(user: UserId, memberTenant: TenantId, enabled: bool)

  function StatusFor(grant: bool): RoleStatus {
    if grant then RoleActive else RoleRevoked
  }

  /** The assignment row of a key: revoking what was never assigned, or what is revoked already, changes nothing. */
  function Assigned<K>(rows: map<K, RoleStatus>, key: K, grant: bool): (map<K, RoleStatus>, bool) {
    if key !in rows then if grant then (rows[key := RoleActive], true) else (rows, false)
    else if rows[key] == StatusFor(grant) then (rows, false)
    else (rows[key := StatusFor(grant)], true)
  }

  /** `_write_assignment` in a tenant: `None` when the membership is not active. */
  function WriteInTenant(s: State, p: Principal, role: RoleCode, tenant: TenantId, grant: bool): Option<(State, bool)> {
    if (tenant, p) !in s.memberships then
      if !grant then Some((s, false))
      else
        var m := Membership(s.nextMembership, MembershipActive, None);
        var (rows, changed) := Assigned(s.tenantRoles, (m.id, role), true);
        Some((s.(memberships := s.memberships[(tenant, p) := m], nextMembership := s.nextMembership + 1, tenantRoles := rows), changed))
    else if s.memberships[(tenant, p)].status != MembershipActive then None
    else
      var (rows, changed) := Assigned(s.tenantRoles, (s.memberships[(tenant, p)].id, role), grant);
      Some((s.(tenantRoles := rows), changed))
  }

  function Write(s: State, p: Principal, role: RoleCode, tenant: Option<TenantId>, grant: bool): Option<(State, bool)> {
    if tenant.Some? then WriteInTenant(s, p, role, tenant.value, grant)
    else
      var (rows, changed) := Assigned(s.platform, (p, role), grant);
      Some((s.(platform := rows), changed))
  }

  /** The request names a stable principal, a known role, and a tenant exactly when the role is a tenant's. */
  predicate WellFormed(dir: Directory, e: Event)
    requires e.Mutate?
  {
    var role := Clean(dir, e.role);
    && e.kind.Some? && e.kind.value != Anonymous && dir.strip(e.id) != ""
    && role in dir.roles && (dir.roles[role] == InTenant <==> e.tenant.Some?)
  }

  function Target(dir: Directory, e: Event): Principal
    requires e.Mutate? && e.kind.Some?
  {
    Principal(e.kind.value, dir.strip(e.id))
  }

  /** `_mutate`. */
  function MutateStep(dir: Directory, s: State, e: Event): (State, Reply)
    requires e.Mutate?
  {
    if !WellFormed(dir, e) then (s, Invalid)
    else if !MayAssign(dir, s, e.actor, e.tenant) then (s, Denied)
    else
      var p, role := Target(dir, e), Clean(dir, e.role);
      var written := Write(s, p, role, e.tenant, e.grant);
      if written.None? then (s, Invalid)
      else if e.tenant.Some? && e.tenant.value !in dir.tenants then (s, Conflict)
      else if e.auditFails then (s, Raised)
      else
        var (t, changed) := written.value;
        (t.(audits := t.audits + [AuditRow(p, role, e.tenant, e.grant, changed)]), Succeeded(changed))
  }

  function UserPrincipal(dir: Directory, user: UserId): Principal {
    Principal(UserType, dir.show(user))
  }

  /** The membership that carries the user's id. */
  predicate HasUserMembership(dir: Directory, s: State, user: UserId, tenant: TenantId) {
    var key := (tenant, UserPrincipal(dir, user));
    key in s.memberships && s.memberships[key].userId == Some(user)
  }

  /** `add_tenant_membership`: a membership of the same principal without the user's id violates the other
      unique constraint. */
  function AddStep(dir: Directory, s: State, user: UserId, tenant: TenantId): (State, Reply) {
    if user !in dir.users || tenant !in dir.tenants then (s, Invalid)
    else if (tenant, UserPrincipal(dir, user)) in s.memberships then (s, Conflict)
    else (s.(memberships := s.memberships[(tenant, UserPrincipal(dir, user)) := Membership(s.nextMembership, MembershipActive, Some(user))],
             nextMembership := s.nextMembership + 1), Succeeded(true))
  }

  /** `set_membership_enabled`. */
  function EnableStep(dir: Directory, s: State, user: UserId, tenant: TenantId, enabled: bool): (State, Reply) {
    var key := (tenant, UserPrincipal(dir, user));
    if !HasUserMembership(dir, s, user, tenant) then (s, Invalid)
    else (s.(memberships := s.memberships[key := s.memberships[key].(status := if enabled then MembershipActive else MembershipSuspended)]),
          Succeeded(true))
  }

  function Step(dir: Directory, s: State, e: Event): (State, Reply) {
    match e
    case Mutate(_, _, _, _, _, _, _) => MutateStep(dir, s, e)
    case AddMembership(user, tenant) => AddStep(dir, s, user, tenant)
    case SetEnabled(user, tenant, enabled) => EnableStep(dir, s, user, tenant, enabled)
  }

  /** Memberships have their own ids, assignments belong to memberships, and a membership with a user id is that
      user's. */
  ghost predicate Sound(dir: Directory, s: State) {
    && (forall key :: key in s.memberships ==> s.memberships[key].id < s.nextMembership)
    && (forall k, l :: k in s.memberships && l in s.memberships && s.memberships[k].id == s.memberships[l].id ==> k == l)
    && (forall key :: key in s.tenantRoles ==> key.0 < s.nextMembership)
    && (forall key :: key in s.memberships && s.memberships[key].userId.Some? ==> key.1 == UserPrincipal(dir, s.memberships[key].userId.value))
  }

  lemma WriteKeepsSound(dir: Directory, s: State, p: Principal, role: RoleCode, tenant: Option<TenantId>, grant: bool)
    requires Sound(dir, s) && Write(s, p, role, tenant, grant).Some?
    ensures Sound(dir, Write(s, p, role, tenant, grant).value.0)
  {
    if tenant.Some? {
      WriteInTenantKeepsSound(dir, s, p, role, tenant.value, grant, WriteInTenant(s, p, role, tenant.value, grant).value.0);
    }
  }

  lemma WriteInTenantKeepsSound(dir: Directory, s: State, p: Principal, role: RoleCode, tenant: TenantId, grant: bool, t: State)
    requires Sound(dir, s) && WriteInTenant(s, p, role, tenant, grant).Some? && t == WriteInTenant(s, p, role, tenant, grant).value.0
    ensures Sound(dir, t)
  {
    if t != s && (tenant, p) !in s.memberships {
      var m := Membership(s.nextMembership, MembershipActive, None);
      assert t.memberships == s.memberships[(tenant, p) := m];
      assert t.tenantRoles == s.tenantRoles[(m.id, role) := RoleActive];
    }
  }

  lemma StepKeepsSound(dir: Directory, s: State, e: Event)
    requires Sound(dir, s)
    ensures Sound(dir, Step(dir, s, e).0)
  {
    if e.Mutate? {
      MutateKeepsSound(dir, s, e);
    }
  }

  lemma MutateKeepsSound(dir: Directory, s: State, e: Event)
    requires Sound(dir, s) && e.Mutate?
    ensures Sound(dir, MutateStep(dir, s, e).0)
  {
    if MutateStep(dir, s, e).1.Succeeded? {
      WriteKeepsSound(dir, s, Target(dir, e), Clean(dir, e.role), e.tenant, e.grant);
    } else {
      FailureChangesNothing(dir, s, e);
    }
  }

  /** A failed mutation changes nothing. */
  lemma FailureChangesNothing(dir: Directory, s: State, e: Event)
    ensures !Step(dir, s, e).1.Succeeded? ==> Step(dir, s, e).0 == s
  {
  }

  /** A role of a principal, on the platform or in one tenant. */
  datatype Key = Key(p: Principal, role: RoleCode, tenant: Option<TenantId>)

  predicate Holds(s: State, key: Key) {
    if key.tenant.Some? then HoldsInTenant(s, key.p, key.role, key.tenant.value) else HoldsPlatform(s, key.p, key.role)
  }

  predicate Mutates(dir: Directory, e: Event, r: Reply, key: Key) {
    e.Mutate? && r.Succeeded? && e.kind.Some? && key == Key(Target(dir, e), Clean(dir, e.role), e.tenant)
  }

  lemma WriteDecides(dir: Directory, s: State, p: Principal, role: RoleCode, tenant: Option<TenantId>, grant: bool, key: Key)
    requires Sound(dir, s) && Write(s, p, role, tenant, grant).Some?
    ensures Holds(Write(s, p, role, tenant, grant).value.0, key) <==> if key == Key(p, role, tenant) then grant else Holds(s, key)
  {
    if tenant.Some? && key.tenant.Some? {
      WriteDecidesInTenant(dir, s, p, role, tenant.value, grant, key.p, key.role, key.tenant.value);
    }
  }

  lemma WriteDecidesInTenant(dir: Directory, s: State, p: Principal, role: RoleCode, tenant: TenantId, grant: bool,
                             q: Principal, other: RoleCode, place: TenantId)
    requires Sound(dir, s) && WriteInTenant(s, p, role, tenant, grant).Some?
    ensures HoldsInTenant(WriteInTenant(s, p, role, tenant, grant).value.0, q, other, place)
            <==> if (q, other, place) == (p, role, tenant) then grant else HoldsInTenant(s, q, other, place)
  {
  }

  /** One event decides a role exactly when it is a successful mutation of that role. */
  lemma StepDecides(dir: Directory, s: State, e: Event, key: Key)
    requires Sound(dir, s)
    ensures var (t, r) := Step(dir, s, e); Holds(t, key) <==> if Mutates(dir, e, r, key) then e.grant else Holds(s, key)
  {
    if e.Mutate? {
      MutationDecides(dir, s, e, key);
    }
  }

  lemma MutationDecides(dir: Directory, s: State, e: Event, key: Key)
    requires Sound(dir, s) && e.Mutate?
    ensures var (t, r) := MutateStep(dir, s, e); Holds(t, key) <==> if Mutates(dir, e, r, key) then e.grant else Holds(s, key)
  {
    var (t, r) := MutateStep(dir, s, e);
    if r.Succeeded? {
      var p, role := Target(dir, e), Clean(dir, e.role);
      WriteDecides(dir, s, p, role, e.tenant, e.grant, key);
      AuditsDoNotMatter(Write(s, p, role, e.tenant, e.grant).value.0, t.audits, key);
    }
  }

  lemma AuditsDoNotMatter(s: State, audits: seq<AuditRow>, key: Key)
    ensures Holds(s.(audits := audits), key) <==> Holds(s, key)
  {
  }

  ghost predicate IsRun(dir: Directory, states: seq<State>, events: seq<Event>, replies: seq<Reply>) {
    && |states| == |events| + 1 == |replies| + 1 && states[0] == EMPTY
    && forall k: nat :: k < |events| ==> (states[k + 1], replies[k]) == Step(dir, states[k], events[k])
  }

  /** The last successful mutation of the role, if there was one, assigned it. */
  ghost predicate LastAssigned(dir: Directory, events: seq<Event>, replies: seq<Reply>, key: Key)
    requires |events| == |replies|
  {
    exists i: nat :: i < |events| && Mutates(dir, events[i], replies[i], key) && events[i].grant
                     && forall j: nat :: i < j < |events| ==> !Mutates(dir, events[j], replies[j], key)
  }

  lemma LastAssignedOneMore(dir: Directory, events: seq<Event>, replies: seq<Reply>, e: Event, r: Reply, key: Key)
    requires |events| == |replies|
    ensures LastAssigned(dir, events + [e], replies + [r], key)
            <==> if Mutates(dir, e, r, key) then e.grant else LastAssigned(dir, events, replies, key)
  {
    var n, es, rs := |events|, events + [e], replies + [r];
    assert es[n] == e && rs[n] == r;
    assert forall i: nat :: i < n ==> es[i] == events[i] && rs[i] == replies[i];
  }

  lemma {:induction false} RunIsSound(dir: Directory, states: seq<State>, events: seq<Event>, replies: seq<Reply>, k: nat)
    requires IsRun(dir, states, events, replies) && k < |states|
    ensures Sound(dir, states[k])
  {
    if k > 0 {
      RunIsSound(dir, states, events, replies, k - 1);
      StepKeepsSound(dir, states[k - 1], events[k - 1]);
      assert (states[k - 1 + 1], replies[k - 1]) == Step(dir, states[k - 1], events[k - 1]);
    }
  }

  /** After any run a principal holds a role exactly when its last successful mutation was an assignment. */
  lemma {:induction false} HeldRolesFollowHistory(dir: Directory, states: seq<State>, events: seq<Event>, replies: seq<Reply>, k: nat, key: Key)
    requires IsRun(dir, states, events, replies) && k < |states|
    ensures Holds(states[k], key) <==> LastAssigned(dir, events[..k], replies[..k], key)
  {
    if k > 0 {
      HeldRolesFollowHistory(dir, states, events, replies, k - 1, key);
      RunIsSound(dir, states, events, replies, k - 1);
      assert (states[k - 1 + 1], replies[k - 1]) == Step(dir, states[k - 1], events[k - 1]);
      StepDecides(dir, states[k - 1], events[k - 1], key);
      LastAssignedOneMore(dir, events[..k - 1], replies[..k - 1], events[k - 1], replies[k - 1], key);
      assert events[..k] == events[..k - 1] + [events[k - 1]] && replies[..k] == replies[..k - 1] + [replies[k - 1]];
    }
  }

  /** Some role of this scope carries the permission and was last assigned. */
  ghost predicate Earned(dir: Directory, events: seq<Event>, replies: seq<Reply>, p: Principal, code: Code, tenant: Option<TenantId>)
    requires |events| == |replies|
  {
    exists role :: Grants(dir, role, code, if tenant.Some? then InTenant else Platform) && LastAssigned(dir, events, replies, Key(p, role, tenant))
  }

  /** The session is not bound to another tenant or membership, and the membership is active. */
  predicate ActsInTenant(s: State, actor: Actor, p: Principal, tenant: TenantId) {
    && !BoundElsewhere(actor, tenant) && IsActiveMember(s, p, tenant)
    && (actor.membershipId.Some? ==> s.memberships[(tenant, p)].id == actor.membershipId.value)
  }

  lemma PlatformIsHeld(dir: Directory, s: State, p: Principal, code: Code)
    ensures code in PlatformPermissions(dir, s, p) <==> exists role :: Grants(dir, role, code, Platform) && Holds(s, Key(p, role, None))
  {
    if role :| Grants(dir, role, code, Platform) && Holds(s, Key(p, role, None)) {
      assert role in dir.roles && HoldsPlatform(s, p, role);
    }
    if code in PlatformPermissions(dir, s, p) {
      var role :| role in dir.roles && Grants(dir, role, code, Platform) && HoldsPlatform(s, p, role);
      assert Holds(s, Key(p, role, None));
    }
  }

  lemma TenantIsHeld(dir: Directory, s: State, p: Principal, code: Code, tenant: TenantId)
    ensures code in PermissionsInTenant(dir, s, p, tenant)
            <==> exists role :: Grants(dir, role, code, InTenant) && Holds(s, Key(p, role, Some(tenant)))
  {
    if role :| Grants(dir, role, code, InTenant) && Holds(s, Key(p, role, Some(tenant))) {
      assert role in dir.roles && HoldsInTenant(s, p, role, tenant);
    }
    if code in PermissionsInTenant(dir, s, p, tenant) {
      var role :| role in dir.roles && Grants(dir, role, code, InTenant) && HoldsInTenant(s, p, role, tenant);
      assert Holds(s, Key(p, role, Some(tenant)));
    }
  }

  lemma EarnedIsHeld(dir: Directory, states: seq<State>, events: seq<Event>, replies: seq<Reply>, k: nat, p: Principal, code: Code,
                     tenant: Option<TenantId>)
    requires IsRun(dir, states, events, replies) && k < |states|
    ensures Earned(dir, events[..k], replies[..k], p, code, tenant)
            <==> exists role :: Grants(dir, role, code, if tenant.Some? then InTenant else Platform) && Holds(states[k], Key(p, role, tenant))
  {
    forall role
      ensures Holds(states[k], Key(p, role, tenant)) <==> LastAssigned(dir, events[..k], replies[..k], Key(p, role, tenant))
    {
      HeldRolesFollowHistory(dir, states, events, replies, k, Key(p, role, tenant));
    }
  }

  /** After any run, the effective permissions of an actor are exactly: the catalogued platform permissions that a
      bootstrap role or an assigned platform role gives, and the catalogued tenant permissions that a role assigned
      in that tenant gives, while the membership is active and the session is bound nowhere else. */
  lemma EffectiveFollowsHistory(dir: Directory, states: seq<State>, events: seq<Event>, replies: seq<Reply>, k: nat, actor: Actor,
                                tenant: Option<TenantId>, code: Code)
    requires ValidDirectory(dir) && IsRun(dir, states, events, replies) && k < |states| && code in dir.definitions
    ensures code in Effective(dir, states[k], actor, tenant) <==>
              && actor.authenticated && actor.subject.Some?
              && var p := Principal(actor.kind, actor.subject.value);
                 if dir.definitions[code] == Platform then
                   code in BootstrapPermissions(dir, actor.bootstrapRoles, Platform) || Earned(dir, events[..k], replies[..k], p, code, None)
                 else
                   tenant.Some? && ActsInTenant(states[k], actor, p, tenant.value) && Earned(dir, events[..k], replies[..k], p, code, tenant)
  {
    assert Clean(dir, code) == code;
    if actor.authenticated && actor.subject.Some? {
      var p := Principal(actor.kind, actor.subject.value);
      if dir.definitions[code] == Platform {
        PlatformIsHeld(dir, states[k], p, code);
        EarnedIsHeld(dir, states, events, replies, k, p, code, None);
      } else if tenant.Some? {
        TenantIsHeld(dir, states[k], p, code, tenant.value);
        EarnedIsHeld(dir, states, events, replies, k, p, code, tenant);
      }
    }
  }

  /** The scopes the catalogue gives to the permissions that manage roles. */
  predicate ManagesAccess(dir: Directory) {
    && PLATFORM_ACCESS_MANAGE in dir.definitions && dir.definitions[PLATFORM_ACCESS_MANAGE] == Platform
    && TENANT_ACCESS_MANAGE in dir.definitions && dir.definitions[TENANT_ACCESS_MANAGE] == Platform
    && TENANT_MEMBERS_MANAGE in dir.definitions && dir.definitions[TENANT_MEMBERS_MANAGE] == InTenant
  }

  predicate Identified(actor: Actor) {
    actor.authenticated && actor.subject.Some?
  }

  /** The actor has the platform permission from a bootstrap role, or from a platform role last assigned. */
  ghost predicate HasOnPlatform(dir: Directory, events: seq<Event>, replies: seq<Reply>, actor: Actor, code: Code)
    requires |events| == |replies| && Identified(actor)
  {
    || code in BootstrapPermissions(dir, actor.bootstrapRoles, Platform)
    || Earned(dir, events, replies, Principal(actor.kind, actor.subject.value), code, None)
  }

  /** After any run, an actor may assign and revoke platform roles exactly with platform access management, and the
      roles of a tenant exactly with tenant access management on the platform, or with members management from a role
      last assigned in that tenant, while its membership is active and its session bound nowhere else. */
  lemma AssignersExactly(dir: Directory, states: seq<State>, events: seq<Event>, replies: seq<Reply>, k: nat, actor: Actor, tenant: Option<TenantId>)
    requires ValidDirectory(dir) && ManagesAccess(dir) && IsRun(dir, states, events, replies) && k < |states|
    ensures MayAssign(dir, states[k], actor, tenant) <==>
              && Identified(actor)
              && if tenant.None? then HasOnPlatform(dir, events[..k], replies[..k], actor, PLATFORM_ACCESS_MANAGE)
                 else
                   var p := Principal(actor.kind, actor.subject.value);
                   || HasOnPlatform(dir, events[..k], replies[..k], actor, TENANT_ACCESS_MANAGE)
                   || (ActsInTenant(states[k], actor, p, tenant.value) && Earned(dir, events[..k], replies[..k], p, TENANT_MEMBERS_MANAGE, tenant))
  {
    if tenant.None? {
      AllowedIsEffective(dir, states[k], actor, PLATFORM_ACCESS_MANAGE, None);
      EffectiveFollowsHistory(dir, states, events, replies, k, actor, None, PLATFORM_ACCESS_MANAGE);
    } else {
      AllowedIsEffective(dir, states[k], actor, TENANT_MEMBERS_MANAGE, tenant);
      AllowedIsEffective(dir, states[k], actor, TENANT_ACCESS_MANAGE, None);
      EffectiveFollowsHistory(dir, states, events, replies, k, actor, tenant, TENANT_MEMBERS_MANAGE);
      EffectiveFollowsHistory(dir, states, events, replies, k, actor, None, TENANT_ACCESS_MANAGE);
    }
  }

  lemma AllowedIsEffective(dir: Directory, s: State, actor: Actor, code: Code, tenant: Option<TenantId>)
    requires code in dir.definitions
    ensures code in Effective(dir, s, actor, tenant) <==> Check(dir, s, actor, code, tenant).allowed
  {
  }

  /** The actor brings a management permission that no assignment gave it. */
  predicate Bootstraps(dir: Directory, actor: Actor) {
    && Identified(actor)
    && (|| PLATFORM_ACCESS_MANAGE in BootstrapPermissions(dir, actor.bootstrapRoles, Platform)
        || TENANT_ACCESS_MANAGE in BootstrapPermissions(dir, actor.bootstrapRoles, Platform))
  }

  lemma AssignedAt(dir: Directory, events: seq<Event>, replies: seq<Reply>, key: Key) returns (i: nat)
    requires |events| == |replies| && LastAssigned(dir, events, replies, key)
    ensures i < |events| && Mutates(dir, events[i], replies[i], key)
  {
    i :| i < |events| && Mutates(dir, events[i], replies[i], key) && events[i].grant
         && forall j: nat :: i < j < |events| ==> !Mutates(dir, events[j], replies[j], key);
  }

  lemma EarnedFromEarlier(dir: Directory, events: seq<Event>, replies: seq<Reply>, k: nat, p: Principal, code: Code, tenant: Option<TenantId>) returns (i: nat)
    requires k <= |events| == |replies| && Earned(dir, events[..k], replies[..k], p, code, tenant)
    ensures i < k && events[i].Mutate? && replies[i].Succeeded?
  {
    var before, answers := events[..k], replies[..k];
    var role :| LastAssigned(dir, before, answers, Key(p, role, tenant));
    i := AssignedAt(dir, before, answers, Key(p, role, tenant));
  }

  /** Authority comes from nowhere else: before any role is assigned or revoked, an actor with a bootstrap role has
      done so. In a run without such actors every mutation fails. */
  lemma {:induction false} AuthorityHasRoot(dir: Directory, states: seq<State>, events: seq<Event>, replies: seq<Reply>, k: nat) returns (i: nat)
    requires ValidDirectory(dir) && ManagesAccess(dir) && IsRun(dir, states, events, replies)
    requires k < |events| && events[k].Mutate? && replies[k].Succeeded?
    ensures i <= k && events[i].Mutate? && replies[i].Succeeded? && Bootstraps(dir, events[i].actor)
    decreases k
  {
    assert (states[k + 1], replies[k]) == Step(dir, states[k], events[k]);
    var actor, tenant := events[k].actor, events[k].tenant;
    AssignersExactly(dir, states, events, replies, k, actor, tenant);
    if Bootstraps(dir, actor) {
      return k;
    }
    var p := Principal(actor.kind, actor.subject.value);
    var code := if tenant.None? then PLATFORM_ACCESS_MANAGE else TENANT_ACCESS_MANAGE;
    var j;
    if Earned(dir, events[..k], replies[..k], p, code, None) {
      j := EarnedFromEarlier(dir, events, replies, k, p, code, None);
    } else {
      j := EarnedFromEarlier(dir, events, replies, k, p, TENANT_MEMBERS_MANAGE, tenant);
    }
    i := AuthorityHasRoot(dir, states, events, replies, j);
  }

  ghost predicate SuspendedIn(s: State, p: Principal, tenant: TenantId) {
    (tenant, p) in s.memberships && s.memberships[(tenant, p)].status == MembershipSuspended
  }

  /** While a membership is suspended none of its roles can be assigned or revoked. */
  lemma SuspensionFreezesRoles(dir: Directory, s: State, e: Event, p: Principal, role: RoleCode, tenant: TenantId)
    requires Sound(dir, s) && SuspendedIn(s, p, tenant)
    ensures HoldsInTenant(Step(dir, s, e).0, p, role, tenant) <==> HoldsInTenant(s, p, role, tenant)
    ensures (tenant, p) in Step(dir, s, e).0.memberships && Step(dir, s, e).0.memberships[(tenant, p)].id == s.memberships[(tenant, p)].id
  {
    var key := Key(p, role, Some(tenant));
    StepDecides(dir, s, e, key);
    assert !Mutates(dir, e, Step(dir, s, e).1, key);
    MembershipsKeepIds(dir, s, e, p, tenant);
  }

  lemma MembershipsKeepIds(dir: Directory, s: State, e: Event, p: Principal, tenant: TenantId)
    requires (tenant, p) in s.memberships
    ensures var t := Step(dir, s, e).0; (tenant, p) in t.memberships && t.memberships[(tenant, p)].id == s.memberships[(tenant, p)].id
  {
  }

  lemma RolesSurviveStep(dir: Directory, states: seq<State>, events: seq<Event>, replies: seq<Reply>, k: nat, p: Principal, tenant: TenantId, role: RoleCode)
    requires IsRun(dir, states, events, replies) && k < |events| && SuspendedIn(states[k], p, tenant)
    ensures HoldsInTenant(states[k + 1], p, role, tenant) <==> HoldsInTenant(states[k], p, role, tenant)
    ensures (tenant, p) in states[k + 1].memberships && states[k + 1].memberships[(tenant, p)].id == states[k].memberships[(tenant, p)].id
  {
    RunIsSound(dir, states, events, replies, k);
    assert (states[k + 1], replies[k]) == Step(dir, states[k], events[k]);
    SuspensionFreezesRoles(dir, states[k], events[k], p, role, tenant);
  }

  lemma {:induction false} RolesSurviveSuspension(dir: Directory, states: seq<State>, events: seq<Event>, replies: seq<Reply>, i: nat, j: nat,
                                                  p: Principal, tenant: TenantId, role: RoleCode)
    requires IsRun(dir, states, events, replies) && i <= j < |states|
    requires forall k :: i <= k < j ==> SuspendedIn(states[k], p, tenant)
    requires (tenant, p) in states[i].memberships
    ensures HoldsInTenant(states[j], p, role, tenant) <==> HoldsInTenant(states[i], p, role, tenant)
    ensures (tenant, p) in states[j].memberships && states[j].memberships[(tenant, p)].id == states[i].memberships[(tenant, p)].id
    decreases j
  {
    if i < j {
      RolesSurviveSuspension(dir, states, events, replies, i, j - 1, p, tenant, role);
      RolesSurviveStep(dir, states, events, replies, j - 1, p, tenant, role);
    }
  }

  /** Suspend and enable: whatever happens in between, the enabled membership has the permissions it had when it
      was suspended. */
  lemma EnablingRestores(dir: Directory, states: seq<State>, events: seq<Event>, replies: seq<Reply>, i: nat, j: nat, user: UserId, tenant: TenantId)
    requires IsRun(dir, states, events, replies) && i < j < |events|
    requires events[i] == SetEnabled(user, tenant, false) && replies[i].Succeeded? && IsActiveMember(states[i], UserPrincipal(dir, user), tenant)
    requires events[j] == SetEnabled(user, tenant, true) && replies[j].Succeeded?
    requires forall k :: i < k <= j ==> SuspendedIn(states[k], UserPrincipal(dir, user), tenant)
    ensures var p := UserPrincipal(dir, user);
            && TenantPermissions(dir, states[j + 1], p, tenant) == TenantPermissions(dir, states[i], p, tenant)
            && TenantPermissions(dir, states[j], p, tenant).0 == {}
  {
    var p := UserPrincipal(dir, user);
    assert (states[i + 1], replies[i]) == Step(dir, states[i], events[i]) && (states[j + 1], replies[j]) == Step(dir, states[j], events[j]);
    forall role
      ensures HoldsInTenant(states[j + 1], p, role, tenant) <==> HoldsInTenant(states[i], p, role, tenant)
    {
      RolesSurviveSuspension(dir, states, events, replies, i + 1, j, p, tenant, role);
    }
    RolesSurviveSuspension(dir, states, events, replies, i + 1, j, p, tenant, "");
    assert PermissionsInTenant(dir, states[j + 1], p, tenant) == PermissionsInTenant(dir, states[i], p, tenant);
  }

  /** The event adds the user to the tenant. */
  predicate Adds(e: Event, r: Reply, user: UserId, tenant: TenantId) {
    e == AddMembership(user, tenant) && r.Succeeded?
  }

  /** The event assigns a role of the tenant to the principal. */
  predicate GrantsIn(dir: Directory, e: Event, r: Reply, p: Principal, tenant: TenantId) {
    e.Mutate? && r.Succeeded? && e.kind.Some? && e.grant && Target(dir, e) == p && e.tenant == Some(tenant)
  }

  predicate AddedBefore(events: seq<Event>, replies: seq<Reply>, k: nat, user: UserId, tenant: TenantId)
    requires k <= |events| == |replies|
  {
    exists i: nat | i < k :: Adds(events[i], replies[i], user, tenant)
  }

  predicate GrantedBefore(dir: Directory, events: seq<Event>, replies: seq<Reply>, k: nat, p: Principal, tenant: TenantId)
    requires k <= |events| == |replies|
  {
    exists i: nat | i < k :: GrantsIn(dir, events[i], replies[i], p, tenant)
  }

  lemma StepMakesMember(dir: Directory, s: State, e: Event, user: UserId, tenant: TenantId)
    requires ValidDirectory(dir) && Sound(dir, s)
    ensures var (t, r) := Step(dir, s, e);
            var p := UserPrincipal(dir, user);
            && ((tenant, p) in t.memberships <==> (tenant, p) in s.memberships || Adds(e, r, user, tenant) || GrantsIn(dir, e, r, p, tenant))
            && (HasUserMembership(dir, t, user, tenant) <==> HasUserMembership(dir, s, user, tenant) || Adds(e, r, user, tenant))
  {
  }

  /** A user's membership exists once the user was added or given a role there, and is linked to the user exactly
      when it was added. */
  lemma {:induction false} MembershipFollowsHistory(dir: Directory, states: seq<State>, events: seq<Event>, replies: seq<Reply>, k: nat, user: UserId, tenant: TenantId)
    requires ValidDirectory(dir) && IsRun(dir, states, events, replies) && k < |states|
    ensures var p := UserPrincipal(dir, user);
            && ((tenant, p) in states[k].memberships <==> AddedBefore(events, replies, k, user, tenant) || GrantedBefore(dir, events, replies, k, p, tenant))
            && (HasUserMembership(dir, states[k], user, tenant) <==> AddedBefore(events, replies, k, user, tenant))
  {
    if k > 0 {
      MembershipFollowsHistory(dir, states, events, replies, k - 1, user, tenant);
      RunIsSound(dir, states, events, replies, k - 1);
      assert (states[k - 1 + 1], replies[k - 1]) == Step(dir, states[k - 1], events[k - 1]);
      StepMakesMember(dir, states[k - 1], events[k - 1], user, tenant);
    }
  }

  /** After any run a user's membership can be suspended and enabled exactly when the user was added to the tenant,
      and the user can be added exactly when neither that nor a role assignment there came before. So a role assigned
      first puts the membership out of reach for good. */
  lemma MembershipInReachExactly(dir: Directory, states: seq<State>, events: seq<Event>, replies: seq<Reply>, k: nat, user: UserId, tenant: TenantId, enabled: bool)
    requires ValidDirectory(dir) && IsRun(dir, states, events, replies) && k < |states|
    ensures EnableStep(dir, states[k], user, tenant, enabled).1.Succeeded? <==> AddedBefore(events, replies, k, user, tenant)
    ensures AddStep(dir, states[k], user, tenant).1.Succeeded?
            <==> user in dir.users && tenant in dir.tenants && !AddedBefore(events, replies, k, user, tenant)
                 && !GrantedBefore(dir, events, replies, k, UserPrincipal(dir, user), tenant)
  {
    MembershipFollowsHistory(dir, states, events, replies, k, user, tenant);
  }

  /** The status of a membership as the successful events tell it: adding the user or granting a first role makes it
      active, and only enabling and disabling change it. */
  function StandingAfter(dir: Directory, before: Option<MembershipStatus>, e: Event, r: Reply, p: Principal, tenant: TenantId): Option<MembershipStatus> {
    if !r.Succeeded? then before
    else match e
      case AddMembership(user, place) => if place == tenant && UserPrincipal(dir, user) == p then Some(MembershipActive) else before
      case SetEnabled(user, place, enabled) =>
        if place == tenant && UserPrincipal(dir, user) == p then Some(if enabled then MembershipActive else MembershipSuspended) else before
      case Mutate(_, kind, id, _, place, grant, _) =>
        if grant && place == Some(tenant) && kind.Some? && Principal(kind.value, dir.strip(id)) == p && before.None? then Some(MembershipActive) else before
  }

  function StandingAt(dir: Directory, events: seq<Event>, replies: seq<Reply>, k: nat, p: Principal, tenant: TenantId): Option<MembershipStatus>
    requires k <= |events| == |replies|
  {
    if k == 0 then None
    else StandingAfter(dir, StandingAt(dir, events, replies, k - 1, p, tenant), events[k - 1], replies[k - 1], p, tenant)
  }

  function StatusOf(s: State, p: Principal, tenant: TenantId): Option<MembershipStatus> {
    if (tenant, p) in s.memberships then Some(s.memberships[(tenant, p)].status) else None
  }

  lemma StepSetsStanding(dir: Directory, s: State, e: Event, p: Principal, tenant: TenantId)
    requires ValidDirectory(dir)
    ensures var (t, r) := Step(dir, s, e); StatusOf(t, p, tenant) == StandingAfter(dir, StatusOf(s, p, tenant), e, r, p, tenant)
  {
  }

  /** In every run a membership exists, is active or is suspended exactly as its history says. */
  lemma {:induction false} StandingFollowsHistory(dir: Directory, states: seq<State>, events: seq<Event>, replies: seq<Reply>, k: nat, p: Principal, tenant: TenantId)
    requires ValidDirectory(dir) && IsRun(dir, states, events, replies) && k < |states|
    ensures StandingAt(dir, events, replies, k, p, tenant)
            == if (tenant, p) in states[k].memberships then Some(states[k].memberships[(tenant, p)].status) else None
  {
    if k > 0 {
      StandingFollowsHistory(dir, states, events, replies, k - 1, p, tenant);
      assert (states[k - 1 + 1], replies[k - 1]) == Step(dir, states[k - 1], events[k - 1]);
      StepSetsStanding(dir, states[k - 1], events[k - 1], p, tenant);
    }
  }

  lemma WriteChanges(s: State, p: Principal, role: RoleCode, tenant: Option<TenantId>, grant: bool)
    requires forall key :: key in s.tenantRoles ==> key.0 < s.nextMembership
    ensures Write(s, p, role, tenant, grant).Some? <==> tenant.None? || !SuspendedIn(s, p, tenant.value)
    ensures Write(s, p, role, tenant, grant).Some? ==> Write(s, p, role, tenant, grant).value.1 == (Holds(s, Key(p, role, tenant)) != grant)
  {
  }

  /** In every run a role is assigned or revoked exactly when the request names a stable principal and a known role of
      the right scope, the actor may do so, the tenant exists and the membership is not suspended, and the audit row
      can be written; it reports a change exactly when the role was not as asked before. */
  lemma MutationSucceedsExactly(dir: Directory, states: seq<State>, events: seq<Event>, replies: seq<Reply>, k: nat, actor: Actor,
                                kind: Option<PrincipalType>, id: string, role: string, tenant: Option<TenantId>, grant: bool, auditFails: bool)
    requires ValidDirectory(dir) && IsRun(dir, states, events, replies) && k < |states|
    ensures var code := dir.lower(dir.strip(role));
            var r := Step(dir, states[k], Mutate(actor, kind, id, role, tenant, grant, auditFails)).1;
            && (r.Succeeded? <==>
                  && kind.Some? && kind.value != Anonymous && dir.strip(id) != ""
                  && code in dir.roles && (dir.roles[code] == InTenant <==> tenant.Some?)
                  && MayAssign(dir, states[k], actor, tenant) && !auditFails
                  && (tenant.Some? ==>
                        tenant.value in dir.tenants
                        && StandingAt(dir, events, replies, k, Principal(kind.value, dir.strip(id)), tenant.value) != Some(MembershipSuspended)))
            && (r.Succeeded? ==>
                  r.changed == (LastAssigned(dir, events[..k], replies[..k], Key(Principal(kind.value, dir.strip(id)), code, tenant)) != grant))
  {
    var code := Clean(dir, role);
    if kind.Some? {
      var p := Principal(kind.value, dir.strip(id));
      RunIsSound(dir, states, events, replies, k);
      WriteChanges(states[k], p, code, tenant, grant);
      HeldRolesFollowHistory(dir, states, events, replies, k, Key(p, code, tenant));
      if tenant.Some? {
        StandingFollowsHistory(dir, states, events, replies, k, p, tenant.value);
      }
    }
  }

  /** The audit row of a successful mutation: what was asked for, and whether it changed anything. */
  function AuditsAt(dir: Directory, events: seq<Event>, replies: seq<Reply>, k: nat): seq<AuditRow>
    requires k <= |events| == |replies|
  {
    if k == 0 then []
    else
      var before, e, r := AuditsAt(dir, events, replies, k - 1), events[k - 1], replies[k - 1];
      if e.Mutate? && r.Succeeded? && e.kind.Some? then
        before + [AuditRow(Principal(e.kind.value, dir.strip(e.id)), dir.lower(dir.strip(e.role)), e.tenant, e.grant, r.changed)]
      else before
  }

  lemma StepAudits(dir: Directory, s: State, e: Event)
    ensures var (t, r) := Step(dir, s, e);
            t.audits == if e.Mutate? && r.Succeeded? && e.kind.Some? then
                          s.audits + [AuditRow(Principal(e.kind.value, dir.strip(e.id)), dir.lower(dir.strip(e.role)), e.tenant, e.grant, r.changed)]
                        else s.audits
  {
  }

  /** In every run the audit rows are those of the successful mutations, in order. */
  lemma {:induction false} AuditsFollowHistory(dir: Directory, states: seq<State>, events: seq<Event>, replies: seq<Reply>, k: nat)
    requires IsRun(dir, states, events, replies) && k < |states|
    ensures states[k].audits == AuditsAt(dir, events, replies, k)
  {
    if k > 0 {
      AuditsFollowHistory(dir, states, events, replies, k - 1);
      assert (states[k - 1 + 1], replies[k - 1]) == Step(dir, states[k - 1], events[k - 1]);
      StepAudits(dir, states[k - 1], events[k - 1]);
    }
  }

  lemma {:induction false} BootstrapExactly(dir: Directory, roles: seq<RoleCode>, scope: Scope, code: Code)
    ensures code in BootstrapPermissions(dir, roles, scope)
            <==> exists role :: role in roles && role in dir.bootstrap && dir.bootstrap[role].scope == scope && code in dir.bootstrap[role].codes
  {
    if roles != [] {
      BootstrapExactly(dir, roles[..|roles| - 1], scope, code);
      assert forall role :: role in roles <==> role in roles[..|roles| - 1] || role == roles[|roles| - 1];
    }
  }

  /** What gives a permission, down to the rows: on the platform a bootstrap role or an active assignment of a role that
      carries it, in a tenant such an assignment of an active membership of a session bound nowhere else. */
  lemma EffectiveExactly(dir: Directory, s: State, actor: Actor, tenant: Option<TenantId>, code: Code)
    requires ValidDirectory(dir) && code in dir.definitions
    ensures code in Effective(dir, s, actor, tenant) <==>
            && actor.authenticated && actor.subject.Some?
            && var p := Principal(actor.kind, actor.subject.value);
               if dir.definitions[code] == Platform then
                 || (exists role :: role in actor.bootstrapRoles && role in dir.bootstrap && dir.bootstrap[role].scope == Platform
                                    && code in dir.bootstrap[role].codes)
                 || (exists role :: role in dir.roles && dir.roles[role] == Platform && code in dir.permissions && dir.permissions[code] == Platform
                                    && (role, code) in dir.grants && (p, role) in s.platform && s.platform[(p, role)] == RoleActive)
               else
                 && tenant.Some? && (actor.tenantId.Some? ==> actor.tenantId == tenant) && (tenant.value, p) in s.memberships
                 && var m := s.memberships[(tenant.value, p)];
                    && m.status == MembershipActive && (actor.membershipId.Some? ==> actor.membershipId.value == m.id)
                    && exists role :: role in dir.roles && dir.roles[role] == InTenant && code in dir.permissions && dir.permissions[code] == InTenant
                                      && (role, code) in dir.grants && (m.id, role) in s.tenantRoles && s.tenantRoles[(m.id, role)] == RoleActive
  {
    assert Clean(dir, code) == code;
    if actor.authenticated && actor.subject.Some? {
      var p := Principal(actor.kind, actor.subject.value);
      if dir.definitions[code] == Platform {
        BootstrapExactly(dir, actor.bootstrapRoles, Platform, code);
        PlatformIsHeld(dir, s, p, code);
      } else if tenant.Some? {
        TenantIsHeld(dir, s, p, code, tenant.value);
      }
    }
  }

  /** Why a check refuses: the first of these that applies, in this order; and it refuses nothing else than what is
      not effective. */
  lemma RefusalsExactly(dir: Directory, s: State, actor: Actor, permission: string, tenant: Option<TenantId>)
    requires ValidDirectory(dir)
    ensures var code, d := dir.lower(dir.strip(permission)), Check(dir, s, actor, permission, tenant);
            && (d.allowed <==> d.reason == Granted) && (d.allowed <==> code in Effective(dir, s, actor, tenant))
            && (d.reason == UnknownPermission <==> code !in dir.definitions)
            && (code in dir.definitions ==>
                  && (d.reason == Unauthenticated <==> !actor.authenticated || actor.subject.None?)
                  && (actor.authenticated && actor.subject.Some? && dir.definitions[code] == Platform ==> d.reason in {Granted, PermissionMissing})
                  && (actor.authenticated && actor.subject.Some? && dir.definitions[code] == InTenant ==>
                        && (d.reason == TenantContextMissing <==> tenant.None?)
                        && (tenant.Some? ==> RefusalInTenant(s, actor, Principal(actor.kind, actor.subject.value), tenant.value, d.reason))))
  {
  }

  predicate RefusalInTenant(s: State, actor: Actor, p: Principal, tenant: TenantId, reason: Reason) {
    if (actor.tenantId.Some? && actor.tenantId.value != tenant)
       || (actor.membershipId.Some? && ((tenant, p) !in s.memberships || s.memberships[(tenant, p)].id != actor.membershipId.value))
    then reason == CrossTenantDenied
    else if (tenant, p) !in s.memberships then reason == MembershipMissing
    else if s.memberships[(tenant, p)].status == MembershipSuspended then reason == MembershipInactive
    else reason == Granted || reason == PermissionMissing
  }

  /** The shortest such run: an administrator assigns a tenant role to a known user; adding the user then is a
      conflict, and suspending the user finds nothing. */
  lemma RoleMadeMembershipIsOutOfReach(dir: Directory, actor: Actor, user: UserId, tenant: TenantId, role: string) returns (states: seq<State>, events: seq<Event>)
    requires ValidDirectory(dir) && ManagesAccess(dir) && user in dir.users && tenant in dir.tenants
    requires Identified(actor) && TENANT_ACCESS_MANAGE in BootstrapPermissions(dir, actor.bootstrapRoles, Platform)
    requires Clean(dir, role) in dir.roles && dir.roles[Clean(dir, role)] == InTenant
    requires dir.strip(dir.show(user)) == dir.show(user) && dir.show(user) != ""
    ensures events == [Mutate(actor, Some(UserType), dir.show(user), role, Some(tenant), true, false), AddMembership(user, tenant), SetEnabled(user, tenant, false)]
    ensures IsRun(dir, states, events, [Succeeded(true), Conflict, Invalid])
  {
    events := [Mutate(actor, Some(UserType), dir.show(user), role, Some(tenant), true, false), AddMembership(user, tenant), SetEnabled(user, tenant, false)];
    BootstrapMayAssign(dir, actor, tenant);
    var (s, r) := Step(dir, EMPTY, events[0]);
    assert r == Succeeded(true) && (tenant, UserPrincipal(dir, user)) in s.memberships;
    states := [EMPTY, s, s, s];
  }

  lemma BootstrapMayAssign(dir: Directory, actor: Actor, tenant: TenantId)
    requires ValidDirectory(dir) && ManagesAccess(dir)
    requires Identified(actor) && TENANT_ACCESS_MANAGE in BootstrapPermissions(dir, actor.bootstrapRoles, Platform)
    ensures MayAssign(dir, EMPTY, actor, Some(tenant))
  {
  }

  class AccessService {
    const dir: Directory
    var platform: map<(Principal, RoleCode), RoleStatus>
    var memberships: map<(TenantId, Principal), Membership>
    var tenantRoles: map<(nat, RoleCode), RoleStatus>
    var nextMembership: nat
    var audits: seq<AuditRow>

    ghost function Now(): State
      reads this
    {
      State(platform, memberships, tenantRoles, nextMembership, audits)
    }

    ghost predicate Valid()
      reads this
    {
      ValidDirectory(dir) && Sound(dir, Now())
    }

    constructor (dir: Directory)
      requires ValidDirectory(dir)
      ensures Valid() && Now() == EMPTY && this.dir == dir
    {
      this.dir := dir;
      platform, memberships, tenantRoles, nextMembership, audits := map[], map[], map[], 0, [];
    }

    method CollectBootstrap(roles: seq<RoleCode>, scope: Scope) returns (codes: set<Code>)
      ensures codes == BootstrapPermissions(dir, roles, scope)
    {
      codes := {};
      for i := 0 to |roles|
        invariant codes == BootstrapPermissions(dir, roles[..i], scope)
      {
        assert roles[..i + 1][..i] == roles[..i];
        if roles[i] in dir.bootstrap && dir.bootstrap[roles[i]].scope == scope {
          codes := codes + dir.bootstrap[roles[i]].codes;
        }
      }
      assert roles[..|roles|] == roles;
    }

    /** `check`. */
    method Decide(actor: Actor, permission: string, tenant: Option<TenantId>) returns (d: Decision)
      ensures d == Check(dir, Now(), actor, permission, tenant)
    {
      var code := Clean(dir, permission);
      if code !in dir.definitions {
        return Decision(false, UnknownPermission);
      }
      if !actor.authenticated || actor.subject.None? {
        return Decision(false, Unauthenticated);
      }
      var bootstrap := CollectBootstrap(actor.bootstrapRoles, dir.definitions[code]);
      var now := State(platform, memberships, tenantRoles, nextMembership, audits);
      if dir.definitions[code] == Platform {
        if code in bootstrap || code in PlatformPermissions(dir, now, Principal(actor.kind, actor.subject.value)) {
          return Decision(true, Granted);
        }
        return Decision(false, PermissionMissing);
      }
      if tenant.None? {
        return Decision(false, TenantContextMissing);
      }
      d := CheckTenant(dir, now, actor, code, tenant.value);
    }

    /** `effective_permissions`. */
    method EffectivePermissions(actor: Actor, tenant: Option<TenantId>) returns (codes: set<Code>)
      ensures codes == Effective(dir, Now(), actor, tenant)
    {
      codes := {};
      var rest := dir.definitions.Keys;
      while rest != {}
        invariant rest <= dir.definitions.Keys
        invariant codes == set code | code in dir.definitions.Keys - rest && Check(dir, Now(), actor, code, tenant).allowed
        decreases rest
      {
        var code :| code in rest;
        var d := Decide(actor, code, tenant);
        if d.allowed {
          codes := codes + {code};
        }
        rest := rest - {code};
      }
    }

    /** `_authorize_assignment`. */
    method Authorize(actor: Actor, tenant: Option<TenantId>) returns (ok: bool)
      ensures ok == MayAssign(dir, Now(), actor, tenant)
    {
      if tenant.None? {
        var d := Decide(actor, PLATFORM_ACCESS_MANAGE, None);
        return d.allowed;
      }
      var d := Decide(actor, TENANT_MEMBERS_MANAGE, tenant);
      if !d.allowed {
        d := Decide(actor, TENANT_ACCESS_MANAGE, None);
      }
      ok := d.allowed;
    }

    /** `_mutate`: validates, authorizes, writes, audits, and commits or rolls back. */
    method MutateRole(actor: Actor, kind: Option<PrincipalType>, id: string, role: string, tenant: Option<TenantId>, grant: bool, auditFails: bool)
      returns (r: Reply)
      requires Valid()
      modifies this
      ensures Valid() && (Now(), r) == Step(dir, old(Now()), Mutate(actor, kind, id, role, tenant, grant, auditFails))
    {
      StepKeepsSound(dir, Now(), Mutate(actor, kind, id, role, tenant, grant, auditFails));
      if kind.None? {
        return Invalid;
      }
      var target, code := dir.strip(id), Clean(dir, role);
      if target == "" || kind.value == Anonymous || code !in dir.roles || (dir.roles[code] == Platform && tenant.Some?)
         || (dir.roles[code] == InTenant && tenant.None?) {
        return Invalid;
      }
      var allowed := Authorize(actor, tenant);
      if !allowed {
        return Denied;
      }
      r := WriteAssignment(Principal(kind.value, target), code, tenant, grant, auditFails);
    }

    method WriteAssignment(p: Principal, role: RoleCode, tenant: Option<TenantId>, grant: bool, auditFails: bool) returns (r: Reply)
      modifies this
      ensures var written := Write(old(Now()), p, role, tenant, grant);
              (Now(), r) ==
              if written.None? then (old(Now()), Invalid)
              else if tenant.Some? && tenant.value !in dir.tenants then (old(Now()), Conflict)
              else if auditFails then (old(Now()), Raised)
              else (written.value.0.(audits := old(audits) + [AuditRow(p, role, tenant, grant, written.value.1)]), Succeeded(written.value.1))
    {
      var platform', memberships', tenantRoles', next' := platform, memberships, tenantRoles, nextMembership;
      var changed := false;
      if tenant.None? {
        if (p, role) in platform' {
          changed := platform'[(p, role)] != StatusFor(grant);
        } else {
          changed := grant;
        }
        if changed {
          platform' := platform'[(p, role) := StatusFor(grant)];
        }
      } else if (tenant.value, p) in memberships' || grant {
        if (tenant.value, p) !in memberships' {
          memberships' := memberships'[(tenant.value, p) := Membership(next', MembershipActive, None)];
          next' := next' + 1;
        } else if memberships'[(tenant.value, p)].status != MembershipActive {
          return Invalid;
        }
        var key := (memberships'[(tenant.value, p)].id, role);
        if key in tenantRoles' {
          changed := tenantRoles'[key] != StatusFor(grant);
        } else {
          changed := grant;
        }
        if changed {
          tenantRoles' := tenantRoles'[key := StatusFor(grant)];
        }
      }
      if tenant.Some? && tenant.value !in dir.tenants {
        return Conflict;
      }
      if auditFails {
        return Raised;
      }
      platform, memberships, tenantRoles, nextMembership := platform', memberships', tenantRoles', next';
      audits := audits + [AuditRow(p, role, tenant, grant, changed)];
      r := Succeeded(changed);
    }

    /** `add_tenant_membership`. */
    method AddTenantMembership(user: UserId, tenant: TenantId) returns (r: Reply)
      requires Valid()
      modifies this`memberships, this`nextMembership
      ensures Valid() && (Now(), r) == Step(dir, old(Now()), AddMembership(user, tenant))
    {
      StepKeepsSound(dir, Now(), AddMembership(user, tenant));
      if user !in dir.users || tenant !in dir.tenants {
        return Invalid;
      }
      var key := (tenant, UserPrincipal(dir, user));
      if key in memberships {
        return Conflict;
      }
      memberships := memberships[key := Membership(nextMembership, MembershipActive, Some(user))];
      nextMembership := nextMembership + 1;
      r := Succeeded(true);
    }

    /** `set_membership_enabled`. */
    method SetMembershipEnabled(user: UserId, tenant: TenantId, enabled: bool) returns (r: Reply)
      requires Valid()
      modifies this`memberships
      ensures Valid() && (Now(), r) == Step(dir, old(Now()), SetEnabled(user, tenant, enabled))
    {
      StepKeepsSound(dir, Now(), SetEnabled(user, tenant, enabled));
      var key := (tenant, UserPrincipal(dir, user));
      if key !in memberships || memberships[key].userId != Some(user) {
        return Invalid;
      }
      memberships := memberships[key := memberships[key].(status := if enabled then MembershipActive else MembershipSuspended)];
      r := Succeeded(true);
    }
  }
}
