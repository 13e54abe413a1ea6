/** Optimistic concurrency: clients that read a row, check its revision and then update it on condition that the
    revision is still the same, in any interleaving (app/automation/service.py 39-81, app/ai_assistant/service.py
    53-75, app/automation_rules/service.py 62-66, 91-167). */
module Revisions {
  import opened Options

  type ClientId = int
  type StoreId = int
  type TenantId = int
  type RuleId = string

  datatype Switch = Automation | Assistant

  /** The row of a store: one switch and one revision for each of the two services. */
  datatype Store = Store(tenantId: TenantId, automationEnabled: bool, automationRevision: nat, aiEnabled: bool, aiRevision: nat)

  datatype Trigger = DmKeyword | StoryReplyKeyword | CommentKeyword
  datatype Action = SendMessage | SendPrivateMessage

  /** `rest` stands for the fields that no check looks at. */
  datatype Rule = Rule(tenantId: TenantId, storeId: StoreId, trigger: Trigger, action: Action, rest: string, revision: nat)
  datatype Patch = Patch(trigger: Option<Trigger>, action: Option<Action>, rest: Option<string>)

  /** The target of an audit row. */
  datatype Stream = SwitchOf(store: StoreId, switch: Switch) | RuleOf(rule: RuleId)

  /** An audit row: the new value of a switch, and the revision that the update wrote. */
  datatype Audit = Audit(enabled: Option<bool>, revision: nat)

  /** A request as the service receives it. */
  datatype Request =
    | SetSwitch(tenant: TenantId, store: StoreId, switch: Switch, enabled: bool, expected: nat)
    | UpdateRule(tenant: TenantId, store: StoreId, rule: RuleId, patch: Patch, expected: nat)
    | CreateRule(tenant: TenantId, store: StoreId, rule: RuleId, trigger: Trigger, action: Action, rest: string, expected: nat)
    | DeleteRule(tenant: TenantId, store: StoreId, rule: RuleId, expected: nat)

  /** The tables; `audits` holds the audit rows of creations and updates by target, oldest first, and `deletions`
      those of deletions; `pending` is what each client has checked and is about to write. */
  datatype State = State(
    stores: map<StoreId, Store>, rules: map<RuleId, Rule>, audits: map<Stream, seq<Audit>>, deletions: seq<(RuleId, nat)>,
    pending: map<ClientId, Request>)

  /** `Begin` reads and checks, `Finish` writes. `capable` and `limit` are the entitlements found while reading. */
  datatype Event =
    | Begin(client: ClientId, request: Request, capable: bool, limit: Option<int>)
    | Finish(client: ClientId)

  datatype Reply = Checked | Written | NotFound | Forbidden | Stale | LimitReached | Invalid | Nothing

  function Revision(store: Store, switch: Switch): nat {
    if switch == Automation then store.automationRevision else store.aiRevision
  }

  function Enabled(store: Store, switch: Switch): bool {
    if switch == Automation then store.automationEnabled else store.aiEnabled
  }

  function Set(store: Store, switch: Switch, enabled: bool, revision: nat): Store {
    if switch == Automation then store.(automationEnabled := enabled, automationRevision := revision)
    else store.(aiEnabled := enabled, aiRevision := revision)
  }

  function Log(s: State, stream: Stream): seq<Audit> {
    if stream in s.audits then s.audits[stream] else []
  }

  function Logged(s: State, stream: Stream, row: Audit): map<Stream, seq<Audit>> {
    s.audits[stream := Log(s, stream) + [row]]
  }

  /** `_validate_combination`. */
  predicate Compatible(trigger: Trigger, action: Action) {
    action == if trigger == CommentKeyword then SendPrivateMessage else SendMessage
  }

  function Or<T>(supplied: Option<T>, current: T): T {
    if supplied.Some? then supplied.value else current
  }

  function Patched(rule: Rule, patch: Patch): Rule {
    rule.(trigger := Or(patch.trigger, rule.trigger), action := Or(patch.action, rule.action), rest := Or(patch.rest, rule.rest))
  }

  predicate OwnedStore(s: State, tenant: TenantId, store: StoreId) {
    store in s.stores && s.stores[store].tenantId == tenant
  }

  predicate OwnedRule(s: State, tenant: TenantId, store: StoreId, rule: RuleId) {
    rule in s.rules && s.rules[rule].tenantId == tenant && s.rules[rule].storeId == store
  }

  function RulesOf(s: State, tenant: TenantId, store: StoreId): set<RuleId> {
    set rule | rule in s.rules && OwnedRule(s, tenant, store, rule)
  }

  /** What a service checks before it writes. */
  function CheckRequest(s: State, r: Request, capable: bool, limit: Option<int>): Reply {
    match r
    case SetSwitch(tenant, store, switch, _, expected) =>
      if !OwnedStore(s, tenant, store) then NotFound
      else if Revision(s.stores[store], switch) != expected then Stale
      else Checked
    case UpdateRule(tenant, store, rule, patch, expected) =>
      if !capable then Forbidden
      else if !OwnedRule(s, tenant, store, rule) then NotFound
      else if s.rules[rule].revision != expected then Stale
      else if !Compatible(Patched(s.rules[rule], patch).trigger, Patched(s.rules[rule], patch).action) then Invalid
      else if patch == Patch(None, None, None) then Invalid
      else Checked
    case CreateRule(tenant, store, _, trigger, action, _, expected) =>
      if !capable then Forbidden
      else if expected != 0 then Stale
      else if limit.None? || limit.value < 0 then Forbidden
      else if |RulesOf(s, tenant, store)| >= limit.value then LimitReached
      else if !Compatible(trigger, action) then Invalid
      else Checked
    case DeleteRule(tenant, store, rule, expected) =>
      if !capable then Forbidden
      else if !OwnedRule(s, tenant, store, rule) then NotFound
      else if s.rules[rule].revision != expected then Stale
      else Checked
  }

  function BeginStep(s: State, client: ClientId, r: Request, capable: bool, limit: Option<int>): (State, Reply) {
    var reply := CheckRequest(s, r, capable, limit);
    (s.(pending := if reply == Checked then s.pending[client := r] else s.pending - {client}), reply)
  }

  /** The conditional statement matches its row; the identifier of a new rule was never used before. */
  predicate Matches(s: State, r: Request) {
    match r
    case SetSwitch(tenant, store, switch, _, expected) => OwnedStore(s, tenant, store) && Revision(s.stores[store], switch) == expected
    case UpdateRule(tenant, store, rule, _, expected) => OwnedRule(s, tenant, store, rule) && s.rules[rule].revision == expected
    case CreateRule(tenant, store, rule, _, _, _, _) => rule !in s.rules && Log(s, RuleOf(rule)) == [] && OwnedStore(s, tenant, store)
    case DeleteRule(tenant, store, rule, expected) => OwnedRule(s, tenant, store, rule) && s.rules[rule].revision == expected
  }

  function StreamOf(r: Request): Stream {
    match r
    case SetSwitch(_, store, switch, _, _) => SwitchOf(store, switch)
    case UpdateRule(_, _, rule, _, _) => RuleOf(rule)
    case CreateRule(_, _, rule, _, _, _, _) => RuleOf(rule)
    case DeleteRule(_, _, rule, _) => RuleOf(rule)
  }

  /** The write of a request that matches, with its audit row. */
  function Perform(s: State, r: Request): State
    requires Matches(s, r)
  {
    match r
    case SetSwitch(_, store, switch, enabled, expected) =>
      s.(stores := s.stores[store := Set(s.stores[store], switch, enabled, expected + 1)],
         audits := Logged(s, StreamOf(r), Audit(Some(enabled), expected + 1)))
    case UpdateRule(_, _, rule, patch, expected) =>
      s.(rules := s.rules[rule := Patched(s.rules[rule], patch).(revision := expected + 1)],
         audits := Logged(s, StreamOf(r), Audit(None, expected + 1)))
    case CreateRule(tenant, store, rule, trigger, action, rest, _) =>
      s.(rules := s.rules[rule := Rule(tenant, store, trigger, action, rest, 1)],
         audits := Logged(s, StreamOf(r), Audit(None, 1)))
    case DeleteRule(_, _, rule, expected) => Deleted(s, r).(rules := s.rules - {rule})
  }

  /** The audit row of a deletion, written before the statement that deletes. */
  function Deleted(s: State, r: Request): State
    requires r.DeleteRule?
  {
    s.(deletions := s.deletions + [(r.rule, r.expected)])
  }

  /** An update that matches nothing is a conflict. A deletion does not look at its row count. */
  function FinishStep(s: State, client: ClientId): (State, Reply) {
    if client !in s.pending then (s, Nothing)
    else
      var r := s.pending[client];
      var done := s.(pending := s.pending - {client});
      if Matches(s, r) then (Perform(done, r), Written)
      else if r.DeleteRule? then (Deleted(done, r), Written)
      else (done, Stale)
  }

  function Step(s: State, e: Event): (State, Reply) {
    match e
    case Begin(client, request, capable, limit) => BeginStep(s, client, request, capable, limit)
    case Finish(client) => FinishStep(s, client)
  }

  /** The revision of a stream that was written last: that of its row, as long as there is one; 0 before the first. */
  function Current(s: State, stream: Stream): nat {
    match stream
    case SwitchOf(store, switch) => if store in s.stores then Revision(s.stores[store], switch) else 0
    case RuleOf(rule) => if rule in s.rules then s.rules[rule].revision else |Log(s, stream)|
  }

  /** A switch starts at revision 1 without an audit row; the first audit row of a rule is its creation. */
  function FirstUpdate(stream: Stream): nat {
    if stream.SwitchOf? then 2 else 1
  }

  ghost predicate LogSound(s: State, stream: Stream) {
    var log := Log(s, stream);
    && (forall k :: 0 <= k < |log| ==> log[k].revision == FirstUpdate(stream) + k)
    && (Current(s, stream) == 0 ==> log == [])
    && (Current(s, stream) > 0 ==> Current(s, stream) == FirstUpdate(stream) + |log| - 1)
    && (stream.SwitchOf? && log != [] ==> log[|log| - 1].enabled == Some(Enabled(s.stores[stream.store], stream.switch)))
  }

  /** The check that a waiting client made still holds if the revision has not moved. */
  ghost predicate PendingSound(s: State, r: Request) {
    match r
    case SetSwitch(tenant, store, switch, _, expected) => OwnedStore(s, tenant, store) && 0 < expected <= Revision(s.stores[store], switch)
    case UpdateRule(tenant, store, rule, patch, expected) =>
      0 < expected <= Current(s, RuleOf(rule))
      && (rule in s.rules ==>
            OwnedRule(s, tenant, store, rule)
            && (s.rules[rule].revision == expected ==> Compatible(Patched(s.rules[rule], patch).trigger, Patched(s.rules[rule], patch).action)))
    case CreateRule(_, _, _, trigger, action, _, expected) => expected == 0 && Compatible(trigger, action)
    case DeleteRule(tenant, store, rule, expected) =>
      0 < expected <= Current(s, RuleOf(rule)) && (rule in s.rules ==> OwnedRule(s, tenant, store, rule))
  }

  ghost predicate Sound(s: State) {
    && (forall stream :: LogSound(s, stream))
    && (forall store :: store in s.stores ==> s.stores[store].automationRevision > 0 && s.stores[store].aiRevision > 0)
    && (forall rule :: rule in s.rules ==> s.rules[rule].revision > 0 && Compatible(s.rules[rule].trigger, s.rules[rule].action))
    && (forall client :: client in s.pending ==> PendingSound(s, s.pending[client]))
  }

  lemma AppendedLog(log: seq<Audit>, row: Audit, first: nat)
    requires forall k :: 0 <= k < |log| ==> log[k].revision == first + k
    requires row.revision == first + |log|
    ensures forall k :: 0 <= k < |log + [row]| ==> (log + [row])[k].revision == first + k
  {
  }

  lemma OwnLog(s: State, r: Request)
    requires Sound(s) && Matches(s, r) && PendingSound(s, r)
    ensures LogSound(Perform(s, r), StreamOf(r))
  {
    var t := Perform(s, r);
    assert LogSound(s, StreamOf(r));
    if !r.DeleteRule? {
      var row := Log(t, StreamOf(r))[|Log(s, StreamOf(r))|];
      AppendedLog(Log(s, StreamOf(r)), row, FirstUpdate(StreamOf(r)));
    }
  }

  lemma PerformLog(s: State, r: Request, stream: Stream)
    requires Sound(s) && Matches(s, r) && PendingSound(s, r)
    ensures LogSound(Perform(s, r), stream)
  {
    var t := Perform(s, r);
    if stream == StreamOf(r) {
      OwnLog(s, r);
    } else {
      assert LogSound(s, stream);
      assert Log(t, stream) == Log(s, stream);
      assert Current(t, stream) == Current(s, stream);
    }
  }

  lemma PerformPending(s: State, r: Request, q: Request)
    requires Sound(s) && Matches(s, r) && PendingSound(s, r) && PendingSound(s, q)
    ensures PendingSound(Perform(s, r), q)
  {
    assert LogSound(s, StreamOf(r));
  }

  lemma PerformKeepsSound(s: State, r: Request)
    requires Sound(s) && Matches(s, r) && PendingSound(s, r)
    ensures Sound(Perform(s, r))
  {
    forall stream
      ensures LogSound(Perform(s, r), stream)
    {
      PerformLog(s, r, stream);
    }
    forall client | client in s.pending
      ensures PendingSound(Perform(s, r), s.pending[client])
    {
      PerformPending(s, r, s.pending[client]);
    }
  }

  lemma PendingIrrelevant(s: State, pending: map<ClientId, Request>)
    requires Sound(s) && forall client :: client in pending ==> PendingSound(s, pending[client])
    ensures Sound(s.(pending := pending))
  {
    var t := s.(pending := pending);
    forall stream
      ensures LogSound(t, stream)
    {
      assert LogSound(s, stream);
    }
    forall client | client in pending
      ensures PendingSound(t, pending[client])
    {
      assert PendingSound(s, pending[client]);
    }
  }

  lemma DeletionsIrrelevant(s: State, deletions: seq<(RuleId, nat)>)
    requires Sound(s)
    ensures Sound(s.(deletions := deletions))
  {
    var t := s.(deletions := deletions);
    forall stream
      ensures LogSound(t, stream)
    {
      assert LogSound(s, stream);
    }
    forall client | client in t.pending
      ensures PendingSound(t, t.pending[client])
    {
      assert PendingSound(s, s.pending[client]);
    }
  }

  lemma StepKeepsSound(s: State, e: Event)
    requires Sound(s)
    ensures Sound(Step(s, e).0)
  {
    match e
    case Begin(client, request, capable, limit) =>
      var t := Step(s, e).0;
      assert CheckRequest(s, request, capable, limit) == Checked ==> PendingSound(s, request);
      PendingIrrelevant(s, t.pending);
    case Finish(client) =>
      if client in s.pending {
        var r := s.pending[client];
        var done := s.(pending := s.pending - {client});
        PendingIrrelevant(s, done.pending);
        if Matches(s, r) {
          assert PendingSound(s, r) && PendingSound(done, r) && Matches(done, r);
          PerformKeepsSound(done, r);
        } else if r.DeleteRule? {
          DeletionsIrrelevant(done, done.deletions + [(r.rule, r.expected)]);
        }
      }
  }

  /** Stores as created, and nothing else. */
  ghost predicate Initial(s: State) {
    && s.rules == map[] && s.audits == map[] && s.deletions == [] && s.pending == map[]
    && forall store :: store in s.stores ==> s.stores[store].automationRevision == 1 && s.stores[store].aiRevision == 1
  }

  ghost predicate IsRun(states: seq<State>, events: seq<Event>, replies: seq<Reply>) {
    && |states| == |events| + 1 == |replies| + 1 && Initial(states[0])
    && forall k: nat :: k < |events| ==> (states[k + 1], replies[k]) == Step(states[k], events[k])
  }

  lemma InitialIsSound(s: State)
    requires Initial(s)
    ensures Sound(s)
  {
    forall stream
      ensures LogSound(s, stream)
    {
    }
  }

  lemma {:induction false} RunIsSound(states: seq<State>, events: seq<Event>, replies: seq<Reply>, k: nat)
    requires IsRun(states, events, replies) && k < |states|
    ensures Sound(states[k])
  {
    if k == 0 {
      InitialIsSound(states[0]);
    } else {
      RunIsSound(states, events, replies, k - 1);
      StepKeepsSound(states[k - 1], events[k - 1]);
      assert (states[k - 1 + 1], replies[k - 1]) == Step(states[k - 1], events[k - 1]);
    }
  }

  /** The event writes a revision of the stream. */
  predicate Writes(s: State, e: Event, stream: Stream) {
    && e.Finish? && e.client in s.pending && !s.pending[e.client].DeleteRule?
    && StreamOf(s.pending[e.client]) == stream && Matches(s, s.pending[e.client])
  }

  lemma StepAdvances(s: State, e: Event, stream: Stream)
    requires Sound(s)
    ensures Current(Step(s, e).0, stream) == Current(s, stream) + if Writes(s, e, stream) then 1 else 0
    ensures Writes(s, e, stream) ==> s.pending[e.client].expected == Current(s, stream) && Step(s, e).1 == Written
  {
    if e.Finish? && e.client in s.pending {
      assert PendingSound(s, s.pending[e.client]);
      assert LogSound(s, StreamOf(s.pending[e.client]));
    }
  }

  function Updates(states: seq<State>, events: seq<Event>, k: nat, stream: Stream): nat
    requires k <= |events| <= |states|
  {
    if k == 0 then 0 else Updates(states, events, k - 1, stream) + if Writes(states[k - 1], events[k - 1], stream) then 1 else 0
  }

  /** Every revision is its initial value (1 for a switch, none for a rule) plus the successful writes. */
  lemma {:induction false} RevisionCountsUpdates(states: seq<State>, events: seq<Event>, replies: seq<Reply>, k: nat, stream: Stream)
    requires IsRun(states, events, replies) && k <= |events|
    ensures Current(states[k], stream) == Current(states[0], stream) + Updates(states, events, k, stream)
    ensures Current(states[0], stream) == if stream.SwitchOf? && stream.store in states[0].stores then 1 else 0
  {
    if k > 0 {
      RevisionCountsUpdates(states, events, replies, k - 1, stream);
      RunIsSound(states, events, replies, k - 1);
      StepAdvances(states[k - 1], events[k - 1], stream);
      assert (states[k - 1 + 1], replies[k - 1]) == Step(states[k - 1], events[k - 1]);
    }
  }

  lemma {:induction false} UpdatesGrow(states: seq<State>, events: seq<Event>, i: nat, j: nat, stream: Stream)
    requires i <= j <= |events| <= |states|
    ensures Updates(states, events, i, stream) <= Updates(states, events, j, stream)
    decreases j
  {
    if i < j {
      UpdatesGrow(states, events, i, j - 1, stream);
    }
  }

  /** Of all the writes of a stream, each expects a greater revision than the one before: no two succeed with the
      same expected revision. */
  lemma NoTwoWritesExpectTheSame(states: seq<State>, events: seq<Event>, replies: seq<Reply>, i: nat, j: nat, stream: Stream)
    requires IsRun(states, events, replies) && i < j < |events|
    requires Writes(states[i], events[i], stream) && Writes(states[j], events[j], stream)
    ensures states[i].pending[events[i].client].expected < states[j].pending[events[j].client].expected
  {
    RunIsSound(states, events, replies, i);
    RunIsSound(states, events, replies, j);
    StepAdvances(states[i], events[i], stream);
    StepAdvances(states[j], events[j], stream);
    RevisionCountsUpdates(states, events, replies, i, stream);
    RevisionCountsUpdates(states, events, replies, j, stream);
    assert Updates(states, events, i + 1, stream) == Updates(states, events, i, stream) + 1;
    UpdatesGrow(states, events, i + 1, j, stream);
  }

  /** The audit rows of a stream carry consecutive revisions up to the current one, and a switch has the value of
      its last audit row. */
  lemma AuditFollowsRow(states: seq<State>, events: seq<Event>, replies: seq<Reply>, k: nat, stream: Stream)
    requires IsRun(states, events, replies) && k < |states|
    ensures var log := Log(states[k], stream);
            && (forall n :: 0 <= n < |log| ==> log[n].revision == FirstUpdate(stream) + n)
            && (log != [] ==> log[|log| - 1].revision == Current(states[k], stream))
            && (stream.SwitchOf? && log != [] ==> log[|log| - 1].enabled == Some(Enabled(states[k].stores[stream.store], stream.switch)))
            && |log| == Updates(states, events, k, stream)
  {
    RunIsSound(states, events, replies, k);
    assert LogSound(states[k], stream);
    RevisionCountsUpdates(states, events, replies, k, stream);
    StoresRemain(states, events, replies, k);
  }

  lemma {:induction false} StoresRemain(states: seq<State>, events: seq<Event>, replies: seq<Reply>, k: nat)
    requires IsRun(states, events, replies) && k < |states|
    ensures states[k].stores.Keys == states[0].stores.Keys
  {
    if k > 0 {
      StoresRemain(states, events, replies, k - 1);
      assert (states[k - 1 + 1], replies[k - 1]) == Step(states[k - 1], events[k - 1]);
    }
  }

  /** Every stored rule has an action that fits its trigger, although each client checked the combination against
      what it had read earlier. */
  lemma RulesStayCompatible(states: seq<State>, events: seq<Event>, replies: seq<Reply>, k: nat, rule: RuleId)
    requires IsRun(states, events, replies) && k < |states| && rule in states[k].rules
    ensures Compatible(states[k].rules[rule].trigger, states[k].rules[rule].action)
  {
    RunIsSound(states, events, replies, k);
  }

  /** What the client has checked and not yet written after `k` events, as the events and replies tell it. */
  function AskedAt(events: seq<Event>, replies: seq<Reply>, k: nat, client: ClientId): Option<Request>
    requires k <= |events| == |replies|
  {
    if k == 0 then None
    else if events[k - 1].client != client then AskedAt(events, replies, k - 1, client)
    else if events[k - 1].Begin? && replies[k - 1] == Checked then Some(events[k - 1].request)
    else None
  }

  /** The request that event `k` wrote. */
  function WrittenAt(events: seq<Event>, replies: seq<Reply>, k: nat): Option<Request>
    requires k < |events| == |replies|
  {
    if events[k].Finish? && replies[k] == Written then AskedAt(events, replies, k, events[k].client) else None
  }

  lemma {:induction false} PendingFollowsHistory(states: seq<State>, events: seq<Event>, replies: seq<Reply>, k: nat, client: ClientId)
    requires IsRun(states, events, replies) && k <= |events|
    ensures AskedAt(events, replies, k, client) == if client in states[k].pending then Some(states[k].pending[client]) else None
  {
    if k > 0 {
      PendingFollowsHistory(states, events, replies, k - 1, client);
      assert (states[k - 1 + 1], replies[k - 1]) == Step(states[k - 1], events[k - 1]);
    }
  }

  /** What one written request makes of a switch. */
  function SwitchAfter(before: bool, written: Option<Request>, store: StoreId, switch: Switch): bool {
    match written
    case Some(SetSwitch(_, target, which, enabled, _)) => if target == store && which == switch then enabled else before
    case _ => before
  }

  /** The value asked for by the last written request of this switch, or the initial one. */
  function SwitchAt(events: seq<Event>, replies: seq<Reply>, k: nat, store: StoreId, switch: Switch, initial: bool): bool
    requires k <= |events| == |replies|
  {
    if k == 0 then initial
    else SwitchAfter(SwitchAt(events, replies, k - 1, store, switch, initial), WrittenAt(events, replies, k - 1), store, switch)
  }

  /** What one written request makes of a rule. A deletion finds its row only at the revision it was checked at. */
  function RuleAfter(before: Option<Rule>, written: Option<Request>, rule: RuleId): Option<Rule> {
    match written
    case Some(CreateRule(tenant, store, target, trigger, action, rest, _)) =>
      if target == rule then Some(Rule(tenant, store, trigger, action, rest, 1)) else before
    case Some(UpdateRule(_, _, target, patch, expected)) =>
      if target == rule && before.Some? then
        Some(Rule(before.value.tenantId, before.value.storeId,
                  if patch.trigger.Some? then patch.trigger.value else before.value.trigger,
                  if patch.action.Some? then patch.action.value else before.value.action,
                  if patch.rest.Some? then patch.rest.value else before.value.rest,
                  expected + 1))
      else before
    case Some(DeleteRule(_, _, target, expected)) =>
      if target == rule && before.Some? && before.value.revision == expected then None else before
    case _ => before
  }

  function RuleAt(events: seq<Event>, replies: seq<Reply>, k: nat, rule: RuleId): Option<Rule>
    requires k <= |events| == |replies|
  {
    if k == 0 then None else RuleAfter(RuleAt(events, replies, k - 1, rule), WrittenAt(events, replies, k - 1), rule)
  }

  /** The audit row of one written request: for a switch, the value that was asked for. */
  function AuditsAfter(before: seq<Audit>, written: Option<Request>, stream: Stream): seq<Audit> {
    match written
    case Some(SetSwitch(_, store, switch, enabled, expected)) =>
      if stream == SwitchOf(store, switch) then before + [Audit(Some(enabled), expected + 1)] else before
    case Some(UpdateRule(_, _, rule, _, expected)) => if stream == RuleOf(rule) then before + [Audit(None, expected + 1)] else before
    case Some(CreateRule(_, _, rule, _, _, _, _)) => if stream == RuleOf(rule) then before + [Audit(None, 1)] else before
    case _ => before
  }

  function AuditsAt(events: seq<Event>, replies: seq<Reply>, k: nat, stream: Stream): seq<Audit>
    requires k <= |events| == |replies|
  {
    if k == 0 then [] else AuditsAfter(AuditsAt(events, replies, k - 1, stream), WrittenAt(events, replies, k - 1), stream)
  }

  function RowOf(s: State, rule: RuleId): Option<Rule> {
    if rule in s.rules then Some(s.rules[rule]) else None
  }

  /** What a step writes, read off the state. */
  function WrittenBy(s: State, e: Event): Option<Request> {
    if e.Finish? && Step(s, e).1 == Written then Some(s.pending[e.client]) else None
  }

  lemma StepWritesSwitch(s: State, e: Event, store: StoreId, switch: Switch)
    requires store in s.stores
    ensures var t := Step(s, e).0;
            && store in t.stores
            && Enabled(t.stores[store], switch) == SwitchAfter(Enabled(s.stores[store], switch), WrittenBy(s, e), store, switch)
  {
    if e.Finish? && e.client in s.pending {
      FinishIsWrite(s, e.client);
    }
  }

  lemma StepWritesRule(s: State, e: Event, rule: RuleId)
    requires Sound(s)
    ensures RowOf(Step(s, e).0, rule) == RuleAfter(RowOf(s, rule), WrittenBy(s, e), rule)
  {
    if e.Finish? && e.client in s.pending {
      FinishIsWrite(s, e.client);
      assert PendingSound(s, s.pending[e.client]);
    }
  }

  lemma StepWritesAudits(s: State, e: Event, stream: Stream)
    ensures Log(Step(s, e).0, stream) == AuditsAfter(Log(s, stream), WrittenBy(s, e), stream)
  {
    if e.Finish? && e.client in s.pending {
      FinishIsWrite(s, e.client);
    }
  }

  lemma RunWrites(states: seq<State>, events: seq<Event>, replies: seq<Reply>, k: nat)
    requires IsRun(states, events, replies) && k < |events|
    ensures states[k + 1] == Step(states[k], events[k]).0 && WrittenAt(events, replies, k) == WrittenBy(states[k], events[k])
  {
    assert (states[k + 1], replies[k]) == Step(states[k], events[k]);
    PendingFollowsHistory(states, events, replies, k, events[k].client);
  }

  lemma RunWritesSwitch(states: seq<State>, events: seq<Event>, replies: seq<Reply>, k: nat, store: StoreId, switch: Switch)
    requires IsRun(states, events, replies) && k < |events| && store in states[k].stores
    ensures store in states[k + 1].stores
    ensures Enabled(states[k + 1].stores[store], switch)
            == SwitchAfter(Enabled(states[k].stores[store], switch), WrittenAt(events, replies, k), store, switch)
  {
    RunWrites(states, events, replies, k);
    StepWritesSwitch(states[k], events[k], store, switch);
  }

  lemma {:induction false} ValuesFollow(values: seq<bool>, events: seq<Event>, replies: seq<Reply>, k: nat, store: StoreId, switch: Switch)
    requires k <= |events| == |replies| && k < |values|
    requires forall i: nat :: i < k ==> values[i + 1] == SwitchAfter(values[i], WrittenAt(events, replies, i), store, switch)
    ensures values[k] == SwitchAt(events, replies, k, store, switch, values[0])
  {
    if k > 0 {
      ValuesFollow(values, events, replies, k - 1, store, switch);
      assert values[k - 1 + 1] == SwitchAfter(values[k - 1], WrittenAt(events, replies, k - 1), store, switch);
    }
  }

  lemma SwitchFollows(states: seq<State>, events: seq<Event>, replies: seq<Reply>, k: nat, store: StoreId, switch: Switch)
    requires IsRun(states, events, replies) && k <= |events| && store in states[0].stores
    ensures store in states[k].stores
    ensures Enabled(states[k].stores[store], switch) == SwitchAt(events, replies, k, store, switch, Enabled(states[0].stores[store], switch))
  {
    forall i: nat | i < |states|
      ensures store in states[i].stores
    {
      StoresRemain(states, events, replies, i);
    }
    var values := seq(|states|, i requires 0 <= i < |states| => Enabled(states[i].stores[store], switch));
    forall i: nat | i < k
      ensures values[i + 1] == SwitchAfter(values[i], WrittenAt(events, replies, i), store, switch)
    {
      RunWritesSwitch(states, events, replies, i, store, switch);
    }
    ValuesFollow(values, events, replies, k, store, switch);
  }

  /** In every run a switch has the value asked for by its last written request, and its initial value before the
      first. */
  lemma SwitchFollowsRequests(states: seq<State>, events: seq<Event>, replies: seq<Reply>, k: nat, store: StoreId)
    requires IsRun(states, events, replies) && k <= |events| && store in states[0].stores
    ensures store in states[k].stores
    ensures states[k].stores[store].automationEnabled
            == SwitchAt(events, replies, k, store, Automation, states[0].stores[store].automationEnabled)
    ensures states[k].stores[store].aiEnabled == SwitchAt(events, replies, k, store, Assistant, states[0].stores[store].aiEnabled)
  {
    SwitchFollows(states, events, replies, k, store, Automation);
    SwitchFollows(states, events, replies, k, store, Assistant);
  }

  /** In every run the stored rules are those that the written requests make, field by field. */
  lemma {:induction false} RulesFollowRequests(states: seq<State>, events: seq<Event>, replies: seq<Reply>, k: nat, rule: RuleId)
    requires IsRun(states, events, replies) && k <= |events|
    ensures RuleAt(events, replies, k, rule) == if rule in states[k].rules then Some(states[k].rules[rule]) else None
  {
    if k > 0 {
      RulesFollowRequests(states, events, replies, k - 1, rule);
      RunIsSound(states, events, replies, k - 1);
      RunWrites(states, events, replies, k - 1);
      StepWritesRule(states[k - 1], events[k - 1], rule);
    }
  }

  /** In every run the audit rows of a target are those of its written requests, in order. */
  lemma {:induction false} AuditsFollowRequests(states: seq<State>, events: seq<Event>, replies: seq<Reply>, k: nat, stream: Stream)
    requires IsRun(states, events, replies) && k <= |events|
    ensures AuditsAt(events, replies, k, stream) == if stream in states[k].audits then states[k].audits[stream] else []
  {
    if k > 0 {
      AuditsFollowRequests(states, events, replies, k - 1, stream);
      RunWrites(states, events, replies, k - 1);
      StepWritesAudits(states[k - 1], events[k - 1], stream);
    }
  }

  /** When a request passes its check. */
  lemma CheckedExactly(s: State, client: ClientId, r: Request, capable: bool, limit: Option<int>)
    ensures Step(s, Begin(client, r, capable, limit)).1 == Checked <==>
            match r
            case SetSwitch(tenant, store, switch, _, expected) =>
              && store in s.stores && s.stores[store].tenantId == tenant
              && expected == if switch == Automation then s.stores[store].automationRevision else s.stores[store].aiRevision
            case UpdateRule(tenant, store, rule, patch, expected) =>
              && capable && rule in s.rules && s.rules[rule].tenantId == tenant && s.rules[rule].storeId == store && s.rules[rule].revision == expected
              && !(patch.trigger.None? && patch.action.None? && patch.rest.None?)
              && (((if patch.trigger.Some? then patch.trigger.value else s.rules[rule].trigger) == CommentKeyword)
                  <==> ((if patch.action.Some? then patch.action.value else s.rules[rule].action) == SendPrivateMessage))
            case CreateRule(tenant, store, _, trigger, action, _, expected) =>
              && capable && expected == 0 && limit.Some?
              && |set x | x in s.rules && s.rules[x].tenantId == tenant && s.rules[x].storeId == store| < limit.value
              && (trigger == CommentKeyword <==> action == SendPrivateMessage)
            case DeleteRule(tenant, store, rule, expected) =>
              capable && rule in s.rules && s.rules[rule].tenantId == tenant && s.rules[rule].storeId == store && s.rules[rule].revision == expected
  {
    if r.CreateRule? {
      assert RulesOf(s, r.tenant, r.store) == set x | x in s.rules && s.rules[x].tenantId == r.tenant && s.rules[x].storeId == r.store;
    }
  }

  /** In every run a request is written exactly when its target is still at the revision it was checked at; a creation
      when its identifier is new and the store belongs to the tenant, and a deletion in any case. */
  lemma WrittenExactly(states: seq<State>, events: seq<Event>, replies: seq<Reply>, k: nat, client: ClientId, r: Request)
    requires IsRun(states, events, replies) && k < |events| && events[k] == Finish(client) && AskedAt(events, replies, k, client) == Some(r)
    ensures replies[k] == Written <==>
            match r
            case SetSwitch(_, store, switch, _, expected) =>
              expected == if store !in states[k].stores then 0
                          else if switch == Automation then states[k].stores[store].automationRevision else states[k].stores[store].aiRevision
            case UpdateRule(_, _, rule, _, expected) => rule in states[k].rules && states[k].rules[rule].revision == expected
            case CreateRule(tenant, store, rule, _, _, _, _) =>
              && rule !in states[k].rules && (RuleOf(rule) !in states[k].audits || states[k].audits[RuleOf(rule)] == [])
              && store in states[k].stores && states[k].stores[store].tenantId == tenant
            case DeleteRule(_, _, _, _) => true
  {
    PendingFollowsHistory(states, events, replies, k, client);
    RunIsSound(states, events, replies, k);
    assert PendingSound(states[k], r);
    assert (states[k + 1], replies[k]) == Step(states[k], events[k]);
    FinishIsWrite(states[k], client);
  }

  /** The event of a client that works on one switch. */
  predicate Concerns(s: State, e: Event, client: ClientId, switch: Switch) {
    match e
    case Begin(c, request, _, _) => c == client && request.SetSwitch? && request.switch == switch
    case Finish(c) => c == client && c in s.pending && s.pending[c].SetSwitch? && s.pending[c].switch == switch
  }

  lemma WritesCommute(s: State, p: Request, q: Request)
    requires p.SetSwitch? && q.SetSwitch? && p.switch == Automation && q.switch == Assistant && Matches(s, p)
    ensures Matches(Perform(s, p), q) == Matches(s, q)
    ensures Matches(s, q) ==> Matches(Perform(s, q), p) && Perform(Perform(s, p), q) == Perform(Perform(s, q), p)
  {
    if Matches(s, q) {
      var t, t' := Perform(Perform(s, p), q), Perform(Perform(s, q), p);
      assert t.stores == t'.stores;
      assert t.audits == t'.audits;
    }
  }

  lemma PendingIsApart(s: State, pending: map<ClientId, Request>, r: Request)
    ensures Matches(s.(pending := pending), r) == Matches(s, r)
    ensures Matches(s, r) ==> Perform(s.(pending := pending), r) == Perform(s, r).(pending := pending)
  {
  }

  lemma NoMatchCommutes(s: State, p: Request, q: Request)
    requires p.SetSwitch? && q.SetSwitch? && p.switch != q.switch && Matches(s, q)
    ensures Matches(Perform(s, q), p) == Matches(s, p)
  {
  }

  /** The state after a client's write, leaving `pending` aside. */
  function Wrote(s: State, r: Request): State {
    if Matches(s, r) then Perform(s, r) else if r.DeleteRule? then Deleted(s, r) else s
  }

  lemma FinishIsWrite(s: State, client: ClientId)
    requires client in s.pending
    ensures FinishStep(s, client).0 == Wrote(s, s.pending[client]).(pending := s.pending - {client})
    ensures FinishStep(s, client).1 == if Matches(s, s.pending[client]) || s.pending[client].DeleteRule? then Written else Stale
  {
    PendingIsApart(s, s.pending - {client}, s.pending[client]);
  }

  lemma FinishesCommute(s: State, c: ClientId, d: ClientId)
    requires c != d && Concerns(s, Finish(c), c, Automation) && Concerns(s, Finish(d), d, Assistant)
    ensures FinishStep(FinishStep(s, c).0, d) == (FinishStep(FinishStep(s, d).0, c).0, FinishStep(s, d).1)
    ensures FinishStep(FinishStep(s, d).0, c).1 == FinishStep(s, c).1
  {
    var p, q := s.pending[c], s.pending[d];
    var first, second := FinishStep(s, c).0, FinishStep(s, d).0;
    FinishIsWrite(s, c);
    FinishIsWrite(s, d);
    FinishIsWrite(first, d);
    FinishIsWrite(second, c);
    PendingIsApart(Wrote(s, p), s.pending - {c}, q);
    PendingIsApart(Wrote(s, q), s.pending - {d}, p);
    if Matches(s, p) {
      WritesCommute(s, p, q);
    }
    if Matches(s, q) {
      NoMatchCommutes(s, p, q);
    }
    assert s.pending - {c} - {d} == s.pending - {d} - {c};
  }

  lemma BeginCommutesWithFinish(s: State, c: ClientId, request: Request, capable: bool, limit: Option<int>, d: ClientId)
    requires c != d && request.SetSwitch? && d in s.pending && s.pending[d].SetSwitch? && s.pending[d].switch != request.switch
    ensures BeginStep(FinishStep(s, d).0, c, request, capable, limit)
            == (FinishStep(BeginStep(s, c, request, capable, limit).0, d).0, BeginStep(s, c, request, capable, limit).1)
    ensures FinishStep(BeginStep(s, c, request, capable, limit).0, d).1 == FinishStep(s, d).1
  {
    var reply := CheckRequest(s, request, capable, limit);
    assert CheckRequest(FinishStep(s, d).0, request, capable, limit) == reply;
    assert (s.pending - {d})[c := request] == s.pending[c := request] - {d};
    assert s.pending - {d} - {c} == s.pending - {c} - {d};
  }

  /** The automation and the assistant stream commute: whatever two different clients do on them, in either order,
      ends in the same tables with the same replies. */
  lemma SwitchesCommute(s: State, e: Event, f: Event, c: ClientId, d: ClientId)
    requires c != d && Concerns(s, e, c, Automation) && Concerns(s, f, d, Assistant)
    ensures Step(Step(s, e).0, f).0 == Step(Step(s, f).0, e).0
    ensures Step(Step(s, e).0, f).1 == Step(s, f).1 && Step(Step(s, f).0, e).1 == Step(s, e).1
  {
    match e
    case Begin(_, request, capable, limit) =>
      match f {
        case Begin(_, request', capable', limit') =>
          assert s.pending[c := request][d := request'] == s.pending[d := request'][c := request];
          assert s.pending[c := request] - {d} == (s.pending - {d})[c := request];
          assert s.pending[d := request'] - {c} == (s.pending - {c})[d := request'];
          assert s.pending - {c} - {d} == s.pending - {d} - {c};
        case Finish(_) => BeginCommutesWithFinish(s, c, request, capable, limit, d);
      }
    case Finish(_) =>
      match f {
        case Begin(_, request', capable', limit') => BeginCommutesWithFinish(s, d, request', capable', limit', c);
        case Finish(_) => FinishesCommute(s, c, d);
      }
  }

  predicate CreatesFor(r: Request, tenant: TenantId, store: StoreId) {
    r.CreateRule? && r.tenant == tenant && r.store == store
  }

  /** The event writes a new rule of this tenant and store. */
  predicate Creates(s: State, e: Event, tenant: TenantId, store: StoreId) {
    e.Finish? && e.client in s.pending && Matches(s, s.pending[e.client]) && CreatesFor(s.pending[e.client], tenant, store)
  }

  predicate DeletesFor(r: Request, tenant: TenantId, store: StoreId) {
    r.DeleteRule? && r.tenant == tenant && r.store == store
  }

  /** The event deletes a rule of this tenant and store. */
  predicate Deletes(s: State, e: Event, tenant: TenantId, store: StoreId) {
    e.Finish? && e.client in s.pending && Matches(s, s.pending[e.client]) && DeletesFor(s.pending[e.client], tenant, store)
  }

  /** How many more rules of this tenant and store the events from `i` up to `j` create than they delete. */
  function Growth(states: seq<State>, events: seq<Event>, i: nat, j: nat, tenant: TenantId, store: StoreId): int
    requires i <= j <= |events| <= |states|
  {
    if i == j then 0
    else Growth(states, events, i, j - 1, tenant, store)
         + (if Creates(states[j - 1], events[j - 1], tenant, store) then 1 else 0)
         - (if Deletes(states[j - 1], events[j - 1], tenant, store) then 1 else 0)
  }

  lemma PerformOwns(s: State, r: Request, tenant: TenantId, store: StoreId, rule: RuleId)
    requires Matches(s, r)
    ensures OwnedRule(Perform(s, r), tenant, store, rule)
            <==> if CreatesFor(r, tenant, store) && rule == r.rule then true
                 else if DeletesFor(r, tenant, store) && rule == r.rule then false
                 else OwnedRule(s, tenant, store, rule)
  {
  }

  lemma CountAfter(before: set<RuleId>, after: set<RuleId>, rule: RuleId, more: bool, less: bool)
    requires forall x :: x in after <==> if more && x == rule then true else if less && x == rule then false else x in before
    requires (more ==> rule !in before) && (less ==> rule in before && !more)
    ensures |after| == |before| + (if more then 1 else 0) - (if less then 1 else 0)
  {
    assert after == if more then before + {rule} else if less then before - {rule} else before;
  }

  function RuleOfRequest(r: Request): RuleId {
    if r.SetSwitch? then "" else r.rule
  }

  lemma PerformCountsRules(s: State, r: Request, tenant: TenantId, store: StoreId)
    requires Matches(s, r)
    ensures |RulesOf(Perform(s, r), tenant, store)|
            == |RulesOf(s, tenant, store)| + (if CreatesFor(r, tenant, store) then 1 else 0) - (if DeletesFor(r, tenant, store) then 1 else 0)
  {
    forall rule {
      PerformOwns(s, r, tenant, store, rule);
    }
    CountAfter(RulesOf(s, tenant, store), RulesOf(Perform(s, r), tenant, store), RuleOfRequest(r),
               CreatesFor(r, tenant, store), DeletesFor(r, tenant, store));
  }

  lemma StepCountsRules(s: State, e: Event, tenant: TenantId, store: StoreId)
    ensures |RulesOf(Step(s, e).0, tenant, store)|
            == |RulesOf(s, tenant, store)| + (if Creates(s, e, tenant, store) then 1 else 0) - (if Deletes(s, e, tenant, store) then 1 else 0)
  {
    if e.Finish? && e.client in s.pending {
      var r := s.pending[e.client];
      FinishIsWrite(s, e.client);
      assert RulesOf(Step(s, e).0, tenant, store) == RulesOf(Wrote(s, r), tenant, store);
      if Matches(s, r) {
        PerformCountsRules(s, r, tenant, store);
      } else {
        assert RulesOf(Wrote(s, r), tenant, store) == RulesOf(s, tenant, store);
      }
    } else {
      assert RulesOf(Step(s, e).0, tenant, store) == RulesOf(s, tenant, store);
    }
  }

  lemma {:induction false} GrowthCountsRules(states: seq<State>, events: seq<Event>, replies: seq<Reply>, i: nat, j: nat, tenant: TenantId, store: StoreId)
    requires IsRun(states, events, replies) && i <= j <= |events|
    ensures |RulesOf(states[j], tenant, store)| == |RulesOf(states[i], tenant, store)| + Growth(states, events, i, j, tenant, store)
    decreases j
  {
    if i < j {
      GrowthCountsRules(states, events, replies, i, j - 1, tenant, store);
      StepCountsRules(states[j - 1], events[j - 1], tenant, store);
      assert (states[j - 1 + 1], replies[j - 1]) == Step(states[j - 1], events[j - 1]);
    }
  }

  /** The client checks `r` at event `i` and writes it at event `j`, with no event of its own in between. */
  ghost predicate IsAttempt(events: seq<Event>, replies: seq<Reply>, i: nat, j: nat, client: ClientId, r: Request, limit: Option<int>) {
    && i < j < |events| == |replies| && replies[i] == Checked && replies[j] == Written
    && events[i].Begin? && events[i].client == client && events[i].request == r && events[i].limit == limit
    && events[j] == Finish(client) && forall k :: i < k < j ==> events[k].client != client
  }

  lemma {:induction false} PendingWaits(states: seq<State>, events: seq<Event>, replies: seq<Reply>, i: nat, j: nat, k: nat, client: ClientId, r: Request, limit: Option<int>)
    requires IsRun(states, events, replies) && IsAttempt(events, replies, i, j, client, r, limit) && i < k <= j
    ensures client in states[k].pending && states[k].pending[client] == r
    decreases k
  {
    assert (states[k - 1 + 1], replies[k - 1]) == Step(states[k - 1], events[k - 1]);
    if i < k - 1 {
      PendingWaits(states, events, replies, i, j, k - 1, client, r, limit);
    }
  }

  /** In every run a creation leaves its store within the limit it was checked against exactly when the rules counted
      at the check and those added since leave room; so it always does when none were added in between. */
  lemma CreationKeepsLimit(states: seq<State>, events: seq<Event>, replies: seq<Reply>, i: nat, j: nat, client: ClientId, r: Request, limit: int)
    requires IsRun(states, events, replies) && IsAttempt(events, replies, i, j, client, r, Some(limit)) && r.CreateRule?
    ensures |RulesOf(states[j + 1], r.tenant, r.store)| <= limit
            <==> |RulesOf(states[i], r.tenant, r.store)| + Growth(states, events, i, j, r.tenant, r.store) < limit
    ensures Growth(states, events, i, j, r.tenant, r.store) <= 0 ==> |RulesOf(states[j + 1], r.tenant, r.store)| <= limit
  {
    PendingWaits(states, events, replies, i, j, j, client, r, Some(limit));
    GrowthCountsRules(states, events, replies, i, j, r.tenant, r.store);
    StepCountsRules(states[j], events[j], r.tenant, r.store);
    assert (states[i + 1], replies[i]) == Step(states[i], events[i]);
    assert (states[j + 1], replies[j]) == Step(states[j], events[j]);
  }

  /** A deletion answers as if it had deleted, and writes its audit row, whatever it finds; its rule survives exactly
      when it is still there and was updated between the check and the statement. */
  lemma DeletionTakesEffect(states: seq<State>, events: seq<Event>, replies: seq<Reply>, i: nat, j: nat, client: ClientId, r: Request, limit: Option<int>)
    requires IsRun(states, events, replies) && IsAttempt(events, replies, i, j, client, r, limit) && r.DeleteRule?
    ensures states[j + 1].deletions == states[j].deletions + [(r.rule, r.expected)]
    ensures r.rule in states[j + 1].rules
            <==> r.rule in states[j].rules && Updates(states, events, j, RuleOf(r.rule)) > Updates(states, events, i, RuleOf(r.rule))
  {
    PendingWaits(states, events, replies, i, j, j, client, r, limit);
    RunIsSound(states, events, replies, i);
    RunIsSound(states, events, replies, j);
    RevisionCountsUpdates(states, events, replies, i, RuleOf(r.rule));
    RevisionCountsUpdates(states, events, replies, j, RuleOf(r.rule));
    assert (states[i + 1], replies[i]) == Step(states[i], events[i]);
    assert (states[j + 1], replies[j]) == Step(states[j], events[j]);
    assert PendingSound(states[j], r);
  }

  /** Two creations that overlap: both are checked against the limit before either is written. */
  function OverlappingCreates(limit: int, q: Request, r: Request): seq<Event> {
    [Begin(1, q, true, Some(limit)), Begin(2, r, true, Some(limit)), Finish(1), Finish(2)]
  }

  /** So a store without rules and with a limit of one ends up with two. */
  lemma OverlappingCreatesExceedLimit(s: State, tenant: TenantId, store: StoreId, rest: string) returns (states: seq<State>, replies: seq<Reply>, q: Request, r: Request)
    requires Initial(s) && OwnedStore(s, tenant, store)
    ensures IsRun(states, OverlappingCreates(1, q, r), replies) && states[0] == s
    ensures replies == [Checked, Checked, Written, Written] && |RulesOf(states[4], tenant, store)| == 2
  {
    q := CreateRule(tenant, store, "first", DmKeyword, SendMessage, rest, 0);
    r := CreateRule(tenant, store, "second", DmKeyword, SendMessage, rest, 0);
    var events := OverlappingCreates(1, q, r);
    assert RulesOf(s, tenant, store) == {};
    var (s1, a) := Step(s, events[0]);
    assert RulesOf(s1, tenant, store) == {};
    var (s2, b) := Step(s1, events[1]);
    StepCountsRules(s1, events[1], tenant, store);
    var (s3, c) := Step(s2, events[2]);
    StepCountsRules(s2, events[2], tenant, store);
    FinishIsWrite(s2, 1);
    var (s4, d) := Step(s3, events[3]);
    StepCountsRules(s3, events[3], tenant, store);
    FinishIsWrite(s3, 2);
    states, replies := [s, s1, s2, s3, s4], [a, b, c, d];
  }

  /** A state after one client created the rule "rule", with these clients waiting. */
  function WithRule(s: State, rule: Rule, pending: map<ClientId, Request>): State {
    State(s.stores, map["rule" := rule], map[RuleOf("rule") := [Audit(None, 1)]], [], pending)
  }

  lemma RuleIsCreated(s: State, tenant: TenantId, store: StoreId, create: Request, waiting: State)
    requires Initial(s) && OwnedStore(s, tenant, store) && create == CreateRule(tenant, store, "rule", DmKeyword, SendMessage, "", 0)
    requires waiting == s.(pending := map[1 := create])
    ensures Step(s, Begin(1, create, true, Some(1))) == (waiting, Checked)
    ensures Step(waiting, Finish(1)) == (WithRule(s, Rule(tenant, store, DmKeyword, SendMessage, "", 1), map[]), Written)
  {
    assert RulesOf(s, tenant, store) == {};
    assert waiting.pending - {1} == map[];
    assert Log(waiting, RuleOf("rule")) + [Audit(None, 1)] == [Audit(None, 1)];
  }

  lemma UpdateComesFirst(s: State, row: Rule, remove: Request, change: Request) returns (after: State)
    requires row == Rule(row.tenantId, row.storeId, DmKeyword, SendMessage, "", 1)
    requires remove == DeleteRule(row.tenantId, row.storeId, "rule", 1)
    requires change == UpdateRule(row.tenantId, row.storeId, "rule", Patch(None, None, Some("text")), 1)
    ensures Step(WithRule(s, row, map[1 := remove, 2 := change]), Finish(2)) == (after, Written)
    ensures after.rules == map["rule" := row.(rest := "text", revision := 2)] && after.pending == map[1 := remove] && after.deletions == []
  {
    var both := map[1 := remove, 2 := change];
    assert both - {2} == map[1 := remove];
    after := Step(WithRule(s, row, both), Finish(2)).0;
  }

  /** The run that loses a deletion: an update comes between its check and its statement. */
  lemma DeletionIsLost(s: State, tenant: TenantId, store: StoreId) returns (states: seq<State>, events: seq<Event>, remove: Request)
    requires Initial(s) && OwnedStore(s, tenant, store)
    ensures IsRun(states, events, [Checked, Written, Checked, Checked, Written, Written]) && states[0] == s
    ensures remove == DeleteRule(tenant, store, "rule", 1) && events[2] == Begin(1, remove, true, None) && events[5] == Finish(1)
    ensures "rule" in states[6].rules && states[6].rules["rule"].revision == 2 && states[6].deletions == [("rule", 1)]
  {
    var create := CreateRule(tenant, store, "rule", DmKeyword, SendMessage, "", 0);
    var change := UpdateRule(tenant, store, "rule", Patch(None, None, Some("text")), 1);
    remove := DeleteRule(tenant, store, "rule", 1);
    events := [Begin(1, create, true, Some(1)), Finish(1), Begin(1, remove, true, None), Begin(2, change, true, None), Finish(2), Finish(1)];
    var row := Rule(tenant, store, DmKeyword, SendMessage, "", 1);
    var s1 := s.(pending := map[1 := create]);
    RuleIsCreated(s, tenant, store, create, s1);
    var s2, s3, s4 := WithRule(s, row, map[]), WithRule(s, row, map[1 := remove]), WithRule(s, row, map[1 := remove, 2 := change]);
    assert Step(s2, events[2]) == (s3, Checked);
    assert Step(s3, events[3]) == (s4, Checked);
    var s5 := UpdateComesFirst(s, row, remove, change);
    var s6 := Step(s5, events[5]).0;
    states := [s, s1, s2, s3, s4, s5, s6];
  }

  class RevisionService {
    var stores: map<StoreId, Store>
    var rules: map<RuleId, Rule>
    var audits: map<Stream, seq<Audit>>
    var deletions: seq<(RuleId, nat)>
    var pending: map<ClientId, Request>

    ghost function Now(): State
      reads this
    {
      State(stores, rules, audits, deletions, pending)
    }

    ghost predicate Valid()
      reads this
    {
      Sound(Now())
    }

    constructor (stores: map<StoreId, Store>)
      requires forall store :: store in stores ==> stores[store].automationRevision == 1 && stores[store].aiRevision == 1
      ensures Valid() && Initial(Now()) && this.stores == stores
    {
      this.stores, rules, audits, deletions, pending := stores, map[], map[], [], map[];
      new;
      InitialIsSound(Now());
    }

    /** The first half of `update` or `create`: everything up to the conditional write. */
    method BeginRequest(client: ClientId, r: Request, capable: bool, limit: Option<int>) returns (reply: Reply)
      requires Valid()
      modifies this`pending
      ensures Valid() && (Now(), reply) == Step(old(Now()), Begin(client, r, capable, limit))
    {
      StepKeepsSound(Now(), Begin(client, r, capable, limit));
      reply := CheckedRequest(r, capable, limit);
      pending := if reply == Checked then pending[client := r] else pending - {client};
    }

    method CheckedRequest(r: Request, capable: bool, limit: Option<int>) returns (reply: Reply)
      ensures reply == CheckRequest(Now(), r, capable, limit)
    {
      if r.SetSwitch? {
        if r.store !in stores || stores[r.store].tenantId != r.tenant {
          return NotFound;
        }
        return if Revision(stores[r.store], r.switch) == r.expected then Checked else Stale;
      }
      if !capable {
        return Forbidden;
      }
      if r.UpdateRule? || r.DeleteRule? {
        if r.rule !in rules || rules[r.rule].tenantId != r.tenant || rules[r.rule].storeId != r.store {
          return NotFound;
        }
        var rule := rules[r.rule];
        if rule.revision != r.expected {
          return Stale;
        }
        if r.DeleteRule? {
          return Checked;
        }
        var fits := Compatible(Or(r.patch.trigger, rule.trigger), Or(r.patch.action, rule.action));
        return if fits && r.patch != Patch(None, None, None) then Checked else Invalid;
      }
      if r.expected != 0 {
        return Stale;
      }
      if limit.None? || limit.value < 0 {
        return Forbidden;
      }
      var used := set rule | rule in rules && rules[rule].tenantId == r.tenant && rules[rule].storeId == r.store;
      assert used == RulesOf(Now(), r.tenant, r.store);
      if |used| >= limit.value {
        return LimitReached;
      }
      reply := if Compatible(r.trigger, r.action) then Checked else Invalid;
    }

    /** `AutomationControlService.update` and `AIAssistantService.update`: the UPDATE, its row count, the audit row. */
    method WriteSwitch(store: StoreId, tenant: TenantId, switch: Switch, enabled: bool, expected: nat) returns (reply: Reply)
      modifies this`stores, this`audits
      ensures var r := SetSwitch(tenant, store, switch, enabled, expected);
              (Now(), reply) == if Matches(old(Now()), r) then (Perform(old(Now()), r), Written) else (old(Now()), Stale)
    {
      if store !in stores || stores[store].tenantId != tenant || Revision(stores[store], switch) != expected {
        return Stale;
      }
      var row := stores[store];
      if switch == Automation {
        row := row.(automationEnabled := enabled, automationRevision := expected + 1);
      } else {
        row := row.(aiEnabled := enabled, aiRevision := expected + 1);
      }
      stores := stores[store := row];
      AppendAudit(SwitchOf(store, switch), Audit(Some(enabled), expected + 1));
      reply := Written;
    }

    /** `AutomationRuleService.update`, from the UPDATE on. */
    method WriteRule(rule: RuleId, tenant: TenantId, store: StoreId, patch: Patch, expected: nat) returns (reply: Reply)
      modifies this`rules, this`audits
      ensures var r := UpdateRule(tenant, store, rule, patch, expected);
              (Now(), reply) == if Matches(old(Now()), r) then (Perform(old(Now()), r), Written) else (old(Now()), Stale)
    {
      if rule !in rules || rules[rule].tenantId != tenant || rules[rule].storeId != store || rules[rule].revision != expected {
        return Stale;
      }
      var row := rules[rule].(revision := expected + 1);
      if patch.trigger.Some? {
        row := row.(trigger := patch.trigger.value);
      }
      if patch.action.Some? {
        row := row.(action := patch.action.value);
      }
      if patch.rest.Some? {
        row := row.(rest := patch.rest.value);
      }
      rules := rules[rule := row];
      AppendAudit(RuleOf(rule), Audit(None, expected + 1));
      reply := Written;
    }

    method AppendAudit(stream: Stream, row: Audit)
      modifies this`audits
      ensures audits == Logged(old(Now()), stream, row)
    {
      audits := audits[stream := (if stream in audits then audits[stream] else []) + [row]];
    }

    /** The second half: the write of what the client has checked. */
    method FinishRequest(client: ClientId) returns (reply: Reply)
      requires Valid()
      modifies this
      ensures Valid() && (Now(), reply) == Step(old(Now()), Finish(client))
    {
      StepKeepsSound(Now(), Finish(client));
      if client !in pending {
        return Nothing;
      }
      var r := pending[client];
      pending := pending - {client};
      match r
      case SetSwitch(tenant, store, switch, enabled, expected) =>
        reply := WriteSwitch(store, tenant, switch, enabled, expected);
      case UpdateRule(tenant, store, rule, patch, expected) =>
        reply := WriteRule(rule, tenant, store, patch, expected);
      case CreateRule(tenant, store, rule, trigger, action, rest, _) =>
        if rule in rules || (RuleOf(rule) in audits && audits[RuleOf(rule)] != []) || store !in stores || stores[store].tenantId != tenant {
          return Stale;
        }
        rules := rules[rule := Rule(tenant, store, trigger, action, rest, 1)];
        AppendAudit(RuleOf(rule), Audit(None, 1));
        reply := Written;
      case DeleteRule(tenant, store, rule, expected) =>
        deletions := deletions + [(rule, expected)];
        if rule in rules && rules[rule].tenantId == tenant && rules[rule].storeId == store && rules[rule].revision == expected {
          rules := rules - {rule};
        }
        reply := Written;
    }
  }
}
