/** The webhook handler as the code runs it, statement by statement (app/instagram.py, 251-355 and 418-553).
    Alongside, a ghost run of the step machine is kept, so every table the handler produces is one the machine
    produces, and what holds of all interleavings holds of it. */
module InstagramWebhook {
  import opened Options
  import opened InstagramInterleaving

  datatype Verdict = Processed | Duplicate | FailedItem | Skipped | Raised
  datatype Summary = Summary(received: nat, processed: nat, duplicates: nat, failed: nat)

  function Tally(s: Summary, v: Verdict): Summary {
    match v
    case Processed => s.(processed := s.processed + 1)
    case Duplicate => s.(duplicates := s.duplicates + 1)
    case FailedItem => s.(failed := s.failed + 1)
    case Skipped => s
    case Raised => s
  }

  /** Handlers that do not overlap never record a second successful send of the same message. */
  ghost predicate SentOnce(messages: map<Id, MessageRow>, log: seq<Call>) {
    forall id :: Recorded(log, id) == 0 || (Recorded(log, id) == 1 && id in messages && messages[id].status == Sent)
  }

  lemma SentOnceSilent(messages: map<Id, MessageRow>, log: seq<Call>, call: Call)
    requires SentOnce(messages, log) && !call.TextRecorded?
    ensures SentOnce(messages, log + [call])
  {
    forall id {
      RecordedOneMore(log, call, id);
    }
  }

  lemma SentOnceRow(messages: map<Id, MessageRow>, log: seq<Call>, id: Id, row: MessageRow)
    requires SentOnce(messages, log) && (id in messages ==> messages[id].status != Sent)
    ensures SentOnce(messages[id := row], log)
  {
    assert Recorded(log, id) == 0;
  }

  lemma SentOnceRecorded(messages: map<Id, MessageRow>, log: seq<Call>, id: Id)
    requires SentOnce(messages, log) && id in messages && messages[id].status != Sent
    ensures SentOnce(messages[id := messages[id].(status := Sent)], log + [TextRecorded(id)])
  {
    forall other {
      RecordedOneMore(log, TextRecorded(id), other);
    }
  }

  /** `states` are the states the machine goes through under `schedule`. */
  ghost predicate IsRun(schedule: seq<Action>, states: seq<State>) {
    && |states| == |schedule| + 1 && states[0] == EMPTY
    && forall k :: 0 <= k < |schedule| ==> states[k + 1] == Step(states[k], schedule[k])
  }

  lemma {:induction false} RunIsExec(schedule: seq<Action>, states: seq<State>, n: nat)
    requires IsRun(schedule, states) && n <= |schedule|
    ensures states[n] == Exec(schedule[..n])
  {
    if n > 0 {
      RunIsExec(schedule, states, n - 1);
      assert schedule[..n][..n - 1] == schedule[..n - 1];
    }
  }

  /** Between the two schedules only handler `h` moves, and its surroundings decide as `choices` says. */
  ghost predicate OnlyActs(before: seq<Action>, after: seq<Action>, h: HandlerId, choices: set<Choice>) {
    before <= after && forall k :: |before| <= k < |after| ==> after[k].Do? && after[k].h == h && after[k].choice in choices
  }

  /** The request being served: where it began, its handler, and what its surroundings may decide. */
  datatype Scope = Scope(base: seq<Action>, h: HandlerId, choices: set<Choice>)

  predicate Retryable(row: MessageRow) {
    row.status == Failed && row.response.Some? && row.response.value != ""
  }

  function DeliverVerdict(c: Choice, sendEnabled: bool, retry: bool): Verdict {
    if !sendEnabled || c.outcome == Delivered then Processed else if c.outcome == Crashed && retry then Raised else FailedItem
  }

  function DeliveredRow(row: MessageRow, c: Choice, sendEnabled: bool, retry: bool): MessageRow {
    if !sendEnabled then row.(status := Simulated)
    else if c.outcome == Delivered then row.(status := Sent)
    else if c.outcome == Crashed && retry then row
    else row.(status := Failed)
  }

  /** What becomes of a direct message, given its row if it has one. */
  function MessageAfter(existing: Option<MessageRow>, c: Choice, sendEnabled: bool): (MessageRow, Verdict) {
    match existing
    case Some(row) =>
      if Retryable(row) then (DeliveredRow(row, c, sendEnabled, true), DeliverVerdict(c, sendEnabled, true)) else (row, Duplicate)
    case None =>
      match c.messageRoute
      case MessageNoStore => (MessageRow(UnmappedStore, None), FailedItem)
      case MessageDisabled => (MessageRow(ModuleDisabled, None), Skipped)
      case MessageRouteError => (MessageRow(Failed, None), FailedItem)
      case MessageRouted => ChatAnswered(c, sendEnabled)
  }

  function ChatAnswered(c: Choice, sendEnabled: bool): (MessageRow, Verdict) {
    if c.chat.None? then (MessageRow(Failed, None), FailedItem)
    else (DeliveredRow(MessageRow(Ready, c.chat), c, sendEnabled, false), DeliverVerdict(c, sendEnabled, false))
  }

  /** The public reply is made once; an exception that is not handled leaves its row half-way and ends the request. */
  function RepliesAfter(replies: map<Id, ReplyStatus>, id: Id, c: Choice, sendEnabled: bool): map<Id, ReplyStatus> {
    if id in replies then replies
    else replies[id := if !sendEnabled then ReplySimulated
                       else match c.outcome case Delivered => ReplySent case Refused => ReplyFailed case Crashed => ReplyProcessing]
  }

  predicate ReplyRaises(replies: map<Id, ReplyStatus>, id: Id, c: Choice, sendEnabled: bool) {
    id !in replies && sendEnabled && c.outcome == Crashed
  }

  datatype Tables = Tables(messages: map<Id, MessageRow>, comments: map<Id, CommentStatus>, replies: map<Id, ReplyStatus>)

  function PrivateStatus(c: Choice, sendEnabled: bool): CommentStatus {
    if !sendEnabled then CommentSimulated
    else match c.outcome case Delivered => CommentSent case Refused => CommentFailed case Crashed => CommentReady
  }

  function Replied(t: Tables, id: Id, public: Choice, sendEnabled: bool, verdict: Verdict): (Tables, Verdict) {
    (t.(replies := RepliesAfter(t.replies, id, public, sendEnabled)), if ReplyRaises(t.replies, id, public, sendEnabled) then Raised else verdict)
  }

  /** A comment that is not answered; an exception in the lookups leaves its row half-way and ends the request. */
  function RejectedComment(route: CommentRoute): (CommentStatus, Verdict) {
    match route
    case CommentRouteError => (CommentProcessing, Raised)
    case CommentNoStore => (CommentUnmappedStore, FailedItem)
    case CommentDisabled => (CommentModuleDisabled, Skipped)
    case NotAPriceComment => (Ignored, Skipped)
    case NoMediaMapping => (Unmapped, Skipped)
    case CommentRouted => (CommentReady, Skipped)
  }

  function AnsweredComment(t: Tables, id: Id, c: Choice, public: Choice, sendEnabled: bool): (Tables, Verdict) {
    var after := t.(comments := t.comments[id := PrivateStatus(c, sendEnabled)]);
    if !sendEnabled || c.outcome == Delivered then Replied(after, id, public, sendEnabled, Processed)
    else (after, if c.outcome == Crashed then Raised else FailedItem)
  }

  /** What becomes of a comment. */
  function CommentAfter(t: Tables, id: Id, c: Choice, public: Choice, sendEnabled: bool): (Tables, Verdict) {
    if id in t.comments then
      if t.comments[id] == CommentSent then Replied(t, id, public, sendEnabled, Duplicate) else (t, Duplicate)
    else if c.commentRoute != CommentRouted then
      (t.(comments := t.comments[id := RejectedComment(c.commentRoute).0]), RejectedComment(c.commentRoute).1)
    else AnsweredComment(t, id, c, public, sendEnabled)
  }

  function FindMessage(t: Tables, id: Id): Option<MessageRow> {
    if id in t.messages then Some(t.messages[id]) else None
  }

  function ServeItem(t: Tables, item: Item, c: Choice, public: Choice, sendEnabled: bool): (Tables, Verdict) {
    match item
    case Message(id) =>
      var (row, verdict) := MessageAfter(FindMessage(t, id), c, sendEnabled);
      (t.(messages := t.messages[id := row]), verdict)
    case Comment(id) => CommentAfter(t, id, c, public, sendEnabled)
  }

  /** A batch item by item, up to an exception that is not handled: the tables, the summary, and whether it raised. */
  function Serve(t: Tables, batch: seq<Item>, choices: seq<Choice>, publics: seq<Choice>, sendEnabled: bool): (Tables, Summary, bool)
    requires |choices| == |publics| == |batch|
  {
    if batch == [] then (t, Summary(0, 0, 0, 0), false)
    else
      var n := |batch| - 1;
      var (t', summary, raised) := Serve(t, batch[..n], choices[..n], publics[..n], sendEnabled);
      if raised then (t', summary, true)
      else
        var (t'', verdict) := ServeItem(t', batch[n], choices[n], publics[n], sendEnabled);
        (t'', Tally(summary, verdict), verdict == Raised)
  }

  lemma Overwrite<K, V>(m: map<K, V>, key: K, first: V, second: V)
    ensures m[key := first][key := second] == m[key := second]
  {
  }

  class InstagramWebhook {
    var messages: map<Id, MessageRow>
    var comments: map<Id, CommentStatus>
    var replies: map<Id, ReplyStatus>
    ghost var schedule: seq<Action>
    ghost var states: seq<State>
    ghost var machine: State
    ghost var scope: Scope

    /** The tables are those of a run of the step machine. */
    ghost predicate Valid()
      reads this
    {
      && IsRun(schedule, states) && machine == states[|schedule|]
      && messages == machine.messages && comments == machine.comments && replies == machine.replies
      && SentOnce(messages, machine.log)
      && OnlyActs(scope.base, schedule, scope.h, scope.choices)
    }

    ghost predicate At(h: HandlerId, todo: seq<Item>, pc: Pc, sendEnabled: bool)
      reads this
    {
      h in machine.handlers && machine.handlers[h] == Handler(todo, pc, sendEnabled)
    }

    constructor ()
      ensures Valid() && schedule == []
    {
      messages, comments, replies := map[], map[], map[];
      schedule, states, machine, scope := [], [EMPTY], EMPTY, Scope([], 0, {});
    }

    ghost function Rows(): Tables
      reads this
    {
      Tables(messages, comments, replies)
    }

    /** One step of the machine by handler `h`, whose effect is `e`. */
    ghost method Act(h: HandlerId, c: Choice, e: Effect)
      requires IsRun(schedule, states) && machine == states[|schedule|]
      requires OnlyActs(scope.base, schedule, scope.h, scope.choices) && h == scope.h && c in scope.choices
      requires h in machine.handlers && HandlerEffect(machine, machine.handlers[h], c) == e
      modifies this`schedule, this`states, this`machine
      ensures IsRun(schedule, states) && machine == states[|schedule|]
      ensures OnlyActs(scope.base, schedule, scope.h, scope.choices)
      ensures machine == Perform(old(machine), h, e)
    {
      schedule, states, machine := schedule + [Do(h, c)], states + [Step(machine, Do(h, c))], Step(machine, Do(h, c));
    }

    ghost method ActArrive(h: HandlerId, batch: seq<Item>, sendEnabled: bool, choices: set<Choice>)
      requires Valid() && h !in machine.handlers
      modifies this`schedule, this`states, this`machine, this`scope
      ensures Valid() && At(h, batch, Start, sendEnabled)
      ensures scope == Scope(old(schedule) + [Arrive(h, batch, sendEnabled)], h, choices)
    {
      var a := Arrive(h, batch, sendEnabled);
      scope := Scope(schedule + [a], h, choices);
      schedule, states, machine := schedule + [a], states + [Step(machine, a)], Step(machine, a);
    }

    /** `deliver_response`. */
    method DeliverResponse(h: HandlerId, todo: seq<Item>, id: Id, retry: bool, c: Choice, sendEnabled: bool) returns (verdict: Verdict)
      requires Valid() && todo != [] && todo[0] == Message(id) && At(h, todo, SendText(retry), sendEnabled)
      requires id in messages && messages[id].status != Sent
      requires h == scope.h && c in scope.choices
      modifies this
      ensures scope == old(scope)
      ensures Valid() && verdict == DeliverVerdict(c, sendEnabled, retry)
      ensures messages == old(messages)[id := DeliveredRow(old(messages[id]), c, sendEnabled, retry)]
      ensures comments == old(comments) && replies == old(replies)
      ensures At(h, if verdict == Raised then [] else todo[1..], Start, sendEnabled)
    {
      if !sendEnabled {
        messages := messages[id := messages[id].(status := Simulated)];
        Act(h, c, Effect(Handler(todo[1..], Start, sendEnabled), WriteMessage(id, messages[id]), None));
        return Processed;
      }
      SentOnceSilent(messages, machine.log, TextCall(id, c.outcome));
      Act(h, c, Effect(Handler(todo, RecordText(retry, c.outcome), true), NoWrite, Some(TextCall(id, c.outcome))));
      verdict := RecordResponse(h, todo, id, retry, c);
    }

    /** What follows the call in `deliver_response`: commit the outcome, or let an unexpected exception through. */
    method RecordResponse(h: HandlerId, todo: seq<Item>, id: Id, retry: bool, c: Choice) returns (verdict: Verdict)
      requires Valid() && todo != [] && todo[0] == Message(id) && At(h, todo, RecordText(retry, c.outcome), true)
      requires id in messages && messages[id].status != Sent
      requires h == scope.h && c in scope.choices
      modifies this
      ensures scope == old(scope)
      ensures Valid() && verdict == DeliverVerdict(c, true, retry)
      ensures messages == old(messages)[id := DeliveredRow(old(messages[id]), c, true, retry)]
      ensures comments == old(comments) && replies == old(replies)
      ensures At(h, if verdict == Raised then [] else todo[1..], Start, true)
    {
      if c.outcome == Crashed && retry {
        Act(h, c, Effect(Handler([], Start, true), NoWrite, None));
        assert messages == messages[id := messages[id]];
        return Raised;
      }
      if c.outcome == Delivered {
        SentOnceRecorded(messages, machine.log, id);
        messages := messages[id := messages[id].(status := Sent)];
        Act(h, c, Effect(Handler(todo[1..], Start, true), WriteMessage(id, messages[id]), Some(TextRecorded(id))));
        return Processed;
      }
      messages := messages[id := messages[id].(status := Failed)];
      Act(h, c, Effect(Handler(todo[1..], Start, true), WriteMessage(id, messages[id]), None));
      verdict := FailedItem;
    }

    method HandleMessage(h: HandlerId, todo: seq<Item>, id: Id, c: Choice, sendEnabled: bool) returns (verdict: Verdict)
      requires Valid() && todo != [] && todo[0] == Message(id) && At(h, todo, Start, sendEnabled)
      requires h == scope.h && c in scope.choices
      modifies this
      ensures scope == old(scope)
      ensures Valid() && comments == old(comments) && replies == old(replies)
      ensures var (row, v) := MessageAfter(FindMessage(old(Rows()), id), c, sendEnabled); verdict == v && messages == old(messages)[id := row]
      ensures At(h, if verdict == Raised then [] else todo[1..], Start, sendEnabled)
    {
      if id !in messages {
        verdict := ClaimMessage(h, todo, id, c, sendEnabled);
        return;
      }
      var existing := messages[id];
      if existing.status == Failed && existing.response.Some? && existing.response.value != "" {
        Act(h, c, Effect(Handler(todo, SendText(true), sendEnabled), NoWrite, None));
        verdict := DeliverResponse(h, todo, id, true, c, sendEnabled);
      } else {
        Act(h, c, Effect(Handler(todo[1..], Start, sendEnabled), NoWrite, None));
        assert messages == messages[id := existing];
        verdict := Duplicate;
      }
    }

    /** A message not seen before: insert its row, find its store, check the module. */
    method ClaimMessage(h: HandlerId, todo: seq<Item>, id: Id, c: Choice, sendEnabled: bool) returns (verdict: Verdict)
      requires Valid() && todo != [] && todo[0] == Message(id) && At(h, todo, Start, sendEnabled)
      requires id !in messages
      requires h == scope.h && c in scope.choices
      modifies this
      ensures scope == old(scope)
      ensures Valid() && comments == old(comments) && replies == old(replies)
      ensures var (row, v) := MessageAfter(None, c, sendEnabled); verdict == v && messages == old(messages)[id := row]
      ensures At(h, if verdict == Raised then [] else todo[1..], Start, sendEnabled)
    {
      Act(h, c, Effect(Handler(todo, InsertMessage, sendEnabled), NoWrite, None));
      messages := messages[id := MessageRow(Processing, None)];
      Act(h, c, Effect(Handler(todo, RouteMessage, sendEnabled), WriteMessage(id, messages[id]), None));
      verdict := RouteNewMessage(h, todo, id, c, sendEnabled);
      Overwrite(old(messages), id, MessageRow(Processing, None), MessageAfter(None, c, sendEnabled).0);
    }

    method RouteNewMessage(h: HandlerId, todo: seq<Item>, id: Id, c: Choice, sendEnabled: bool) returns (verdict: Verdict)
      requires Valid() && todo != [] && todo[0] == Message(id) && At(h, todo, RouteMessage, sendEnabled)
      requires id in messages && messages[id] == MessageRow(Processing, None)
      requires h == scope.h && c in scope.choices
      modifies this
      ensures scope == old(scope)
      ensures Valid() && comments == old(comments) && replies == old(replies)
      ensures var (row, v) := MessageAfter(None, c, sendEnabled); verdict == v && messages == old(messages)[id := row]
      ensures At(h, if verdict == Raised then [] else todo[1..], Start, sendEnabled)
    {
      if c.messageRoute == MessageRouted {
        Act(h, c, Effect(Handler(todo, Chat, sendEnabled), NoWrite, None));
        verdict := AnswerMessage(h, todo, id, c, sendEnabled);
      } else {
        verdict := RejectMessage(h, todo, id, c, sendEnabled);
      }
    }

    method RejectMessage(h: HandlerId, todo: seq<Item>, id: Id, c: Choice, sendEnabled: bool) returns (verdict: Verdict)
      requires Valid() && todo != [] && todo[0] == Message(id) && At(h, todo, RouteMessage, sendEnabled)
      requires id in messages && messages[id].status != Sent && c.messageRoute != MessageRouted
      requires h == scope.h && c in scope.choices
      requires messages[id] == MessageRow(Processing, None)
      modifies this
      ensures scope == old(scope)
      ensures Valid() && comments == old(comments) && replies == old(replies)
      ensures var (row, v) := MessageAfter(None, c, sendEnabled); verdict == v && messages == old(messages)[id := row]
      ensures At(h, if verdict == Raised then [] else todo[1..], Start, sendEnabled)
    {
      if c.messageRoute == MessageNoStore {
        messages := messages[id := messages[id].(status := UnmappedStore)];
        verdict := FailedItem;
      } else if c.messageRoute == MessageDisabled {
        messages := messages[id := messages[id].(status := ModuleDisabled)];
        verdict := Skipped;
      } else {
        messages := messages[id := messages[id].(status := Failed)];
        verdict := FailedItem;
      }
      Act(h, c, Effect(Handler(todo[1..], Start, sendEnabled), WriteMessage(id, messages[id]), None));
    }

    /** From `process_chat` on. */
    method AnswerMessage(h: HandlerId, todo: seq<Item>, id: Id, c: Choice, sendEnabled: bool) returns (verdict: Verdict)
      requires Valid() && todo != [] && todo[0] == Message(id) && At(h, todo, Chat, sendEnabled)
      requires id in messages && messages[id].status != Sent
      requires h == scope.h && c in scope.choices
      requires messages[id] == MessageRow(Processing, None)
      modifies this
      ensures scope == old(scope)
      ensures Valid() && comments == old(comments) && replies == old(replies)
      ensures verdict == ChatAnswered(c, sendEnabled).1 && messages == old(messages)[id := ChatAnswered(c, sendEnabled).0]
      ensures At(h, if verdict == Raised then [] else todo[1..], Start, sendEnabled)
    {
      if c.chat.None? {
        verdict := FailChat(h, todo, id, c, sendEnabled);
        return;
      }
      SentOnceSilent(messages, machine.log, ChatCall(id));
      Act(h, c, Effect(Handler(todo, SaveReply(c.chat.value), sendEnabled), NoWrite, Some(ChatCall(id))));
      SaveAnswer(h, todo, id, c, sendEnabled);
      verdict := DeliverResponse(h, todo, id, false, c, sendEnabled);
      Overwrite(old(messages), id, MessageRow(Ready, c.chat), DeliveredRow(MessageRow(Ready, c.chat), c, sendEnabled, false));
    }

    /** `process_chat` raised: roll back and mark the row failed, with no response to retry. */
    method FailChat(h: HandlerId, todo: seq<Item>, id: Id, c: Choice, sendEnabled: bool) returns (verdict: Verdict)
      requires Valid() && todo != [] && todo[0] == Message(id) && At(h, todo, Chat, sendEnabled)
      requires id in messages && messages[id].status != Sent && c.chat.None?
      requires h == scope.h && c in scope.choices
      requires messages[id] == MessageRow(Processing, None)
      modifies this
      ensures scope == old(scope)
      ensures Valid() && comments == old(comments) && replies == old(replies)
      ensures verdict == FailedItem && messages == old(messages)[id := MessageRow(Failed, None)]
      ensures At(h, todo[1..], Start, sendEnabled)
    {
      SentOnceSilent(messages, machine.log, ChatCall(id));
      SentOnceRow(messages, machine.log + [ChatCall(id)], id, messages[id].(status := Failed));
      messages := messages[id := messages[id].(status := Failed)];
      Act(h, c, Effect(Handler(todo[1..], Start, sendEnabled), WriteMessage(id, messages[id]), Some(ChatCall(id))));
      verdict := FailedItem;
    }

    method SaveAnswer(h: HandlerId, todo: seq<Item>, id: Id, c: Choice, sendEnabled: bool)
      requires Valid() && todo != [] && todo[0] == Message(id) && c.chat.Some? && At(h, todo, SaveReply(c.chat.value), sendEnabled)
      requires id in messages && messages[id].status != Sent
      requires h == scope.h && c in scope.choices
      modifies this
      ensures scope == old(scope)
      ensures Valid() && At(h, todo, SendText(false), sendEnabled)
      ensures messages == old(messages)[id := MessageRow(Ready, c.chat)] && comments == old(comments) && replies == old(replies)
    {
      messages := messages[id := MessageRow(Ready, c.chat)];
      Act(h, c, Effect(Handler(todo, SendText(false), sendEnabled), WriteMessage(id, messages[id]), None));
    }

    /** `ensure_public_comment_reply`; `c` decides the outcome of its own call. */
    method EnsurePublicReply(h: HandlerId, todo: seq<Item>, id: Id, c: Choice, sendEnabled: bool) returns (raised: bool)
      requires Valid() && todo != [] && todo[0] == Comment(id) && At(h, todo, LookupReply, sendEnabled)
      requires h == scope.h && c in scope.choices
      modifies this
      ensures scope == old(scope)
      ensures Valid() && comments == old(comments) && messages == old(messages)
      ensures raised == ReplyRaises(old(replies), id, c, sendEnabled) && replies == RepliesAfter(old(replies), id, c, sendEnabled)
      ensures At(h, if raised then [] else todo[1..], Start, sendEnabled)
    {
      ghost var next := Handler(todo[1..], Start, sendEnabled);
      raised := false;
      if id in replies {
        Act(h, c, Effect(next, NoWrite, None));
        return;
      }
      Act(h, c, Effect(Handler(todo, InsertReply, sendEnabled), NoWrite, None));
      raised := NewPublicReply(h, todo, id, c, sendEnabled);
    }

    method NewPublicReply(h: HandlerId, todo: seq<Item>, id: Id, c: Choice, sendEnabled: bool) returns (raised: bool)
      requires Valid() && todo != [] && todo[0] == Comment(id) && At(h, todo, InsertReply, sendEnabled) && id !in replies
      requires h == scope.h && c in scope.choices
      modifies this
      ensures scope == old(scope)
      ensures Valid() && comments == old(comments) && messages == old(messages)
      ensures raised == ReplyRaises(old(replies), id, c, sendEnabled) && replies == RepliesAfter(old(replies), id, c, sendEnabled)
      ensures At(h, if raised then [] else todo[1..], Start, sendEnabled)
    {
      replies := replies[id := ReplyProcessing];
      Act(h, c, Effect(Handler(todo, SendReply, sendEnabled), WriteReply(id, ReplyProcessing), None));
      Overwrite(old(replies), id, ReplyProcessing, RepliesAfter(old(replies), id, c, sendEnabled)[id]);
      if sendEnabled {
        raised := SendPublicReply(h, todo, id, c);
      } else {
        raised := false;
        replies := replies[id := ReplySimulated];
        Act(h, c, Effect(Handler(todo[1..], Start, sendEnabled), WriteReply(id, ReplySimulated), None));
      }
    }

    method SendPublicReply(h: HandlerId, todo: seq<Item>, id: Id, c: Choice) returns (raised: bool)
      requires Valid() && todo != [] && todo[0] == Comment(id) && At(h, todo, SendReply, true)
      requires id in replies && replies[id] == ReplyProcessing
      requires h == scope.h && c in scope.choices
      modifies this
      ensures scope == old(scope)
      ensures Valid() && comments == old(comments) && messages == old(messages)
      ensures raised == (c.outcome == Crashed)
      ensures replies == old(replies)[id := match c.outcome case Delivered => ReplySent case Refused => ReplyFailed case Crashed => ReplyProcessing]
      ensures At(h, if raised then [] else todo[1..], Start, true)
    {
      SentOnceSilent(messages, machine.log, PublicCall(id, c.outcome));
      Act(h, c, Effect(Handler(todo, RecordReply(c.outcome), true), NoWrite, Some(PublicCall(id, c.outcome))));
      raised := c.outcome == Crashed;
      if raised {
        Act(h, c, Effect(Handler([], Start, true), NoWrite, None));
        assert replies == replies[id := ReplyProcessing];
      } else {
        replies := replies[id := if c.outcome == Delivered then ReplySent else ReplyFailed];
        Act(h, c, Effect(Handler(todo[1..], Start, true), WriteReply(id, replies[id]), None));
      }
    }

    /** `deliver_comment_response`. */
    method DeliverCommentResponse(h: HandlerId, todo: seq<Item>, id: Id, c: Choice, sendEnabled: bool) returns (delivered: bool, raised: bool)
      requires Valid() && todo != [] && todo[0] == Comment(id) && At(h, todo, SendPrivate, sendEnabled)
      requires id in comments && comments[id] == CommentReady
      requires h == scope.h && c in scope.choices
      modifies this
      ensures scope == old(scope)
      ensures Valid() && messages == old(messages) && replies == old(replies)
      ensures delivered == (!sendEnabled || c.outcome == Delivered) && raised == (sendEnabled && c.outcome == Crashed)
      ensures comments == old(comments)[id := PrivateStatus(c, sendEnabled)]
      ensures delivered ==> At(h, todo, LookupReply, sendEnabled)
      ensures !delivered ==> At(h, if raised then [] else todo[1..], Start, sendEnabled)
    {
      delivered, raised := false, false;
      if !sendEnabled {
        comments := comments[id := CommentSimulated];
        Act(h, c, Effect(Handler(todo, LookupReply, sendEnabled), WriteComment(id, CommentSimulated), None));
        return true, false;
      }
      SentOnceSilent(messages, machine.log, PrivateCall(id, c.outcome));
      Act(h, c, Effect(Handler(todo, RecordPrivate(c.outcome), true), NoWrite, Some(PrivateCall(id, c.outcome))));
      match c.outcome {
        case Delivered =>
          comments := comments[id := CommentSent];
          delivered := true;
          Act(h, c, Effect(Handler(todo, LookupReply, true), WriteComment(id, CommentSent), None));
        case Refused =>
          comments := comments[id := CommentFailed];
          Act(h, c, Effect(Handler(todo[1..], Start, true), WriteComment(id, CommentFailed), None));
        case Crashed =>
          raised := true;
          Act(h, c, Effect(Handler([], Start, true), NoWrite, None));
          assert comments == comments[id := CommentReady];
      }
    }

    method HandleComment(h: HandlerId, todo: seq<Item>, id: Id, c: Choice, public: Choice, sendEnabled: bool) returns (verdict: Verdict)
      requires Valid() && todo != [] && todo[0] == Comment(id) && At(h, todo, Start, sendEnabled)
      requires h == scope.h && c in scope.choices && public in scope.choices
      modifies this
      ensures scope == old(scope)
      ensures Valid() && (Rows(), verdict) == CommentAfter(old(Rows()), id, c, public, sendEnabled)
      ensures At(h, if verdict == Raised then [] else todo[1..], Start, sendEnabled)
    {
      if id !in comments {
        verdict := ClaimComment(h, todo, id, c, public, sendEnabled);
        return;
      }
      if comments[id] == CommentSent {
        Act(h, c, Effect(Handler(todo, LookupReply, sendEnabled), NoWrite, None));
        var raised := EnsurePublicReply(h, todo, id, public, sendEnabled);
        return if raised then Raised else Duplicate;
      }
      Act(h, c, Effect(Handler(todo[1..], Start, sendEnabled), NoWrite, None));
      verdict := Duplicate;
    }

    /** A comment not seen before: insert its row, then find its store, module, intent and product. */
    method ClaimComment(h: HandlerId, todo: seq<Item>, id: Id, c: Choice, public: Choice, sendEnabled: bool) returns (verdict: Verdict)
      requires Valid() && todo != [] && todo[0] == Comment(id) && At(h, todo, Start, sendEnabled) && id !in comments
      requires h == scope.h && c in scope.choices && public in scope.choices
      modifies this
      ensures scope == old(scope)
      ensures Valid() && (Rows(), verdict) == CommentAfter(old(Rows()), id, c, public, sendEnabled)
      ensures At(h, if verdict == Raised then [] else todo[1..], Start, sendEnabled)
    {
      Act(h, c, Effect(Handler(todo, InsertComment, sendEnabled), NoWrite, None));
      comments := comments[id := CommentProcessing];
      Act(h, c, Effect(Handler(todo, RouteComment, sendEnabled), WriteComment(id, CommentProcessing), None));
      verdict := RouteNewComment(h, todo, id, c, public, sendEnabled, old(comments));
    }

    method RouteNewComment(h: HandlerId, todo: seq<Item>, id: Id, c: Choice, public: Choice, sendEnabled: bool, ghost before: map<Id, CommentStatus>)
      returns (verdict: Verdict)
      requires Valid() && todo != [] && todo[0] == Comment(id) && At(h, todo, RouteComment, sendEnabled)
      requires comments == before[id := CommentProcessing] && id !in before
      requires h == scope.h && c in scope.choices && public in scope.choices
      modifies this
      ensures scope == old(scope)
      ensures Valid() && (Rows(), verdict) == CommentAfter(Tables(old(messages), before, old(replies)), id, c, public, sendEnabled)
      ensures At(h, if verdict == Raised then [] else todo[1..], Start, sendEnabled)
    {
      if c.commentRoute != CommentRouted {
        Overwrite(before, id, CommentProcessing, RejectedComment(c.commentRoute).0);
        verdict := RejectComment(h, todo, id, c, sendEnabled);
        return;
      }
      comments := comments[id := CommentReady];
      Act(h, c, Effect(Handler(todo, SendPrivate, sendEnabled), WriteComment(id, CommentReady), None));
      Overwrite(before, id, CommentProcessing, CommentReady);
      Overwrite(before, id, CommentReady, PrivateStatus(c, sendEnabled));
      verdict := AnswerComment(h, todo, id, c, public, sendEnabled);
    }

    method RejectComment(h: HandlerId, todo: seq<Item>, id: Id, c: Choice, sendEnabled: bool) returns (verdict: Verdict)
      requires Valid() && todo != [] && todo[0] == Comment(id) && At(h, todo, RouteComment, sendEnabled)
      requires id in comments && comments[id] == CommentProcessing && c.commentRoute != CommentRouted
      requires h == scope.h && c in scope.choices
      modifies this
      ensures scope == old(scope)
      ensures Valid() && messages == old(messages) && replies == old(replies)
      ensures var (status, v) := RejectedComment(c.commentRoute); verdict == v && comments == old(comments)[id := status]
      ensures At(h, if verdict == Raised then [] else todo[1..], Start, sendEnabled)
    {
      if c.commentRoute == CommentRouteError {
        Act(h, c, Effect(Handler([], Start, sendEnabled), NoWrite, None));
        assert comments == comments[id := CommentProcessing];
        return Raised;
      }
      match c.commentRoute {
        case CommentNoStore => comments := comments[id := CommentUnmappedStore];
        case CommentDisabled => comments := comments[id := CommentModuleDisabled];
        case NotAPriceComment => comments := comments[id := Ignored];
        case NoMediaMapping => comments := comments[id := Unmapped];
      }
      Act(h, c, Effect(Handler(todo[1..], Start, sendEnabled), WriteComment(id, comments[id]), None));
      verdict := if c.commentRoute == CommentNoStore then FailedItem else Skipped;
    }

    method AnswerComment(h: HandlerId, todo: seq<Item>, id: Id, c: Choice, public: Choice, sendEnabled: bool) returns (verdict: Verdict)
      requires Valid() && todo != [] && todo[0] == Comment(id) && At(h, todo, SendPrivate, sendEnabled)
      requires id in comments && comments[id] == CommentReady
      requires h == scope.h && c in scope.choices && public in scope.choices
      modifies this
      ensures scope == old(scope)
      ensures Valid() && (Rows(), verdict) == AnsweredComment(old(Rows()), id, c, public, sendEnabled)
      ensures At(h, if verdict == Raised then [] else todo[1..], Start, sendEnabled)
    {
      var delivered, raised := DeliverCommentResponse(h, todo, id, c, sendEnabled);
      if raised {
        return Raised;
      }
      if delivered {
        raised := EnsurePublicReply(h, todo, id, public, sendEnabled);
      }
      return if raised then Raised else if delivered then Processed else FailedItem;
    }

    /** One item of the batch. */
    method HandleItem(h: HandlerId, todo: seq<Item>, c: Choice, public: Choice, sendEnabled: bool) returns (verdict: Verdict)
      requires Valid() && todo != [] && At(h, todo, Start, sendEnabled)
      requires h == scope.h && c in scope.choices && public in scope.choices
      modifies this
      ensures scope == old(scope)
      ensures Valid() && (Rows(), verdict) == ServeItem(old(Rows()), todo[0], c, public, sendEnabled)
      ensures At(h, if verdict == Raised then [] else todo[1..], Start, sendEnabled)
    {
      match todo[0] {
        case Message(id) => verdict := HandleMessage(h, todo, id, c, sendEnabled);
        case Comment(id) => verdict := HandleComment(h, todo, id, c, public, sendEnabled);
      }
    }

    /** One turn of the loop: an item and its count. */
    method ServeNext(h: HandlerId, batch: seq<Item>, choices: seq<Choice>, publics: seq<Choice>, sendEnabled: bool, i: nat,
                     summary: Summary, ghost before: Tables) returns (counted: Summary, raised: bool)
      requires Valid() && i < |batch| == |choices| == |publics| && At(h, batch[i..], Start, sendEnabled)
      requires h == scope.h && choices[i] in scope.choices && publics[i] in scope.choices
      requires (Rows(), summary, false) == Serve(before, batch[..i], choices[..i], publics[..i], sendEnabled)
      modifies this
      ensures scope == old(scope)
      ensures Valid() && At(h, if raised then [] else batch[i + 1..], Start, sendEnabled)
      ensures (Rows(), counted, raised) == Serve(before, batch[..i + 1], choices[..i + 1], publics[..i + 1], sendEnabled)
      ensures counted.received == summary.received
    {
      ServeOneMore(before, batch, choices, publics, sendEnabled, i);
      assert batch[i..][1..] == batch[i + 1..];
      var verdict := HandleItem(h, batch[i..], choices[i], publics[i], sendEnabled);
      raised := verdict == Raised;
      counted := Tally(summary, verdict);
    }

    /** One request, run without another in between. `choices` and `publics` say what the surroundings do for
        each item. The handler finishes its batch or stops at an exception that is not handled. */
    method ReceiveWebhook(h: HandlerId, batch: seq<Item>, choices: seq<Choice>, publics: seq<Choice>, sendEnabled: bool)
      returns (summary: Summary, raised: bool)
      requires Valid() && h !in machine.handlers && |choices| == |publics| == |batch|
      modifies this
      ensures Valid() && At(h, [], Start, sendEnabled)
      ensures (Rows(), summary.(received := 0), raised) == Serve(old(Rows()), batch, choices, publics, sendEnabled)
      ensures summary.received == |batch|
      ensures OnlyActs(old(schedule) + [Arrive(h, batch, sendEnabled)], schedule, h, (set c | c in choices) + (set c | c in publics))
    {
      summary, raised := Summary(0, 0, 0, 0), false;
      ghost var allowed := (set c | c in choices) + (set c | c in publics);
      ActArrive(h, batch, sendEnabled, allowed);
      var i := 0;
      while i < |batch| && !raised
        invariant scope == Scope(old(schedule) + [Arrive(h, batch, sendEnabled)], h, allowed)
        invariant summary.received == 0
        invariant 0 <= i <= |batch| && Valid() && At(h, if raised then [] else batch[i..], Start, sendEnabled)
        invariant (Rows(), summary, raised) == Serve(old(Rows()), batch[..i], choices[..i], publics[..i], sendEnabled)
      {
        summary, raised := ServeNext(h, batch, choices, publics, sendEnabled, i, summary, old(Rows()));
        i := i + 1;
      }
      ServeStops(old(Rows()), batch, choices, publics, sendEnabled, i);
      summary := summary.(received := |batch|);
    }
  }

  lemma ServeOneMore(t: Tables, batch: seq<Item>, choices: seq<Choice>, publics: seq<Choice>, sendEnabled: bool, i: nat)
    requires |choices| == |publics| == |batch| && i < |batch|
    ensures var (t', summary, raised) := Serve(t, batch[..i], choices[..i], publics[..i], sendEnabled);
            Serve(t, batch[..i + 1], choices[..i + 1], publics[..i + 1], sendEnabled)
            == if raised then (t', summary, true)
               else var (t'', verdict) := ServeItem(t', batch[i], choices[i], publics[i], sendEnabled);
                    (t'', Tally(summary, verdict), verdict == Raised)
  {
    assert batch[..i + 1][..i] == batch[..i] && choices[..i + 1][..i] == choices[..i] && publics[..i + 1][..i] == publics[..i];
  }

  lemma {:induction false} ServeStops(t: Tables, batch: seq<Item>, choices: seq<Choice>, publics: seq<Choice>, sendEnabled: bool, i: nat)
    requires |choices| == |publics| == |batch| && i <= |batch|
    requires i == |batch| || Serve(t, batch[..i], choices[..i], publics[..i], sendEnabled).2
    ensures Serve(t, batch, choices, publics, sendEnabled) == Serve(t, batch[..i], choices[..i], publics[..i], sendEnabled)
    decreases |batch| - i
  {
    if i == |batch| {
      assert batch[..i] == batch && choices[..i] == choices && publics[..i] == publics;
    } else {
      ServeOneMore(t, batch, choices, publics, sendEnabled, i);
      ServeStops(t, batch, choices, publics, sendEnabled, i + 1);
    }
  }

  /** The verdicts of the items served, in order; an exception that is not handled is the last. */
  function Outcomes(t: Tables, batch: seq<Item>, choices: seq<Choice>, publics: seq<Choice>, sendEnabled: bool): seq<Verdict>
    requires |choices| == |publics| == |batch|
  {
    if batch == [] then []
    else
      var n := |batch| - 1;
      var (t', summary, raised) := Serve(t, batch[..n], choices[..n], publics[..n], sendEnabled);
      var before := Outcomes(t, batch[..n], choices[..n], publics[..n], sendEnabled);
      if raised then before else before + [ServeItem(t', batch[n], choices[n], publics[n], sendEnabled).1]
  }

  function Count(verdicts: seq<Verdict>, v: Verdict): nat {
    if verdicts == [] then 0 else Count(verdicts[..|verdicts| - 1], v) + if verdicts[|verdicts| - 1] == v then 1 else 0
  }

  lemma CountOneMore(verdicts: seq<Verdict>, last: Verdict, v: Verdict)
    ensures Count(verdicts + [last], v) == Count(verdicts, v) + if last == v then 1 else 0
  {
    assert (verdicts + [last])[..|verdicts|] == verdicts;
  }

  /** The summary counts the verdicts of the served items. */
  ghost predicate Counts(s: Summary, verdicts: seq<Verdict>) {
    && s.processed == Count(verdicts, Processed) && s.duplicates == Count(verdicts, Duplicate) && s.failed == Count(verdicts, FailedItem)
    && s.processed + s.duplicates + s.failed + Count(verdicts, Skipped) + Count(verdicts, Raised) == |verdicts|
  }

  lemma TallyCounts(s: Summary, verdicts: seq<Verdict>, last: Verdict)
    requires Counts(s, verdicts)
    ensures Counts(Tally(s, last), verdicts + [last])
  {
    forall v {
      CountOneMore(verdicts, last, v);
    }
  }

  /** Every item served is counted once; only a batch that raised has items left over, and the one that raised is the
      last one served. */
  lemma {:induction false} SummaryAddsUp(t: Tables, batch: seq<Item>, choices: seq<Choice>, publics: seq<Choice>, sendEnabled: bool)
    requires |choices| == |publics| == |batch|
    ensures var (t', s, raised) := Serve(t, batch, choices, publics, sendEnabled);
            var outcomes := Outcomes(t, batch, choices, publics, sendEnabled);
            && Counts(s, outcomes) && Count(outcomes, Raised) == (if raised then 1 else 0)
            && |outcomes| <= |batch| && (!raised ==> |outcomes| == |batch|)
            && (raised ==> outcomes != [] && outcomes[|outcomes| - 1] == Raised)
    decreases |batch|
  {
    if batch != [] {
      var n := |batch| - 1;
      SummaryAddsUp(t, batch[..n], choices[..n], publics[..n], sendEnabled);
      var (t', s, raised) := Serve(t, batch[..n], choices[..n], publics[..n], sendEnabled);
      if !raised {
        var verdict := ServeItem(t', batch[n], choices[n], publics[n], sendEnabled).1;
        TallyCounts(s, Outcomes(t, batch[..n], choices[..n], publics[..n], sendEnabled), verdict);
        CountOneMore(Outcomes(t, batch[..n], choices[..n], publics[..n], sendEnabled), verdict, Raised);
      }
    }
  }

  /** The item has its row, and no later delivery would try to send anything for it. */
  predicate Settled(t: Tables, item: Item) {
    match item
    case Message(id) => id in t.messages && !Retryable(t.messages[id])
    case Comment(id) => id in t.comments && (t.comments[id] == CommentSent ==> id in t.replies)
  }

  /** Serving stores a reply that could not be sent: the only case in which a redelivery tries again. Comments are
      never tried again. */
  predicate AwaitsRetry(t: Tables, item: Item, c: Choice, sendEnabled: bool) {
    && item.Message? && sendEnabled && c.outcome != Delivered
    && match FindMessage(t, item.id)
       case Some(row) => Retryable(row)
       case None => c.messageRoute == MessageRouted && c.chat.Some? && c.chat.value != ""
  }

  lemma ServingSettles(t: Tables, item: Item, c: Choice, public: Choice, sendEnabled: bool)
    ensures Settled(ServeItem(t, item, c, public, sendEnabled).0, item) <==> !AwaitsRetry(t, item, c, sendEnabled)
  {
  }

  predicate SameRows(t: Tables, t': Tables, item: Item) {
    match item
    case Message(id) => id in t.messages && id in t'.messages && t'.messages[id] == t.messages[id]
    case Comment(id) =>
      && id in t.comments && id in t'.comments && t'.comments[id] == t.comments[id]
      && (id in t.replies <==> id in t'.replies) && (id in t.replies ==> t'.replies[id] == t.replies[id])
  }

  lemma ItemKeepsSettled(t: Tables, item: Item, served: Item, c: Choice, public: Choice, sendEnabled: bool)
    requires Settled(t, item)
    ensures var t' := ServeItem(t, served, c, public, sendEnabled).0; Settled(t', item) && SameRows(t, t', item)
  {
  }

  lemma {:induction false} BatchKeepsSettled(t: Tables, item: Item, batch: seq<Item>, choices: seq<Choice>, publics: seq<Choice>, sendEnabled: bool)
    requires Settled(t, item) && |choices| == |publics| == |batch|
    ensures var t' := Serve(t, batch, choices, publics, sendEnabled).0; Settled(t', item) && SameRows(t, t', item)
    decreases |batch|
  {
    if batch != [] {
      var n := |batch| - 1;
      BatchKeepsSettled(t, item, batch[..n], choices[..n], publics[..n], sendEnabled);
      ItemKeepsSettled(Serve(t, batch[..n], choices[..n], publics[..n], sendEnabled).0, item, batch[n], choices[n], publics[n], sendEnabled);
    }
  }

  datatype Request = Request(batch: seq<Item>, choices: seq<Choice>, publics: seq<Choice>, sendEnabled: bool) {
    predicate Complete() {
      |choices| == |publics| == |batch|
    }
  }

  /** Any number of requests, one after another. */
  function ServeAll(t: Tables, requests: seq<Request>): Tables
    requires forall r :: r in requests ==> r.Complete()
  {
    if requests == [] then t
    else
      var r := requests[|requests| - 1];
      assert r in requests && r.Complete();
      Serve(ServeAll(t, requests[..|requests| - 1]), r.batch, r.choices, r.publics, r.sendEnabled).0
  }

  lemma {:induction false} RequestsKeepSettled(t: Tables, item: Item, requests: seq<Request>)
    requires Settled(t, item) && forall r :: r in requests ==> r.Complete()
    ensures Settled(ServeAll(t, requests), item) && SameRows(t, ServeAll(t, requests), item)
    decreases |requests|
  {
    if requests != [] {
      var r := requests[|requests| - 1];
      assert r in requests;
      RequestsKeepSettled(t, item, requests[..|requests| - 1]);
      BatchKeepsSettled(ServeAll(t, requests[..|requests| - 1]), item, r.batch, r.choices, r.publics, r.sendEnabled);
    }
  }

  lemma SettledIsDuplicate(t: Tables, item: Item, c: Choice, public: Choice, sendEnabled: bool)
    ensures ServeItem(t, item, c, public, sendEnabled) == (t, Duplicate) <== Settled(t, item)
    ensures item.Message? ==> (ServeItem(t, item, c, public, sendEnabled).1 == Duplicate <==> Settled(t, item))
  {
    if item.Message? && item.id in t.messages {
      assert t.messages == t.messages[item.id := t.messages[item.id]];
    }
  }

  /** Once an item has been served, then after any further requests, whatever they contain and whatever their
      surroundings decide, it is a duplicate that changes nothing and its rows are as they were; the one exception,
      which a message redelivered at once always shows, is a stored reply that could not be sent. */
  lemma RedeliveryIsDuplicate(t: Tables, item: Item, c: Choice, public: Choice, sendEnabled: bool,
                              requests: seq<Request>, d: Choice, later: Choice, sendEnabled': bool)
    requires forall r :: r in requests ==> r.Complete()
    ensures var t1 := ServeItem(t, item, c, public, sendEnabled).0;
            var t2 := ServeAll(t1, requests);
            if AwaitsRetry(t, item, c, sendEnabled) then ServeItem(t1, item, d, later, sendEnabled').1 != Duplicate
            else ServeItem(t2, item, d, later, sendEnabled') == (t2, Duplicate) && SameRows(t1, t2, item)
  {
    var t1 := ServeItem(t, item, c, public, sendEnabled).0;
    ServingSettles(t, item, c, public, sendEnabled);
    if AwaitsRetry(t, item, c, sendEnabled) {
      SettledIsDuplicate(t1, item, d, later, sendEnabled');
    } else {
      RequestsKeepSettled(t1, item, requests);
      SettledIsDuplicate(ServeAll(t1, requests), item, d, later, sendEnabled');
    }
  }

  /** A comment has its private reply, after whatever requests follow its first delivery, exactly when at that delivery
      it was routed to a product, sending was enabled and Meta accepted the reply; otherwise it stays unanswered for
      good, also when it was refused or its handling ended in an exception. */
  lemma CommentAnsweredExactly(t: Tables, id: Id, c: Choice, public: Choice, sendEnabled: bool, requests: seq<Request>)
    requires id !in t.comments && forall r :: r in requests ==> r.Complete()
    ensures var later := ServeAll(ServeItem(t, Comment(id), c, public, sendEnabled).0, requests).comments;
            id in later && (later[id] == CommentSent <==> c.commentRoute == CommentRouted && sendEnabled && c.outcome == Delivered)
  {
    ServingSettles(t, Comment(id), c, public, sendEnabled);
    RequestsKeepSettled(ServeItem(t, Comment(id), c, public, sendEnabled).0, Comment(id), requests);
  }

  /** A message seen for the first time: what its row says for good, unless its stored reply awaits a retry, and how the
      delivery is counted. */
  lemma MessageAnsweredExactly(t: Tables, id: Id, c: Choice, public: Choice, sendEnabled: bool, requests: seq<Request>)
    requires id !in t.messages && (forall r :: r in requests ==> r.Complete())
    requires !(c.messageRoute == MessageRouted && c.chat.Some? && c.chat.value != "" && sendEnabled && c.outcome != Delivered)
    ensures var later := ServeAll(ServeItem(t, Message(id), c, public, sendEnabled).0, requests).messages;
            && id in later && later[id].response == (if c.messageRoute == MessageRouted then c.chat else None)
            && (later[id].status == UnmappedStore <==> c.messageRoute == MessageNoStore)
            && (later[id].status == ModuleDisabled <==> c.messageRoute == MessageDisabled)
            && (later[id].status == Simulated <==> c.messageRoute == MessageRouted && c.chat.Some? && !sendEnabled)
            && (later[id].status == Sent <==> c.messageRoute == MessageRouted && c.chat.Some? && sendEnabled && c.outcome == Delivered)
            && (later[id].status in {UnmappedStore, ModuleDisabled, Simulated, Sent, Failed})
    ensures ServeItem(t, Message(id), c, public, sendEnabled).1
            == if c.messageRoute == MessageDisabled then Skipped
               else if c.messageRoute == MessageRouted && c.chat.Some? && (!sendEnabled || c.outcome == Delivered) then Processed
               else FailedItem
  {
    ServingSettles(t, Message(id), c, public, sendEnabled);
    RequestsKeepSettled(ServeItem(t, Message(id), c, public, sendEnabled).0, Message(id), requests);
  }

  /** A stored reply is tried again at each redelivery until it is sent or sending is off; then its row stays. */
  lemma RetryAnswersExactly(t: Tables, id: Id, c: Choice, public: Choice, sendEnabled: bool, requests: seq<Request>)
    requires id in t.messages && t.messages[id].status == Failed && t.messages[id].response.Some? && t.messages[id].response.value != ""
    requires forall r :: r in requests ==> r.Complete()
    ensures var (t', verdict) := ServeItem(t, Message(id), c, public, sendEnabled);
            var later := ServeAll(t', requests).messages;
            if sendEnabled && c.outcome != Delivered then t' == t && verdict == (if c.outcome == Crashed then Raised else FailedItem)
            else
              && verdict == Processed && id in later
              && later[id] == MessageRow(if sendEnabled then Sent else Simulated, t.messages[id].response)
  {
    var t' := ServeItem(t, Message(id), c, public, sendEnabled).0;
    ServingSettles(t, Message(id), c, public, sendEnabled);
    if sendEnabled && c.outcome != Delivered {
      assert t'.messages == t.messages;
    } else {
      RequestsKeepSettled(t', Message(id), requests);
    }
  }

  /** A comment seen for the first time: what its rows say for good, and how the delivery is counted. The public reply
      is attempted, once, exactly when the private one was accepted or sending is off. */
  lemma CommentRowsExactly(t: Tables, id: Id, c: Choice, public: Choice, sendEnabled: bool, requests: seq<Request>)
    requires id !in t.comments && id !in t.replies && forall r :: r in requests ==> r.Complete()
    ensures var later := ServeAll(ServeItem(t, Comment(id), c, public, sendEnabled).0, requests);
            && id in later.comments
            && (later.comments[id] == CommentUnmappedStore <==> c.commentRoute == CommentNoStore)
            && (later.comments[id] == CommentModuleDisabled <==> c.commentRoute == CommentDisabled)
            && (later.comments[id] == Ignored <==> c.commentRoute == NotAPriceComment)
            && (later.comments[id] == Unmapped <==> c.commentRoute == NoMediaMapping)
            && (later.comments[id] == CommentProcessing <==> c.commentRoute == CommentRouteError)
            && (later.comments[id] == CommentSimulated <==> c.commentRoute == CommentRouted && !sendEnabled)
            && (later.comments[id] == CommentFailed <==> c.commentRoute == CommentRouted && sendEnabled && c.outcome == Refused)
            && (id in later.replies <==> c.commentRoute == CommentRouted && (!sendEnabled || c.outcome == Delivered))
            && (id in later.replies ==>
                  && (later.replies[id] == ReplySimulated <==> !sendEnabled)
                  && (later.replies[id] == ReplySent <==> sendEnabled && public.outcome == Delivered)
                  && (later.replies[id] == ReplyFailed <==> sendEnabled && public.outcome == Refused))
    ensures ServeItem(t, Comment(id), c, public, sendEnabled).1
            == match c.commentRoute
               case CommentRouteError => Raised
               case CommentNoStore => FailedItem
               case CommentRouted =>
                 if !sendEnabled || (c.outcome == Delivered && public.outcome != Crashed) then Processed
                 else if c.outcome == Refused then FailedItem else Raised
               case _ => Skipped
  {
    ServingSettles(t, Comment(id), c, public, sendEnabled);
    RequestsKeepSettled(ServeItem(t, Comment(id), c, public, sendEnabled).0, Comment(id), requests);
  }

  /** What every object in a valid state owes to the machine: at most one `process_chat` per message, at most
      one private and one public reply call per comment, no public reply without an accepted private one, and an
      accepted call behind every row that says a message or a reply was sent. */
  lemma ValidIsSafe(w: InstagramWebhook, r: Resource)
    requires w.Valid()
    ensures Uses(w.machine.log, r) <= 1 && PublicFollowsPrivate(w.machine.log)
    ensures forall id :: Recorded(w.machine.log, id) <= 1
    ensures forall id :: id in w.messages && w.messages[id].status == Sent ==> TextCall(id, Delivered) in w.machine.log
    ensures forall id :: id in w.replies && w.replies[id] == ReplySent ==> PublicCall(id, Delivered) in w.machine.log
  {
    RunIsExec(w.schedule, w.states, |w.schedule|);
    assert w.schedule[..|w.schedule|] == w.schedule;
    AtMostOnce(w.schedule, r);
    PublicReplyFollowsPrivate(w.schedule);
    SentRowsAreReal(w.schedule, "");
  }
}
