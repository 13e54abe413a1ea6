/** Concurrent webhook handlers over the shared event tables (app/instagram.py).
    A handler is a program counter over its batch; every database commit and every call to Meta is one step,
    so handlers may interleave, stop for ever, or crash between any two of them. */
module InstagramInterleaving {
  import opened Options

  type Id = string
  type HandlerId = int

  datatype MessageStatus = Processing | UnmappedStore | ModuleDisabled | Ready | Sent | Failed | Simulated
  datatype MessageRow = MessageRow(status: MessageStatus, response: Option<string>)

  datatype CommentStatus =
    | CommentProcessing | CommentUnmappedStore | CommentModuleDisabled | Ignored | Unmapped
    | CommentReady | CommentSent | CommentFailed | CommentSimulated
  datatype ReplyStatus = ReplyProcessing | ReplySent | ReplyFailed | ReplySimulated

  /** A call to Meta succeeds, fails in a way the code expects, or raises something else. */
  datatype Outcome = Delivered | Refused | Crashed

  datatype Item = Message(id: Id) | Comment(id: Id)

  datatype Pc =
    | Start
    | InsertMessage | RouteMessage | Chat | SaveReply(reply: string) | SendText(retry: bool) | RecordText(retry: bool, outcome: Outcome)
    | InsertComment | RouteComment | SendPrivate | RecordPrivate(outcome: Outcome)
    | LookupReply | InsertReply | SendReply | RecordReply(outcome: Outcome)

  datatype Handler = Handler(todo: seq<Item>, pc: Pc, sendEnabled: bool)

  datatype Call =
    | ChatCall(id: Id)
    | TextCall(id: Id, outcome: Outcome)
    | TextRecorded(id: Id)
    | PrivateCall(id: Id, outcome: Outcome)
    | PublicCall(id: Id, outcome: Outcome)

  datatype State = State(
    messages: map<Id, MessageRow>, comments: map<Id, CommentStatus>, replies: map<Id, ReplyStatus>,
    handlers: map<HandlerId, Handler>, log: seq<Call>)

  datatype MessageRoute = MessageRouted | MessageNoStore | MessageDisabled | MessageRouteError
  datatype CommentRoute = CommentRouted | CommentNoStore | CommentDisabled | NotAPriceComment | NoMediaMapping | CommentRouteError

  /** What the surroundings decide at a step; `chat` is absent when `process_chat` raises. */
  datatype Choice = Choice(messageRoute: MessageRoute, commentRoute: CommentRoute, chat: Option<string>, outcome: Outcome)

  datatype Action = Arrive(h: HandlerId, batch: seq<Item>, sendEnabled: bool) | Do(h: HandlerId, choice: Choice)

  const EMPTY := State(map[], map[], map[], map[], [])

  datatype Write = NoWrite | WriteMessage(id: Id, message: MessageRow) | WriteComment(id: Id, comment: CommentStatus) | WriteReply(id: Id, reply: ReplyStatus)

  /** One atomic step of a handler: where it goes, the row it commits, the call it makes. */
  datatype Effect = Effect(handler: Handler, write: Write, call: Option<Call>)

  function Goto(hd: Handler, pc: Pc, write: Write, call: Option<Call>): Effect {
    Effect(hd.(pc := pc), write, call)
  }

  function NextItem(hd: Handler, write: Write, call: Option<Call>): Effect
    requires hd.todo != []
  {
    Effect(hd.(todo := hd.todo[1..], pc := Start), write, call)
  }

  /** An exception nobody catches ends the request. */
  function Die(hd: Handler): Effect {
    Effect(hd.(todo := [], pc := Start), NoWrite, None)
  }

  /** UPDATE of the status of one event row. */
  function SetMessage(s: State, id: Id, status: MessageStatus): Write {
    if id in s.messages then WriteMessage(id, s.messages[id].(status := status)) else NoWrite
  }

  function MessageEffect(s: State, hd: Handler, id: Id, c: Choice): Effect
    requires hd.todo != []
  {
    match hd.pc
    case Start =>
      if id !in s.messages then Goto(hd, InsertMessage, NoWrite, None)
      else if s.messages[id].status == Failed && s.messages[id].response.Some? && s.messages[id].response.value != ""
      then Goto(hd, SendText(true), NoWrite, None)
      else NextItem(hd, NoWrite, None)
    case InsertMessage =>
      if id in s.messages then NextItem(hd, NoWrite, None)
      else Goto(hd, RouteMessage, WriteMessage(id, MessageRow(Processing, None)), None)
    case RouteMessage =>
      (match c.messageRoute
       case MessageRouted => Goto(hd, Chat, NoWrite, None)
       case MessageNoStore => NextItem(hd, SetMessage(s, id, UnmappedStore), None)
       case MessageDisabled => NextItem(hd, SetMessage(s, id, ModuleDisabled), None)
       case MessageRouteError => NextItem(hd, SetMessage(s, id, Failed), None))
    case Chat =>
      if c.chat.Some? then Goto(hd, SaveReply(c.chat.value), NoWrite, Some(ChatCall(id)))
      else NextItem(hd, SetMessage(s, id, Failed), Some(ChatCall(id)))
    case SaveReply(reply) => Goto(hd, SendText(false), WriteMessage(id, MessageRow(Ready, Some(reply))), None)
    case SendText(retry) =>
      if hd.sendEnabled then Goto(hd, RecordText(retry, c.outcome), NoWrite, Some(TextCall(id, c.outcome)))
      else NextItem(hd, SetMessage(s, id, Simulated), None)
    case RecordText(retry, outcome) =>
      (match outcome
       case Delivered => NextItem(hd, SetMessage(s, id, Sent), Some(TextRecorded(id)))
       case Refused => NextItem(hd, SetMessage(s, id, Failed), None)
       case Crashed => if retry then Die(hd) else NextItem(hd, SetMessage(s, id, Failed), None))
    case _ => Effect(hd, NoWrite, None)
  }

  function CommentEffect(s: State, hd: Handler, id: Id, c: Choice): Effect
    requires hd.todo != []
  {
    match hd.pc
    case Start =>
      if id !in s.comments then Goto(hd, InsertComment, NoWrite, None)
      else if s.comments[id] == CommentSent then Goto(hd, LookupReply, NoWrite, None)
      else NextItem(hd, NoWrite, None)
    case InsertComment =>
      if id in s.comments then NextItem(hd, NoWrite, None)
      else Goto(hd, RouteComment, WriteComment(id, CommentProcessing), None)
    case RouteComment =>
      (match c.commentRoute
       case CommentRouted => Goto(hd, SendPrivate, WriteComment(id, CommentReady), None)
       case CommentNoStore => NextItem(hd, WriteComment(id, CommentUnmappedStore), None)
       case CommentDisabled => NextItem(hd, WriteComment(id, CommentModuleDisabled), None)
       case NotAPriceComment => NextItem(hd, WriteComment(id, Ignored), None)
       case NoMediaMapping => NextItem(hd, WriteComment(id, Unmapped), None)
       case CommentRouteError => Die(hd))
    case SendPrivate =>
      if hd.sendEnabled then Goto(hd, RecordPrivate(c.outcome), NoWrite, Some(PrivateCall(id, c.outcome)))
      else Goto(hd, LookupReply, WriteComment(id, CommentSimulated), None)
    case RecordPrivate(outcome) =>
      (match outcome
       case Delivered => Goto(hd, LookupReply, WriteComment(id, CommentSent), None)
       case Refused => NextItem(hd, WriteComment(id, CommentFailed), None)
       case Crashed => Die(hd))
    case LookupReply =>
      if id in s.replies then NextItem(hd, NoWrite, None) else Goto(hd, InsertReply, NoWrite, None)
    case InsertReply =>
      if id in s.replies then NextItem(hd, NoWrite, None) else Goto(hd, SendReply, WriteReply(id, ReplyProcessing), None)
    case SendReply =>
      if hd.sendEnabled then Goto(hd, RecordReply(c.outcome), NoWrite, Some(PublicCall(id, c.outcome)))
      else NextItem(hd, WriteReply(id, ReplySimulated), None)
    case RecordReply(outcome) =>
      (match outcome
       case Delivered => NextItem(hd, WriteReply(id, ReplySent), None)
       case Refused => NextItem(hd, WriteReply(id, ReplyFailed), None)
       case Crashed => Die(hd))
    case _ => Effect(hd, NoWrite, None)
  }

  function HandlerEffect(s: State, hd: Handler, c: Choice): Effect {
    if hd.todo == [] then Effect(hd, NoWrite, None)
    else match hd.todo[0]
         case Message(id) => MessageEffect(s, hd, id, c)
         case Comment(id) => CommentEffect(s, hd, id, c)
  }

  function Perform(s: State, h: HandlerId, e: Effect): State {
    State(if e.write.WriteMessage? then s.messages[e.write.id := e.write.message] else s.messages,
          if e.write.WriteComment? then s.comments[e.write.id := e.write.comment] else s.comments,
          if e.write.WriteReply? then s.replies[e.write.id := e.write.reply] else s.replies,
          s.handlers[h := e.handler],
          if e.call.Some? then s.log + [e.call.value] else s.log)
  }

  function Step(s: State, a: Action): State {
    match a
    case Arrive(h, batch, sendEnabled) =>
      if h in s.handlers then s else s.(handlers := s.handlers[h := Handler(batch, Start, sendEnabled)])
    case Do(h, choice) =>
      if h in s.handlers then Perform(s, h, HandlerEffect(s, s.handlers[h], choice)) else s
  }

  /** Any number of handlers, any batches with any duplicates, any interleaving. */
  function Exec(actions: seq<Action>): State {
    if actions == [] then EMPTY else Step(Exec(actions[..|actions| - 1]), actions[|actions| - 1])
  }

  /** The three things that must happen at most once. */
  datatype Resource = ChatRun(id: Id) | PrivateReply(id: Id) | PublicReply(id: Id)

  predicate IsUse(call: Call, r: Resource) {
    match r
    case ChatRun(id) => call == ChatCall(id)
    case PrivateReply(id) => call.PrivateCall? && call.id == id
    case PublicReply(id) => call.PublicCall? && call.id == id
  }

  function Uses(log: seq<Call>, r: Resource): nat {
    if log == [] then 0 else Uses(log[..|log| - 1], r) + if IsUse(log[|log| - 1], r) then 1 else 0
  }

  /** The row whose unique insert hands out the right to use the resource. */
  predicate Inserted(s: State, r: Resource) {
    match r
    case ChatRun(id) => id in s.messages
    case PrivateReply(id) => id in s.comments
    case PublicReply(id) => id in s.replies
  }

  /** The handler won that insert and has not used it yet. */
  predicate Holds(hd: Handler, r: Resource) {
    hd.todo != [] &&
    match r
    case ChatRun(id) => hd.todo[0] == Message(id) && (hd.pc == RouteMessage || hd.pc == Chat)
    case PrivateReply(id) => hd.todo[0] == Comment(id) && (hd.pc == RouteComment || hd.pc == SendPrivate)
    case PublicReply(id) => hd.todo[0] == Comment(id) && hd.pc == SendReply
  }

  ghost predicate Exclusive(s: State, r: Resource) {
    && Uses(s.log, r) <= 1
    && (!Inserted(s, r) ==> Uses(s.log, r) == 0)
    && (forall h :: h in s.handlers && Holds(s.handlers[h], r) ==> Inserted(s, r) && Uses(s.log, r) == 0)
    && (forall h, k :: h in s.handlers && k in s.handlers && Holds(s.handlers[h], r) && Holds(s.handlers[k], r) ==> h == k)
  }

  lemma UsesOneMore(log: seq<Call>, call: Call, r: Resource)
    ensures Uses(log + [call], r) == Uses(log, r) + if IsUse(call, r) then 1 else 0
  {
    assert (log + [call])[..|log|] == log;
  }

  predicate Inserts(write: Write, r: Resource) {
    match r
    case ChatRun(id) => write.WriteMessage? && write.id == id
    case PrivateReply(id) => write.WriteComment? && write.id == id
    case PublicReply(id) => write.WriteReply? && write.id == id
  }

  /** A step takes a resource only by a new insert and uses it only while holding it. */
  predicate FairEffect(s: State, hd: Handler, e: Effect, r: Resource) {
    && (Holds(e.handler, r) && !Holds(hd, r) ==> !Inserted(s, r) && Inserts(e.write, r) && e.call.None?)
    && (e.call.Some? && IsUse(e.call.value, r) ==> Holds(hd, r) && !Holds(e.handler, r))
  }

  lemma MessageEffectIsFair(s: State, hd: Handler, id: Id, c: Choice, r: Resource)
    requires hd.todo != [] && hd.todo[0] == Message(id)
    ensures FairEffect(s, hd, MessageEffect(s, hd, id, c), r)
  {
    var e := MessageEffect(s, hd, id, c);
    assert !r.ChatRun? ==> !(e.call.Some? && IsUse(e.call.value, r));
  }

  lemma CommentEffectIsFair(s: State, hd: Handler, id: Id, c: Choice, r: Resource)
    requires hd.todo != [] && hd.todo[0] == Comment(id)
    ensures FairEffect(s, hd, CommentEffect(s, hd, id, c), r)
  {
    var e := CommentEffect(s, hd, id, c);
    assert r.ChatRun? ==> !(e.call.Some? && IsUse(e.call.value, r));
  }

  lemma HandlerEffectIsFair(s: State, hd: Handler, c: Choice, r: Resource)
    ensures FairEffect(s, hd, HandlerEffect(s, hd, c), r)
  {
    if hd.todo != [] {
      match hd.todo[0] {
        case Message(id) => MessageEffectIsFair(s, hd, id, c, r);
        case Comment(id) => CommentEffectIsFair(s, hd, id, c, r);
      }
    }
  }

  lemma FairEffectKeepsExclusive(s: State, h: HandlerId, e: Effect, r: Resource)
    requires h in s.handlers && Exclusive(s, r) && FairEffect(s, s.handlers[h], e, r)
    ensures Exclusive(Perform(s, h, e), r)
  {
    if e.call.Some? {
      UsesOneMore(s.log, e.call.value, r);
    }
  }

  lemma StepKeepsExclusive(s: State, a: Action, r: Resource)
    requires Exclusive(s, r)
    ensures Exclusive(Step(s, a), r)
  {
    if a.Do? && a.h in s.handlers {
      HandlerEffectIsFair(s, s.handlers[a.h], a.choice, r);
      FairEffectKeepsExclusive(s, a.h, HandlerEffect(s, s.handlers[a.h], a.choice), r);
    }
  }

  /** Whatever is delivered, in whatever order and however interleaved: `process_chat` runs at most once per
      message id, and each comment id gets at most one private-reply and at most one public-reply call. */
  lemma {:induction false} AtMostOnce(actions: seq<Action>, r: Resource)
    ensures Exclusive(Exec(actions), r) && Uses(Exec(actions).log, r) <= 1
  {
    if actions != [] {
      AtMostOnce(actions[..|actions| - 1], r);
      StepKeepsExclusive(Exec(actions[..|actions| - 1]), actions[|actions| - 1], r);
    }
  }

  lemma {:induction false} UseInLog(log: seq<Call>, r: Resource, k: nat)
    requires k < |log| && IsUse(log[k], r)
    ensures Uses(log, r) >= 1
    decreases |log|
  {
    if k < |log| - 1 {
      UseInLog(log[..|log| - 1], r, k);
    }
  }

  lemma {:induction false} TwoUsesInLog(log: seq<Call>, r: Resource, k: nat, l: nat)
    requires k < l < |log| && IsUse(log[k], r) && IsUse(log[l], r)
    ensures Uses(log, r) >= 2
    decreases |log|
  {
    if l < |log| - 1 {
      TwoUsesInLog(log[..|log| - 1], r, k, l);
    } else {
      UseInLog(log[..|log| - 1], r, k);
    }
  }

  /** Under every interleaving the first private reply to a comment is the last: once Meta refused it, or the call
      ended in another exception, the comment is never answered. */
  lemma FailedPrivateReplyIsFinal(actions: seq<Action>, id: Id, outcome: Outcome)
    requires PrivateCall(id, outcome) in Exec(actions).log && outcome != Delivered
    ensures PrivateCall(id, Delivered) !in Exec(actions).log
  {
    var log := Exec(actions).log;
    AtMostOnce(actions, PrivateReply(id));
    if PrivateCall(id, Delivered) in log {
      var k: nat :| k < |log| && log[k] == PrivateCall(id, outcome);
      var l: nat :| l < |log| && log[l] == PrivateCall(id, Delivered);
      TwoUsesInLog(log, PrivateReply(id), if k < l then k else l, if k < l then l else k);
      assert false;
    }
  }

  /** The private reply to this comment has been accepted by Meta. */
  predicate Answered(s: State, id: Id) {
    PrivateCall(id, Delivered) in s.log
  }

  /** Every public-reply call comes after an accepted private reply to the same comment. */
  ghost predicate PublicFollowsPrivate(log: seq<Call>) {
    forall k :: 0 <= k < |log| && log[k].PublicCall? ==> PrivateCall(log[k].id, Delivered) in log[..k]
  }

  /** The handler is on the way to a real public reply, or about to record a delivered private one. */
  predicate RelaysSuccess(hd: Handler, id: Id) {
    && hd.todo != [] && hd.todo[0] == Comment(id) && hd.sendEnabled
    && (hd.pc == RecordPrivate(Delivered) || hd.pc == LookupReply || hd.pc == InsertReply || hd.pc == SendReply)
  }

  ghost predicate SuccessIsReal(s: State) {
    && PublicFollowsPrivate(s.log)
    && (forall id :: id in s.comments && s.comments[id] == CommentSent ==> Answered(s, id))
    && (forall h, id :: h in s.handlers && RelaysSuccess(s.handlers[h], id) ==> Answered(s, id))
    && (forall h :: h in s.handlers && s.handlers[h].pc.RecordPrivate? ==> s.handlers[h].sendEnabled)
  }

  /** What an effect needs for its success to be real. */
  predicate RelayedEffect(s: State, e: Effect, id: Id) {
    && (RelaysSuccess(e.handler, id) ==> Answered(s, id) || e.call == Some(PrivateCall(id, Delivered)))
    && (e.write == WriteComment(id, CommentSent) ==> Answered(s, id))
    && (e.call.Some? && e.call.value.PublicCall? && e.call.value.id == id ==> Answered(s, id))
    && (e.handler.pc.RecordPrivate? ==> e.handler.sendEnabled)
  }

  lemma MessageEffectRelays(s: State, hd: Handler, message: Id, c: Choice, id: Id)
    requires hd.todo != [] && hd.todo[0] == Message(message)
    requires hd.pc.RecordPrivate? ==> hd.sendEnabled
    ensures RelayedEffect(s, MessageEffect(s, hd, message, c), id)
  {
    assert !RelaysSuccess(hd, id);
  }

  lemma CommentEffectRelays(s: State, hd: Handler, comment: Id, c: Choice, id: Id)
    requires hd.todo != [] && hd.todo[0] == Comment(comment)
    requires comment in s.comments && s.comments[comment] == CommentSent ==> Answered(s, comment)
    requires hd.pc.RecordPrivate? ==> hd.sendEnabled
    requires RelaysSuccess(hd, id) ==> Answered(s, id)
    ensures RelayedEffect(s, CommentEffect(s, hd, comment, c), id)
  {
    var e := CommentEffect(s, hd, comment, c);
    if id != comment {
      assert !RelaysSuccess(e.handler, id);
    }
  }

  lemma EffectRelays(s: State, hd: Handler, c: Choice, id: Id)
    requires SuccessIsReal(s) && (hd.pc.RecordPrivate? ==> hd.sendEnabled)
    requires RelaysSuccess(hd, id) ==> Answered(s, id)
    ensures RelayedEffect(s, HandlerEffect(s, hd, c), id)
  {
    if hd.todo != [] {
      match hd.todo[0] {
        case Message(message) => MessageEffectRelays(s, hd, message, c, id);
        case Comment(comment) => CommentEffectRelays(s, hd, comment, c, id);
      }
    }
  }

  lemma StepKeepsSuccessReal(s: State, a: Action)
    requires SuccessIsReal(s)
    ensures SuccessIsReal(Step(s, a))
  {
    if a.Do? && a.h in s.handlers {
      var hd := s.handlers[a.h];
      forall id
        ensures RelayedEffect(s, HandlerEffect(s, hd, a.choice), id)
      {
        EffectRelays(s, hd, a.choice, id);
      }
      PerformKeepsSuccessReal(s, a.h, HandlerEffect(s, hd, a.choice));
    } else {
      var s' := Step(s, a);
      forall h, id | h in s'.handlers && RelaysSuccess(s'.handlers[h], id)
        ensures Answered(s', id)
      {
        assert h in s.handlers && RelaysSuccess(s.handlers[h], id);
        assert Answered(s, id);
      }
    }
  }

  lemma PerformKeepsSuccessReal(s: State, h: HandlerId, e: Effect)
    requires SuccessIsReal(s) && h in s.handlers
    requires forall id :: RelayedEffect(s, e, id)
    ensures SuccessIsReal(Perform(s, h, e))
  {
    var s' := Perform(s, h, e);
    forall k, id | k in s'.handlers && RelaysSuccess(s'.handlers[k], id)
      ensures Answered(s', id)
    {
      assert Answered(s, id) ==> Answered(s', id);
      if k == h {
        assert RelayedEffect(s, e, id);
      } else {
        assert k in s.handlers && RelaysSuccess(s.handlers[k], id);
      }
    }
    forall id | id in s'.comments && s'.comments[id] == CommentSent
      ensures Answered(s', id)
    {
      assert RelayedEffect(s, e, id);
      assert Answered(s, id);
    }
    assert RelayedEffect(s, e, "");
    if e.call.Some? {
      assert s'.log[|s.log|] == e.call.value;
      assert e.call.value.PublicCall? ==> RelayedEffect(s, e, e.call.value.id);
      forall k | 0 <= k < |s'.log| && s'.log[k].PublicCall?
        ensures PrivateCall(s'.log[k].id, Delivered) in s'.log[..k]
      {
        assert s'.log[..k] == s.log[..k];
        assert s.log[..|s.log|] == s.log;
      }
    }
  }

  /** In every run, every real public reply follows a successful private reply to that comment. */
  lemma {:induction false} PublicReplyFollowsPrivate(actions: seq<Action>)
    ensures SuccessIsReal(Exec(actions)) && PublicFollowsPrivate(Exec(actions).log)
  {
    if actions != [] {
      PublicReplyFollowsPrivate(actions[..|actions| - 1]);
      StepKeepsSuccessReal(Exec(actions[..|actions| - 1]), actions[|actions| - 1]);
    }
  }

  /** A handler about to record a success has made the call. */
  predicate CallMade(hd: Handler, log: seq<Call>) {
    hd.todo != [] ==>
      && (hd.todo[0].Message? && hd.pc.RecordText? && hd.pc.outcome == Delivered ==> TextCall(hd.todo[0].id, Delivered) in log)
      && (hd.todo[0].Comment? && hd.pc == RecordReply(Delivered) ==> PublicCall(hd.todo[0].id, Delivered) in log)
  }

  ghost predicate RowsAreReal(s: State) {
    && (forall id :: id in s.messages && s.messages[id].status == Sent ==> TextCall(id, Delivered) in s.log)
    && (forall id :: id in s.replies && s.replies[id] == ReplySent ==> PublicCall(id, Delivered) in s.log)
    && (forall h :: h in s.handlers ==> CallMade(s.handlers[h], s.log))
  }

  function LogAfter(s: State, e: Effect): seq<Call> {
    if e.call.Some? then s.log + [e.call.value] else s.log
  }

  predicate RealEffect(s: State, e: Effect) {
    && (e.write.WriteMessage? && e.write.message.status == Sent ==> TextCall(e.write.id, Delivered) in s.log)
    && (e.write.WriteReply? && e.write.reply == ReplySent ==> PublicCall(e.write.id, Delivered) in s.log)
    && CallMade(e.handler, LogAfter(s, e))
  }

  lemma MessageEffectIsReal(s: State, hd: Handler, id: Id, c: Choice)
    requires RowsAreReal(s) && hd.todo != [] && hd.todo[0] == Message(id) && CallMade(hd, s.log)
    ensures RealEffect(s, MessageEffect(s, hd, id, c))
  {
  }

  lemma CommentEffectIsReal(s: State, hd: Handler, id: Id, c: Choice)
    requires RowsAreReal(s) && hd.todo != [] && hd.todo[0] == Comment(id) && CallMade(hd, s.log)
    ensures RealEffect(s, CommentEffect(s, hd, id, c))
  {
  }

  lemma StepKeepsRowsReal(s: State, a: Action)
    requires RowsAreReal(s)
    ensures RowsAreReal(Step(s, a))
  {
    if a.Do? && a.h in s.handlers {
      var hd := s.handlers[a.h];
      var e := HandlerEffect(s, hd, a.choice);
      if hd.todo != [] {
        match hd.todo[0] {
          case Message(id) => MessageEffectIsReal(s, hd, id, a.choice);
          case Comment(id) => CommentEffectIsReal(s, hd, id, a.choice);
        }
      }
      assert RealEffect(s, e);
      PerformKeepsRowsReal(s, a.h, e);
    }
  }

  lemma PerformKeepsRowsReal(s: State, h: HandlerId, e: Effect)
    requires RowsAreReal(s) && h in s.handlers && RealEffect(s, e)
    ensures RowsAreReal(Perform(s, h, e))
  {
    var s' := Perform(s, h, e);
    assert forall call :: call in s.log ==> call in s'.log;
  }

  /** In every run a row that says a message or a public reply was sent has a call that Meta accepted behind it. */
  lemma {:induction false} SentRowsAreReal(actions: seq<Action>, id: Id)
    ensures RowsAreReal(Exec(actions))
    ensures id in Exec(actions).messages && Exec(actions).messages[id].status == Sent ==> TextCall(id, Delivered) in Exec(actions).log
    ensures id in Exec(actions).comments && Exec(actions).comments[id] == CommentSent ==> PrivateCall(id, Delivered) in Exec(actions).log
    ensures id in Exec(actions).replies && Exec(actions).replies[id] == ReplySent ==> PublicCall(id, Delivered) in Exec(actions).log
  {
    PublicReplyFollowsPrivate(actions);
    if actions != [] {
      SentRowsAreReal(actions[..|actions| - 1], id);
      StepKeepsRowsReal(Exec(actions[..|actions| - 1]), actions[|actions| - 1]);
    }
  }

  /** No request of the schedule may send. */
  predicate NeverEnabled(actions: seq<Action>) {
    forall a | a in actions :: a.Arrive? ==> !a.sendEnabled
  }

  predicate MutedState(s: State) {
    && (forall h | h in s.handlers :: !s.handlers[h].sendEnabled && !s.handlers[h].pc.RecordText?)
    && (forall call | call in s.log :: call.ChatCall?)
  }

  /** While sending is off, under every interleaving, Meta is never called. */
  lemma {:induction false} NothingIsSentWhenOff(actions: seq<Action>)
    requires NeverEnabled(actions)
    ensures MutedState(Exec(actions)) && forall call :: call in Exec(actions).log ==> call.ChatCall?
  {
    if actions != [] {
      var front, a := actions[..|actions| - 1], actions[|actions| - 1];
      assert a in actions;
      NothingIsSentWhenOff(front);
      MutedStep(Exec(front), a);
    }
  }

  lemma MutedStep(s: State, a: Action)
    requires MutedState(s) && (a.Arrive? ==> !a.sendEnabled)
    ensures MutedState(Step(s, a))
  {
    if a.Do? && a.h in s.handlers {
      var e := HandlerEffect(s, s.handlers[a.h], a.choice);
      assert !e.handler.sendEnabled && !e.handler.pc.RecordText? && (e.call.Some? ==> e.call.value.ChatCall?);
    }
  }

  /** Left-to-right execution of a schedule from a given state. */
  function RunFrom(s: State, actions: seq<Action>): State
    decreases |actions|
  {
    if actions == [] then s else RunFrom(Step(s, actions[0]), actions[1..])
  }

  function Recorded(log: seq<Call>, id: Id): nat {
    if log == [] then 0 else Recorded(log[..|log| - 1], id) + if log[|log| - 1] == TextRecorded(id) then 1 else 0
  }

  /** The handler has claimed the message, or looked up its failed row, and has not recorded the outcome yet. */
  predicate WorksOn(hd: Handler, id: Id) {
    hd.todo != [] && hd.todo[0] == Message(id)
    && (hd.pc == RouteMessage || hd.pc == Chat || hd.pc.SaveReply? || hd.pc.SendText? || hd.pc.RecordText?)
  }

  /** The handlers that take a step from action `n` on; the others have stopped for good, wherever they stand. */
  ghost function ActingFrom(actions: seq<Action>, n: nat): set<HandlerId> {
    set m | n <= m < |actions| && actions[m].Do? :: actions[m].h
  }

  ghost predicate AtMostOneWorks(s: State, id: Id, acting: set<HandlerId>) {
    forall h, k :: h in s.handlers && k in s.handlers && h in acting && k in acting && WorksOn(s.handlers[h], id) && WorksOn(s.handlers[k], id) ==> h == k
  }

  ghost predicate WorkersHaveRows(s: State, id: Id) {
    forall h :: h in s.handlers && WorksOn(s.handlers[h], id) ==> id in s.messages
  }

  /** No send is recorded yet, or one is, its row says so and nobody who will act again works on the message. */
  ghost predicate SentOnceOnly(s: State, id: Id, acting: set<HandlerId>) {
    && WorkersHaveRows(s, id)
    && (|| Recorded(s.log, id) == 0
        || (Recorded(s.log, id) == 1 && id in s.messages && s.messages[id].status == Sent
            && forall h :: h in s.handlers && h in acting ==> !WorksOn(s.handlers[h], id)))
  }

  /** What one effect may do to a message: only a worker writes an existing row, records its send, or stays at work;
      a handler starts to work by claiming a new row or finding a failed one. */
  predicate OrderlyEffect(s: State, hd: Handler, e: Effect, id: Id) {
    && (e.call == Some(TextRecorded(id)) ==> WorksOn(hd, id) && !WorksOn(e.handler, id)
                                             && (id in s.messages ==> e.write.WriteMessage? && e.write.id == id && e.write.message.status == Sent))
    && (e.write.WriteMessage? && e.write.id == id ==> WorksOn(hd, id) || id !in s.messages)
    && (WorksOn(e.handler, id) && !WorksOn(hd, id) ==>
          (id !in s.messages && e.write.WriteMessage? && e.write.id == id && e.write.message.status != Sent)
          || (id in s.messages && s.messages[id].status == Failed))
  }

  lemma MessageEffectIsOrderly(s: State, hd: Handler, message: Id, c: Choice, id: Id)
    requires hd.todo != [] && hd.todo[0] == Message(message)
    ensures OrderlyEffect(s, hd, MessageEffect(s, hd, message, c), id)
  {
    var e := MessageEffect(s, hd, message, c);
    if id != message {
      assert !WorksOn(hd, id) && !WorksOn(e.handler, id);
    }
  }

  lemma HandlerEffectIsOrderly(s: State, hd: Handler, c: Choice, id: Id)
    ensures OrderlyEffect(s, hd, HandlerEffect(s, hd, c), id)
  {
    if hd.todo != [] && hd.todo[0].Message? {
      MessageEffectIsOrderly(s, hd, hd.todo[0].id, c, id);
    }
  }

  lemma WorkersKeepRows(s: State, h: HandlerId, e: Effect, id: Id)
    requires h in s.handlers && WorkersHaveRows(s, id) && OrderlyEffect(s, s.handlers[h], e, id)
    ensures WorkersHaveRows(Perform(s, h, e), id)
  {
  }

  /** The send that is recorded is the first, and its worker was the only one that will act again. */
  lemma RecordingEndsWork(s: State, h: HandlerId, e: Effect, id: Id, acting: set<HandlerId>, later: set<HandlerId>)
    requires h in s.handlers && h in acting && later <= acting && e.call == Some(TextRecorded(id))
    requires SentOnceOnly(s, id, acting) && AtMostOneWorks(s, id, acting) && OrderlyEffect(s, s.handlers[h], e, id)
    ensures SentOnceOnly(Perform(s, h, e), id, later)
  {
    var t := Perform(s, h, e);
    WorkersKeepRows(s, h, e, id);
    RecordedOneMore(s.log, TextRecorded(id), id);
    assert Recorded(t.log, id) == 1 && id in t.messages && t.messages[id].status == Sent;
    forall k | k in t.handlers && k in later
      ensures !WorksOn(t.handlers[k], id)
    {
      assert k in acting && h in acting;
    }
  }

  /** Any other effect leaves a recorded send alone, and nobody starts to work on its message. */
  lemma OtherEffectKeepsOnce(s: State, h: HandlerId, e: Effect, id: Id, acting: set<HandlerId>, later: set<HandlerId>)
    requires h in s.handlers && h in acting && later <= acting && e.call != Some(TextRecorded(id))
    requires SentOnceOnly(s, id, acting) && OrderlyEffect(s, s.handlers[h], e, id)
    ensures SentOnceOnly(Perform(s, h, e), id, later)
  {
    var t := Perform(s, h, e);
    WorkersKeepRows(s, h, e, id);
    if e.call.Some? {
      RecordedOneMore(s.log, e.call.value, id);
    }
    assert Recorded(t.log, id) == Recorded(s.log, id);
    if Recorded(s.log, id) == 1 {
      assert !WorksOn(s.handlers[h], id) && !WorksOn(e.handler, id);
      forall k | k in t.handlers && k in later
        ensures !WorksOn(t.handlers[k], id)
      {
        assert k in acting;
      }
    }
  }

  lemma OrderlyEffectKeepsOnce(s: State, h: HandlerId, e: Effect, id: Id, acting: set<HandlerId>, later: set<HandlerId>)
    requires h in s.handlers && h in acting && later <= acting
    requires SentOnceOnly(s, id, acting) && AtMostOneWorks(s, id, acting) && OrderlyEffect(s, s.handlers[h], e, id)
    ensures SentOnceOnly(Perform(s, h, e), id, later)
  {
    if e.call == Some(TextRecorded(id)) {
      RecordingEndsWork(s, h, e, id, acting, later);
    } else {
      OtherEffectKeepsOnce(s, h, e, id, acting, later);
    }
  }

  lemma StepKeepsOnce(s: State, a: Action, id: Id, acting: set<HandlerId>, later: set<HandlerId>)
    requires (a.Do? ==> a.h in acting) && later <= acting
    requires SentOnceOnly(s, id, acting) && AtMostOneWorks(s, id, acting)
    ensures SentOnceOnly(Step(s, a), id, later)
  {
    if a.Do? && a.h in s.handlers {
      HandlerEffectIsOrderly(s, s.handlers[a.h], a.choice, id);
      OrderlyEffectKeepsOnce(s, a.h, HandlerEffect(s, s.handlers[a.h], a.choice), id, acting, later);
    }
  }

  /** In every run in which no two handlers that still act work on the message at once, at most one successful send
      of it is recorded, whatever else overlaps and wherever other handlers have crashed. */
  lemma SendsOnceWithoutOverlap(actions: seq<Action>, id: Id)
    requires forall n: nat :: n < |actions| ==> AtMostOneWorks(Exec(actions[..n]), id, ActingFrom(actions, n))
    ensures Recorded(Exec(actions).log, id) <= 1
  {
    OnceSoFar(actions, id, |actions|);
    assert actions[..|actions|] == actions;
  }

  lemma {:induction false} OnceSoFar(actions: seq<Action>, id: Id, n: nat)
    requires forall m: nat :: m < |actions| ==> AtMostOneWorks(Exec(actions[..m]), id, ActingFrom(actions, m))
    requires n <= |actions|
    ensures SentOnceOnly(Exec(actions[..n]), id, ActingFrom(actions, n))
  {
    if n > 0 {
      OnceSoFar(actions, id, n - 1);
      assert actions[..n][..n - 1] == actions[..n - 1];
      StepKeepsOnce(Exec(actions[..n - 1]), actions[n - 1], id, ActingFrom(actions, n - 1), ActingFrom(actions, n));
    }
  }

  lemma {:induction false} ExecAppend(xs: seq<Action>, ys: seq<Action>)
    ensures Exec(xs + ys) == RunFrom(Exec(xs), ys)
    decreases |ys|
  {
    if ys == [] {
      assert xs + ys == xs;
    } else {
      var front, last := ys[..|ys| - 1], ys[|ys| - 1];
      assert xs + ys == (xs + front) + [last];
      assert (xs + ys)[..|xs + ys| - 1] == xs + front;
      ExecAppend(xs, front);
      assert ys == front + [last];
      RunFromAppend(Exec(xs), front, [last]);
      assert RunFrom(RunFrom(Exec(xs), front), [last]) == Step(RunFrom(Exec(xs), front), last) by {
        assert [last][1..] == [];
      }
    }
  }

  const REFUSED_CHOICE := Choice(MessageRouted, CommentRouted, Some("reply"), Refused)

  function TwoSteps(h: HandlerId): seq<Action> {
    [Do(h, REFUSED_CHOICE), Do(h, REFUSED_CHOICE)]
  }

  /** One delivery of the message whose answer Meta refuses: arrival, lookup, claim, routing, chat, reply, send, record. */
  function FirstAttempt(id: Id, h: HandlerId): seq<Action> {
    [Arrive(h, [Message(id)], true)] + TwoSteps(h) + TwoSteps(h) + TwoSteps(h) + [Do(h, REFUSED_CHOICE)]
  }

  /** Direct messages are not protected against overlapping retries: from a state with a failed row, two handlers
      that both find it send it twice. */
  lemma RetriesSendTwice(s: State, id: Id, h: HandlerId, k: HandlerId) returns (schedule: seq<Action>)
    requires h != k && h !in s.handlers && k !in s.handlers && id in s.messages
    requires s.messages[id].status == Failed && s.messages[id].response.Some? && s.messages[id].response.value != ""
    ensures Recorded(RunFrom(s, schedule).log, id) == Recorded(s.log, id) + 2
  {
    var c := Choice(MessageRouted, CommentRouted, None, Delivered);
    var begin := [Arrive(h, [Message(id)], true), Arrive(k, [Message(id)], true)];
    var lookup, send, commit := [Do(h, c), Do(k, c)], [Do(h, c), Do(k, c)], [Do(h, c), Do(k, c)];
    var s2 := RunPair(s, begin);
    var s4 := RunPair(s2, lookup);
    assert s4.handlers[h].pc == SendText(true) && s4.handlers[k].pc == SendText(true);
    var s6 := RunPair(s4, send);
    assert s6.handlers[h].pc == RecordText(true, Delivered) && s6.handlers[k].pc == RecordText(true, Delivered);
    var s8 := RunPair(s6, commit);
    assert s8.log == s.log + [TextCall(id, Delivered), TextCall(id, Delivered)] + [TextRecorded(id)] + [TextRecorded(id)];
    RecordedOneMore(s.log, TextCall(id, Delivered), id);
    RecordedOneMore(s.log + [TextCall(id, Delivered)], TextCall(id, Delivered), id);
    RecordedOneMore(s6.log, TextRecorded(id), id);
    RecordedOneMore(s6.log + [TextRecorded(id)], TextRecorded(id), id);
    schedule := begin + lookup + send + commit;
    RunFromAppend(s, begin + lookup + send, commit);
    RunFromAppend(s, begin + lookup, send);
    RunFromAppend(s, begin, lookup);
  }

  /** The state of a run in which one handler alone works on one message. */
  function Attempting(id: Id, h: HandlerId, pc: Pc, messages: map<Id, MessageRow>, log: seq<Call>): State {
    State(messages, map[], map[], map[h := Handler([Message(id)], pc, true)], log)
  }

  lemma AttemptClaims(id: Id, h: HandlerId)
    ensures RunFrom(Attempting(id, h, Start, map[], []), TwoSteps(h))
            == Attempting(id, h, RouteMessage, map[id := MessageRow(Processing, None)], [])
  {
    var s := RunPair(Attempting(id, h, Start, map[], []), TwoSteps(h));
    assert Step(Attempting(id, h, Start, map[], []), Do(h, REFUSED_CHOICE)) == Attempting(id, h, InsertMessage, map[], []);
  }

  lemma AttemptChats(id: Id, h: HandlerId)
    ensures RunFrom(Attempting(id, h, RouteMessage, map[id := MessageRow(Processing, None)], []), TwoSteps(h))
            == Attempting(id, h, SaveReply("reply"), map[id := MessageRow(Processing, None)], [ChatCall(id)])
  {
    var first := Attempting(id, h, RouteMessage, map[id := MessageRow(Processing, None)], []);
    var s := RunPair(first, TwoSteps(h));
    assert Step(first, Do(h, REFUSED_CHOICE)) == Attempting(id, h, Chat, map[id := MessageRow(Processing, None)], []);
  }

  lemma AttemptSends(id: Id, h: HandlerId)
    ensures RunFrom(Attempting(id, h, SaveReply("reply"), map[id := MessageRow(Processing, None)], [ChatCall(id)]), TwoSteps(h))
            == Attempting(id, h, RecordText(false, Refused), map[id := MessageRow(Ready, Some("reply"))], [ChatCall(id), TextCall(id, Refused)])
  {
    var first := Attempting(id, h, SaveReply("reply"), map[id := MessageRow(Processing, None)], [ChatCall(id)]);
    var s := RunPair(first, TwoSteps(h));
    assert Step(first, Do(h, REFUSED_CHOICE))
        == Attempting(id, h, SendText(false), map[id := MessageRow(Ready, Some("reply"))], [ChatCall(id)]);
  }

  lemma AttemptRecords(id: Id, h: HandlerId)
    ensures var s := RunFrom(Attempting(id, h, RecordText(false, Refused), map[id := MessageRow(Ready, Some("reply"))],
                                        [ChatCall(id), TextCall(id, Refused)]), [Do(h, REFUSED_CHOICE)]);
            s.messages == map[id := MessageRow(Failed, Some("reply"))] && s.handlers.Keys == {h} && Recorded(s.log, id) == 0
  {
    var before := Attempting(id, h, RecordText(false, Refused), map[id := MessageRow(Ready, Some("reply"))], [ChatCall(id), TextCall(id, Refused)]);
    var s := RunOne(before, [Do(h, REFUSED_CHOICE)]);
    assert s.log == [] + [ChatCall(id)] + [TextCall(id, Refused)];
    RecordedOneMore([], ChatCall(id), id);
    RecordedOneMore([ChatCall(id)], TextCall(id, Refused), id);
  }

  lemma AttemptUnfolds(id: Id, h: HandlerId)
    ensures Exec(FirstAttempt(id, h))
            == RunFrom(RunFrom(RunFrom(RunFrom(Attempting(id, h, Start, map[], []), TwoSteps(h)), TwoSteps(h)), TwoSteps(h)), [Do(h, REFUSED_CHOICE)])
  {
    var arrive, pair, one := [Arrive(h, [Message(id)], true)], TwoSteps(h), [Do(h, REFUSED_CHOICE)];
    ExecAppend([], arrive + pair + pair + pair + one);
    assert [] + (arrive + pair + pair + pair + one) == FirstAttempt(id, h);
    RunFromAppend(EMPTY, arrive + pair + pair + pair, one);
    RunFromAppend(EMPTY, arrive + pair + pair, pair);
    RunFromAppend(EMPTY, arrive + pair, pair);
    RunFromAppend(EMPTY, arrive, pair);
    var s := RunOne(EMPTY, arrive);
    assert s == Attempting(id, h, Start, map[], []);
  }

  lemma FirstAttemptFails(id: Id, h: HandlerId)
    ensures var s := Exec(FirstAttempt(id, h));
            s.messages == map[id := MessageRow(Failed, Some("reply"))] && s.handlers.Keys == {h} && Recorded(s.log, id) == 0
  {
    AttemptUnfolds(id, h);
    AttemptClaims(id, h);
    AttemptChats(id, h);
    AttemptSends(id, h);
    AttemptRecords(id, h);
  }

  lemma RunOne(s: State, one: seq<Action>) returns (s': State)
    requires |one| == 1
    ensures s' == Step(s, one[0]) == RunFrom(s, one)
  {
    s' := Step(s, one[0]);
    assert RunFrom(s', one[1..]) == s';
  }

  /** From the empty tables: a first delivery that Meta refuses, then two redeliveries that overlap, record two
      successful sends of the same message. */
  lemma OverlappingRetriesSendTwice(id: Id) returns (actions: seq<Action>)
    ensures Recorded(Exec(actions).log, id) == 2
  {
    FirstAttemptFails(id, 0);
    var schedule := RetriesSendTwice(Exec(FirstAttempt(id, 0)), id, 1, 2);
    actions := FirstAttempt(id, 0) + schedule;
    ExecAppend(FirstAttempt(id, 0), schedule);
  }

  lemma RunPair(s: State, pair: seq<Action>) returns (s': State)
    requires |pair| == 2
    ensures s' == Step(Step(s, pair[0]), pair[1]) == RunFrom(s, pair)
  {
    s' := Step(Step(s, pair[0]), pair[1]);
    assert RunFrom(s', pair[1..][1..]) == s';
    assert RunFrom(Step(s, pair[0]), pair[1..]) == RunFrom(s', pair[1..][1..]);
  }

  lemma RecordedOneMore(log: seq<Call>, call: Call, id: Id)
    ensures Recorded(log + [call], id) == Recorded(log, id) + if call == TextRecorded(id) then 1 else 0
  {
    assert (log + [call])[..|log|] == log;
  }

  lemma {:induction false} RunFromAppend(s: State, xs: seq<Action>, ys: seq<Action>)
    ensures RunFrom(s, xs + ys) == RunFrom(RunFrom(s, xs), ys)
    decreases |xs|
  {
    if xs == [] {
      assert xs + ys == ys;
    } else {
      assert (xs + ys)[1..] == xs[1..] + ys;
      RunFromAppend(Step(s, xs[0]), xs[1..], ys);
    }
  }
}
