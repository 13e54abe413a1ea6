/** The single Telegram poller: batches of ascending updates, one event row per private text, an offset that
    moves only past settled updates (app/telegram.py, 183-286 and app/telegram_polling.py, 31-46). */
module TelegramPolling {
  import opened Options

  type UpdateId = int

  /** Groups, channels, bots, media and edited messages are acknowledged without an event row. */
  datatype Update = PrivateText(text: string) | OtherUpdate

  datatype EventStatus = Processing | Ready | Sent | Failed
  datatype EventRow = EventRow(status: EventStatus, response: Option<string>)

  datatype Outcome = Delivered | ApiError | OtherError

  /** What the surroundings do for one update; `chat` is absent when `process_chat` raises. */
  datatype Choice = Choice(chat: Option<string>, outcome: Outcome)

  datatype Call = ChatRun(id: UpdateId) | SendRecorded(id: UpdateId)

  function Count(log: seq<Call>, call: Call): nat {
    if log == [] then 0 else Count(log[..|log| - 1], call) + if log[|log| - 1] == call then 1 else 0
  }

  lemma CountOneMore(log: seq<Call>, added: Call, call: Call)
    ensures Count(log + [added], call) == Count(log, call) + if added == call then 1 else 0
  {
    assert (log + [added])[..|log|] == log;
  }

  /** A later delivery of the same update would send it again. */
  predicate Retryable(row: EventRow) {
    row.status == Failed && row.response.Some? && row.response.value != ""
  }

  /** Answered, or given up: `process_chat` raised, or an empty reply could not be sent. */
  predicate Settled(row: EventRow) {
    row.status == Sent || GivenUp(row)
  }

  /** Failed, and no later delivery would try again. */
  predicate GivenUp(row: EventRow) {
    row.status == Failed && !Retryable(row)
  }

  /** `process_chat` raised, or its reply was empty and did not get through. */
  predicate Hopeless(c: Choice) {
    c.chat.None? || (c.chat.value == "" && c.outcome != Delivered)
  }

  /** `getUpdates`: the lowest pending updates from the requested offset on, in order, at most 50. */
  ghost predicate IsBatch(server: map<UpdateId, Update>, offset: Option<UpdateId>, batch: seq<UpdateId>) {
    && |batch| <= 50
    && (forall i, j :: 0 <= i < j < |batch| ==> batch[i] < batch[j])
    && (forall i :: 0 <= i < |batch| ==> batch[i] in server && (offset.Some? ==> offset.value <= batch[i]))
    && (forall id, i :: id in server && 0 <= i < |batch| && (offset.Some? ==> offset.value <= id) && id <= batch[i] ==> id in batch)
  }

  predicate Below(offset: Option<UpdateId>, id: UpdateId) {
    offset.Some? && id < offset.value
  }

  /** Every private text below the offset has its event row, and nothing below it is left to retry. */
  ghost predicate CaughtUp(server: map<UpdateId, Update>, offset: Option<UpdateId>, events: map<UpdateId, EventRow>) {
    forall id :: id in server && server[id].PrivateText? && Below(offset, id) ==> id in events && Settled(events[id])
  }

  /** One attempt at `process_chat` per event row (its request may already be refused), so at most one run of it, and
      one recorded send exactly when the row says so. */
  ghost predicate Counted(events: map<UpdateId, EventRow>, log: seq<Call>) {
    forall id ::
      if id in events then
        && Count(log, ChatRun(id)) == 1
        && Count(log, SendRecorded(id)) == (if events[id].status == Sent then 1 else 0)
      else Count(log, ChatRun(id)) == 0 && Count(log, SendRecorded(id)) == 0
  }

  /** No row is left half-way. */
  ghost predicate Finished(events: map<UpdateId, EventRow>) {
    forall id :: id in events ==> events[id].status == Sent || events[id].status == Failed
  }

  lemma CountedNew(events: map<UpdateId, EventRow>, log: seq<Call>, id: UpdateId)
    requires Counted(events, log) && id !in events
    ensures Counted(events[id := EventRow(Processing, None)], log + [ChatRun(id)])
  {
    forall other
      ensures Count(log + [ChatRun(id)], ChatRun(other)) == Count(log, ChatRun(other)) + (if other == id then 1 else 0)
      ensures Count(log + [ChatRun(id)], SendRecorded(other)) == Count(log, SendRecorded(other))
    {
      CountOneMore(log, ChatRun(id), ChatRun(other));
      CountOneMore(log, ChatRun(id), SendRecorded(other));
    }
  }

  lemma CountedSent(events: map<UpdateId, EventRow>, log: seq<Call>, id: UpdateId)
    requires Counted(events, log) && id in events && events[id].status != Sent
    ensures Counted(events[id := events[id].(status := Sent)], log + [SendRecorded(id)])
  {
    forall other
      ensures Count(log + [SendRecorded(id)], SendRecorded(other)) == Count(log, SendRecorded(other)) + (if other == id then 1 else 0)
      ensures Count(log + [SendRecorded(id)], ChatRun(other)) == Count(log, ChatRun(other))
    {
      CountOneMore(log, SendRecorded(id), SendRecorded(other));
      CountOneMore(log, SendRecorded(id), ChatRun(other));
    }
  }

  datatype Verdict = Fine | Failure | Raised

  /** The row one payload leaves behind, and whether the poller may move on. */
  function PayloadRow(existing: Option<EventRow>, c: Choice): (EventRow, Verdict) {
    match existing
    case None =>
      if c.chat.Some? && c.outcome == Delivered then (EventRow(Sent, c.chat), Fine)
      else (EventRow(Failed, c.chat), Failure)
    case Some(row) =>
      if !Retryable(row) then (row, Fine)
      else match c.outcome
           case Delivered => (row.(status := Sent), Fine)
           case ApiError => (row, Failure)
           case OtherError => (row, Raised)
  }

  function Find(events: map<UpdateId, EventRow>, id: UpdateId): Option<EventRow> {
    if id in events then Some(events[id]) else None
  }

  /** What the poller makes of one update, given the rows at the start of the round. */
  function VerdictOf(before: map<UpdateId, EventRow>, id: UpdateId, update: Update, c: Choice): Verdict {
    if update.OtherUpdate? then Fine else PayloadRow(Find(before, id), c).1
  }

  /** The private texts among the first `n` updates. */
  ghost function TextIds(batch: seq<UpdateId>, updates: seq<Update>, n: nat): set<UpdateId>
    requires n <= |batch| == |updates|
  {
    set i | 0 <= i < n && updates[i].PrivateText? :: batch[i]
  }

  /** The first `n` updates of the batch have been processed: each private text has the row its payload leaves, and
      nothing else has changed. */
  ghost predicate RowsDone(before: map<UpdateId, EventRow>, now: map<UpdateId, EventRow>,
                           batch: seq<UpdateId>, updates: seq<Update>, choices: seq<Choice>, n: nat)
    requires n <= |batch| == |updates| == |choices|
  {
    && (forall i :: 0 <= i < n && updates[i].PrivateText? ==> Find(now, batch[i]) == Some(PayloadRow(Find(before, batch[i]), choices[i]).0))
    && (forall id :: id !in TextIds(batch, updates, n) ==> Find(now, id) == Find(before, id))
  }

  ghost predicate AllFine(before: map<UpdateId, EventRow>, batch: seq<UpdateId>, updates: seq<Update>, choices: seq<Choice>, n: nat)
    requires n <= |batch| == |updates| == |choices|
  {
    forall i :: 0 <= i < n ==> VerdictOf(before, batch[i], updates[i], choices[i]) == Fine
  }

  /** What a poller and its server hold between two rounds. */
  datatype Poller = Poller(server: map<UpdateId, Update>, offset: Option<UpdateId>, events: map<UpdateId, EventRow>)

  const START := Poller(map[], None, map[])

  /** An update arrives, or the poller makes a round in which it settles the first `taken` updates of a batch. */
  datatype Turn =
    | Arrival(id: UpdateId, update: Update)
    | Poll(batch: seq<UpdateId>, updates: seq<Update>, choices: seq<Choice>, taken: nat)

  /** A round looks at one update more than it settles, if there is one. */
  function Looked(batch: seq<UpdateId>, taken: nat): nat
    requires taken <= |batch|
  {
    if taken < |batch| then taken + 1 else taken
  }

  ghost predicate Pollable(s: Poller, batch: seq<UpdateId>, updates: seq<Update>, choices: seq<Choice>) {
    && IsBatch(s.server, s.offset, batch) && |choices| == |updates| == |batch|
    && forall i :: 0 <= i < |batch| ==> s.server[batch[i]] == updates[i]
  }

  /** The whole effect of a round: the offset moves behind the settled updates, the first one that fails ends it. */
  ghost predicate Polled(s: Poller, batch: seq<UpdateId>, updates: seq<Update>, choices: seq<Choice>, taken: nat, t: Poller) {
    && Pollable(s, batch, updates, choices) && taken <= |batch| && t.server == s.server
    && t.offset == (if taken == 0 then s.offset else Some(batch[taken - 1] + 1))
    && AllFine(s.events, batch, updates, choices, taken)
    && (taken < |batch| ==> VerdictOf(s.events, batch[taken], updates[taken], choices[taken]) != Fine)
    && RowsDone(s.events, t.events, batch, updates, choices, Looked(batch, taken))
  }

  ghost predicate Next(s: Poller, turn: Turn, t: Poller) {
    match turn
    case Arrival(id, update) => (forall other :: other in s.server ==> other < id) && t == s.(server := s.server[id := update])
    case Poll(batch, updates, choices, taken) => Polled(s, batch, updates, choices, taken, t)
  }

  ghost predicate IsRun(states: seq<Poller>, turns: seq<Turn>) {
    && |states| == |turns| + 1 && states[0] == START
    && forall k: nat :: k < |turns| ==> Next(states[k], turns[k], states[k + 1])
  }

  ghost predicate Sound(s: Poller) {
    && CaughtUp(s.server, s.offset, s.events) && Finished(s.events)
    && (s.offset.Some? ==> s.offset.value - 1 in s.server)
  }

  lemma LookedRow(s: Poller, batch: seq<UpdateId>, updates: seq<Update>, choices: seq<Choice>, n: nat, now: map<UpdateId, EventRow>, id: UpdateId)
    requires n <= |batch| == |updates| == |choices| && RowsDone(s.events, now, batch, updates, choices, n)
    ensures id in TextIds(batch, updates, n) ==> exists i :: 0 <= i < n && batch[i] == id && Find(now, id) == Some(PayloadRow(Find(s.events, id), choices[i]).0)
    ensures id !in TextIds(batch, updates, n) ==> Find(now, id) == Find(s.events, id)
  {
  }

  /** Whatever a round does, a settled row stays as it is, and a row that is there ends up sent or failed. */
  lemma RoundKeepsRow(s: Poller, turn: Turn, t: Poller, id: UpdateId)
    requires Next(s, turn, t) && Finished(s.events) && id in s.events
    ensures id in t.events && (Settled(s.events[id]) ==> t.events[id] == s.events[id])
    ensures GivenUp(t.events[id]) <==> GivenUp(s.events[id])
  {
    if turn.Poll? {
      LookedRow(s, turn.batch, turn.updates, turn.choices, Looked(turn.batch, turn.taken), t.events, id);
    }
  }

  lemma RoundFinishes(s: Poller, turn: Turn, t: Poller)
    requires Next(s, turn, t) && Finished(s.events)
    ensures Finished(t.events)
  {
    forall id | id in t.events
      ensures t.events[id].status == Sent || t.events[id].status == Failed
    {
      if turn.Poll? {
        LookedRow(s, turn.batch, turn.updates, turn.choices, Looked(turn.batch, turn.taken), t.events, id);
      }
    }
  }

  lemma RoundCatchesUp(s: Poller, turn: Turn, t: Poller, id: UpdateId)
    requires Next(s, turn, t) && Sound(s)
    requires id in t.server && t.server[id].PrivateText? && Below(t.offset, id)
    ensures id in t.events && Settled(t.events[id])
  {
    if Below(s.offset, id) {
      RoundKeepsRow(s, turn, t, id);
    } else if turn.Poll? {
      var last := turn.taken - 1;
      assert id <= turn.batch[last];
      assert id in turn.batch;
      var i :| 0 <= i < |turn.batch| && turn.batch[i] == id;
      assert i <= last && VerdictOf(s.events, id, turn.updates[i], turn.choices[i]) == Fine;
    }
  }

  lemma NextKeepsSound(s: Poller, turn: Turn, t: Poller)
    requires Next(s, turn, t) && Sound(s)
    ensures Sound(t)
  {
    RoundFinishes(s, turn, t);
    forall id | id in t.server && t.server[id].PrivateText? && Below(t.offset, id)
      ensures id in t.events && Settled(t.events[id])
    {
      RoundCatchesUp(s, turn, t, id);
    }
  }

  /** The offset never moves back. */
  lemma NextMovesForward(s: Poller, turn: Turn, t: Poller)
    requires Next(s, turn, t)
    ensures s.offset.Some? ==> t.offset.Some? && s.offset.value <= t.offset.value
  {
  }

  lemma {:induction false} RunIsSound(states: seq<Poller>, turns: seq<Turn>, k: nat)
    requires IsRun(states, turns) && k < |states|
    ensures Sound(states[k])
  {
    if k > 0 {
      RunIsSound(states, turns, k - 1);
      assert Next(states[k - 1], turns[k - 1], states[k - 1 + 1]);
      NextKeepsSound(states[k - 1], turns[k - 1], states[k]);
    }
  }

  /** Round `j` is the first to look at this private text, which is its update `i`. */
  ghost predicate IsFirstContact(states: seq<Poller>, turns: seq<Turn>, j: nat, i: nat, id: UpdateId) {
    && j < |turns| == |states| - 1 && turns[j].Poll? && turns[j].taken <= |turns[j].batch| == |turns[j].updates| == |turns[j].choices|
    && i < Looked(turns[j].batch, turns[j].taken)
    && turns[j].batch[i] == id && turns[j].updates[i].PrivateText? && id !in states[j].events
  }

  /** The first contact decides for good whether the message is given up. */
  lemma {:induction false} FirstContactDecides(states: seq<Poller>, turns: seq<Turn>, j: nat, i: nat, id: UpdateId, k: nat)
    requires IsRun(states, turns) && IsFirstContact(states, turns, j, i, id) && j < k < |states|
    ensures id in states[k].events && (GivenUp(states[k].events[id]) <==> Hopeless(turns[j].choices[i]))
    decreases k
  {
    assert Next(states[k - 1], turns[k - 1], states[k - 1 + 1]);
    if k == j + 1 {
      assert Find(states[k].events, id) == Some(PayloadRow(None, turns[j].choices[i]).0);
    } else {
      FirstContactDecides(states, turns, j, i, id, k - 1);
      RunIsSound(states, turns, k - 1);
      RoundKeepsRow(states[k - 1], turns[k - 1], states[k], id);
    }
  }

  lemma {:induction false} FirstContactExists(states: seq<Poller>, turns: seq<Turn>, id: UpdateId, k: nat) returns (j: nat, i: nat)
    requires IsRun(states, turns) && k < |states| && id in states[k].events
    ensures j < k && IsFirstContact(states, turns, j, i, id)
    decreases k
  {
    assert k > 0;
    var s, turn := states[k - 1], turns[k - 1];
    assert Next(s, turn, states[k - 1 + 1]);
    if id in s.events {
      j, i := FirstContactExists(states, turns, id, k - 1);
    } else {
      LookedRow(s, turn.batch, turn.updates, turn.choices, Looked(turn.batch, turn.taken), states[k].events, id);
      j := k - 1;
      i :| 0 <= i < Looked(turn.batch, turn.taken) && turn.batch[i] == id && turn.updates[i].PrivateText?;
    }
  }

  /** The round looks at this update and its reply is accepted. */
  ghost predicate DeliveredIn(turn: Turn, id: UpdateId) {
    && turn.Poll? && turn.taken <= |turn.batch| == |turn.updates| == |turn.choices|
    && exists i :: 0 <= i < Looked(turn.batch, turn.taken) && turn.batch[i] == id && turn.choices[i].outcome == Delivered
  }

  /** A row that awaits a retry is sent by the next round that delivers it, with the reply it stored. */
  lemma RoundRetries(s: Poller, turn: Turn, t: Poller, id: UpdateId)
    requires Next(s, turn, t) && Sound(s) && id in s.events && id in s.server && s.server[id].PrivateText?
    ensures id in t.events && t.events[id].response == s.events[id].response
    ensures t.events[id].status == Sent <==> s.events[id].status == Sent || (Retryable(s.events[id]) && DeliveredIn(turn, id))
  {
    if turn.Poll? {
      LookedRow(s, turn.batch, turn.updates, turn.choices, Looked(turn.batch, turn.taken), t.events, id);
      if i :| 0 <= i < Looked(turn.batch, turn.taken) && turn.batch[i] == id {
        assert s.server[turn.batch[i]] == turn.updates[i];
      }
    }
  }

  lemma FirstContactRow(states: seq<Poller>, turns: seq<Turn>, j: nat, i: nat, id: UpdateId)
    requires IsRun(states, turns) && IsFirstContact(states, turns, j, i, id)
    ensures id in states[j + 1].events && states[j + 1].events[id].response == turns[j].choices[i].chat
    ensures id in states[j + 1].server && states[j + 1].server[id].PrivateText?
    ensures states[j + 1].events[id].status == Sent <==> turns[j].choices[i].chat.Some? && DeliveredIn(turns[j], id)
  {
    assert Next(states[j], turns[j], states[j + 1]);
    assert Find(states[j + 1].events, id) == Some(PayloadRow(None, turns[j].choices[i]).0);
  }

  /** Some round from the first contact on, and before `k`, delivers the reply. */
  ghost predicate DeliveredBetween(turns: seq<Turn>, j: nat, k: nat, id: UpdateId)
    requires k <= |turns|
  {
    exists m :: j <= m < k && DeliveredIn(turns[m], id)
  }

  /** The row has the reply of the first contact, and is sent as its deliveries say; an empty reply that does not get
      through at once is given up. */
  ghost predicate AnswerIs(s: Poller, id: UpdateId, chat: Option<string>, atOnce: bool, ever: bool) {
    && id in s.events && id in s.server && s.server[id].PrivateText? && s.events[id].response == chat
    && (s.events[id].status == Sent <==> chat.Some? && if chat.value == "" then atOnce else ever)
  }

  lemma AnswerStep(s: Poller, turn: Turn, t: Poller, id: UpdateId, chat: Option<string>, atOnce: bool, ever: bool)
    requires Next(s, turn, t) && Sound(s) && AnswerIs(s, id, chat, atOnce, ever)
    ensures AnswerIs(t, id, chat, atOnce, ever || DeliveredIn(turn, id))
  {
    RoundRetries(s, turn, t, id);
  }

  ghost predicate KeepsAnswer(states: seq<Poller>, turns: seq<Turn>, m: nat, id: UpdateId, chat: Option<string>, atOnce: bool)
    requires m < |turns| && m + 1 < |states|
  {
    forall ever :: AnswerIs(states[m], id, chat, atOnce, ever) ==> AnswerIs(states[m + 1], id, chat, atOnce, ever || DeliveredIn(turns[m], id))
  }

  lemma RunKeepsAnswer(states: seq<Poller>, turns: seq<Turn>, m: nat, id: UpdateId, chat: Option<string>, atOnce: bool)
    requires IsRun(states, turns) && m < |turns|
    ensures KeepsAnswer(states, turns, m, id, chat, atOnce)
  {
    RunIsSound(states, turns, m);
    forall ever | AnswerIs(states[m], id, chat, atOnce, ever)
      ensures AnswerIs(states[m + 1], id, chat, atOnce, ever || DeliveredIn(turns[m], id))
    {
      AnswerStep(states[m], turns[m], states[m + 1], id, chat, atOnce, ever);
    }
  }

  lemma {:induction false} AnswerAlong(states: seq<Poller>, turns: seq<Turn>, j: nat, id: UpdateId, chat: Option<string>, atOnce: bool, k: nat)
    requires j < k < |states| == |turns| + 1 && AnswerIs(states[j + 1], id, chat, atOnce, DeliveredBetween(turns, j, j + 1, id))
    requires forall m: nat :: m < |turns| ==> KeepsAnswer(states, turns, m, id, chat, atOnce)
    ensures AnswerIs(states[k], id, chat, atOnce, DeliveredBetween(turns, j, k, id))
    decreases k
  {
    if k > j + 1 {
      AnswerAlong(states, turns, j, id, chat, atOnce, k - 1);
      assert KeepsAnswer(states, turns, k - 1, id, chat, atOnce);
      DeliveredOneMore(turns, j, k, id);
    }
  }

  lemma DeliveredOneMore(turns: seq<Turn>, j: nat, k: nat, id: UpdateId)
    requires j < k <= |turns|
    ensures DeliveredBetween(turns, j, k, id) <==> DeliveredBetween(turns, j, k - 1, id) || DeliveredIn(turns[k - 1], id)
  {
  }

  /** In every run the row of a message follows the rounds that looked at it: it keeps the reply of the first contact,
      and is sent exactly once some round since then delivered it. */
  lemma AnswerFollowsRounds(states: seq<Poller>, turns: seq<Turn>, j: nat, i: nat, id: UpdateId, k: nat)
    requires IsRun(states, turns) && IsFirstContact(states, turns, j, i, id) && j < k < |states|
    ensures AnswerIs(states[k], id, turns[j].choices[i].chat, DeliveredIn(turns[j], id), DeliveredBetween(turns, j, k, id))
  {
    var chat, atOnce := turns[j].choices[i].chat, DeliveredIn(turns[j], id);
    FirstContactRow(states, turns, j, i, id);
    DeliveredOneMore(turns, j, j + 1, id);
    forall m: nat | m < |turns|
      ensures KeepsAnswer(states, turns, m, id, chat, atOnce)
    {
      RunKeepsAnswer(states, turns, m, id, chat, atOnce);
    }
    AnswerAlong(states, turns, j, id, chat, atOnce, k);
  }

  /** In every run, a private text that the offset has passed is unanswered exactly when at its first contact the chat
      run raised, or its reply was empty and could not be sent. */
  lemma UnansweredExactly(states: seq<Poller>, turns: seq<Turn>, id: UpdateId, k: nat) returns (j: nat, i: nat)
    requires IsRun(states, turns) && k < |states|
    requires id in states[k].server && states[k].server[id].PrivateText? && Below(states[k].offset, id)
    ensures j < k && IsFirstContact(states, turns, j, i, id) && id in states[k].events
    ensures states[k].events[id].status != Sent <==> Hopeless(turns[j].choices[i])
  {
    RunIsSound(states, turns, k);
    j, i := FirstContactExists(states, turns, id, k);
    FirstContactDecides(states, turns, j, i, id, k);
  }

  /** The shortest such run: the chat run raises, the round announces a retry and keeps the offset in front of the
      message; the next round moves past it without a reply, whatever its surroundings decide. */
  lemma ChatErrorIsPassedOver(text: string, c: Choice, later: Choice) returns (states: seq<Poller>, turns: seq<Turn>)
    requires c.chat.None?
    ensures IsRun(states, turns) && |turns| == 3 && turns[0] == Arrival(1, PrivateText(text))
    ensures turns[1] == Poll([1], [PrivateText(text)], [c], 0) && states[2].offset == None
    ensures turns[2] == Poll([1], [PrivateText(text)], [later], 1) && states[3].offset == Some(2)
    ensures states[3].events == map[1 := EventRow(Failed, None)]
  {
    var row, update := map[1 := EventRow(Failed, None)], PrivateText(text);
    var arrived := Poller(map[1 := update], None, map[]);
    states := [START, arrived, arrived.(events := row), arrived.(events := row, offset := Some(2))];
    turns := [Arrival(1, update), Poll([1], [update], [c], 0), Poll([1], [update], [later], 1)];
    assert [update][0].PrivateText? && [1][0] in TextIds([1], [update], 1);
    assert Next(states[0], turns[0], states[1]);
    assert Next(states[1], turns[1], states[2]);
    assert Next(states[2], turns[2], states[3]);
  }

  /** One round: the pending updates, offset and rows it begins with, and what it is given. */
  datatype Round = Round(
    server: map<UpdateId, Update>, start: Option<UpdateId>, before: map<UpdateId, EventRow>,
    batch: seq<UpdateId>, updates: seq<Update>, choices: seq<Choice>)

  ghost predicate ValidRound(r: Round) {
    && IsBatch(r.server, r.start, r.batch) && |r.choices| == |r.updates| == |r.batch|
    && forall i :: 0 <= i < |r.batch| ==> r.server[r.batch[i]] == r.updates[i]
  }

  /** The first `n` updates of the round are settled and the offset stands behind them. */
  ghost predicate InRound(r: Round, offset: Option<UpdateId>, events: map<UpdateId, EventRow>, n: nat)
    requires ValidRound(r)
  {
    && n <= |r.batch| && offset == (if n == 0 then r.start else Some(r.batch[n - 1] + 1))
    && AllFine(r.before, r.batch, r.updates, r.choices, n)
    && RowsDone(r.before, events, r.batch, r.updates, r.choices, n)
  }

  /** The rows after update `n` has been processed. */
  function Later(events: map<UpdateId, EventRow>, id: UpdateId, update: Update, c: Choice): map<UpdateId, EventRow> {
    if update.PrivateText? then events[id := PayloadRow(Find(events, id), c).0] else events
  }

  lemma RowsDoneOneMore(before: map<UpdateId, EventRow>, now: map<UpdateId, EventRow>, later: map<UpdateId, EventRow>,
                        batch: seq<UpdateId>, updates: seq<Update>, choices: seq<Choice>, n: nat)
    requires n < |batch| == |updates| == |choices| && RowsDone(before, now, batch, updates, choices, n)
    requires forall i, j :: 0 <= i < j < |batch| ==> batch[i] < batch[j]
    requires later == Later(now, batch[n], updates[n], choices[n])
    ensures RowsDone(before, later, batch, updates, choices, n + 1)
    ensures Find(now, batch[n]) == Find(before, batch[n])
  {
    assert batch[n] !in TextIds(batch, updates, n);
    assert TextIds(batch, updates, n + 1) == TextIds(batch, updates, n) + if updates[n].PrivateText? then {batch[n]} else {};
  }

  /** The state a round begins in. */
  function Begun(r: Round): Poller {
    Poller(r.server, r.start, r.before)
  }

  lemma RoundIsPolled(r: Round, offset: Option<UpdateId>, events: map<UpdateId, EventRow>, n: nat, t: Poller)
    requires ValidRound(r) && n <= |r.batch| && InRound(r, offset, events, n)
    requires n < |r.batch| ==> VerdictOf(r.before, r.batch[n], r.updates[n], r.choices[n]) != Fine
    requires t.server == r.server && t.offset == offset && RowsDone(r.before, t.events, r.batch, r.updates, r.choices, Looked(r.batch, n))
    ensures Polled(Begun(r), r.batch, r.updates, r.choices, n, t)
  {
  }

  /** Processing one more update: a settled one lets the offset pass, another ends the round. */
  lemma RoundStep(r: Round, offset: Option<UpdateId>, events: map<UpdateId, EventRow>, n: nat, later: map<UpdateId, EventRow>)
    requires ValidRound(r) && n < |r.batch| && InRound(r, offset, events, n)
    requires later == Later(events, r.batch[n], r.updates[n], r.choices[n])
    ensures Find(events, r.batch[n]) == Find(r.before, r.batch[n])
    ensures if VerdictOf(r.before, r.batch[n], r.updates[n], r.choices[n]) == Fine then InRound(r, Some(r.batch[n] + 1), later, n + 1)
            else Polled(Begun(r), r.batch, r.updates, r.choices, n, Poller(r.server, offset, later))
  {
    RowsDoneOneMore(r.before, events, later, r.batch, r.updates, r.choices, n);
    if VerdictOf(r.before, r.batch[n], r.updates[n], r.choices[n]) != Fine {
      RoundIsPolled(r, offset, events, n, Poller(r.server, offset, later));
    }
  }

  class TelegramPoller {
    var events: map<UpdateId, EventRow>
    var offset: Option<UpdateId>
    ghost var server: map<UpdateId, Update>
    ghost var log: seq<Call>

    ghost predicate Valid()
      reads this
    {
      Sound(State()) && Counted(events, log)
    }

    ghost function State(): Poller
      reads this
    {
      Poller(server, offset, events)
    }

    constructor ()
      ensures Valid() && State() == START && log == []
    {
      events, offset, server, log := map[], None, map[], [];
    }

    /** New updates arrive with higher identifiers. */
    ghost method Arrive(id: UpdateId, update: Update)
      requires Valid() && forall other :: other in server ==> other < id
      modifies this`server
      ensures Valid() && Next(old(State()), Arrival(id, update), State())
    {
      ghost var before := State();
      server := server[id := update];
      NextKeepsSound(before, Arrival(id, update), State());
    }

    /** `deliver_response`; sending is enabled, or polling would not have started. */
    method DeliverResponse(id: UpdateId, retry: bool, outcome: Outcome) returns (verdict: Verdict)
      requires Counted(events, log) && id in events && events[id].status != Sent
      modifies this`events, this`log
      ensures Counted(events, log)
      ensures verdict == if outcome == Delivered then Fine else if retry && outcome == OtherError then Raised else Failure
      ensures events == if verdict == Raised then old(events)
                        else old(events)[id := old(events[id]).(status := if outcome == Delivered then Sent else Failed)]
    {
      if outcome == Delivered {
        CountedSent(events, log, id);
        log := log + [SendRecorded(id)];
        events := events[id := events[id].(status := Sent)];
        return Fine;
      }
      if retry && outcome == OtherError {
        return Raised;
      }
      events := events[id := events[id].(status := Failed)];
      verdict := Failure;
    }

    /** `process_telegram_payload` for one update. */
    method ProcessPayload(id: UpdateId, update: Update, c: Choice) returns (verdict: Verdict)
      requires Counted(events, log) && Finished(events)
      modifies this`events, this`log
      ensures Counted(events, log) && Finished(events)
      ensures update.OtherUpdate? ==> verdict == Fine && events == old(events) && log == old(log)
      ensures update.PrivateText? ==>
                var (row, v) := PayloadRow(Find(old(events), id), c);
                verdict == v && events == old(events)[id := row]
    {
      if update.OtherUpdate? {
        return Fine;
      }
      if id !in events {
        verdict := ProcessNew(id, c);
      } else if Retryable(events[id]) {
        verdict := DeliverResponse(id, true, c.outcome);
        assert events == old(events)[id := events[id]];
      } else {
        verdict := Fine;
        assert events == events[id := events[id]];
      }
    }

    method ProcessNew(id: UpdateId, c: Choice) returns (verdict: Verdict)
      requires Counted(events, log) && Finished(events) && id !in events
      modifies this`events, this`log
      ensures Counted(events, log) && Finished(events)
      ensures var (row, v) := PayloadRow(None, c); verdict == v && events == old(events)[id := row]
    {
      events := events[id := EventRow(Processing, None)];
      CountedNew(old(events), log, id);
      log := log + [ChatRun(id)];
      if c.chat.None? {
        events := events[id := events[id].(status := Failed)];
        assert events == old(events)[id := EventRow(Failed, None)];
        return Failure;
      }
      verdict := AnswerNew(id, c, old(events));
    }

    /** The reply is stored, then delivered. */
    method AnswerNew(id: UpdateId, c: Choice, ghost before: map<UpdateId, EventRow>) returns (verdict: Verdict)
      requires Counted(events, log) && Finished(before) && c.chat.Some? && events == before[id := EventRow(Processing, None)]
      modifies this`events, this`log
      ensures Counted(events, log) && Finished(events)
      ensures var (row, v) := PayloadRow(None, c); verdict == v && events == before[id := row]
    {
      events := events[id := EventRow(Ready, c.chat)];
      verdict := DeliverResponse(id, false, c.outcome);
      assert events == before[id := PayloadRow(None, c).0];
    }

    /** One turn of the polling loop: process update `i` and, if it is settled, move the offset behind it. */
    method PollUpdate(id: UpdateId, update: Update, c: Choice, ghost r: Round, ghost i: nat) returns (verdict: Verdict)
      requires ValidRound(r) && i < |r.batch| && r.server == server && InRound(r, offset, events, i)
      requires Counted(events, log) && Finished(events) && id == r.batch[i] && update == r.updates[i] && c == r.choices[i]
      modifies this`events, this`offset, this`log
      ensures Counted(events, log) && Finished(events)
      ensures verdict == VerdictOf(r.before, id, update, c)
      ensures if verdict == Fine then InRound(r, offset, events, i + 1)
              else offset == old(offset) && Polled(Begun(r), r.batch, r.updates, r.choices, i, State())
    {
      RoundStep(r, offset, events, i, Later(events, id, update, c));
      ghost var now := events;
      verdict := ProcessPayload(id, update, c);
      assert events == Later(now, id, update, c);
      if verdict == Fine {
        offset := Some(id + 1);
      }
    }

    /** One round of the polling loop. `taken` updates are settled one after the other and the offset moves behind
        each; the first that fails keeps the offset in front of it and ends the round, and an exception that
        `stopped` reports ends the poller. */
    method PollOnce(batch: seq<UpdateId>, updates: seq<Update>, choices: seq<Choice>) returns (stopped: bool, taken: nat)
      requires Valid() && Pollable(State(), batch, updates, choices)
      modifies this`events, this`offset, this`log
      ensures Valid() && Polled(old(State()), batch, updates, choices, taken, State())
      ensures stopped <==> taken < |batch| && VerdictOf(old(events), batch[taken], updates[taken], choices[taken]) == Raised
    {
      ghost var r := Round(server, offset, events, batch, updates, choices);
      taken := 0;
      while taken < |batch|
        invariant 0 <= taken <= |batch| && InRound(r, offset, events, taken)
        invariant Counted(events, log) && Finished(events)
      {
        var verdict := PollUpdate(batch[taken], updates[taken], choices[taken], r, taken);
        if verdict != Fine {
          NextKeepsSound(Begun(r), Poll(batch, updates, choices, taken), State());
          return verdict == Raised, taken;
        }
        taken := taken + 1;
      }
      RoundIsPolled(r, offset, events, taken, State());
      NextKeepsSound(Begun(r), Poll(batch, updates, choices, taken), State());
      stopped := false;
    }
  }
}
