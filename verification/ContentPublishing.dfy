/** Social content drafts, their approval, and the publish job around the irreversible Instagram call
    (app/content_generation.py, 73-85 and 139-212; app/instagram_publishing.py, 96-247). A publish call is one
    step: its commits and the publisher's answer follow each other before the next event. */
module ContentPublishing {
  import opened Options
  import opened Sequences
  import opened CatalogText

  const MAX_CAPTION := 2200
  const MAX_HASHTAGS := 30
  const MAX_ALT := 1000

  datatype Content = Content(caption: string, hashtags: seq<string>, altText: string)
  datatype Status = InDraft | Approved | Publishing | Published | Failed | Unknown
  datatype Draft = Draft(storeId: int, productId: int, content: Content, sourceHash: string, status: Status, revision: nat)

  datatype JobStatus = JobQueued | JobPublishing | JobPublished | JobFailed | JobUnknown
  datatype Job = Job(status: JobStatus, attempts: nat, mediaId: Option<string>)

  datatype Post = Post(caption: string, altText: string)

  /** One counted attempt: what was handed to the publisher, or nothing when signing the image URL failed. */
  type Attempt = Option<Post>

  /** `jobs` and `mapping` are keyed by their unique columns; `attempts` is the history of each draft. */
  datatype State = State(drafts: seq<Draft>, jobs: map<nat, Job>, mapping: map<string, int>, attempts: map<nat, seq<Attempt>>)

  const EMPTY := State([], map[], map[], map[])

  /** How the publisher ends: a media id, a timeout, one of the handled errors, or an exception that is not
      handled and escapes. */
  datatype Answer = Posted(mediaId: string) | TimedOut | Errored | Escaped

  /** The settings, each string as `strip` leaves it: both readers below strip it first. */
  datatype Settings = Settings(
    sendEnabled: bool, publishEnabled: bool, accessToken: string, igUserId: string, mediaBaseUrl: string, signingSecret: string)

  const HTTPS := "https://"
  const MIN_SECRET := 20
  const PLACEHOLDER := "replace-me-with-a-long-random-secret"

  /** `str.lower`, as far as a comparison with PLACEHOLDER can tell: of the characters beyond ASCII only the Kelvin
      sign becomes one ASCII letter, and that letter is not in it. */
  function Lower(s: string): (r: string)
    ensures |r| == |s| && forall i :: 0 <= i < |s| ==> r[i] == if 'A' <= s[i] <= 'Z' then s[i] - 'A' + 'a' else s[i]
  {
    seq(|s|, i requires 0 <= i < |s| => if 'A' <= s[i] <= 'Z' then s[i] - 'A' + 'a' else s[i])
  }

  function TrimSlashes(s: string): string {
    if s != "" && s[|s| - 1] == '/' then TrimSlashes(s[..|s| - 1]) else s
  }

  /** `_publish_readiness`. */
  predicate Ready(x: Settings) {
    && x.sendEnabled && x.publishEnabled && x.accessToken != "" && x.igUserId != ""
    && HTTPS <= x.mediaBaseUrl && |x.signingSecret| >= MIN_SECRET
  }

  predicate IsPlaceholder(x: Settings) {
    Lower(x.signingSecret) == PLACEHOLDER
  }

  /** `create_public_media_url` signs the image URL instead of raising. */
  predicate UrlSigned(x: Settings) {
    TrimSlashes(x.mediaBaseUrl) != "" && x.signingSecret != "" && !IsPlaceholder(x)
  }

  lemma {:induction false} TrimSlashesKeeps(s: string, i: nat)
    requires i < |s| && s[i] != '/'
    ensures i < |TrimSlashes(s)|
    decreases |s|
  {
    if s[|s| - 1] == '/' {
      TrimSlashesKeeps(s[..|s| - 1], i);
    }
  }

  /** Settings that pass the readiness check sign the URL exactly when the secret is not the placeholder. */
  lemma ReadySignsUnlessPlaceholder(x: Settings)
    requires Ready(x)
    ensures UrlSigned(x) <==> !IsPlaceholder(x)
  {
    assert x.mediaBaseUrl[0] == HTTPS[0];
    TrimSlashesKeeps(x.mediaBaseUrl, 0);
  }

  /** What a publish call finds outside its own tables. */
  datatype Gate = Gate(moduleEnabled: bool, hashNow: string, inCatalog: bool, settings: Settings, answer: Answer)

  datatype Event =
    | Create(storeId: int, productId: int, content: Content, sourceHash: string, owned: bool)
    | Update(draft: nat, content: Content, expected: nat)
    | Approve(draft: nat, expected: nat, hashNow: string)
    | Publish(draft: nat, storeId: int, gate: Gate)

  datatype Reply = Done | JobReturned | BadValue | Conflict | Failure | NoJob

  /** `_unique` without its limit: stripped values, the first of each normal form. */
  function Unique(a: Alphabet, values: seq<string>): seq<string> {
    if values == [] then []
    else
      var before, value := Unique(a, values[..|values| - 1]), Strip(a, values[|values| - 1]);
      if value == "" || Normalize(a, value) == "" || Normalize(a, value) in Keys(a, before) then before else before + [value]
  }

  function Keys(a: Alphabet, values: seq<string>): set<string> {
    set v | v in values :: Normalize(a, v)
  }

  function Take(values: seq<string>, limit: nat): seq<string> {
    if |values| <= limit then values else values[..limit]
  }

  lemma KeysOneMore(a: Alphabet, values: seq<string>, value: string)
    ensures Keys(a, values + [value]) == Keys(a, values) + {Normalize(a, value)}
  {
    assert value in values + [value];
    forall v | v in values
      ensures v in values + [value]
    {
    }
  }

  lemma UniqueOneMore(a: Alphabet, values: seq<string>, i: nat, value: string, key: string)
    requires i < |values| && value == Strip(a, values[i]) && key == Normalize(a, value)
    ensures var before := Unique(a, values[..i]);
            Unique(a, values[..i + 1]) == if value == "" || key == "" || key in Keys(a, before) then before else before + [value]
  {
    assert values[..i + 1][..i] == values[..i];
  }

  lemma {:induction false} UniqueGrows(a: Alphabet, values: seq<string>, n: nat)
    requires n <= |values|
    ensures Unique(a, values[..n]) <= Unique(a, values)
    decreases |values|
  {
    if n < |values| {
      assert values[..|values| - 1][..n] == values[..n];
      UniqueGrows(a, values[..|values| - 1], n);
    } else {
      assert values[..n] == values;
    }
  }

  lemma TakeIsPrefix(all: seq<string>, kept: seq<string>)
    requires kept <= all
    ensures Take(all, |kept|) == kept
  {
  }

  /** Once enough values are kept the rest of the list does not matter. */
  lemma EnoughAreKept(a: Alphabet, values: seq<string>, n: nat, kept: seq<string>)
    requires n <= |values| && kept == Unique(a, values[..n])
    ensures kept == Take(Unique(a, values), |kept|)
  {
    UniqueGrows(a, values, n);
    TakeIsPrefix(Unique(a, values), kept);
  }

  lemma AllAreKept(a: Alphabet, values: seq<string>, kept: seq<string>, most: nat)
    requires kept == Unique(a, values[..|values|]) && |kept| < most
    ensures kept == Take(Unique(a, values), most)
  {
    assert values[..|values|] == values;
  }

  lemma NothingKept(a: Alphabet, values: seq<string>)
    ensures Unique(a, values[..0]) == [] && Keys(a, []) == {}
  {
    assert values[..0] == [];
  }

  /** One turn of the loop: the next value is kept unless it is blank or its normal form was seen. */
  method AddUnique(a: Alphabet, values: seq<string>, i: nat, kept: seq<string>, seen: set<string>)
    returns (kept': seq<string>, seen': set<string>, added: bool)
    requires i < |values| && kept == Unique(a, values[..i]) && seen == Keys(a, kept)
    ensures kept' == Unique(a, values[..i + 1]) && seen' == Keys(a, kept')
    ensures |kept'| == |kept| + if added then 1 else 0
  {
    var value := Strip(a, values[i]);
    var key := Normalize(a, value);
    UniqueOneMore(a, values, i, value, key);
    kept', seen', added := kept, seen, value != "" && key != "" && key !in seen;
    if added {
      KeysOneMore(a, kept, value);
      kept', seen' := kept + [value], seen + {key};
    }
  }

  /** `_unique`: stops once `limit` values are kept (the test comes after the first is added). */
  method TakeUnique(a: Alphabet, values: seq<string>, limit: nat) returns (result: seq<string>)
    ensures result == Take(Unique(a, values), if limit == 0 then 1 else limit)
  {
    result := [];
    var seen: set<string> := {};
    ghost var most := if limit == 0 then 1 else limit;
    NothingKept(a, values);
    for i := 0 to |values|
      invariant result == Unique(a, values[..i]) && seen == Keys(a, result)
      invariant |result| < most
    {
      var added;
      result, seen, added := AddUnique(a, values, i, result, seen);
      if added && |result| >= limit {
        EnoughAreKept(a, values, i + 1, result);
        return;
      }
    }
    AllAreKept(a, values, result, most);
  }

  function Hashed(tag: string): string {
    if tag != "" && tag[0] == '#' then tag else "#" + tag
  }

  function HashedAll(tags: seq<string>): (r: seq<string>)
    ensures |r| == |tags| && forall i :: 0 <= i < |tags| ==> r[i] == Hashed(tags[i])
  {
    seq(|tags|, i requires 0 <= i < |tags| => Hashed(tags[i]))
  }

  function CleanHashtags(a: Alphabet, tags: seq<string>): seq<string> {
    Take(Unique(a, HashedAll(tags)), MAX_HASHTAGS)
  }

  /** Kept values are stripped, have distinct normal forms, and come from the input. */
  ghost predicate Kept(a: Alphabet, values: seq<string>) {
    && (forall i :: 0 <= i < |values| ==> values[i] != "" && Strip(a, values[i]) == values[i] && Normalize(a, values[i]) != "")
    && (forall i, j :: 0 <= i < j < |values| ==> Normalize(a, values[i]) != Normalize(a, values[j]))
  }

  lemma KeptOneMore(a: Alphabet, kept: seq<string>, value: string)
    requires Kept(a, kept) && value != "" && Strip(a, value) == value && Normalize(a, value) != ""
    ensures Kept(a, kept + [value]) <==> Normalize(a, value) !in Keys(a, kept)
  {
    var more := kept + [value];
    if Normalize(a, value) in Keys(a, kept) {
      var v :| v in kept && Normalize(a, v) == Normalize(a, value);
      var i :| 0 <= i < |kept| && kept[i] == v;
      assert more[i] == v && more[|kept|] == value;
    } else {
      forall i | 0 <= i < |kept|
        ensures Normalize(a, kept[i]) != Normalize(a, value)
      {
        assert kept[i] in kept;
      }
    }
  }

  lemma {:induction false} UniqueIsKept(a: Alphabet, values: seq<string>)
    ensures Kept(a, Unique(a, values))
  {
    if values != [] {
      var front, last := values[..|values| - 1], values[|values| - 1];
      UniqueIsKept(a, front);
      StripIdempotent(a, last);
      var value := Strip(a, last);
      if !(value == "" || Normalize(a, value) == "") {
        KeptOneMore(a, Unique(a, front), value);
      }
    }
  }

  lemma {:induction false} UniqueComesFrom(a: Alphabet, values: seq<string>, v: string) returns (w: string)
    requires v in Unique(a, values)
    ensures w in values && v == Strip(a, w)
    decreases |values|
  {
    var front, last := values[..|values| - 1], values[|values| - 1];
    if v in Unique(a, front) {
      w := UniqueComesFrom(a, front, v);
    } else {
      w := last;
    }
  }

  lemma {:induction false} KeptIsFixed(a: Alphabet, values: seq<string>)
    requires Kept(a, values)
    ensures Unique(a, values) == values
    decreases |values|
  {
    if values != [] {
      var front, last := values[..|values| - 1], values[|values| - 1];
      assert Kept(a, front);
      KeptIsFixed(a, front);
      SplitLast(values);
      KeptOneMore(a, front, last);
    }
  }

  /** Saving the hashtags that were saved changes nothing. */
  lemma CleanHashtagsIdempotent(a: Alphabet, tags: seq<string>)
    requires !a.isSpace('#')
    ensures CleanHashtags(a, CleanHashtags(a, tags)) == CleanHashtags(a, tags)
  {
    var all, kept := Unique(a, HashedAll(tags)), CleanHashtags(a, tags);
    UniqueIsKept(a, HashedAll(tags));
    forall i | 0 <= i < |kept|
      ensures Hashed(kept[i]) == kept[i]
    {
      assert kept[i] in all;
      var w := UniqueComesFrom(a, HashedAll(tags), kept[i]);
      StripRightEnds(a, StripLeft(a, w));
    }
    assert HashedAll(kept) == kept;
    KeptIsFixed(a, kept);
  }

  function Cut(s: string, limit: int): string {
    if limit <= 0 then "" else if |s| <= limit then s else s[..limit]
  }

  /** The caption that is sent: the draft's, cut so that the hashtags fit, a blank line, and the hashtags. */
  function SentCaption(c: Content): string {
    var line := Join(c.hashtags);
    var text := Cut(c.caption, MAX_CAPTION - if line != "" then |line| + 2 else 0);
    if text != "" && line != "" then text + "\n\n" + line else text + line
  }

  /** The sent caption keeps to the limit exactly when the hashtags alone do; nothing cuts them. */
  lemma SentCaptionFits(c: Content)
    ensures |SentCaption(c)| <= MAX_CAPTION <==> |Join(c.hashtags)| <= MAX_CAPTION
  {
  }

  /** It is as much of the draft's caption as fits, a blank line if both are there, and all the hashtags. */
  lemma SentCaptionIsCut(c: Content) returns (text: string)
    ensures text <= c.caption
    ensures |text| == Least(|c.caption|, if Join(c.hashtags) == "" then MAX_CAPTION else MAX_CAPTION - |Join(c.hashtags)| - 2)
    ensures SentCaption(c) == text + (if text != "" && Join(c.hashtags) != "" then "\n\n" else "") + Join(c.hashtags)
  {
    var line := Join(c.hashtags);
    text := Cut(c.caption, MAX_CAPTION - if line != "" then |line| + 2 else 0);
    assert text + "" == text;
  }

  function Least(length: nat, limit: int): nat {
    if limit <= 0 then 0 else if length <= limit then length else limit
  }

  lemma {:induction false} JoinLength(parts: seq<string>, n: nat)
    requires parts != [] && forall p :: p in parts ==> |p| >= n
    ensures |Join(parts)| >= |parts| * (n + 1) - 1
    decreases |parts|
  {
    if |parts| > 1 {
      JoinLength(parts[..|parts| - 1], n);
      assert |parts| * (n + 1) == (|parts| - 1) * (n + 1) + (n + 1);
      assert parts[|parts| - 1] in parts;
    }
  }

  lemma LongLineOverflows(c: Content)
    requires |c.hashtags| >= 22 && forall tag :: tag in c.hashtags ==> |tag| >= 100
    ensures |SentCaption(c)| > MAX_CAPTION
  {
    JoinLength(c.hashtags, 100);
    assert |c.hashtags| * 101 >= 22 * 101;
    SentCaptionFits(c);
  }

  function CreateStep(s: State, e: Event): (State, Reply)
    requires e.Create?
  {
    if !e.owned then (s, BadValue)
    else (s.(drafts := s.drafts + [Draft(e.storeId, e.productId, e.content, e.sourceHash, InDraft, 1)]), Done)
  }

  function Edited(a: Alphabet, draft: Draft, content: Content): Draft {
    draft.(content := Content(Strip(a, content.caption), CleanHashtags(a, content.hashtags), Cut(Strip(a, content.altText), MAX_ALT)),
           revision := draft.revision + 1, status := InDraft)
  }

  function UpdateStep(a: Alphabet, s: State, d: nat, content: Content, expected: nat): (State, Reply)
    requires d < |s.drafts|
  {
    var draft := s.drafts[d];
    if draft.status in {Publishing, Published} then (s, BadValue)
    else if draft.revision != expected then (s, Conflict)
    else if Strip(a, content.caption) == "" || |Strip(a, content.caption)| > MAX_CAPTION then (s, BadValue)
    else (s.(drafts := s.drafts[d := Edited(a, draft, content)]), Done)
  }

  function ApproveStep(s: State, d: nat, expected: nat, hashNow: string): (State, Reply)
    requires d < |s.drafts|
  {
    var draft := s.drafts[d];
    if draft.revision != expected then (s, Conflict)
    else if draft.status == Published then (s, Done)
    else if hashNow != draft.sourceHash then (s, Conflict)
    else (s.(drafts := s.drafts[d := draft.(status := Approved)]), Done)
  }

  function JobOf(s: State, d: nat): Job {
    if d in s.jobs then s.jobs[d] else Job(JobQueued, 0, None)
  }

  function PostOf(draft: Draft): Post {
    Post(SentCaption(draft.content), draft.content.altText)
  }

  function AttemptOf(draft: Draft, urlSigned: bool): Attempt {
    if urlSigned then Some(PostOf(draft)) else None
  }

  function History(s: State, d: nat): seq<Attempt> {
    if d in s.attempts then s.attempts[d] else []
  }

  /** The attempt is counted and committed before the call. */
  function Begin(s: State, d: nat, urlSigned: bool): State
    requires d < |s.drafts|
  {
    s.(drafts := s.drafts[d := s.drafts[d].(status := Publishing)],
       jobs := s.jobs[d := JobOf(s, d).(status := JobPublishing, attempts := JobOf(s, d).attempts + 1)],
       attempts := s.attempts[d := History(s, d) + [AttemptOf(s.drafts[d], urlSigned)]])
  }

  function Settle(s: State, d: nat, status: Status, job: JobStatus): State
    requires d < |s.drafts| && d in s.jobs
  {
    s.(drafts := s.drafts[d := s.drafts[d].(status := status)], jobs := s.jobs[d := s.jobs[d].(status := job)])
  }

  function Record(s: State, d: nat, mediaId: string): State
    requires d < |s.drafts| && d in s.jobs
  {
    Settle(s, d, Published, JobPublished).(
      jobs := s.jobs[d := s.jobs[d].(status := JobPublished, mediaId := Some(mediaId))],
      mapping := if mediaId in s.mapping then s.mapping else s.mapping[mediaId := s.drafts[d].productId])
  }

  /** The publisher turns an empty media id into an error. */
  function Settled(answer: Answer): Answer {
    if answer == Posted("") then Errored else answer
  }

  function Finish(s: State, d: nat, gate: Gate): (State, Reply)
    requires d < |s.drafts| && d in s.jobs
  {
    if !UrlSigned(gate.settings) then (Settle(s, d, Failed, JobFailed), Failure)
    else match Settled(gate.answer)
      case Posted(mediaId) => (Record(s, d, mediaId), JobReturned)
      case TimedOut => (Settle(s, d, Unknown, JobUnknown), Failure)
      case Errored => (Settle(s, d, Failed, JobFailed), Failure)
      case Escaped => (s, Failure)
  }

  /** The job is found or queued, and called unless it is live already. */
  function RunJobStep(s: State, d: nat, gate: Gate): (State, Reply)
    requires d < |s.drafts|
  {
    var queued := s.(jobs := s.jobs[d := JobOf(s, d)]);
    if JobOf(s, d).status == JobPublished then (queued, JobReturned)
    else if JobOf(s, d).mediaId.Some? then (Settle(queued, d, Published, JobPublished), JobReturned)
    else Finish(Begin(s, d, UrlSigned(gate.settings)), d, gate)
  }

  predicate GateOpen(draft: Draft, gate: Gate) {
    gate.hashNow == draft.sourceHash && gate.inCatalog && Ready(gate.settings)
  }

  /** `publish_content_draft`. */
  function PublishStep(s: State, d: nat, storeId: int, gate: Gate): (State, Reply)
    requires d < |s.drafts|
  {
    var draft := s.drafts[d];
    if !gate.moduleEnabled then (s, Failure)
    else if draft.storeId != storeId || draft.status !in {Approved, Failed, Published} then (s, BadValue)
    else if draft.status == Published then (s, if d in s.jobs then JobReturned else NoJob)
    else if !GateOpen(draft, gate) then (s, Failure)
    else RunJobStep(s, d, gate)
  }

  /** The event names an existing draft. */
  predicate Applies(s: State, e: Event) {
    e.Create? || e.draft < |s.drafts|
  }

  function Step(a: Alphabet, s: State, e: Event): (State, Reply)
    requires Applies(s, e)
  {
    match e
    case Create(_, _, _, _, _) => CreateStep(s, e)
    case Update(d, content, expected) => UpdateStep(a, s, d, content, expected)
    case Approve(d, expected, hashNow) => ApproveStep(s, d, expected, hashNow)
    case Publish(d, storeId, gate) => PublishStep(s, d, storeId, gate)
  }

  ghost predicate DraftSound(s: State, d: nat)
    requires d < |s.drafts|
  {
    && JobOf(s, d).attempts == |History(s, d)|
    && (s.drafts[d].status == Published <==> JobOf(s, d).status == JobPublished)
    && (JobOf(s, d).mediaId.Some? <==> JobOf(s, d).status == JobPublished)
    && (JobOf(s, d).mediaId.Some? ==> JobOf(s, d).mediaId.value != "" && JobOf(s, d).mediaId.value in s.mapping)
  }

  /** What every run keeps: `attempt_count` is the number of attempts, and draft and job are published together,
      with a media id that maps to a product. */
  ghost predicate Sound(s: State) {
    && (forall d: nat :: d < |s.drafts| ==> DraftSound(s, d))
    && (forall d :: d in s.attempts ==> d < |s.drafts|)
    && (forall d :: d in s.jobs ==> d < |s.drafts|)
  }

  lemma PublishKeepsMapping(s: State, d: nat, storeId: int, gate: Gate, t: State)
    requires d < |s.drafts| && t == PublishStep(s, d, storeId, gate).0
    ensures s.mapping.Keys <= t.mapping.Keys
  {
  }

  lemma BeginKeepsOwnSound(s: State, d: nat, urlSigned: bool)
    requires d < |s.drafts| && DraftSound(s, d) && s.drafts[d].status != Published
    ensures var t := Begin(s, d, urlSigned);
            d < |t.drafts| && d in t.jobs && DraftSound(t, d) && t.drafts[d].status == Publishing && t.jobs[d].mediaId.None?
  {
  }

  lemma FinishKeepsOwnSound(s: State, d: nat, gate: Gate)
    requires d < |s.drafts| && d in s.jobs && DraftSound(s, d) && s.drafts[d].status == Publishing && s.jobs[d].mediaId.None?
    ensures var t := Finish(s, d, gate).0; d < |t.drafts| && DraftSound(t, d)
  {
  }

  lemma PublishKeepsOwnSound(s: State, d: nat, storeId: int, gate: Gate, t: State)
    requires d < |s.drafts| && DraftSound(s, d) && t == PublishStep(s, d, storeId, gate).0
    ensures d < |t.drafts| && DraftSound(t, d)
  {
    if s.drafts[d].status != Published {
      BeginKeepsOwnSound(s, d, UrlSigned(gate.settings));
      FinishKeepsOwnSound(Begin(s, d, UrlSigned(gate.settings)), d, gate);
    }
  }

  lemma PublishKeepsDraftSound(s: State, d: nat, storeId: int, gate: Gate, k: nat, t: State)
    requires Sound(s) && d < |s.drafts| && k < |s.drafts| && t == PublishStep(s, d, storeId, gate).0
    ensures k < |t.drafts| && DraftSound(t, k)
  {
    assert DraftSound(s, d) && DraftSound(s, k);
    if k == d {
      PublishKeepsOwnSound(s, d, storeId, gate, t);
    } else {
      PublishTouchesOne(s, d, storeId, gate, k, t);
      PublishKeepsMapping(s, d, storeId, gate, t);
    }
  }

  /** What a job may change: the status of its draft, its own row, and its own history. */
  ghost predicate ChangesOnlyOwn(s: State, d: nat, t: State) {
    && d < |s.drafts| == |t.drafts| && t.drafts == s.drafts[d := s.drafts[d].(status := t.drafts[d].status)]
    && (forall k :: k in t.attempts ==> k in s.attempts || k == d) && (forall k :: k in t.jobs ==> k in s.jobs || k == d)
  }

  lemma SettleChangesOwn(s: State, d: nat, status: Status, job: JobStatus)
    requires d < |s.drafts| && d in s.jobs
    ensures ChangesOnlyOwn(s, d, Settle(s, d, status, job))
  {
  }

  lemma FinishChangesOwn(s: State, d: nat, gate: Gate, t: State)
    requires d < |s.drafts| && d in s.jobs && t == Finish(s, d, gate).0
    ensures ChangesOnlyOwn(s, d, t) && t.attempts == s.attempts && JobOf(t, d).attempts == JobOf(s, d).attempts
  {
  }

  lemma RunJobChangesOwn(s: State, d: nat, gate: Gate, t: State)
    requires d < |s.drafts| && t == RunJobStep(s, d, gate).0
    ensures ChangesOnlyOwn(s, d, t)
  {
    var queued := s.(jobs := s.jobs[d := JobOf(s, d)]);
    var begun := Begin(s, d, UrlSigned(gate.settings));
    SettleChangesOwn(queued, d, Published, JobPublished);
    FinishChangesOwn(begun, d, gate, Finish(begun, d, gate).0);
  }

  lemma PublishChangesOwn(s: State, d: nat, storeId: int, gate: Gate, t: State)
    requires d < |s.drafts| && t == PublishStep(s, d, storeId, gate).0
    ensures t == s || (ChangesOnlyOwn(s, d, t) && s.drafts[d].status in {Approved, Failed})
  {
    if t != s {
      RunJobChangesOwn(s, d, gate, t);
    }
  }

  lemma PublishKeepsSound(s: State, d: nat, storeId: int, gate: Gate, t: State)
    requires Sound(s) && d < |s.drafts| && t == PublishStep(s, d, storeId, gate).0
    ensures Sound(t)
  {
    PublishChangesOwn(s, d, storeId, gate, t);
    forall k: nat | k < |t.drafts|
      ensures DraftSound(t, k)
    {
      PublishKeepsDraftSound(s, d, storeId, gate, k, t);
    }
  }

  lemma StepKeepsSound(a: Alphabet, s: State, e: Event)
    requires Sound(s) && Applies(s, e)
    ensures Sound(Step(a, s, e).0)
  {
    var t := Step(a, s, e).0;
    if e.Publish? {
      PublishKeepsSound(s, e.draft, e.storeId, e.gate, t);
    } else {
      assert t.jobs == s.jobs && t.attempts == s.attempts && t.mapping == s.mapping;
      forall k: nat | k < |t.drafts|
        ensures DraftSound(t, k)
      {
        assert k < |s.drafts| ==> DraftSound(s, k);
      }
    }
  }

  /** The lookups that guard against a lost job record never fire: a published draft has its job, and an
      unpublished one has no media id. */
  lemma GuardsNeverFire(s: State, d: nat, storeId: int, gate: Gate)
    requires Sound(s) && d < |s.drafts|
    ensures PublishStep(s, d, storeId, gate).1 != NoJob
    ensures s.drafts[d].status != Published ==> JobOf(s, d).mediaId.None? && JobOf(s, d).status != JobPublished
  {
    assert DraftSound(s, d);
  }

  /** The step that publishes a draft maps its media id to the draft's product, unless the id was mapped to another
      product before. */
  lemma PublishingMapsProduct(s: State, d: nat, storeId: int, gate: Gate, t: State)
    requires Sound(s) && d < |s.drafts| && t == PublishStep(s, d, storeId, gate).0
    requires s.drafts[d].status != Published && t.drafts[d].status == Published
    ensures d in t.jobs && t.jobs[d].mediaId.Some? && t.jobs[d].mediaId.value in t.mapping
    ensures var id := t.jobs[d].mediaId.value;
            t.mapping[id] == s.drafts[d].productId <==> id !in s.mapping || s.mapping[id] == s.drafts[d].productId
  {
    assert DraftSound(s, d);
  }

  ghost predicate IsRun(a: Alphabet, states: seq<State>, events: seq<Event>) {
    && |states| == |events| + 1 && states[0] == EMPTY
    && forall k: nat :: k < |events| ==> Applies(states[k], events[k]) && states[k + 1] == Step(a, states[k], events[k]).0
  }

  lemma {:induction false} RunIsSound(a: Alphabet, states: seq<State>, events: seq<Event>, k: nat)
    requires IsRun(a, states, events) && k < |states|
    ensures Sound(states[k])
  {
    if k > 0 {
      RunIsSound(a, states, events, k - 1);
      StepKeepsSound(a, states[k - 1], events[k - 1]);
    }
  }

  /** Draft, job and attempts of a published draft. */
  ghost predicate Frozen(s: State, t: State, d: nat) {
    && d < |s.drafts| && d < |t.drafts| && t.drafts[d] == s.drafts[d]
    && d in s.jobs && d in t.jobs && t.jobs[d] == s.jobs[d]
    && History(t, d) == History(s, d)
  }

  lemma StepFreezes(a: Alphabet, s: State, e: Event, d: nat)
    requires Sound(s) && Applies(s, e) && d < |s.drafts| && s.drafts[d].status == Published
    ensures Frozen(s, Step(a, s, e).0, d)
  {
    assert DraftSound(s, d);
    if e.Publish? {
      PublishFreezes(s, e.draft, e.storeId, e.gate, d);
    }
  }

  lemma PublishFreezes(s: State, k: nat, storeId: int, gate: Gate, d: nat)
    requires Sound(s) && k < |s.drafts| && d < |s.drafts| && s.drafts[d].status == Published
    ensures Frozen(s, PublishStep(s, k, storeId, gate).0, d)
  {
    assert DraftSound(s, d);
    if k != d {
      var t := PublishStep(s, k, storeId, gate).0;
      PublishTouchesOne(s, k, storeId, gate, d, t);
    }
  }

  ghost predicate Untouched(s: State, t: State, d: nat) {
    && d < |s.drafts| && |t.drafts| == |s.drafts| && t.drafts[d] == s.drafts[d]
    && (d in t.jobs <==> d in s.jobs) && (d in s.jobs ==> t.jobs[d] == s.jobs[d])
    && History(t, d) == History(s, d)
  }

  lemma BeginTouchesOne(s: State, k: nat, urlSigned: bool, d: nat)
    requires k < |s.drafts| && d < |s.drafts| && k != d
    ensures Untouched(s, Begin(s, k, urlSigned), d)
  {
  }

  lemma FinishTouchesOne(s: State, k: nat, gate: Gate, d: nat)
    requires k < |s.drafts| && k in s.jobs && d < |s.drafts| && k != d
    ensures Untouched(s, Finish(s, k, gate).0, d)
  {
  }

  /** Publishing one draft leaves the others alone. */
  lemma PublishTouchesOne(s: State, k: nat, storeId: int, gate: Gate, d: nat, t: State)
    requires k < |s.drafts| && d < |s.drafts| && k != d && t == PublishStep(s, k, storeId, gate).0
    ensures Untouched(s, t, d)
  {
    var begun := Begin(s, k, UrlSigned(gate.settings));
    BeginTouchesOne(s, k, UrlSigned(gate.settings), d);
    FinishTouchesOne(begun, k, gate, d);
    if t != s && t != Finish(begun, k, gate).0 {
      assert t.drafts[d] == s.drafts[d];
    }
  }

  /** The event hands a caption to the publisher. */
  ghost predicate Calls(s: State, e: Event, t: State, d: nat, post: Post) {
    e.Publish? && e.draft == d && History(t, d) == History(s, d) + [Some(post)]
  }

  /** The event approves the content the draft has after it. */
  ghost predicate Approves(s: State, e: Event, t: State, d: nat) {
    e.Approve? && e.draft == d && d < |s.drafts| && d < |t.drafts| && s.drafts[d].status != Published && t.drafts[d].status == Approved
    && t.drafts[d].content == s.drafts[d].content && t.drafts[d].revision == s.drafts[d].revision == e.expected
    && e.hashNow == s.drafts[d].sourceHash
  }

  /** Outside an approval, content that is no longer a draft was the same before the step. */
  lemma ContentBefore(a: Alphabet, s: State, e: Event, d: nat, t: State)
    requires Applies(s, e) && t == Step(a, s, e).0 && d < |t.drafts| && t.drafts[d].status != InDraft && !Approves(s, e, t, d)
    ensures d < |s.drafts| && s.drafts[d].status != InDraft
    ensures t.drafts[d].content == s.drafts[d].content && t.drafts[d].revision == s.drafts[d].revision
  {
    if e.Publish? {
      PublishKeepsContent(s, e.draft, e.storeId, e.gate, d, t);
    }
  }

  lemma PublishKeepsContent(s: State, k: nat, storeId: int, gate: Gate, d: nat, t: State)
    requires k < |s.drafts| && t == PublishStep(s, k, storeId, gate).0
    ensures |t.drafts| == |s.drafts|
    ensures d < |s.drafts| ==> t.drafts[d].content == s.drafts[d].content && t.drafts[d].revision == s.drafts[d].revision
    ensures d < |s.drafts| ==> t.drafts[d] == s.drafts[d] || s.drafts[d].status in {Approved, Failed}
  {
    PublishChangesOwn(s, k, storeId, gate, t);
  }

  /** What one step does to one draft. */
  ghost predicate Tracked(s: State, e: Event, t: State, d: nat) {
    && |s.drafts| <= |t.drafts|
    && (d < |t.drafts| && t.drafts[d].status != InDraft && !Approves(s, e, t, d) ==>
          d < |s.drafts| && s.drafts[d].status != InDraft && t.drafts[d].content == s.drafts[d].content && t.drafts[d].revision == s.drafts[d].revision)
    && (d < |s.drafts| && t.drafts[d].status in {Approved, Failed, Published} && s.drafts[d].status !in {Approved, Failed, Published} ==>
          Approves(s, e, t, d))
    && (d < |s.drafts| && s.drafts[d].status == Published ==> Frozen(s, t, d))
  }

  ghost predicate TracksRun(states: seq<State>, events: seq<Event>, d: nat) {
    && |states| == |events| + 1 && states[0] == EMPTY
    && forall k: nat :: k < |events| ==> Tracked(states[k], events[k], states[k + 1], d)
  }

  lemma StepTracks(a: Alphabet, s: State, e: Event, t: State, d: nat)
    requires Sound(s) && Applies(s, e) && t == Step(a, s, e).0
    ensures Tracked(s, e, t, d)
  {
    if d < |s.drafts| {
      StatusBefore(a, s, e, d);
      if s.drafts[d].status == Published {
        StepFreezes(a, s, e, d);
      }
    }
    if d < |t.drafts| && t.drafts[d].status != InDraft && !Approves(s, e, t, d) {
      ContentBefore(a, s, e, d, t);
    }
  }

  lemma RunTracks(a: Alphabet, states: seq<State>, events: seq<Event>, d: nat)
    requires IsRun(a, states, events)
    ensures TracksRun(states, events, d)
  {
    forall k: nat | k < |events|
      ensures Tracked(states[k], events[k], states[k + 1], d)
    {
      RunIsSound(a, states, events, k);
      StepTracks(a, states[k], events[k], states[k + 1], d);
    }
  }

  lemma {:induction false} TrackedFrozen(states: seq<State>, events: seq<Event>, i: nat, j: nat, d: nat)
    requires TracksRun(states, events, d) && i <= j < |states| && d < |states[i].drafts| && states[i].drafts[d].status == Published
    requires d in states[i].jobs
    ensures Frozen(states[i], states[j], d)
    decreases j
  {
    if i < j {
      TrackedFrozen(states, events, i, j - 1, d);
      assert Tracked(states[j - 1], events[j - 1], states[j], d);
    }
  }

  /** Once published, content, job and media id never change again and the publisher is never called again. */
  lemma PublishedIsFrozen(a: Alphabet, states: seq<State>, events: seq<Event>, i: nat, j: nat, d: nat)
    requires IsRun(a, states, events) && i <= j < |states| && d < |states[i].drafts| && states[i].drafts[d].status == Published
    ensures Frozen(states[i], states[j], d)
  {
    RunTracks(a, states, events, d);
    RunIsSound(a, states, events, i);
    assert DraftSound(states[i], d);
    TrackedFrozen(states, events, i, j, d);
  }

  lemma {:induction false} LastApproval(states: seq<State>, events: seq<Event>, j: nat, d: nat) returns (i: nat)
    requires TracksRun(states, events, d) && j < |states| && d < |states[j].drafts| && states[j].drafts[d].status != InDraft
    ensures i < j && Approves(states[i], events[i], states[i + 1], d)
    ensures forall k :: i < k <= j ==> d < |states[k].drafts| && states[k].drafts[d].content == states[j].drafts[d].content
                                       && states[k].drafts[d].revision == states[j].drafts[d].revision
    decreases j
  {
    assert states[0].drafts == [];
    assert Tracked(states[j - 1], events[j - 1], states[j], d);
    if Approves(states[j - 1], events[j - 1], states[j], d) {
      i := j - 1;
    } else {
      i := LastApproval(states, events, j - 1, d);
    }
  }

  /** Every caption handed to the publisher is built from the revision that was approved last: since that approval
      neither the content nor its revision has changed. The module is enabled, and the product data is still what the
      copy was generated from. */
  lemma SentContentWasApproved(a: Alphabet, states: seq<State>, events: seq<Event>, j: nat, d: nat, post: Post) returns (i: nat)
    requires IsRun(a, states, events) && j < |events| && Calls(states[j], events[j], states[j + 1], d, post)
    ensures i < j && Approves(states[i], events[i], states[i + 1], d)
    ensures post == PostOf(states[i + 1].drafts[d]) && states[j].drafts[d].revision == states[i + 1].drafts[d].revision
    ensures events[j].gate.moduleEnabled && GateOpen(states[j].drafts[d], events[j].gate)
  {
    var s, t, gate := states[j], states[j + 1], events[j].gate;
    assert t == PublishStep(s, d, events[j].storeId, gate).0;
    RunIsSound(a, states, events, j);
    CallsExactly(s, events[j], d, t, post);
    RunTracks(a, states, events, d);
    i := LastApproval(states, events, j, d);
  }

  /** The publish call passes every guard and begins an attempt. */
  predicate Attempts(s: State, e: Event, d: nat) {
    && e.Publish? && e.draft == d && d < |s.drafts| && e.gate.moduleEnabled && s.drafts[d].storeId == e.storeId
    && s.drafts[d].status in {Approved, Failed} && GateOpen(s.drafts[d], e.gate)
  }

  lemma AttemptIsFinish(s: State, d: nat, storeId: int, gate: Gate)
    requires Sound(s) && d < |s.drafts|
    ensures PublishStep(s, d, storeId, gate).0
            == if Attempts(s, Publish(d, storeId, gate), d) then Finish(Begin(s, d, !IsPlaceholder(gate.settings)), d, gate).0 else s
  {
    assert DraftSound(s, d);
    if Ready(gate.settings) {
      ReadySignsUnlessPlaceholder(gate.settings);
    }
  }

  lemma PublishCounts(s: State, d: nat, storeId: int, gate: Gate, t: State)
    requires Sound(s) && d < |s.drafts| && t == PublishStep(s, d, storeId, gate).0
    ensures var attempted := Attempts(s, Publish(d, storeId, gate), d);
            && JobOf(t, d).attempts == JobOf(s, d).attempts + (if attempted then 1 else 0)
            && History(t, d) == History(s, d) + (if attempted then [AttemptOf(s.drafts[d], !IsPlaceholder(gate.settings))] else [])
  {
    AttemptIsFinish(s, d, storeId, gate);
    if Attempts(s, Publish(d, storeId, gate), d) {
      FinishChangesOwn(Begin(s, d, !IsPlaceholder(gate.settings)), d, gate, t);
    }
  }

  /** The publisher is called exactly by an attempt without the placeholder secret, and gets the draft's post; from a
      draft that is neither approved nor failed there is no call. */
  lemma CallsExactly(s: State, e: Event, d: nat, t: State, post: Post)
    requires Sound(s) && e.Publish? && d < |s.drafts| && e.draft == d && t == PublishStep(s, d, e.storeId, e.gate).0
    ensures Calls(s, e, t, d, post) <==> Attempts(s, e, d) && !IsPlaceholder(e.gate.settings) && post == PostOf(s.drafts[d])
  {
    PublishCounts(s, d, e.storeId, e.gate, t);
    var n := |History(s, d)|;
    if Attempts(s, e, d) {
      assert History(t, d)[n] == AttemptOf(s.drafts[d], !IsPlaceholder(e.gate.settings));
    }
    if Calls(s, e, t, d, post) {
      assert History(t, d)[n] == Some(post);
    }
  }

  /** What an attempt leaves behind, by the publisher's answer. */
  lemma AnswerSetsStatus(s: State, e: Event, d: nat, t: State)
    requires Sound(s) && Attempts(s, e, d) && t == PublishStep(s, d, e.storeId, e.gate).0
    ensures d < |t.drafts| && t.drafts[d].content == s.drafts[d].content && t.drafts[d].sourceHash == s.drafts[d].sourceHash
    ensures t.drafts[d].storeId == s.drafts[d].storeId
    ensures t.drafts[d].status == if IsPlaceholder(e.gate.settings) then Failed
                                  else match Settled(e.gate.answer)
                                       case Posted(_) => Published
                                       case TimedOut => Unknown
                                       case Errored => Failed
                                       case Escaped => Publishing
  {
    assert DraftSound(s, d);
    ReadySignsUnlessPlaceholder(e.gate.settings);
  }

  lemma CallInRun(a: Alphabet, states: seq<State>, events: seq<Event>, i: nat, d: nat, post: Post)
    requires IsRun(a, states, events) && i < |events| && Calls(states[i], events[i], states[i + 1], d, post)
    ensures Sound(states[i]) && Attempts(states[i], events[i], d) && !IsPlaceholder(events[i].gate.settings)
    ensures post == PostOf(states[i].drafts[d]) && states[i + 1] == PublishStep(states[i], d, events[i].storeId, events[i].gate).0
  {
    RunIsSound(a, states, events, i);
    assert states[i + 1] == Step(a, states[i], events[i]).0;
    CallsExactly(states[i], events[i], d, states[i + 1], post);
  }

  /** No blind retry: after a call that timed out, or ended in an exception that escaped, the publisher is not called
      for the draft again before a new approval. */
  lemma RetryNeedsApproval(a: Alphabet, states: seq<State>, events: seq<Event>, i: nat, j: nat, d: nat, first: Post, second: Post)
    returns (k: nat)
    requires IsRun(a, states, events) && i < j < |events|
    requires Calls(states[i], events[i], states[i + 1], d, first) && events[i].gate.answer in {TimedOut, Escaped}
    requires Calls(states[j], events[j], states[j + 1], d, second)
    ensures i < k < j && Approves(states[k], events[k], states[k + 1], d)
  {
    CallInRun(a, states, events, i, d, first);
    CallInRun(a, states, events, j, d, second);
    AnswerSetsStatus(states[i], events[i], d, states[i + 1]);
    RunTracks(a, states, events, d);
    k := ApprovedSince(states, events, i + 1, j, d);
  }

  /** After a handled error no approval is needed: the next publish call with the guards open sends the same post
      again, even if Meta accepted the first before its answer was lost. */
  lemma ErrorAllowsRetry(s: State, e: Event, d: nat, gate: Gate)
    requires Sound(s) && Attempts(s, e, d) && Settled(e.gate.answer) == Errored
    requires gate.moduleEnabled && GateOpen(s.drafts[d], gate) && !IsPlaceholder(gate.settings)
    ensures var t := PublishStep(s, d, e.storeId, e.gate).0;
            d < |t.drafts| && Calls(t, Publish(d, e.storeId, gate), PublishStep(t, d, e.storeId, gate).0, d, PostOf(s.drafts[d]))
  {
    var t := PublishStep(s, d, e.storeId, e.gate).0;
    PublishKeepsSound(s, d, e.storeId, e.gate, t);
    AnswerSetsStatus(s, e, d, t);
    CallsExactly(t, Publish(d, e.storeId, gate), d, PublishStep(t, d, e.storeId, gate).0, PostOf(s.drafts[d]));
  }

  ghost predicate CallsPublisher(s: State, e: Event, t: State, d: nat) {
    exists post :: Calls(s, e, t, d, post)
  }

  ghost predicate CallsAt(states: seq<State>, events: seq<Event>, i: nat, d: nat)
    requires i < |events| < |states|
  {
    CallsPublisher(states[i], events[i], states[i + 1], d)
  }

  /** How many of the first `k` events call the publisher for the draft. */
  ghost function CallCount(states: seq<State>, events: seq<Event>, k: nat, d: nat): nat
    requires k <= |events| < |states|
  {
    if k == 0 then 0 else CallCount(states, events, k - 1, d) + if CallsAt(states, events, k - 1, d) then 1 else 0
  }

  /** The event is an attempt that finds the signing secret at its placeholder. */
  predicate Spoiled(s: State, e: Event, d: nat) {
    Attempts(s, e, d) && IsPlaceholder(e.gate.settings)
  }

  lemma StepCountsCalls(a: Alphabet, states: seq<State>, events: seq<Event>, i: nat, d: nat)
    requires IsRun(a, states, events) && i < |events|
    ensures JobOf(states[i + 1], d).attempts
            == JobOf(states[i], d).attempts + (if CallsAt(states, events, i, d) then 1 else 0) + (if Spoiled(states[i], events[i], d) then 1 else 0)
  {
    var s, e, t := states[i], events[i], states[i + 1];
    RunIsSound(a, states, events, i);
    assert t == Step(a, s, e).0;
    if e.Publish? && e.draft == d {
      PublishCounts(s, d, e.storeId, e.gate, t);
      CallsExactly(s, e, d, t, PostOf(s.drafts[d]));
      if CallsAt(states, events, i, d) {
        var post :| Calls(s, e, t, d, post);
        CallsExactly(s, e, d, t, post);
      }
    } else if e.Publish? && d < |s.drafts| {
      PublishTouchesOne(s, e.draft, e.storeId, e.gate, d, t);
    } else if e.Publish? {
      RunIsSound(a, states, events, i + 1);
    }
  }

  /** Over every run, the attempt count of a draft's job is the number of publisher calls for it, exactly when no publish
      call that passed the guards found the signing secret at its placeholder. */
  lemma {:induction false} AttemptsAreCalls(a: Alphabet, states: seq<State>, events: seq<Event>, k: nat, d: nat)
    requires IsRun(a, states, events) && k <= |events|
    ensures CallCount(states, events, k, d) <= JobOf(states[k], d).attempts
    ensures JobOf(states[k], d).attempts == CallCount(states, events, k, d) <==> forall i: nat :: i < k ==> !Spoiled(states[i], events[i], d)
  {
    if k > 0 {
      AttemptsAreCalls(a, states, events, k - 1, d);
      StepCountsCalls(a, states, events, k - 1, d);
    }
  }

  lemma {:induction false} ApprovedSince(states: seq<State>, events: seq<Event>, i: nat, j: nat, d: nat) returns (k: nat)
    requires TracksRun(states, events, d) && i <= j < |states| && d < |states[i].drafts|
    requires states[i].drafts[d].status !in {Approved, Failed, Published}
    requires d < |states[j].drafts| && states[j].drafts[d].status in {Approved, Failed, Published}
    ensures i <= k < j && Approves(states[k], events[k], states[k + 1], d)
    decreases j
  {
    DraftsRemain(states, events, i, j - 1, d);
    assert Tracked(states[j - 1], events[j - 1], states[j], d);
    if states[j - 1].drafts[d].status !in {Approved, Failed, Published} {
      k := j - 1;
    } else {
      k := ApprovedSince(states, events, i, j - 1, d);
    }
  }

  /** Only an approval leads back to a status that may be published. */
  lemma StatusBefore(a: Alphabet, s: State, e: Event, d: nat)
    requires Applies(s, e) && d < |s.drafts|
    ensures d < |Step(a, s, e).0.drafts|
    ensures var t := Step(a, s, e).0;
            t.drafts[d].status in {Approved, Failed, Published} && s.drafts[d].status !in {Approved, Failed, Published} ==> Approves(s, e, t, d)
  {
    if e.Publish? {
      PublishKeepsContent(s, e.draft, e.storeId, e.gate, d, Step(a, s, e).0);
    }
  }

  lemma {:induction false} DraftsRemain(states: seq<State>, events: seq<Event>, i: nat, j: nat, d: nat)
    requires TracksRun(states, events, d) && i <= j < |states|
    ensures |states[i].drafts| <= |states[j].drafts|
    decreases j
  {
    if i < j {
      DraftsRemain(states, events, i, j - 1, d);
      assert Tracked(states[j - 1], events[j - 1], states[j], d);
    }
  }

  /** The approval is enough: a draft whose last call timed out can be approved again as it is, and the next publish
      call sends it a second time, with no reconciliation in between. */
  lemma ReapprovalSendsAgain(s: State, d: nat, gate: Gate)
    requires Sound(s) && d < |s.drafts| && s.drafts[d].status == Unknown
    requires gate.moduleEnabled && GateOpen(s.drafts[d], gate) && !IsPlaceholder(gate.settings)
    ensures var t := ApproveStep(s, d, s.drafts[d].revision, s.drafts[d].sourceHash).0;
            Calls(t, Publish(d, s.drafts[d].storeId, gate), PublishStep(t, d, s.drafts[d].storeId, gate).0, d, PostOf(s.drafts[d]))
  {
    assert DraftSound(s, d);
    ReadySignsUnlessPlaceholder(gate.settings);
  }

  /** Settings as the example environment file ships them, otherwise complete. */
  const EXAMPLE_SETTINGS := Settings(true, true, "token", "1", "https://media", PLACEHOLDER)

  lemma PlaceholderIsLower()
    ensures Lower(PLACEHOLDER) == PLACEHOLDER
  {
    assert forall i :: 0 <= i < |PLACEHOLDER| ==> !('A' <= PLACEHOLDER[i] <= 'Z');
  }

  lemma ExampleIsReady()
    ensures Ready(EXAMPLE_SETTINGS) && IsPlaceholder(EXAMPLE_SETTINGS)
  {
    PlaceholderIsLower();
  }

  /** The run that owes the difference: with the placeholder secret a draft that is approved and published counts an
      attempt, and the publisher was not called. */
  lemma PlaceholderCountsWithoutCall(a: Alphabet, content: Content, hash: string, answer: Answer) returns (states: seq<State>, events: seq<Event>)
    ensures IsRun(a, states, events) && |events| == 3 && events[2].Publish? && Ready(events[2].gate.settings)
    ensures JobOf(states[3], 0).attempts == 1 && CallCount(states, events, 3, 0) == 0
  {
    ExampleIsReady();
    var gate := Gate(true, hash, true, EXAMPLE_SETTINGS, answer);
    events := [Create(1, 1, content, hash, true), Approve(0, 1, hash), Publish(0, 1, gate)];
    var s1 := Step(a, EMPTY, events[0]).0;
    var s2 := Step(a, s1, events[1]).0;
    var s3 := Step(a, s2, events[2]).0;
    states := [EMPTY, s1, s2, s3];
    assert IsRun(a, states, events);
    StepCountsCalls(a, states, events, 0, 0);
    StepCountsCalls(a, states, events, 1, 0);
    StepCountsCalls(a, states, events, 2, 0);
    assert Spoiled(states[2], events[2], 0);
    CallCountOfThree(states, events, 0);
  }

  lemma CallCountOfThree(states: seq<State>, events: seq<Event>, d: nat)
    requires |events| == 3 < |states|
    ensures CallCount(states, events, 3, d) == (if CallsAt(states, events, 0, d) then 1 else 0)
            + (if CallsAt(states, events, 1, d) then 1 else 0) + (if CallsAt(states, events, 2, d) then 1 else 0)
  {
    assert CallCount(states, events, 1, d) == CallCount(states, events, 0, d) + if CallsAt(states, events, 0, d) then 1 else 0;
    assert CallCount(states, events, 2, d) == CallCount(states, events, 1, d) + if CallsAt(states, events, 1, d) then 1 else 0;
  }

  /** Letters are themselves, and neither they nor the hash sign are blanks. */
  ghost predicate KnowsLetters(a: Alphabet) {
    !a.isSpace('#') && forall c :: 'a' <= c <= 'z' ==> a.fold(c) == c && !a.isSpace(c)
  }

  /** The n-th of 22 hashtags of 100 characters, told apart by the last one. */
  function LongTag(n: nat): (r: string)
    requires n < 22
    ensures |r| == 100 && r[0] == '#' && r[99] == 'a' + n as char && forall i :: 0 < i < 99 ==> r[i] == 'x'
  {
    seq(100, i requires 0 <= i < 100 => if i == 0 then '#' else if i == 99 then 'a' + n as char else 'x')
  }

  function LongTags(): (r: seq<string>)
    ensures |r| == 22 && forall n :: 0 <= n < 22 ==> r[n] == LongTag(n)
  {
    seq(22, n requires 0 <= n < 22 => LongTag(n))
  }

  /** A normal form ends as the text does, when that is not a blank. */
  lemma NormalizeEnds(a: Alphabet, s: string)
    requires ValidAlphabet(a) && s != "" && !a.isSpace(a.fold(s[|s| - 1]))
    ensures Normalize(a, s) != "" && Normalize(a, s)[|Normalize(a, s)| - 1] == a.fold(s[|s| - 1])
  {
  }

  lemma StripsToItself(a: Alphabet, s: string)
    requires s != "" && !a.isSpace(s[0]) && !a.isSpace(s[|s| - 1])
    ensures Strip(a, s) == s
  {
  }

  lemma LongTagsAreKept(a: Alphabet)
    requires ValidAlphabet(a) && KnowsLetters(a)
    ensures CleanHashtags(a, LongTags()) == LongTags()
  {
    var tags := LongTags();
    forall n: nat | n < 22
      ensures tags[n] != "" && Strip(a, tags[n]) == tags[n] && Normalize(a, tags[n]) != ""
      ensures Normalize(a, tags[n])[|Normalize(a, tags[n])| - 1] == 'a' + n as char
    {
      StripsToItself(a, tags[n]);
      NormalizeEnds(a, tags[n]);
    }
    KeptIsFixed(a, tags);
    assert HashedAll(tags) == tags;
  }

  lemma RunOfFour(a: Alphabet, states: seq<State>, events: seq<Event>)
    requires |events| == 4 && |states| == 5 && states[0] == EMPTY
    requires Applies(states[0], events[0]) && states[1] == Step(a, states[0], events[0]).0
    requires Applies(states[1], events[1]) && states[2] == Step(a, states[1], events[1]).0
    requires Applies(states[2], events[2]) && states[3] == Step(a, states[2], events[2]).0
    requires Applies(states[3], events[3]) && states[4] == Step(a, states[3], events[3]).0
    ensures IsRun(a, states, events)
  {
  }

  const LONG_TAGS_EDIT := Content("x", LongTags(), "")

  lemma LongTagsAreSaved(a: Alphabet, s: State, t: State)
    requires ValidAlphabet(a) && KnowsLetters(a) && |s.drafts| == 1 && s.drafts[0].status == InDraft && s.drafts[0].revision == 1
    requires t == UpdateStep(a, s, 0, LONG_TAGS_EDIT, 1).0
    ensures UpdateStep(a, s, 0, LONG_TAGS_EDIT, 1).1 == Done
    ensures |t.drafts| == 1 && t.drafts[0].content.hashtags == LongTags() && t.drafts[0].revision == 2 && t.drafts[0].status == InDraft
    ensures t.drafts[0].storeId == s.drafts[0].storeId && t.drafts[0].sourceHash == s.drafts[0].sourceHash
  {
    LongTagsAreKept(a);
    StripsToItself(a, "x");
  }

  lemma LongTagsAreSent(s: State, gate: Gate, t: State) returns (post: Post)
    requires Sound(s) && |s.drafts| == 1 && s.drafts[0].status == Approved && s.drafts[0].content.hashtags == LongTags()
    requires gate.moduleEnabled && GateOpen(s.drafts[0], gate) && !IsPlaceholder(gate.settings)
    requires t == PublishStep(s, 0, s.drafts[0].storeId, gate).0
    ensures Calls(s, Publish(0, s.drafts[0].storeId, gate), t, 0, post) && |post.caption| > MAX_CAPTION
  {
    post := PostOf(s.drafts[0]);
    CallsExactly(s, Publish(0, s.drafts[0].storeId, gate), 0, t, post);
    LongLineOverflows(s.drafts[0].content);
  }

  /** Hashtags that pass every check: 22 tags of 100 characters are saved, approved and handed to the publisher, in a
      caption longer than the limit. */
  lemma LongHashtagsOverflow(a: Alphabet, content: Content, hash: string, gate: Gate) returns (states: seq<State>, events: seq<Event>, post: Post)
    requires ValidAlphabet(a) && KnowsLetters(a) && gate.moduleEnabled && gate.hashNow == hash && gate.inCatalog && Ready(gate.settings)
    requires !IsPlaceholder(gate.settings)
    ensures IsRun(a, states, events) && |events| == 4 && events[1] == Update(0, LONG_TAGS_EDIT, 1)
    ensures |LONG_TAGS_EDIT.hashtags| <= MAX_HASHTAGS && forall tag :: tag in LONG_TAGS_EDIT.hashtags ==> |tag| <= 100
    ensures Step(a, states[1], events[1]).1 == Done && Approves(states[2], events[2], states[3], 0)
    ensures Calls(states[3], events[3], states[4], 0, post) && |post.caption| > MAX_CAPTION
  {
    events := [Create(1, 1, content, hash, true), Update(0, LONG_TAGS_EDIT, 1), Approve(0, 2, hash), Publish(0, 1, gate)];
    var s1 := CreateStep(EMPTY, events[0]).0;
    var s2 := UpdateStep(a, s1, 0, LONG_TAGS_EDIT, 1).0;
    LongTagsAreSaved(a, s1, s2);
    var s3 := ApproveStep(s2, 0, 2, hash).0;
    var s4 := PublishStep(s3, 0, 1, gate).0;
    states := [EMPTY, s1, s2, s3, s4];
    RunOfFour(a, states, events);
    RunIsSound(a, states, events, 3);
    post := LongTagsAreSent(s3, gate, s4);
  }

  lemma FormIsNew(a: Alphabet, values: seq<string>, key: string)
    requires forall j :: 0 <= j < |values| ==> Normalize(a, Strip(a, values[j])) != key
    ensures key !in Keys(a, Unique(a, values))
  {
    forall v | v in Unique(a, values)
      ensures Normalize(a, v) != key
    {
      var w := UniqueComesFrom(a, values, v);
    }
  }

  lemma {:induction false} FirstIsKept(a: Alphabet, values: seq<string>, i: nat, value: string, key: string)
    requires i < |values| && value == Strip(a, values[i]) && key == Normalize(a, value) && value != "" && key != ""
    requires forall j :: 0 <= j < i ==> Normalize(a, Strip(a, values[j])) != key
    ensures value in Unique(a, values)
    decreases |values|
  {
    if i < |values| - 1 {
      FirstIsKept(a, values[..|values| - 1], i, value, key);
    } else {
      FormIsNew(a, values[..|values| - 1], key);
    }
  }

  /** Of the values with one normal form, the first is kept as `strip` leaves it. */
  lemma UniqueKeepsFirst(a: Alphabet, values: seq<string>, i: nat)
    requires i < |values| && Strip(a, values[i]) != "" && Normalize(a, Strip(a, values[i])) != ""
    requires forall j :: 0 <= j < i ==> Normalize(a, Strip(a, values[j])) != Normalize(a, Strip(a, values[i]))
    ensures Strip(a, values[i]) in Unique(a, values)
  {
    FirstIsKept(a, values, i, Strip(a, values[i]), Normalize(a, Strip(a, values[i])));
  }

  /** One draft as its own events make it: the draft, its job, and what its attempts handed over. */
  datatype Row = Row(draft: Draft, job: Option<Job>, attempts: seq<Attempt>)

  /** An attempt: counted with the post it hands over, then ended by the publisher's answer. */
  function Attempted(row: Row, settings: Settings, answer: Answer): Row {
    var count := if row.job.Some? then row.job.value.attempts + 1 else 1;
    var signed := Lower(settings.signingSecret) != PLACEHOLDER;
    var history := row.attempts + [if signed then Some(Post(SentCaption(row.draft.content), row.draft.content.altText)) else None];
    if signed && answer.Posted? && answer.mediaId != "" then
      Row(row.draft.(status := Published), Some(Job(JobPublished, count, Some(answer.mediaId))), history)
    else if signed && answer.TimedOut? then Row(row.draft.(status := Unknown), Some(Job(JobUnknown, count, None)), history)
    else if signed && answer.Escaped? then Row(row.draft.(status := Publishing), Some(Job(JobPublishing, count, None)), history)
    else Row(row.draft.(status := Failed), Some(Job(JobFailed, count, None)), history)
  }

  function First1000(s: string): string {
    if |s| > 1000 then s[..1000] else s
  }

  /** What one event on a draft makes of it; a refused request changes nothing. */
  function RowAfter(a: Alphabet, row: Row, e: Event): Row
    requires !e.Create?
  {
    var draft := row.draft;
    match e
    case Update(_, content, expected) =>
      if draft.status != Publishing && draft.status != Published && draft.revision == expected && 0 < |Strip(a, content.caption)| <= 2200 then
        row.(draft := draft.(content := Content(Strip(a, content.caption), CleanHashtags(a, content.hashtags), First1000(Strip(a, content.altText))),
                             revision := expected + 1, status := InDraft))
      else row
    case Approve(_, expected, hashNow) =>
      if draft.revision == expected && draft.status != Published && hashNow == draft.sourceHash then row.(draft := draft.(status := Approved))
      else row
    case Publish(_, storeId, gate) =>
      var x := gate.settings;
      if gate.moduleEnabled && draft.storeId == storeId && (draft.status == Approved || draft.status == Failed)
         && gate.hashNow == draft.sourceHash && gate.inCatalog
         && x.sendEnabled && x.publishEnabled && x.accessToken != "" && x.igUserId != "" && "https://" <= x.mediaBaseUrl && |x.signingSecret| >= 20
      then Attempted(row, x, gate.answer)
      else row
  }

  /** How many drafts the first `k` events created. */
  function Created(events: seq<Event>, k: nat): nat
    requires k <= |events|
  {
    if k == 0 then 0 else Created(events, k - 1) + if events[k - 1].Create? && events[k - 1].owned then 1 else 0
  }

  /** The story of one draft: the events that name it, from the one that created it on. */
  function RowAt(a: Alphabet, events: seq<Event>, k: nat, d: nat): Option<Row>
    requires k <= |events|
  {
    if k == 0 then None
    else
      var before, e := RowAt(a, events, k - 1, d), events[k - 1];
      match e
      case Create(storeId, productId, content, sourceHash, owned) =>
        if owned && Created(events, k - 1) == d then Some(Row(Draft(storeId, productId, content, sourceHash, InDraft, 1), None, [])) else before
      case _ => if before.Some? && e.draft == d then Some(RowAfter(a, before.value, e)) else before
  }

  function RowOf(s: State, d: nat): Option<Row> {
    if d < |s.drafts| then Some(Row(s.drafts[d], if d in s.jobs then Some(s.jobs[d]) else None, History(s, d))) else None
  }

  lemma FinishMakesRow(s: State, d: nat, gate: Gate)
    requires d < |s.drafts| && DraftSound(s, d) && s.drafts[d].status in {Approved, Failed} && Ready(gate.settings)
    ensures RowOf(Finish(Begin(s, d, !IsPlaceholder(gate.settings)), d, gate).0, d)
            == Some(Attempted(RowOf(s, d).value, gate.settings, gate.answer))
  {
    ReadySignsUnlessPlaceholder(gate.settings);
  }

  lemma PublishMakesRow(a: Alphabet, s: State, e: Event)
    requires Sound(s) && e.Publish? && e.draft < |s.drafts|
    ensures RowOf(PublishStep(s, e.draft, e.storeId, e.gate).0, e.draft) == Some(RowAfter(a, RowOf(s, e.draft).value, e))
  {
    assert DraftSound(s, e.draft);
    AttemptIsFinish(s, e.draft, e.storeId, e.gate);
    if Attempts(s, e, e.draft) {
      FinishMakesRow(s, e.draft, e.gate);
    }
  }

  lemma OtherRowsStay(a: Alphabet, s: State, e: Event, d: nat)
    requires Sound(s) && Applies(s, e) && !e.Create? && e.draft != d
    ensures RowOf(Step(a, s, e).0, d) == RowOf(s, d)
  {
    if e.Publish? {
      PublishKeepsContent(s, e.draft, e.storeId, e.gate, d, Step(a, s, e).0);
      if d < |s.drafts| {
        PublishTouchesOne(s, e.draft, e.storeId, e.gate, d, Step(a, s, e).0);
      }
    }
  }

  lemma StepMakesRow(a: Alphabet, s: State, e: Event, d: nat)
    requires Sound(s) && Applies(s, e)
    ensures RowOf(Step(a, s, e).0, d)
            == if e.Create? then
                 (if e.owned && |s.drafts| == d then Some(Row(Draft(e.storeId, e.productId, e.content, e.sourceHash, InDraft, 1), None, [])) else RowOf(s, d))
               else if e.draft == d then Some(RowAfter(a, RowOf(s, d).value, e))
               else RowOf(s, d)
  {
    if e.Create? {
      CreateMakesRow(s, e, d);
    } else if e.draft != d {
      OtherRowsStay(a, s, e, d);
    } else if e.Publish? {
      PublishMakesRow(a, s, e);
    } else if e.Update? {
      UpdateMakesRow(a, s, e);
    } else {
      ApproveMakesRow(a, s, e);
    }
  }

  lemma CreateMakesRow(s: State, e: Event, d: nat)
    requires Sound(s) && e.Create?
    ensures RowOf(CreateStep(s, e).0, d)
            == if e.owned && |s.drafts| == d then Some(Row(Draft(e.storeId, e.productId, e.content, e.sourceHash, InDraft, 1), None, [])) else RowOf(s, d)
  {
  }

  lemma UpdateMakesRow(a: Alphabet, s: State, e: Event)
    requires e.Update? && e.draft < |s.drafts|
    ensures RowOf(UpdateStep(a, s, e.draft, e.content, e.expected).0, e.draft) == Some(RowAfter(a, RowOf(s, e.draft).value, e))
  {
    CutAlt(Strip(a, e.content.altText));
    EmptyIsShort(Strip(a, e.content.caption));
  }

  lemma CutAlt(s: string)
    ensures Cut(s, MAX_ALT) == First1000(s)
  {
  }

  lemma EmptyIsShort(s: string)
    ensures s == "" <==> |s| == 0
  {
  }

  lemma ApproveMakesRow(a: Alphabet, s: State, e: Event)
    requires e.Approve? && e.draft < |s.drafts|
    ensures RowOf(ApproveStep(s, e.draft, e.expected, e.hashNow).0, e.draft) == Some(RowAfter(a, RowOf(s, e.draft).value, e))
  {
  }

  lemma {:induction false} DraftsAreCreated(a: Alphabet, states: seq<State>, events: seq<Event>, k: nat)
    requires IsRun(a, states, events) && k <= |events|
    ensures |states[k].drafts| == Created(events, k)
  {
    if k > 0 {
      DraftsAreCreated(a, states, events, k - 1);
      assert states[k - 1 + 1] == Step(a, states[k - 1], events[k - 1]).0;
      if events[k - 1].Publish? {
        PublishKeepsContent(states[k - 1], events[k - 1].draft, events[k - 1].storeId, events[k - 1].gate, 0, states[k]);
      }
    }
  }

  /** In every run each draft, its job and its attempts are what the events that name it make of them, whatever
      happens to the others. */
  lemma {:induction false} DraftFollowsItsEvents(a: Alphabet, states: seq<State>, events: seq<Event>, k: nat, d: nat)
    requires IsRun(a, states, events) && k <= |events|
    ensures RowAt(a, events, k, d) == RowOf(states[k], d)
  {
    if k > 0 {
      DraftFollowsItsEvents(a, states, events, k - 1, d);
      RunIsSound(a, states, events, k - 1);
      DraftsAreCreated(a, states, events, k - 1);
      StepMakesRow(a, states[k - 1], events[k - 1], d);
      assert states[k - 1 + 1] == Step(a, states[k - 1], events[k - 1]).0;
    }
  }

  /** The media mapping only grows, and only by the publication of a draft, which maps its media id to its product. */
  lemma MappingGrowsByPublishing(a: Alphabet, s: State, e: Event, id: string)
    requires Sound(s) && Applies(s, e)
    ensures var t := Step(a, s, e).0;
            && (id in s.mapping ==> id in t.mapping && t.mapping[id] == s.mapping[id])
            && (id in t.mapping && id !in s.mapping ==>
                  e.Publish? && e.draft < |t.drafts| && s.drafts[e.draft].status != Published && t.drafts[e.draft].status == Published
                  && e.gate.answer == Posted(id) && t.mapping[id] == s.drafts[e.draft].productId)
  {
    if e.Publish? {
      assert DraftSound(s, e.draft);
      AttemptIsFinish(s, e.draft, e.storeId, e.gate);
    }
  }

  class ContentStudio {
    const a: Alphabet
    var drafts: seq<Draft>
    var jobs: map<nat, Job>
    var mapping: map<string, int>
    ghost var attempts: map<nat, seq<Attempt>>

    ghost function Now(): State
      reads this
    {
      State(drafts, jobs, mapping, attempts)
    }

    ghost predicate Valid()
      reads this
    {
      Sound(Now())
    }

    constructor (a: Alphabet)
      ensures Valid() && Now() == EMPTY && this.a == a
    {
      this.a := a;
      drafts, jobs, mapping, attempts := [], map[], map[], map[];
    }

    /** `create_content_draft`, with the generated copy. */
    method CreateDraft(storeId: int, productId: int, content: Content, sourceHash: string, owned: bool) returns (r: Reply)
      requires Valid()
      modifies this`drafts
      ensures Valid() && (Now(), r) == Step(a, old(Now()), Create(storeId, productId, content, sourceHash, owned))
    {
      StepKeepsSound(a, Now(), Create(storeId, productId, content, sourceHash, owned));
      if !owned {
        return BadValue;
      }
      drafts := drafts + [Draft(storeId, productId, content, sourceHash, InDraft, 1)];
      r := Done;
    }

    /** `update_content_draft`. */
    method UpdateDraft(d: nat, content: Content, expected: nat) returns (r: Reply)
      requires Valid() && d < |drafts|
      modifies this`drafts
      ensures Valid() && (Now(), r) == Step(a, old(Now()), Update(d, content, expected))
    {
      StepKeepsSound(a, Now(), Update(d, content, expected));
      var draft := drafts[d];
      if draft.status in {Publishing, Published} {
        return BadValue;
      }
      if draft.revision != expected {
        return Conflict;
      }
      var caption := Strip(a, content.caption);
      if caption == "" || |caption| > MAX_CAPTION {
        return BadValue;
      }
      var edited := Edit(draft, content, caption);
      drafts := drafts[d := edited];
      r := Done;
    }

    method Edit(draft: Draft, content: Content, caption: string) returns (edited: Draft)
      requires caption == Strip(a, content.caption)
      ensures edited == Edited(a, draft, content)
    {
      var hashtags := TakeUnique(a, HashedAll(content.hashtags), MAX_HASHTAGS);
      edited := draft.(content := Content(caption, hashtags, Cut(Strip(a, content.altText), MAX_ALT)),
                       revision := draft.revision + 1, status := InDraft);
    }

    /** `approve_content_draft`. */
    method ApproveDraft(d: nat, expected: nat, hashNow: string) returns (r: Reply)
      requires Valid() && d < |drafts|
      modifies this`drafts
      ensures Valid() && (Now(), r) == Step(a, old(Now()), Approve(d, expected, hashNow))
    {
      StepKeepsSound(a, Now(), Approve(d, expected, hashNow));
      if drafts[d].revision != expected {
        return Conflict;
      }
      if drafts[d].status == Published {
        return Done;
      }
      if hashNow != drafts[d].sourceHash {
        return Conflict;
      }
      drafts := drafts[d := drafts[d].(status := Approved)];
      r := Done;
    }

    /** `publish_content_draft`, up to the point where an attempt begins. */
    method PublishDraft(d: nat, storeId: int, gate: Gate) returns (r: Reply)
      requires Valid() && d < |drafts|
      modifies this
      ensures Valid() && (Now(), r) == Step(a, old(Now()), Publish(d, storeId, gate)) && r != NoJob
    {
      StepKeepsSound(a, Now(), Publish(d, storeId, gate));
      GuardsNeverFire(Now(), d, storeId, gate);
      if !gate.moduleEnabled {
        return Failure;
      }
      if drafts[d].storeId != storeId || drafts[d].status !in {Approved, Failed, Published} {
        return BadValue;
      }
      if drafts[d].status == Published {
        if d !in jobs {
          return NoJob;
        }
        return JobReturned;
      }
      if gate.hashNow != drafts[d].sourceHash || !gate.inCatalog || !Ready(gate.settings) {
        return Failure;
      }
      r := RunJob(d, gate);
    }

    /** The job: reused or queued, counted, committed, and then the call. */
    method RunJob(d: nat, gate: Gate) returns (r: Reply)
      requires d < |drafts|
      modifies this
      ensures (Now(), r) == RunJobStep(old(Now()), d, gate)
    {
      ghost var before := Now();
      if d !in jobs {
        jobs := jobs[d := Job(JobQueued, 0, None)];
      }
      assert jobs == before.jobs[d := JobOf(before, d)];
      if jobs[d].status == JobPublished {
        return JobReturned;
      }
      if jobs[d].mediaId.Some? {
        jobs := jobs[d := jobs[d].(status := JobPublished)];
        drafts := drafts[d := drafts[d].(status := Published)];
        return JobReturned;
      }
      jobs := jobs[d := jobs[d].(status := JobPublishing, attempts := jobs[d].attempts + 1)];
      drafts := drafts[d := drafts[d].(status := Publishing)];
      attempts := attempts[d := History(before, d) + [AttemptOf(drafts[d], UrlSigned(gate.settings))]];
      assert Now() == Begin(before, d, UrlSigned(gate.settings));
      r := AwaitPublisher(d, gate);
    }

    /** The publisher's answer and the last commit. */
    method AwaitPublisher(d: nat, gate: Gate) returns (r: Reply)
      requires d < |drafts| && d in jobs
      modifies this`drafts, this`jobs, this`mapping
      ensures (Now(), r) == Finish(old(Now()), d, gate)
    {
      if !UrlSigned(gate.settings) || Settled(gate.answer).Errored? {
        jobs := jobs[d := jobs[d].(status := JobFailed)];
        drafts := drafts[d := drafts[d].(status := Failed)];
        return Failure;
      }
      match gate.answer
      case Posted(mediaId) =>
        jobs := jobs[d := jobs[d].(status := JobPublished, mediaId := Some(mediaId))];
        drafts := drafts[d := drafts[d].(status := Published)];
        if mediaId !in mapping {
          mapping := mapping[mediaId := drafts[d].productId];
        }
        r := JobReturned;
      case TimedOut =>
        jobs := jobs[d := jobs[d].(status := JobUnknown)];
        drafts := drafts[d := drafts[d].(status := Unknown)];
        r := Failure;
      case Errored =>
        r := Failure;
      case Escaped =>
        r := Failure;
    }
  }
}
