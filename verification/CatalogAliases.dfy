/** Building the alias list of one product: collect candidates, sort them stably by priority, keep the first of
    each normal form (app/catalog_training.py, 76-174). */
module CatalogAliases {
  import opened Options
  import opened Sequences
  import opened CatalogText

  datatype Alias = Alias(value: string, normalized: string, kind: string, source: string, priority: int, approved: bool)

  /** An entry of the client's `aliases` list. */
  datatype Provided =
    | Text(value: string)
    | Record(value: string, kind: string, source: string, priority: int, approved: bool)
    | Neither

  datatype ProductInput = ProductInput(
    clientId: string, productId: Option<int>, name: string, keywords: seq<string>, aliases: seq<Provided>, category: string)

  /** `_alias`. */
  function MakeAlias(a: Alphabet, value: string, kind: string, source: string, priority: int): Option<Alias> {
    var cleaned := Strip(a, value);
    var normalized := Normalize(a, cleaned);
    if normalized == "" || |cleaned| > 200 then None
    else Some(Alias(cleaned, normalized, kind, source, priority, true))
  }

  function FromProvided(a: Alphabet, p: Provided): Option<Alias> {
    match p
    case Text(value) => MakeAlias(a, value, "keyword", "manager", 20)
    case Record(value, kind, source, priority, approved) =>
      var item := MakeAlias(a, value, kind, source, priority);
      if item.Some? then Some(item.value.(approved := approved)) else None
    case Neither => None
  }

  function ToSeq(item: Option<Alias>): seq<Alias> {
    if item.Some? then [item.value] else []
  }

  function MakeAll(a: Alphabet, values: seq<string>, kind: string, source: string, priority: int): seq<Alias> {
    if values == [] then []
    else MakeAll(a, values[..|values| - 1], kind, source, priority) + ToSeq(MakeAlias(a, values[|values| - 1], kind, source, priority))
  }

  function FromAllProvided(a: Alphabet, ps: seq<Provided>): seq<Alias> {
    if ps == [] then [] else FromAllProvided(a, ps[..|ps| - 1]) + ToSeq(FromProvided(a, ps[|ps| - 1]))
  }

  /** The manager's own candidates: the canonical name, then the keywords. */
  function OwnCandidates(a: Alphabet, p: ProductInput): seq<Alias> {
    ToSeq(MakeAlias(a, p.name, "canonical", "manager", 10)) + MakeAll(a, p.keywords, "keyword", "manager", 20)
  }

  /** `gen` stands for the variants derived from the normalized product name. */
  function GeneratedCandidates(a: Alphabet, gen: string -> seq<string>, p: ProductInput): seq<Alias> {
    MakeAll(a, gen(Normalize(a, p.name)), "generated", "agent", 50)
  }

  function Candidates(a: Alphabet, gen: string -> seq<string>, p: ProductInput): seq<Alias> {
    OwnCandidates(a, p) + FromAllProvided(a, p.aliases) + GeneratedCandidates(a, gen, p)
  }

  predicate ByPriority(x: Alias, y: Alias) {
    x.priority <= y.priority
  }

  predicate HasKey(s: seq<Alias>, key: string) {
    exists i | 0 <= i < |s| :: s[i].normalized == key
  }

  /** `setdefault` on the normal form, in list order. */
  function Dedup(s: seq<Alias>): seq<Alias> {
    if s == [] then []
    else
      var kept, last := Dedup(s[..|s| - 1]), s[|s| - 1];
      if HasKey(kept, last.normalized) then kept else kept + [last]
  }

  function AliasesOf(a: Alphabet, gen: string -> seq<string>, p: ProductInput): seq<Alias> {
    Dedup(Sort(Candidates(a, gen, p), ByPriority))
  }

  method CollectValues(a: Alphabet, values: seq<string>, kind: string, source: string, priority: int) returns (items: seq<Alias>)
    ensures items == MakeAll(a, values, kind, source, priority)
  {
    items := [];
    for i := 0 to |values|
      invariant items == MakeAll(a, values[..i], kind, source, priority)
    {
      assert values[..i + 1][..i] == values[..i];
      items := items + ToSeq(MakeAlias(a, values[i], kind, source, priority));
    }
    assert values[..|values|] == values;
  }

  method CollectProvided(a: Alphabet, provided: seq<Provided>) returns (items: seq<Alias>)
    ensures items == FromAllProvided(a, provided)
  {
    items := [];
    for i := 0 to |provided|
      invariant items == FromAllProvided(a, provided[..i])
    {
      assert provided[..i + 1][..i] == provided[..i];
      items := items + ToSeq(FromProvided(a, provided[i]));
    }
    assert provided[..|provided|] == provided;
  }

  method KeepFirst(sorted: seq<Alias>) returns (kept: seq<Alias>)
    ensures kept == Dedup(sorted)
  {
    kept := [];
    for i := 0 to |sorted|
      invariant kept == Dedup(sorted[..i])
    {
      assert sorted[..i + 1][..i] == sorted[..i];
      if !HasKey(kept, sorted[i].normalized) {
        kept := kept + [sorted[i]];
      }
    }
    assert sorted[..|sorted|] == sorted;
  }

  method BuildAliases(a: Alphabet, gen: string -> seq<string>, p: ProductInput) returns (aliases: seq<Alias>)
    ensures aliases == AliasesOf(a, gen, p)
  {
    var candidates := ToSeq(MakeAlias(a, p.name, "canonical", "manager", 10));
    var keywords := CollectValues(a, p.keywords, "keyword", "manager", 20);
    candidates := candidates + keywords;
    var provided := CollectProvided(a, p.aliases);
    candidates := candidates + provided;
    var generated := CollectValues(a, gen(Normalize(a, p.name)), "generated", "agent", 50);
    candidates := candidates + generated;
    aliases := KeepFirst(Sort(candidates, ByPriority));
  }

  /** Position `i` of `c` beats position `j`: lower priority number, or the same and earlier. */
  predicate Precedes(c: seq<Alias>, i: nat, j: nat)
    requires i < |c| && j < |c|
  {
    c[i].priority < c[j].priority || (c[i].priority == c[j].priority && i < j)
  }

  /** `r` lists, in the order of `Precedes`, the best candidate of every normal form; `idx` says where each is. */
  ghost predicate IsBest(c: seq<Alias>, r: seq<Alias>, idx: seq<nat>) {
    && |idx| == |r|
    && (forall k :: 0 <= k < |idx| ==> idx[k] < |c| && r[k] == c[idx[k]])
    && (forall k, l :: 0 <= k < l < |idx| ==> Precedes(c, idx[k], idx[l]) && r[k].normalized != r[l].normalized)
    && (forall k, j :: 0 <= k < |idx| && 0 <= j < |c| && c[j].normalized == r[k].normalized ==> j == idx[k] || Precedes(c, idx[k], j))
    && (forall j :: 0 <= j < |c| ==> HasKey(r, c[j].normalized))
  }

  /** `pos` lists the positions of `s` that `Dedup` keeps. */
  ghost predicate Keeps(s: seq<Alias>, r: seq<Alias>, pos: seq<nat>) {
    && |pos| == |r|
    && (forall k :: 0 <= k < |pos| ==> pos[k] < |s| && r[k] == s[pos[k]])
    && (forall k, l :: 0 <= k < l < |pos| ==> pos[k] < pos[l] && r[k].normalized != r[l].normalized)
    && (forall k, j :: 0 <= k < |pos| && 0 <= j < |s| && s[j].normalized == r[k].normalized ==> pos[k] <= j)
    && (forall j :: 0 <= j < |s| ==> HasKey(r, s[j].normalized))
  }

  lemma KeepsOneMore(s: seq<Alias>, r: seq<Alias>, pos: seq<nat>, last: Alias, s': seq<Alias>, r': seq<Alias>, pos': seq<nat>)
    requires Keeps(s, r, pos) && !HasKey(r, last.normalized)
    requires s' == s + [last] && r' == r + [last] && pos' == pos + [|s|]
    ensures Keeps(s', r', pos')
  {
    forall j | 0 <= j < |s'|
      ensures HasKey(r', s'[j].normalized)
    {
      if j < |s| {
        assert HasKey(r, s[j].normalized);
        var i :| 0 <= i < |r| && r[i].normalized == s[j].normalized;
        assert r'[i] == r[i];
      } else {
        assert r'[|r|] == last;
      }
    }
  }

  lemma KeepsSame(s: seq<Alias>, r: seq<Alias>, pos: seq<nat>, last: Alias, s': seq<Alias>)
    requires Keeps(s, r, pos) && HasKey(r, last.normalized) && s' == s + [last]
    ensures Keeps(s', r, pos)
  {
  }

  lemma {:induction false} DedupKeeps(s: seq<Alias>) returns (pos: seq<nat>)
    ensures Keeps(s, Dedup(s), pos)
    decreases |s|
  {
    if s == [] {
      pos := [];
    } else {
      var front, last := s[..|s| - 1], s[|s| - 1];
      var before := DedupKeeps(front);
      if HasKey(Dedup(front), last.normalized) {
        pos := before;
        KeepsSame(front, Dedup(front), before, last, s);
      } else {
        pos := before + [|front|];
        KeepsOneMore(front, Dedup(front), before, last, s, Dedup(s), pos);
      }
    }
  }

  lemma PriorityIsTotal()
    ensures TotalPreorder(ByPriority)
  {
  }

  /** What `build_aliases` returns is the list of best candidates. */
  lemma BuildIsBest(c: seq<Alias>) returns (idx: seq<nat>)
    ensures IsBest(c, Dedup(Sort(c, ByPriority)), idx)
  {
    PriorityIsTotal();
    var order := SortIndices(c, ByPriority);
    var sorted := Sort(c, ByPriority);
    var pos := DedupKeeps(sorted);
    idx := seq(|pos|, k requires 0 <= k < |pos| => order[pos[k]]);
    SelectBest(c, sorted, order, Dedup(sorted), pos, idx);
  }

  lemma SelectBest(c: seq<Alias>, sorted: seq<Alias>, order: seq<nat>, r: seq<Alias>, pos: seq<nat>, idx: seq<nat>)
    requires SortsBy(c, ByPriority, sorted, order) && Keeps(sorted, r, pos)
    requires |idx| == |pos| && forall k :: 0 <= k < |pos| ==> idx[k] == order[pos[k]]
    ensures IsBest(c, r, idx)
  {
    forall k, j | 0 <= k < |idx| && 0 <= j < |c| && c[j].normalized == r[k].normalized
      ensures j == idx[k] || Precedes(c, idx[k], j)
    {
      assert j in order;
      var q :| 0 <= q < |order| && order[q] == j;
      assert sorted[q] == c[j];
      assert pos[k] <= q;
    }
    forall j: nat | j < |c|
      ensures HasKey(r, c[j].normalized)
    {
      assert j in order;
      var q :| 0 <= q < |order| && order[q] == j;
      assert sorted[q] == c[j];
    }
  }

  lemma BestHasKey(c: seq<Alias>, r: seq<Alias>, idx: seq<nat>, r': seq<Alias>, idx': seq<nat>, k: nat)
    requires IsBest(c, r, idx) && IsBest(c, r', idx') && k < |idx|
    ensures idx[k] in idx'
  {
    assert HasKey(r', c[idx[k]].normalized);
    var l :| 0 <= l < |r'| && r'[l].normalized == r[k].normalized;
    assert idx'[l] == idx[k];
  }

  /** Two strictly ascending enumerations of the same positions are equal. */
  lemma {:induction false} SameEnumeration(c: seq<Alias>, s: seq<nat>, t: seq<nat>)
    requires forall k :: 0 <= k < |s| ==> s[k] < |c|
    requires forall k :: 0 <= k < |t| ==> t[k] < |c|
    requires forall k, l :: 0 <= k < l < |s| ==> Precedes(c, s[k], s[l])
    requires forall k, l :: 0 <= k < l < |t| ==> Precedes(c, t[k], t[l])
    requires forall x :: x in s <==> x in t
    ensures s == t
    decreases |s|
  {
    assert t != [] ==> t[0] in t;
    if s != [] {
      assert s[0] in t && t[0] in s;
      var i :| 0 <= i < |t| && t[i] == s[0];
      var j :| 0 <= j < |s| && s[j] == t[0];
      assert s[0] == t[0];
      forall x
        ensures x in s[1..] <==> x in t[1..]
      {
        assert x in s <==> x == s[0] || x in s[1..];
        assert x in t <==> x == t[0] || x in t[1..];
        assert s[0] !in s[1..] && t[0] !in t[1..];
      }
      SameEnumeration(c, s[1..], t[1..]);
    }
  }

  lemma BestIsUnique(c: seq<Alias>, r: seq<Alias>, idx: seq<nat>, r': seq<Alias>, idx': seq<nat>)
    requires IsBest(c, r, idx) && IsBest(c, r', idx')
    ensures r == r'
  {
    forall x
      ensures x in idx <==> x in idx'
    {
      if x in idx {
        var k :| 0 <= k < |idx| && idx[k] == x;
        BestHasKey(c, r, idx, r', idx', k);
      }
      if x in idx' {
        var k :| 0 <= k < |idx'| && idx'[k] == x;
        BestHasKey(c, r', idx', r, idx, k);
      }
    }
    SameEnumeration(c, idx, idx');
  }

  /** Where the best of `own + other + extra` sits in `own + r + extra`. */
  function Absorbed(own: seq<Alias>, idx: seq<nat>): seq<nat> {
    seq(|idx|, k requires 0 <= k < |idx| => if idx[k] < |own| then idx[k] else |own| + k)
  }

  lemma AbsorbedAt(own: seq<Alias>, other: seq<Alias>, extra: seq<Alias>, r: seq<Alias>, idx: seq<nat>, k: nat)
    requires IsBest(own + other + extra, r, idx) && k < |r|
    ensures var c := own + r + extra; Absorbed(own, idx)[k] < |c| && r[k] == c[Absorbed(own, idx)[k]]
  {
  }

  lemma AbsorbedOrder(own: seq<Alias>, other: seq<Alias>, extra: seq<Alias>, r: seq<Alias>, idx: seq<nat>, k: nat, l: nat)
    requires IsBest(own + other + extra, r, idx) && k < l < |r|
    requires Absorbed(own, idx)[k] < |own + r + extra| && Absorbed(own, idx)[l] < |own + r + extra|
    ensures Precedes(own + r + extra, Absorbed(own, idx)[k], Absorbed(own, idx)[l])
  {
    AbsorbedAt(own, other, extra, r, idx, k);
    AbsorbedAt(own, other, extra, r, idx, l);
    assert Precedes(own + other + extra, idx[k], idx[l]);
  }

  lemma AbsorbedBeats(own: seq<Alias>, other: seq<Alias>, extra: seq<Alias>, r: seq<Alias>, idx: seq<nat>, k: nat, j: nat)
    requires IsBest(own + other + extra, r, idx) && k < |r| && j < |own + r + extra|
    requires (own + r + extra)[j].normalized == r[k].normalized
    requires Absorbed(own, idx)[k] < |own + r + extra|
    ensures j == Absorbed(own, idx)[k] || Precedes(own + r + extra, Absorbed(own, idx)[k], j)
  {
    var c, c' := own + other + extra, own + r + extra;
    AbsorbedAt(own, other, extra, r, idx, k);
    if |own| <= j < |own| + |r| {
      var l := j - |own|;
      assert c'[j] == r[l];
      assert l == k;
    } else {
      var i := if j < |own| then j else j - |r| + |other|;
      assert c[i] == c'[j];
    }
  }

  lemma AbsorbedKeys(own: seq<Alias>, other: seq<Alias>, extra: seq<Alias>, r: seq<Alias>, idx: seq<nat>, j: nat)
    requires IsBest(own + other + extra, r, idx) && j < |own + r + extra|
    ensures HasKey(r, (own + r + extra)[j].normalized)
  {
    var c, c' := own + other + extra, own + r + extra;
    if |own| <= j < |own| + |r| {
      assert c'[j] == r[j - |own|];
    } else {
      var i := if j < |own| then j else j - |r| + |other|;
      assert c[i] == c'[j];
    }
  }

  /** Putting the best of `own + other + extra` where `other` was leaves the best as they are, in their order. */
  lemma BestAbsorbs(own: seq<Alias>, other: seq<Alias>, extra: seq<Alias>, r: seq<Alias>, idx: seq<nat>)
    requires IsBest(own + other + extra, r, idx)
    ensures IsBest(own + r + extra, r, Absorbed(own, idx))
  {
    var c' := own + r + extra;
    var idx' := Absorbed(own, idx);
    forall k: nat | k < |r|
      ensures idx'[k] < |c'| && r[k] == c'[idx'[k]]
    {
      AbsorbedAt(own, other, extra, r, idx, k);
    }
    forall k: nat, l: nat | k < l < |r|
      ensures Precedes(c', idx'[k], idx'[l]) && r[k].normalized != r[l].normalized
    {
      AbsorbedOrder(own, other, extra, r, idx, k, l);
    }
    forall k: nat, j: nat | k < |r| && j < |c'| && c'[j].normalized == r[k].normalized
      ensures j == idx'[k] || Precedes(c', idx'[k], j)
    {
      AbsorbedBeats(own, other, extra, r, idx, k, j);
    }
    forall j: nat | j < |c'|
      ensures HasKey(r, c'[j].normalized)
    {
      AbsorbedKeys(own, other, extra, r, idx, j);
    }
  }

  /** An entry as it is stored in the draft and handed back by the client. */
  function Stored(x: Alias): Provided {
    Record(x.value, x.kind, x.source, x.priority, x.approved)
  }

  function StoredAll(xs: seq<Alias>): seq<Provided> {
    seq(|xs|, i requires 0 <= i < |xs| => Stored(xs[i]))
  }

  predicate WellMade(a: Alphabet, x: Alias) {
    Strip(a, x.value) == x.value && x.normalized == Normalize(a, x.value) && x.normalized != "" && |x.value| <= 200
  }

  lemma {:induction false} MakeAllWellMade(a: Alphabet, values: seq<string>, kind: string, source: string, priority: int, x: Alias)
    requires x in MakeAll(a, values, kind, source, priority)
    ensures WellMade(a, x)
    decreases |values|
  {
    StripIdempotent(a, values[|values| - 1]);
    if x in MakeAll(a, values[..|values| - 1], kind, source, priority) {
      MakeAllWellMade(a, values[..|values| - 1], kind, source, priority, x);
    }
  }

  lemma {:induction false} ProvidedWellMade(a: Alphabet, ps: seq<Provided>, x: Alias)
    requires x in FromAllProvided(a, ps)
    ensures WellMade(a, x)
    decreases |ps|
  {
    var last := ps[|ps| - 1];
    if last.Text? || last.Record? {
      StripIdempotent(a, last.value);
    }
    if x in FromAllProvided(a, ps[..|ps| - 1]) {
      ProvidedWellMade(a, ps[..|ps| - 1], x);
    }
  }

  lemma CandidateWellMade(a: Alphabet, gen: string -> seq<string>, p: ProductInput, x: Alias)
    requires x in Candidates(a, gen, p)
    ensures WellMade(a, x)
  {
    StripIdempotent(a, p.name);
    if x in MakeAll(a, p.keywords, "keyword", "manager", 20) {
      MakeAllWellMade(a, p.keywords, "keyword", "manager", 20, x);
    } else if x in FromAllProvided(a, p.aliases) {
      ProvidedWellMade(a, p.aliases, x);
    } else if x in GeneratedCandidates(a, gen, p) {
      MakeAllWellMade(a, gen(Normalize(a, p.name)), "generated", "agent", 50, x);
    }
  }

  /** Every alias of the result is one of the candidates, with its own normal form; no two share it. */
  lemma AliasesWellMade(a: Alphabet, gen: string -> seq<string>, p: ProductInput)
    ensures var r := AliasesOf(a, gen, p);
            && (forall x :: x in r ==> WellMade(a, x))
            && (forall i, j :: 0 <= i < j < |r| ==> r[i].normalized != r[j].normalized)
  {
    var r := AliasesOf(a, gen, p);
    var idx := BuildIsBest(Candidates(a, gen, p));
    forall x | x in r
      ensures WellMade(a, x)
    {
      var k :| 0 <= k < |r| && r[k] == x;
      assert x == Candidates(a, gen, p)[idx[k]];
      CandidateWellMade(a, gen, p, x);
    }
  }

  lemma {:induction false} StoredRoundTrip(a: Alphabet, xs: seq<Alias>)
    requires forall x :: x in xs ==> WellMade(a, x)
    ensures FromAllProvided(a, StoredAll(xs)) == xs
  {
    if xs != [] {
      var front := xs[..|xs| - 1];
      assert StoredAll(xs)[..|xs| - 1] == StoredAll(front);
      StoredRoundTrip(a, front);
      assert WellMade(a, xs[|xs| - 1]);
      assert xs == front + [xs[|xs| - 1]];
    }
  }

  /** `build_aliases` is idempotent, order included: handing its result back as the product's aliases gives the
      same list again. */
  lemma BuildAliasesIdempotent(a: Alphabet, gen: string -> seq<string>, p: ProductInput)
    ensures AliasesOf(a, gen, p.(aliases := StoredAll(AliasesOf(a, gen, p)))) == AliasesOf(a, gen, p)
  {
    var r := AliasesOf(a, gen, p);
    var own, other, extra := OwnCandidates(a, p), FromAllProvided(a, p.aliases), GeneratedCandidates(a, gen, p);
    AliasesWellMade(a, gen, p);
    StoredRoundTrip(a, r);
    var idx := BuildIsBest(own + other + extra);
    BestAbsorbs(own, other, extra, r, idx);
    var idx' := BuildIsBest(own + r + extra);
    BestIsUnique(own + r + extra, r, Absorbed(own, idx), AliasesOf(a, gen, p.(aliases := StoredAll(r))), idx');
  }

  /** The canonical name stays approved unless the client's list holds its normal form under a better priority. */
  lemma CanonicalNameWins(a: Alphabet, gen: string -> seq<string>, p: ProductInput, canonical: Alias)
    requires MakeAlias(a, p.name, "canonical", "manager", 10) == Some(canonical)
    requires forall x :: x in FromAllProvided(a, p.aliases) && x.normalized == canonical.normalized ==> x.priority >= 10
    ensures canonical in AliasesOf(a, gen, p)
  {
    var own, ps, extra := OwnCandidates(a, p), FromAllProvided(a, p.aliases), GeneratedCandidates(a, gen, p);
    var r := AliasesOf(a, gen, p);
    var idx := BuildIsBest(own + ps + extra);
    CandidatesSurround(a, gen, p, canonical);
    assert (own + ps + extra)[0] == canonical && HasKey(r, canonical.normalized);
    var k: nat :| k < |r| && r[k].normalized == canonical.normalized;
    NoneBetter(own, ps, extra, canonical.normalized, idx[k]);
    assert idx[k] == 0 || Precedes(own + ps + extra, idx[k], 0);
  }

  lemma NoneBetter(own: seq<Alias>, ps: seq<Alias>, extra: seq<Alias>, form: string, j: nat)
    requires Surround(own, extra, form) && forall x :: x in ps && x.normalized == form ==> x.priority >= 10
    requires j < |own + ps + extra| && (own + ps + extra)[j].normalized == form
    ensures (own + ps + extra)[j].priority >= 10
  {
    if |own| <= j < |own| + |ps| {
      assert ps[j - |own|] in ps;
    }
  }

  /** The entry of the client's list that takes the place of the canonical name: the first of the best priority below
      the canonical one among those of its normal form. */
  predicate Overrides(ps: seq<Alias>, form: string, i: nat)
    requires i < |ps|
  {
    && ps[i].normalized == form && ps[i].priority < 10
    && forall j :: 0 <= j < |ps| && ps[j].normalized == form ==> ps[i].priority < ps[j].priority || (ps[i].priority == ps[j].priority && i <= j)
  }

  predicate NeverOverridden(ps: seq<Alias>, form: string) {
    forall i: nat :: i < |ps| && Overrides(ps, form, i) ==> ps[i].approved
  }

  predicate ApprovesForm(aliases: seq<Alias>, form: string) {
    exists x | x in aliases :: x.approved && x.normalized == form
  }

  /** `own` starts with the canonical name; of the other candidates only those in `ps` can have a better priority. */
  ghost predicate Surround(own: seq<Alias>, extra: seq<Alias>, form: string) {
    && own != [] && own[0].normalized == form && own[0].priority == 10 && own[0].approved
    && (forall j :: 0 < j < |own| ==> own[j].priority >= 10) && (forall j :: 0 <= j < |extra| ==> extra[j].priority >= 10)
  }

  lemma CanonicalStays(own: seq<Alias>, ps: seq<Alias>, extra: seq<Alias>, form: string)
    requires Surround(own, extra, form)
    requires forall j :: 0 <= j < |own + ps + extra| && (own + ps + extra)[j].normalized == form ==> j == 0 || Precedes(own + ps + extra, 0, j)
    ensures NeverOverridden(ps, form)
  {
    forall i: nat | i < |ps| && ps[i].normalized == form
      ensures ps[i].priority >= 10
    {
      assert (own + ps + extra)[|own| + i] == ps[i];
    }
  }

  lemma OverriderWins(own: seq<Alias>, ps: seq<Alias>, extra: seq<Alias>, form: string, w: nat)
    requires Surround(own, extra, form) && 0 < w < |own + ps + extra| && (own + ps + extra)[w].normalized == form
    requires forall j :: 0 <= j < |own + ps + extra| && (own + ps + extra)[j].normalized == form ==> j == w || Precedes(own + ps + extra, w, j)
    ensures (own + ps + extra)[w].approved <==> NeverOverridden(ps, form)
  {
    var c := own + ps + extra;
    assert Precedes(c, w, 0);
    assert |own| <= w < |own| + |ps| && c[w] == ps[w - |own|];
    forall j | 0 <= j < |ps| && ps[j].normalized == form
      ensures ps[w - |own|].priority < ps[j].priority || (ps[w - |own|].priority == ps[j].priority && w - |own| <= j)
    {
      assert c[|own| + j] == ps[j];
    }
    assert Overrides(ps, form, w - |own|);
  }

  lemma ApprovedAt(c: seq<Alias>, r: seq<Alias>, idx: seq<nat>, form: string, k: nat)
    requires IsBest(c, r, idx) && k < |r| && r[k].normalized == form
    ensures ApprovesForm(r, form) <==> r[k].approved
  {
    if x :| x in r && x.approved && x.normalized == form {
      var l: nat :| l < |r| && r[l] == x;
      assert l == k;
    }
  }

  /** A product's own name is among its approved aliases exactly when no disapproved entry overrides it. */
  lemma CanonicalNameApproved(a: Alphabet, gen: string -> seq<string>, p: ProductInput, canonical: Alias)
    requires MakeAlias(a, p.name, "canonical", "manager", 10) == Some(canonical)
    ensures ApprovesForm(AliasesOf(a, gen, p), canonical.normalized) <==> NeverOverridden(FromAllProvided(a, p.aliases), canonical.normalized)
  {
    var own, ps, extra := OwnCandidates(a, p), FromAllProvided(a, p.aliases), GeneratedCandidates(a, gen, p);
    var r, form := AliasesOf(a, gen, p), canonical.normalized;
    var idx := BuildIsBest(own + ps + extra);
    CandidatesSurround(a, gen, p, canonical);
    assert (own + ps + extra)[0] == canonical && HasKey(r, form);
    var k: nat :| k < |r| && r[k].normalized == form;
    ApprovedAt(own + ps + extra, r, idx, form, k);
    if idx[k] == 0 {
      CanonicalStays(own, ps, extra, form);
    } else {
      OverriderWins(own, ps, extra, form, idx[k]);
    }
  }

  lemma CandidatesSurround(a: Alphabet, gen: string -> seq<string>, p: ProductInput, canonical: Alias)
    requires MakeAlias(a, p.name, "canonical", "manager", 10) == Some(canonical)
    ensures Surround(OwnCandidates(a, p), GeneratedCandidates(a, gen, p), canonical.normalized)
  {
    var own, extra := OwnCandidates(a, p), GeneratedCandidates(a, gen, p);
    forall j | 0 < j < |own|
      ensures own[j].priority >= 10
    {
      MakeAllPriority(a, p.keywords, "keyword", "manager", 20, own[j]);
    }
    forall j | 0 <= j < |extra|
      ensures extra[j].priority >= 10
    {
      MakeAllPriority(a, gen(Normalize(a, p.name)), "generated", "agent", 50, extra[j]);
    }
  }

  lemma {:induction false} MakeAllPriority(a: Alphabet, values: seq<string>, kind: string, source: string, priority: int, x: Alias)
    requires x in MakeAll(a, values, kind, source, priority)
    ensures x.priority == priority
    decreases |values|
  {
    if x in MakeAll(a, values[..|values| - 1], kind, source, priority) {
      MakeAllPriority(a, values[..|values| - 1], kind, source, priority, x);
    }
  }

  /** The alias made of one text, if it has a normal form and at most 200 characters. */
  ghost predicate Gives(a: Alphabet, value: string, kind: string, source: string, priority: int, approved: bool, x: Alias) {
    x == Alias(Strip(a, value), Normalize(a, Strip(a, value)), kind, source, priority, approved) && x.normalized != "" && |x.value| <= 200
  }

  ghost predicate EntryGives(a: Alphabet, entry: Provided, x: Alias) {
    match entry
    case Text(value) => Gives(a, value, "keyword", "manager", 20, true, x)
    case Record(value, kind, source, priority, approved) => Gives(a, value, kind, source, priority, approved, x)
    case Neither => false
  }

  /** The product's name, a keyword, an entry of the client's list or a derived variant gives this alias. */
  ghost predicate Sourced(a: Alphabet, gen: string -> seq<string>, p: ProductInput, x: Alias) {
    || Gives(a, p.name, "canonical", "manager", 10, true, x)
    || (exists v :: v in p.keywords && Gives(a, v, "keyword", "manager", 20, true, x))
    || (exists e :: e in p.aliases && EntryGives(a, e, x))
    || (exists v :: v in gen(Normalize(a, p.name)) && Gives(a, v, "generated", "agent", 50, true, x))
  }

  lemma {:induction false} MakeAllExactly(a: Alphabet, values: seq<string>, kind: string, source: string, priority: int, x: Alias)
    ensures x in MakeAll(a, values, kind, source, priority) <==> exists v :: v in values && Gives(a, v, kind, source, priority, true, x)
    decreases |values|
  {
    if values != [] {
      var front, last := values[..|values| - 1], values[|values| - 1];
      SplitLast(values);
      MakeAllExactly(a, front, kind, source, priority, x);
      assert x in ToSeq(MakeAlias(a, last, kind, source, priority)) <==> Gives(a, last, kind, source, priority, true, x);
      assert forall v :: v in values <==> v in front || v == last;
      assert last in values;
    }
  }

  lemma {:induction false} ProvidedExactly(a: Alphabet, ps: seq<Provided>, x: Alias)
    ensures x in FromAllProvided(a, ps) <==> exists e :: e in ps && EntryGives(a, e, x)
    decreases |ps|
  {
    if ps != [] {
      var front, last := ps[..|ps| - 1], ps[|ps| - 1];
      SplitLast(ps);
      ProvidedExactly(a, front, x);
      assert x in ToSeq(FromProvided(a, last)) <==> EntryGives(a, last, x);
      assert forall e :: e in ps <==> e in front || e == last;
      assert last in ps;
    }
  }

  lemma CandidateExactly(a: Alphabet, gen: string -> seq<string>, p: ProductInput, x: Alias)
    ensures x in Candidates(a, gen, p) <==> Sourced(a, gen, p, x)
  {
    MakeAllExactly(a, p.keywords, "keyword", "manager", 20, x);
    ProvidedExactly(a, p.aliases, x);
    MakeAllExactly(a, gen(Normalize(a, p.name)), "generated", "agent", 50, x);
  }

  /** Every alias of the result comes from one of the product's sources, and every source is represented by an alias of
      its normal form with a priority number no greater. */
  lemma AliasesExactly(a: Alphabet, gen: string -> seq<string>, p: ProductInput, x: Alias)
    ensures x in AliasesOf(a, gen, p) ==> Sourced(a, gen, p, x)
    ensures Sourced(a, gen, p, x) ==> exists y :: y in AliasesOf(a, gen, p) && y.normalized == x.normalized && y.priority <= x.priority
  {
    var c, r := Candidates(a, gen, p), AliasesOf(a, gen, p);
    var idx := BuildIsBest(c);
    CandidateExactly(a, gen, p, x);
    if x in r {
      var k: nat :| k < |r| && r[k] == x;
      assert x == c[idx[k]];
    }
    if x in c {
      var j: nat :| j < |c| && c[j] == x;
      assert HasKey(r, c[j].normalized);
      var k: nat :| k < |r| && r[k].normalized == x.normalized;
      assert j == idx[k] || Precedes(c, idx[k], j);
      assert r[k] in r;
    }
  }
}
