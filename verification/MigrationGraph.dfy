/** The static check that the migration revisions form one chain (tools/migration_policy.py, 357-370, 384-472). */
module MigrationGraph {
  import opened Sequences

  /** A well-formed revision id, NNNN_slug. */
  datatype Id = Id(number: nat, slug: string)

  /** `down_revision`: none, one, or the tuple of a merge. */
  datatype Down = Root | After(id: Id) | Merge(ids: seq<Id>)

  /** What is parsed from one revision file; the flags say whether branch labels and depends_on are set. */
  datatype Source = Source(revision: Id, down: Down, labels: bool, depends: bool)

  /** The issues, at a file (by its place in the list), for the whole graph, or at a place in the numeric order. */
  datatype Issue =
    | DuplicateId(file: nat)
    | MergeRevision(file: nat)
    | MissingDown(file: nat)
    | BranchLabel(file: nat)
    | CrossDependency(file: nat)
    | RootCount(count: nat)
    | Branch(revision: Id)
    | HeadCount(count: nat)
    | NonlinearChain(place: nat)
    | SequenceGap(place: nat)

  function Ids(sources: seq<Source>): set<Id> {
    set s | s in sources :: s.revision
  }

  /** How many revisions come after this one (or are roots). */
  function CountDown(sources: seq<Source>, down: Down): nat {
    if sources == [] then 0
    else CountDown(sources[..|sources| - 1], down) + if sources[|sources| - 1].down == down then 1 else 0
  }

  function Heads(sources: seq<Source>): set<Id> {
    set id | id in Ids(sources) && CountDown(sources, After(id)) == 0
  }

  predicate ByNumber(s: Source, t: Source) {
    s.revision.number <= t.revision.number
  }

  function Ordered(sources: seq<Source>): seq<Source> {
    Sort(sources, ByNumber)
  }

  function ExpectedDown(ordered: seq<Source>, place: nat): Down
    requires place < |ordered|
  {
    if place == 0 then Root else After(ordered[place - 1].revision)
  }

  predicate OccursBefore(sources: seq<Source>, file: nat)
    requires file < |sources|
  {
    exists j | 0 <= j < file :: sources[j].revision == sources[file].revision
  }

  /** When an issue is reported. */
  ghost predicate Reported(sources: seq<Source>, issue: Issue) {
    match issue
    case DuplicateId(i) => i < |sources| && OccursBefore(sources, i)
    case MergeRevision(i) => i < |sources| && sources[i].down.Merge?
    case MissingDown(i) => i < |sources| && sources[i].down.After? && sources[i].down.id !in Ids(sources)
    case BranchLabel(i) => i < |sources| && !sources[i].down.Merge? && sources[i].labels
    case CrossDependency(i) => i < |sources| && !sources[i].down.Merge? && sources[i].depends
    case RootCount(n) => n == CountDown(sources, Root) && n != 1
    case Branch(id) => id in Ids(sources) && CountDown(sources, After(id)) > 1
    case HeadCount(n) => n == |Heads(sources)| && n != 1
    case NonlinearChain(p) => p < |Ordered(sources)| && !LinkedAt(Ordered(sources), p)
    case SequenceGap(p) => 0 < p < |Ordered(sources)| && !NumberedAt(Ordered(sources), p)
  }

  ghost predicate Clean(sources: seq<Source>) {
    forall issue :: !Reported(sources, issue)
  }

  /** The revisions in an order where each names the one before, numbered without gaps, without labels or
      dependencies. */
  ghost predicate IsChainOf(sources: seq<Source>, chain: seq<Source>) {
    && multiset(chain) == multiset(sources) && chain != [] && chain[0].down == Root
    && (forall p :: 0 < p < |chain| ==>
          chain[p].down == After(chain[p - 1].revision) && chain[p].revision.number == chain[p - 1].revision.number + 1)
    && (forall p :: 0 <= p < |chain| ==> !chain[p].labels && !chain[p].depends)
  }

  predicate LinkedAt(chain: seq<Source>, p: nat)
    requires p < |chain|
  {
    chain[p].down == ExpectedDown(chain, p)
  }

  ghost predicate Linked(chain: seq<Source>) {
    forall p: nat :: p < |chain| ==> LinkedAt(chain, p)
  }

  predicate NumberedAt(chain: seq<Source>, p: nat)
    requires 0 < p < |chain|
  {
    chain[p].revision.number == chain[p - 1].revision.number + 1
  }

  ghost predicate Numbered(chain: seq<Source>) {
    forall p: nat :: 0 < p < |chain| ==> NumberedAt(chain, p)
  }

  ghost predicate DistinctIds(sources: seq<Source>) {
    forall i, j :: 0 <= i < j < |sources| ==> sources[i].revision != sources[j].revision
  }

  lemma {:induction false} CountDownConcat(s: seq<Source>, t: seq<Source>, down: Down)
    ensures CountDown(s + t, down) == CountDown(s, down) + CountDown(t, down)
    decreases |t|
  {
    if t == [] {
      assert s + t == s;
    } else {
      CountDownConcat(s, t[..|t| - 1], down);
      assert (s + t)[..|s + t| - 1] == s + t[..|t| - 1];
    }
  }

  lemma Removing(t: seq<Source>, i: nat, down: Down)
    requires i < |t|
    ensures multiset(t[..i] + t[i + 1..]) == multiset(t) - multiset{t[i]}
    ensures CountDown(t, down) == CountDown(t[..i] + t[i + 1..], down) + if t[i].down == down then 1 else 0
  {
    assert t == (t[..i] + [t[i]]) + t[i + 1..];
    CountDownConcat(t[..i], t[i + 1..], down);
    CountDownConcat(t[..i] + [t[i]], t[i + 1..], down);
    assert (t[..i] + [t[i]])[..i] == t[..i];
  }

  /** Counting does not depend on the order. */
  lemma {:induction false} CountDownPermutes(s: seq<Source>, t: seq<Source>, down: Down)
    requires multiset(s) == multiset(t)
    ensures CountDown(s, down) == CountDown(t, down)
    decreases |s|
  {
    SameIds(s, t);
    if s != [] {
      var x := s[|s| - 1];
      WithoutLast(s);
      assert x in t;
      var i :| 0 <= i < |t| && t[i] == x;
      Removing(t, i, down);
      CountDownPermutes(s[..|s| - 1], t[..i] + t[i + 1..], down);
    }
  }

  /** With distinct `down`s, each is counted at most once. */
  lemma {:induction false} CountDistinct(s: seq<Source>, down: Down)
    requires forall i, j :: 0 <= i < j < |s| ==> s[i].down != s[j].down
    ensures CountDown(s, down) == if exists i :: 0 <= i < |s| && s[i].down == down then 1 else 0
    decreases |s|
  {
    if s != [] {
      var n := |s| - 1;
      CountDistinct(s[..n], down);
      assert forall i :: 0 <= i < n ==> s[..n][i] == s[i];
      assert s[n].down == s[n].down;
    }
  }

  lemma LinkedDownsAreDistinct(chain: seq<Source>)
    requires Linked(chain) && DistinctIds(chain)
    ensures forall i, j :: 0 <= i < j < |chain| ==> chain[i].down != chain[j].down
  {
    forall i: nat, j: nat | i < j < |chain|
      ensures chain[i].down != chain[j].down
    {
      assert LinkedAt(chain, i) && LinkedAt(chain, j);
    }
  }

  lemma SameIds(s: seq<Source>, t: seq<Source>)
    requires multiset(s) == multiset(t)
    ensures Ids(s) == Ids(t) && |s| == |t| && forall x :: x in s <==> x in t
  {
    assert forall x :: x in s <==> x in multiset(s);
    assert forall x :: x in t <==> x in multiset(t);
    assert |s| == |multiset(s)| && |t| == |multiset(t)|;
  }

  /** Each revision of a linked chain but the last has one successor. */
  lemma LinkedCounts(chain: seq<Source>)
    requires Linked(chain) && DistinctIds(chain) && chain != []
    ensures CountDown(chain, Root) == 1
    ensures forall id :: CountDown(chain, After(id)) <= 1
    ensures Heads(chain) == {chain[|chain| - 1].revision}
  {
    LinkedDownsAreDistinct(chain);
    CountDistinct(chain, Root);
    assert LinkedAt(chain, 0);
    forall id
      ensures CountDown(chain, After(id)) <= 1
    {
      CountDistinct(chain, After(id));
    }
    forall id
      ensures id in Heads(chain) <==> id == chain[|chain| - 1].revision
    {
      HeadIsLast(chain, id);
    }
  }

  lemma HasSuccessor(chain: seq<Source>, p: nat)
    requires Linked(chain) && DistinctIds(chain) && p + 1 < |chain|
    ensures CountDown(chain, After(chain[p].revision)) == 1
  {
    assert LinkedAt(chain, p + 1);
    LinkedDownsAreDistinct(chain);
    CountDistinct(chain, After(chain[p].revision));
  }

  lemma OnlyLastHasNone(chain: seq<Source>, s: Source)
    requires Linked(chain) && DistinctIds(chain) && s in chain && CountDown(chain, After(s.revision)) == 0
    ensures s.revision == chain[|chain| - 1].revision
  {
    var p: nat :| p < |chain| && chain[p] == s;
    if p + 1 < |chain| {
      HasSuccessor(chain, p);
    }
  }

  lemma HeadIsLast(chain: seq<Source>, id: Id)
    requires Linked(chain) && DistinctIds(chain) && chain != []
    ensures id in Heads(chain) <==> id == chain[|chain| - 1].revision
  {
    LastHasNone(chain);
    if id in Heads(chain) {
      var s :| s in chain && s.revision == id;
      OnlyLastHasNone(chain, s);
    }
    assert chain[|chain| - 1] in chain;
  }

  lemma LastHasNone(chain: seq<Source>)
    requires Linked(chain) && DistinctIds(chain) && chain != []
    ensures CountDown(chain, After(chain[|chain| - 1].revision)) == 0
  {
    var last := chain[|chain| - 1].revision;
    LinkedDownsAreDistinct(chain);
    CountDistinct(chain, After(last));
    forall i: nat | i < |chain|
      ensures chain[i].down != After(last)
    {
      assert LinkedAt(chain, i);
    }
  }

  /** A linked order with distinct ids leaves nothing for the other graph checks to report. */
  lemma LinkedIsClean(sources: seq<Source>, chain: seq<Source>, issue: Issue)
    requires multiset(chain) == multiset(sources) && chain != [] && Linked(chain) && DistinctIds(chain)
    requires issue.MergeRevision? || issue.MissingDown? || issue.RootCount? || issue.Branch? || issue.HeadCount?
    ensures !Reported(sources, issue)
  {
    SameIds(chain, sources);
    LinkedCounts(chain);
    forall down
      ensures CountDown(sources, down) == CountDown(chain, down)
    {
      CountDownPermutes(sources, chain, down);
    }
    assert Heads(sources) == Heads(chain);
    if (issue.MergeRevision? || issue.MissingDown?) && issue.file < |sources| {
      var s := sources[issue.file];
      assert s in chain;
      var p: nat :| p < |chain| && chain[p] == s;
      assert LinkedAt(chain, p);
      assert p > 0 ==> chain[p - 1] in sources;
    }
  }

  lemma ByNumberIsTotal()
    ensures TotalPreorder(ByNumber)
  {
  }

  lemma OrderedIds(sources: seq<Source>)
    requires forall i: nat :: i < |sources| ==> !OccursBefore(sources, i)
    ensures DistinctIds(Ordered(sources)) && |Ordered(sources)| == |sources|
  {
    ByNumberIsTotal();
    var idx := SortIndices(sources, ByNumber);
    forall i: nat, j: nat | i < j < |sources|
      ensures sources[i].revision != sources[j].revision
    {
      assert !OccursBefore(sources, j);
    }
  }

  /** The ordered-chain check is enough: together with unique ids and at least one revision it implies the merge,
      missing-down, root-count, branch and head-count checks. */
  lemma OrderedCheckImpliesGraphChecks(sources: seq<Source>, issue: Issue)
    requires sources != [] && (forall i: nat :: !Reported(sources, DuplicateId(i))) && forall p: nat :: !Reported(sources, NonlinearChain(p))
    requires issue.MergeRevision? || issue.MissingDown? || issue.RootCount? || issue.Branch? || issue.HeadCount?
    ensures !Reported(sources, issue)
  {
    forall i: nat | i < |sources|
      ensures !OccursBefore(sources, i)
    {
      assert !Reported(sources, DuplicateId(i));
    }
    OrderedIds(sources);
    SortIsPermutation(sources, ByNumber);
    OrderedIsLinked(sources);
    LinkedIsClean(sources, Ordered(sources), issue);
  }

  lemma OrderedIsLinked(sources: seq<Source>)
    requires forall p: nat :: !Reported(sources, NonlinearChain(p))
    ensures Linked(Ordered(sources))
  {
    forall p: nat | p < |Ordered(sources)|
      ensures LinkedAt(Ordered(sources), p)
    {
      assert !Reported(sources, NonlinearChain(p));
    }
  }

  lemma {:induction false} NumbersIncrease(chain: seq<Source>, i: nat, j: nat)
    requires i < j < |chain| && Numbered(chain)
    ensures chain[i].revision.number < chain[j].revision.number
    decreases j
  {
    assert NumberedAt(chain, j);
    if i < j - 1 {
      NumbersIncrease(chain, i, j - 1);
    }
  }

  /** Two orders of the same revisions, one by increasing and one by non-decreasing number, are equal. */
  lemma {:induction false} OrderIsUnique(s: seq<Source>, t: seq<Source>)
    requires multiset(s) == multiset(t)
    requires forall i, j :: 0 <= i < j < |s| ==> s[i].revision.number < s[j].revision.number
    requires forall i, j :: 0 <= i < j < |t| ==> t[i].revision.number <= t[j].revision.number
    ensures s == t
    decreases |s|
  {
    SameIds(s, t);
    if s != [] {
      var n := |s| - 1;
      LastIsSame(s, t);
      WithoutLast(s);
      WithoutLast(t);
      OrderIsUnique(s[..n], t[..n]);
      SplitLast(s);
      SplitLast(t);
    }
  }

  lemma LastIsSame(s: seq<Source>, t: seq<Source>)
    requires |s| == |t| > 0 && forall x :: x in s <==> x in t
    requires forall i, j :: 0 <= i < j < |s| ==> s[i].revision.number < s[j].revision.number
    requires forall i, j :: 0 <= i < j < |t| ==> t[i].revision.number <= t[j].revision.number
    ensures s[|s| - 1] == t[|s| - 1]
  {
    var n := |s| - 1;
    assert s[n] in t && t[n] in s;
    var i: nat :| i < |t| && t[i] == s[n];
    var j: nat :| j < |s| && s[j] == t[n];
  }

  lemma ChainIsOrdered(sources: seq<Source>, chain: seq<Source>)
    requires IsChainOf(sources, chain)
    ensures Ordered(sources) == chain && DistinctIds(chain)
  {
    forall i: nat, j: nat | i < j < |chain|
      ensures chain[i].revision.number < chain[j].revision.number
    {
      NumbersIncrease(chain, i, j);
    }
    ByNumberIsTotal();
    SortSorts(sources, ByNumber);
    SortIsPermutation(sources, ByNumber);
    OrderIsUnique(chain, Ordered(sources));
  }

  lemma TwiceInMultiset(s: seq<Source>, i: nat, j: nat)
    requires i < j < |s| && s[i] == s[j]
    ensures multiset(s)[s[i]] >= 2
  {
    assert s == s[..i] + [s[i]] + s[i + 1..j] + [s[j]] + s[j + 1..];
  }

  lemma {:induction false} OnceInMultiset(s: seq<Source>, x: Source)
    requires DistinctIds(s)
    ensures multiset(s)[x] <= 1
    decreases |s|
  {
    if s != [] {
      SplitLast(s);
      OnceInMultiset(s[..|s| - 1], x);
      if s[|s| - 1] == x {
        assert x !in s[..|s| - 1];
      }
    }
  }

  lemma PermutedIdsAreDistinct(sources: seq<Source>, chain: seq<Source>)
    requires multiset(sources) == multiset(chain) && DistinctIds(chain)
    ensures DistinctIds(sources)
  {
    SameIds(sources, chain);
    forall i: nat, j: nat | i < j < |sources|
      ensures sources[i].revision != sources[j].revision
    {
      assert sources[i] in chain && sources[j] in chain;
      var p: nat :| p < |chain| && chain[p] == sources[i];
      var q: nat :| q < |chain| && chain[q] == sources[j];
      if p == q {
        TwiceInMultiset(sources, i, j);
        OnceInMultiset(chain, sources[i]);
      }
    }
  }

  lemma ChainIsClean(sources: seq<Source>, chain: seq<Source>, issue: Issue)
    requires IsChainOf(sources, chain)
    ensures !Reported(sources, issue)
  {
    ChainIsOrdered(sources, chain);
    PermutedIdsAreDistinct(sources, chain);
    SameIds(sources, chain);
    if issue.MergeRevision? || issue.MissingDown? || issue.RootCount? || issue.Branch? || issue.HeadCount? {
      LinkedIsClean(sources, chain, issue);
    } else if (issue.BranchLabel? || issue.CrossDependency?) && issue.file < |sources| {
      assert sources[issue.file] in chain;
    }
  }

  /** No issue is reported exactly when the revisions, in some order, form one chain with consecutive numbers. */
  lemma CleanIsChain(sources: seq<Source>)
    ensures Clean(sources) <==> exists chain :: IsChainOf(sources, chain)
  {
    if Clean(sources) {
      CleanOrderIsChain(sources);
    }
    if chain :| IsChainOf(sources, chain) {
      forall issue
        ensures !Reported(sources, issue)
      {
        ChainIsClean(sources, chain, issue);
      }
    }
  }

  lemma CleanOrderIsChain(sources: seq<Source>)
    requires Clean(sources)
    ensures IsChainOf(sources, Ordered(sources))
  {
    var chain := Ordered(sources);
    assert !Reported(sources, RootCount(0));
    OrderedIsLinked(sources);
    SortIsPermutation(sources, ByNumber);
    SameIds(sources, chain);
    assert LinkedAt(chain, 0);
    forall p: nat | 0 < p < |chain|
      ensures chain[p].down == After(chain[p - 1].revision) && chain[p].revision.number == chain[p - 1].revision.number + 1
    {
      assert LinkedAt(chain, p) && !Reported(sources, SequenceGap(p));
    }
    forall p: nat | p < |chain|
      ensures !chain[p].labels && !chain[p].depends
    {
      NoFlags(sources, chain[p]);
    }
  }

  lemma NoFlags(sources: seq<Source>, s: Source)
    requires Clean(sources) && s in sources
    ensures !s.labels && !s.depends
  {
    var i: nat :| i < |sources| && sources[i] == s;
    assert !Reported(sources, MergeRevision(i)) && !Reported(sources, BranchLabel(i)) && !Reported(sources, CrossDependency(i));
  }

  predicate IsFileIssue(issue: Issue) {
    issue.MergeRevision? || issue.MissingDown? || issue.BranchLabel? || issue.CrossDependency?
  }

  /** The issues of one file, and what it adds to the graph. */
  method CheckFile(sources: seq<Source>, i: nat, ids: set<Id>) returns (found: seq<Issue>)
    requires i < |sources| && ids == Ids(sources)
    ensures forall issue :: issue in found <==> IsFileIssue(issue) && issue.file == i && Reported(sources, issue)
  {
    var source := sources[i];
    found := [];
    if source.down.Merge? {
      return [MergeRevision(i)];
    }
    if source.down.After? && source.down.id !in ids {
      found := found + [MissingDown(i)];
    }
    if source.labels {
      found := found + [BranchLabel(i)];
    }
    if source.depends {
      found := found + [CrossDependency(i)];
    }
  }

  /** `children` lists the successors of every revision. */
  ghost predicate ListsChildren(children: map<Id, seq<Id>>, ids: set<Id>, sources: seq<Source>) {
    children.Keys == ids && forall id :: id in ids ==> |children[id]| == CountDown(sources, After(id))
  }

  lemma CountSnoc(sources: seq<Source>, i: nat, down: Down)
    requires i < |sources|
    ensures CountDown(sources[..i + 1], down) == CountDown(sources[..i], down) + if sources[i].down == down then 1 else 0
  {
    assert sources[..i + 1][..i] == sources[..i];
  }

  lemma ChildrenOneMore(children: map<Id, seq<Id>>, ids: set<Id>, sources: seq<Source>, i: nat, children': map<Id, seq<Id>>)
    requires i < |sources| && ListsChildren(children, ids, sources[..i])
    requires var s := sources[i];
             children' == if s.down.After? && s.down.id in ids then children[s.down.id := children[s.down.id] + [s.revision]] else children
    ensures ListsChildren(children', ids, sources[..i + 1])
  {
    forall id | id in ids
      ensures |children'[id]| == CountDown(sources[..i + 1], After(id))
    {
      CountSnoc(sources, i, After(id));
    }
  }

  /** The loop over the files. */
  method ScanFiles(sources: seq<Source>, ids: set<Id>) returns (issues: seq<Issue>, roots: seq<Id>, children: map<Id, seq<Id>>)
    requires ids == Ids(sources)
    ensures forall issue :: issue in issues <==> IsFileIssue(issue) && Reported(sources, issue)
    ensures |roots| == CountDown(sources, Root) && ListsChildren(children, ids, sources)
  {
    issues, roots, children := [], [], map id | id in ids :: [];
    for i := 0 to |sources|
      invariant forall issue :: issue in issues <==> IsFileIssue(issue) && issue.file < i && Reported(sources, issue)
      invariant |roots| == CountDown(sources[..i], Root) && ListsChildren(children, ids, sources[..i])
    {
      var found := CheckFile(sources, i, ids);
      issues := issues + found;
      CountSnoc(sources, i, Root);
      ghost var before := children;
      if sources[i].down.Root? {
        roots := roots + [sources[i].revision];
      } else if sources[i].down.After? && sources[i].down.id in ids {
        children := children[sources[i].down.id := children[sources[i].down.id] + [sources[i].revision]];
      }
      ChildrenOneMore(before, ids, sources, i, children);
    }
    assert sources[..|sources|] == sources;
  }

  /** `duplicate-revision-id` of the file checks. */
  method FindDuplicates(sources: seq<Source>) returns (issues: seq<Issue>)
    ensures forall issue :: issue in issues <==> issue.DuplicateId? && Reported(sources, issue)
  {
    issues := [];
    var ids: set<Id> := {};
    for i := 0 to |sources|
      invariant forall id :: id in ids <==> exists j :: 0 <= j < i && sources[j].revision == id
      invariant forall issue :: issue in issues <==> issue.DuplicateId? && issue.file < i && Reported(sources, issue)
    {
      if sources[i].revision in ids {
        issues := issues + [DuplicateId(i)];
      }
      ids := ids + {sources[i].revision};
    }
  }

  predicate IsShapeIssue(issue: Issue) {
    issue.RootCount? || issue.Branch? || issue.HeadCount?
  }

  /** The checks on roots, children and heads. */
  method CheckShape(sources: seq<Source>, roots: seq<Id>, children: map<Id, seq<Id>>) returns (issues: seq<Issue>)
    requires |roots| == CountDown(sources, Root) && ListsChildren(children, Ids(sources), sources)
    ensures forall issue :: issue in issues <==> IsShapeIssue(issue) && Reported(sources, issue)
  {
    issues := if |roots| != 1 then [RootCount(|roots|)] else [];
    var rest := children.Keys;
    while rest != {}
      invariant rest <= children.Keys
      invariant forall issue :: issue in issues <==> (issue.RootCount? && Reported(sources, issue))
                                                     || (issue.Branch? && issue.revision !in rest && Reported(sources, issue))
      decreases rest
    {
      var id :| id in rest;
      if |children[id]| > 1 {
        issues := issues + [Branch(id)];
      }
      rest := rest - {id};
    }
    var heads := set id | id in children && children[id] == [];
    assert heads == Heads(sources);
    if |heads| != 1 {
      issues := issues + [HeadCount(|heads|)];
    }
  }

  predicate IsOrderIssue(issue: Issue) {
    issue.NonlinearChain? || issue.SequenceGap?
  }

  /** The walk over the numeric order. */
  method CheckOrder(sources: seq<Source>) returns (issues: seq<Issue>)
    ensures forall issue :: issue in issues <==> IsOrderIssue(issue) && Reported(sources, issue)
  {
    var ordered := Ordered(sources);
    issues := [];
    for place := 0 to |ordered|
      invariant forall issue :: issue in issues <==> IsOrderIssue(issue) && issue.place < place && Reported(sources, issue)
    {
      var expected := if place > 0 then After(ordered[place - 1].revision) else Root;
      if ordered[place].down != expected {
        issues := issues + [NonlinearChain(place)];
      }
      if place > 0 && ordered[place].revision.number != ordered[place - 1].revision.number + 1 {
        issues := issues + [SequenceGap(place)];
      }
    }
  }

  /** `validate_migration_graph` on parsed files, with the duplicate check of `validate_revision_files`. */
  method ValidateGraph(sources: seq<Source>) returns (issues: seq<Issue>)
    ensures forall issue :: issue in issues <==> Reported(sources, issue)
    ensures issues == [] <==> exists chain :: IsChainOf(sources, chain)
  {
    var duplicates := FindDuplicates(sources);
    var ids := set s | s in sources :: s.revision;
    var perFile, roots, children := ScanFiles(sources, ids);
    var shape := CheckShape(sources, roots, children);
    var order := CheckOrder(sources);
    issues := duplicates + perFile + shape + order;
    CleanIsChain(sources);
    assert issues != [] ==> issues[0] in issues;
  }

  /** The source with this revision. */
  function Find(sources: seq<Source>, id: Id): (s: Source)
    requires id in Ids(sources)
    ensures s in sources && s.revision == id
  {
    if sources[|sources| - 1].revision == id then sources[|sources| - 1]
    else
      assert id in Ids(sources[..|sources| - 1]) by {
        var s :| s in sources && s.revision == id;
        SplitLast(sources);
      }
      Find(sources[..|sources| - 1], id)
  }

  /** Following `down_revision` from a revision, to the root, to an unknown id, or back to one seen before. */
  function Walk(sources: seq<Source>, id: Id, seen: set<Id>): seq<Id>
    decreases Ids(sources) - seen
  {
    if id !in Ids(sources) || id in seen then []
    else
      var down := Find(sources, id).down;
      [id] + if down.After? then Walk(sources, down.id, seen + {id}) else []
  }

  /** The ids of the first `n` revisions of the chain, last one first. */
  function BackFrom(chain: seq<Source>, n: nat): (r: seq<Id>)
    requires n <= |chain|
    ensures |r| == n && forall k :: 0 <= k < n ==> r[k] == chain[n - 1 - k].revision
  {
    if n == 0 then [] else [chain[n - 1].revision] + BackFrom(chain, n - 1)
  }

  lemma FindInChain(sources: seq<Source>, chain: seq<Source>, p: nat)
    requires multiset(chain) == multiset(sources) && DistinctIds(chain) && p < |chain|
    ensures chain[p].revision in Ids(sources) && Find(sources, chain[p].revision) == chain[p]
  {
    SameIds(chain, sources);
    assert chain[p] in sources;
    var s := Find(sources, chain[p].revision);
    var q: nat :| q < |chain| && chain[q] == s;
  }

  lemma {:induction false} WalkBack(sources: seq<Source>, chain: seq<Source>, p: nat, seen: set<Id>)
    requires IsChainOf(sources, chain) && DistinctIds(chain) && p < |chain|
    requires forall q :: 0 <= q <= p ==> chain[q].revision !in seen
    ensures Walk(sources, chain[p].revision, seen) == BackFrom(chain, p + 1)
  {
    FindInChain(sources, chain, p);
    assert LinkedAt(chain, p);
    if p > 0 {
      WalkBack(sources, chain, p - 1, seen + {chain[p].revision});
    }
  }

  /** When nothing is reported there is one head, and walking down from it visits every revision exactly once. */
  lemma WalkVisitsEachOnce(sources: seq<Source>, head: Id)
    requires Clean(sources) && head in Heads(sources)
    ensures var walk := Walk(sources, head, {});
            && |walk| == |sources| && (set id | id in walk) == Ids(sources)
            && forall i, j :: 0 <= i < j < |walk| ==> walk[i] != walk[j]
  {
    CleanOrderIsChain(sources);
    var chain := Ordered(sources);
    ChainIsOrdered(sources, chain);
    SameIds(sources, chain);
    forall down
      ensures CountDown(sources, down) == CountDown(chain, down)
    {
      CountDownPermutes(sources, chain, down);
    }
    assert Heads(sources) == Heads(chain);
    HeadIsLast(chain, head);
    WalkBack(sources, chain, |chain| - 1, {});
    BackFromIds(chain);
  }

  lemma BackFromIds(chain: seq<Source>)
    ensures (set id | id in BackFrom(chain, |chain|)) == Ids(chain)
  {
    var back := BackFrom(chain, |chain|);
    forall s | s in chain
      ensures s.revision in back
    {
      var p: nat :| p < |chain| && chain[p] == s;
      assert back[|chain| - 1 - p] == s.revision;
    }
    forall id | id in back
      ensures id in Ids(chain)
    {
      var k: nat :| k < |back| && back[k] == id;
      assert chain[|chain| - 1 - k] in chain;
    }
  }
}
