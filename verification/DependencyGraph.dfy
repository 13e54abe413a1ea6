/** Modules and the modules they depend on, as an arbitrary finite graph that may contain cycles.
    The three recursive resolvers of app/module_catalog.py all have the shape of `Resolve`. */
module DependencyGraph {
  type Code = string

  /** `live` holds the codes whose own row passes every check; `deps` their declared dependencies. */
  datatype Graph = Graph(live: set<Code>, deps: map<Code, seq<Code>>)

  function DepsOf(g: Graph, c: Code): seq<Code> {
    if c in g.deps then g.deps[c] else []
  }

  /** Depth-first walk with the set of codes on the path from the start, copied at every call. */
  predicate Resolve(g: Graph, c: Code, seen: set<Code>)
    decreases g.live - seen, 0
  {
    c in g.live && c !in seen && ResolveAll(g, DepsOf(g, c), seen + {c})
  }

  predicate ResolveAll(g: Graph, cs: seq<Code>, seen: set<Code>)
    decreases g.live - seen, |cs|
  {
    |cs| == 0 || (Resolve(g, cs[0], seen) && ResolveAll(g, cs[1..], seen))
  }

  /** One application of "live and all dependencies are in the set". */
  ghost function Step(g: Graph, s: set<Code>): set<Code> {
    set c | c in g.live && forall d :: d in DepsOf(g, c) ==> d in s
  }

  ghost function Stage(g: Graph, n: nat): set<Code> {
    if n == 0 then {} else Step(g, Stage(g, n - 1))
  }

  /** Iterating `Step` from the empty set once per live code; `LfpIsLeast` shows what it is. */
  ghost function Lfp(g: Graph): set<Code> {
    Stage(g, |g.live|)
  }

  lemma {:induction false} ResolveAllIsForall(g: Graph, cs: seq<Code>, seen: set<Code>)
    ensures ResolveAll(g, cs, seen) <==> forall d :: d in cs ==> Resolve(g, d, seen)
    decreases |cs|
  {
    if cs != [] {
      ResolveAllIsForall(g, cs[1..], seen);
      if ResolveAll(g, cs[1..], seen) && Resolve(g, cs[0], seen) {
        assert forall d :: d in cs ==> d == cs[0] || d in cs[1..];
      } else {
        var d :| (d == cs[0] || d in cs[1..]) && !Resolve(g, d, seen);
        assert d in cs;
      }
    }
  }

  lemma {:induction false} StageMonotone(g: Graph, m: nat, n: nat)
    requires m <= n
    ensures Stage(g, m) <= Stage(g, n)
  {
    if m > 0 {
      StageMonotone(g, m - 1, n - 1);
    }
  }

  lemma {:induction false} ResolveIsStaged(g: Graph, c: Code, seen: set<Code>)
    requires Resolve(g, c, seen)
    ensures c in Stage(g, |g.live - seen|)
    decreases g.live - seen
  {
    var rest := g.live - (seen + {c});
    assert rest == (g.live - seen) - {c};
    ResolveAllIsForall(g, DepsOf(g, c), seen + {c});
    forall d | d in DepsOf(g, c)
      ensures d in Stage(g, |rest|)
    {
      ResolveIsStaged(g, d, seen + {c});
    }
  }

  lemma {:induction false} StagedIsResolved(g: Graph, c: Code, n: nat, seen: set<Code>)
    requires c in Stage(g, n) && seen !! Stage(g, n)
    ensures Resolve(g, c, seen)
    decreases n
  {
    StageMonotone(g, n - 1, n);
    if c in Stage(g, n - 1) {
      StagedIsResolved(g, c, n - 1, seen);
    } else {
      forall d | d in DepsOf(g, c)
        ensures Resolve(g, d, seen + {c})
      {
        StagedIsResolved(g, d, n - 1, seen + {c});
      }
      ResolveAllIsForall(g, DepsOf(g, c), seen + {c});
    }
  }

  lemma {:induction false} StageBelowLfp(g: Graph, n: nat)
    ensures Stage(g, n) <= Lfp(g)
  {
    forall c | c in Stage(g, n)
      ensures c in Lfp(g)
    {
      StagedIsResolved(g, c, n, {});
      ResolveIsStaged(g, c, {});
      assert g.live - {} == g.live;
    }
  }

  lemma {:induction false} StageBelowClosed(g: Graph, n: nat, s: set<Code>)
    requires Step(g, s) <= s
    ensures Stage(g, n) <= s
  {
    if n > 0 {
      StageBelowClosed(g, n - 1, s);
    }
  }

  /** `Lfp` is the least fixed point of `Step`. */
  lemma LfpIsLeast(g: Graph)
    ensures Step(g, Lfp(g)) == Lfp(g)
    ensures forall s :: Step(g, s) <= s ==> Lfp(g) <= s
  {
    StageBelowLfp(g, |g.live| + 1);
    StageMonotone(g, |g.live|, |g.live| + 1);
    assert Stage(g, |g.live| + 1) == Step(g, Lfp(g));
    forall s | Step(g, s) <= s
      ensures Lfp(g) <= s
    {
      StageBelowClosed(g, |g.live|, s);
    }
  }

  lemma InLfp(g: Graph, c: Code)
    ensures c in Lfp(g) <==> c in g.live && forall d :: d in DepsOf(g, c) ==> d in Lfp(g)
  {
    LfpIsLeast(g);
    assert c in Lfp(g) <==> c in Step(g, Lfp(g));
  }

  /** On every finite graph, cyclic or not, the walk decides the least fixed point. */
  lemma ResolveIsLfp(g: Graph, c: Code)
    ensures Resolve(g, c, {}) <==> c in Lfp(g)
  {
    if Resolve(g, c, {}) {
      ResolveIsStaged(g, c, {});
      StageBelowLfp(g, |g.live - {}|);
    }
    if c in Lfp(g) {
      StagedIsResolved(g, c, |g.live|, {});
    }
  }

  /** More live codes never disable anything; only the set of dependencies of a live code counts. */
  lemma LfpMonotone(g: Graph, h: Graph)
    requires g.live <= h.live
    requires forall c, d :: c in g.live && d in DepsOf(h, c) ==> d in DepsOf(g, c)
    ensures Lfp(g) <= Lfp(h)
  {
    LfpIsLeast(g);
    LfpIsLeast(h);
    forall c | c in Step(g, Lfp(h))
      ensures c in Step(h, Lfp(h))
    {
      assert forall d :: d in DepsOf(h, c) ==> d in DepsOf(g, c);
    }
    assert Step(g, Lfp(h)) <= Lfp(h);
  }

  /** The order and repetition of declared dependencies do not matter. */
  lemma DependencyOrderIrrelevant(g: Graph, h: Graph, c: Code)
    requires g.live == h.live
    requires forall x, d :: x in g.live ==> (d in DepsOf(g, x) <==> d in DepsOf(h, x))
    ensures Resolve(g, c, {}) <==> Resolve(h, c, {})
  {
    LfpMonotone(g, h);
    LfpMonotone(h, g);
    ResolveIsLfp(g, c);
    ResolveIsLfp(h, c);
  }

  lemma {:induction false} StageOfGranted(g: Graph, granted: set<Code>, c: Code, n: nat)
    requires c in Stage(Graph(granted * g.live, g.deps), n)
    ensures c in Stage(Graph(granted * Lfp(g), g.deps), n)
    decreases n
  {
    var both, deep := Graph(granted * g.live, g.deps), Graph(granted * Lfp(g), g.deps);
    StageBelowLfp(both, n);
    LfpMonotone(both, g);
    forall d | d in DepsOf(deep, c)
      ensures d in Stage(deep, n - 1)
    {
      assert d in DepsOf(both, c);
      StageOfGranted(g, granted, d, n - 1);
    }
  }

  /** Requiring live codes to be resolvable too does not change the least fixed point. */
  lemma LfpOfGranted(g: Graph, granted: set<Code>)
    ensures Lfp(Graph(granted * Lfp(g), g.deps)) == Lfp(Graph(granted * g.live, g.deps))
  {
    var both, deep := Graph(granted * g.live, g.deps), Graph(granted * Lfp(g), g.deps);
    LfpIsLeast(g);
    LfpMonotone(deep, both);
    forall c | c in Lfp(both)
      ensures c in Lfp(deep)
    {
      StageOfGranted(g, granted, c, |both.live|);
      StageBelowLfp(deep, |both.live|);
    }
  }

  ghost predicate IsPath(g: Graph, p: seq<Code>) {
    |p| > 0 && forall i :: 0 <= i < |p| - 1 ==> p[i + 1] in DepsOf(g, p[i])
  }

  ghost predicate PathFromTo(g: Graph, p: seq<Code>, x: Code, y: Code) {
    IsPath(g, p) && p[0] == x && p[|p| - 1] == y
  }

  /** `y` is `x` or one of its transitive dependencies. */
  ghost predicate Reaches(g: Graph, x: Code, y: Code) {
    exists p :: PathFromTo(g, p, x, y)
  }

  lemma {:induction false} PathDescends(g: Graph, p: seq<Code>, n: nat)
    requires IsPath(g, p) && p[0] in Stage(g, n)
    ensures |p| <= n && p[|p| - 1] in Stage(g, n - (|p| - 1))
    decreases |p|
  {
    if |p| > 1 {
      var q := p[1..];
      assert p[1] in DepsOf(g, p[0]);
      forall i | 0 <= i < |q| - 1
        ensures q[i + 1] in DepsOf(g, q[i])
      {
        assert q[i] == p[i + 1] && q[i + 1] == p[(i + 1) + 1];
      }
      PathDescends(g, q, n - 1);
    }
  }

  lemma {:induction false} NotOnCycle(g: Graph, x: Code, p: seq<Code>, n: nat)
    requires PathFromTo(g, p, x, x) && |p| > 1
    ensures x !in Stage(g, n)
    decreases n
  {
    if x in Stage(g, n) {
      PathDescends(g, p, n);
      NotOnCycle(g, x, p, n - (|p| - 1));
    }
  }

  /** A code from which a dependency cycle can be reached is never resolved. */
  lemma CycleNeverResolved(g: Graph, c: Code, x: Code, cycle: seq<Code>)
    requires Reaches(g, c, x)
    requires PathFromTo(g, cycle, x, x) && |cycle| > 1
    ensures !Resolve(g, c, {})
  {
    var p :| PathFromTo(g, p, c, x);
    if c in Lfp(g) {
      PathDescends(g, p, |g.live|);
      NotOnCycle(g, x, cycle, |g.live| - (|p| - 1));
    }
    ResolveIsLfp(g, c);
  }

  lemma ReachesThrough(g: Graph, x: Code, d: Code, k: Code)
    requires d in DepsOf(g, x) && Reaches(g, d, k)
    ensures Reaches(g, x, k)
  {
    var p :| PathFromTo(g, p, d, k);
    var q := [x] + p;
    forall i | 0 <= i < |q| - 1
      ensures q[i + 1] in DepsOf(g, q[i])
    {
      if i > 0 {
        assert q[i] == p[i - 1] && q[i + 1] == p[i];
      }
    }
    assert PathFromTo(g, q, x, k);
  }

  lemma {:induction false} StageWithout(g: Graph, k: Code, x: Code, n: nat)
    requires x in Stage(g, n) && !Reaches(g, x, k)
    ensures x in Stage(Graph(g.live - {k}, g.deps), n)
    decreases n
  {
    var h := Graph(g.live - {k}, g.deps);
    assert PathFromTo(g, [x], x, x);
    forall d | d in DepsOf(h, x)
      ensures d in Stage(h, n - 1)
    {
      assert d in DepsOf(g, x);
      if Reaches(g, d, k) {
        ReachesThrough(g, x, d, k);
      }
      StageWithout(g, k, d, n - 1);
    }
  }

  /** Taking one live code away turns off exactly the codes that reach it. */
  lemma LfpWithout(g: Graph, k: Code, x: Code)
    ensures x in Lfp(Graph(g.live - {k}, g.deps)) <==> x in Lfp(g) && !Reaches(g, x, k)
  {
    var h := Graph(g.live - {k}, g.deps);
    if x in Lfp(h) {
      LfpMonotone(h, g);
      if Reaches(g, x, k) {
        var p :| PathFromTo(g, p, x, k);
        assert forall i :: 0 <= i < |p| - 1 ==> p[i + 1] in DepsOf(h, p[i]);
        PathDescends(h, p, |h.live|);
      }
    }
    if x in Lfp(g) && !Reaches(g, x, k) {
      StageWithout(g, k, x, |g.live|);
      StageBelowLfp(h, |g.live|);
    }
  }

  lemma ReachesIgnoresLive(g: Graph, h: Graph, x: Code, y: Code)
    requires g.deps == h.deps
    ensures Reaches(g, x, y) <==> Reaches(h, x, y)
  {
    if Reaches(g, x, y) {
      var p :| PathFromTo(g, p, x, y);
      assert PathFromTo(h, p, x, y);
    }
    if Reaches(h, x, y) {
      var p :| PathFromTo(h, p, x, y);
      assert PathFromTo(g, p, x, y);
    }
  }

  /** If every dependency of `k` is resolved, none of them reaches `k`, whatever the state of `k` itself. */
  lemma ResolvedDependenciesAvoid(g: Graph, k: Code, d: Code)
    requires d in DepsOf(g, k) && d in Lfp(g)
    ensures !Reaches(g, d, k)
  {
    if Reaches(g, d, k) {
      var p :| PathFromTo(g, p, d, k);
      var cycle := [k] + p;
      forall i | 0 <= i < |cycle| - 1
        ensures cycle[i + 1] in DepsOf(g, cycle[i])
      {
        assert i > 0 ==> cycle[i] == p[i - 1] && cycle[i + 1] == p[i];
      }
      PathDescends(g, p, |g.live|);
      NotOnCycle(g, k, cycle, |g.live| - (|p| - 1));
    }
  }
}
