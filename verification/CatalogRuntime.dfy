/** Resolving a customer message to one product of the active catalogue (app/catalog_runtime.py). */
module CatalogRuntime {
  import opened Options
  import opened Sequences
  import opened CatalogText

  type ProductId = int

  datatype PublishedAlias = PublishedAlias(value: string, priority: int)
  datatype CatalogProduct = CatalogProduct(productId: ProductId, name: string, aliases: seq<PublishedAlias>, category: Option<string>)

  datatype Hit = Hit(productId: ProductId, term: string, priority: int)

  datatype Resolution = Resolution(product: Option<ProductId>, ambiguous: bool, candidates: seq<ProductId>)

  const NOTHING := Resolution(None, false, [])

  /** `str.split`. */
  function Split(s: string, sep: char): seq<string> {
    if s == [] then [[]]
    else
      var rest := Split(s[1..], sep);
      if s[0] == sep then [[]] + rest else [[s[0]] + rest[0]] + rest[1..]
  }

  function Glue(parts: seq<string>, sep: char): string {
    if parts == [] then [] else if |parts| == 1 then parts[0] else parts[0] + [sep] + Glue(parts[1..], sep)
  }

  lemma GlueNew(parts: seq<string>, sep: char)
    requires parts != []
    ensures Glue([[]] + parts, sep) == [sep] + Glue(parts, sep)
  {
    assert ([[]] + parts)[1..] == parts;
  }

  lemma GlueLonger(parts: seq<string>, c: char, sep: char)
    requires parts != []
    ensures Glue([[c] + parts[0]] + parts[1..], sep) == [c] + Glue(parts, sep)
  {
    assert ([[c] + parts[0]] + parts[1..])[1..] == parts[1..];
    if |parts| > 1 {
      assert [c] + parts[0] + [sep] + Glue(parts[1..], sep) == [c] + (parts[0] + [sep] + Glue(parts[1..], sep));
    }
  }

  /** The parts are free of the separator, and with it between them give the text back. */
  lemma {:induction false} SplitExactly(s: string, sep: char)
    ensures Split(s, sep) != [] && (forall part :: part in Split(s, sep) ==> sep !in part) && Glue(Split(s, sep), sep) == s
  {
    if s != [] {
      SplitExactly(s[1..], sep);
      var rest := Split(s[1..], sep);
      assert s == [s[0]] + s[1..];
      if s[0] == sep {
        GlueNew(rest, sep);
      } else {
        GlueLonger(rest, s[0], sep);
        assert forall part :: part in rest[1..] ==> part in rest;
      }
    }
  }

  function Min(x: int, y: int): int {
    if x <= y then x else y
  }

  /** The dictionary of terms of one product: its name at priority 10, then its aliases, each at its best. */
  function AddAliases(a: Alphabet, terms: map<string, int>, aliases: seq<PublishedAlias>): map<string, int> {
    if aliases == [] then terms
    else
      var before := AddAliases(a, terms, aliases[..|aliases| - 1]);
      var alias := aliases[|aliases| - 1];
      var term := Normalize(a, alias.value);
      if term == "" then before
      else before[term := Min(if term in before then before[term] else alias.priority, alias.priority)]
  }

  function Terms(a: Alphabet, p: CatalogProduct): map<string, int> {
    AddAliases(a, map[Normalize(a, p.name) := 10], p.aliases)
  }

  predicate TermInMessage(a: Alphabet, message: string, term: string) {
    message != "" && term != "" && PhraseIsPresent(a, message, term)
  }

  function ProductHits(a: Alphabet, p: CatalogProduct, message: string): set<Hit> {
    set term | term in Terms(a, p) && TermInMessage(a, message, term) :: Hit(p.productId, term, Terms(a, p)[term])
  }

  function AllHits(a: Alphabet, catalog: seq<CatalogProduct>, message: string): set<Hit> {
    set p, hit | p in catalog && hit in ProductHits(a, p, message) :: hit
  }

  /** The category's name or one of its parts occurs in the message. */
  predicate CategoryMatches(a: Alphabet, p: CatalogProduct, message: string) {
    p.category.Some? && exists value | value in [p.category.value] + Split(p.category.value, '/') :: TermInMessage(a, message, Normalize(a, value))
  }

  function CategoryProducts(a: Alphabet, catalog: seq<CatalogProduct>, message: string): set<ProductId> {
    set p | p in catalog && CategoryMatches(a, p, message) :: p.productId
  }

  function Elements(hits: seq<Hit>): set<Hit> {
    set h | h in hits
  }

  /** `h` has the best priority among the hits. */
  predicate IsStrongest(hits: set<Hit>, h: Hit) {
    h in hits && forall other | other in hits :: h.priority <= other.priority
  }

  function Strongest(hits: set<Hit>): set<Hit> {
    set h | h in hits && IsStrongest(hits, h)
  }

  function ProductIds(hits: set<Hit>): set<ProductId> {
    set h | h in hits :: h.productId
  }

  predicate Dominates(a: Alphabet, hits: set<Hit>, h: Hit) {
    h in hits && forall other | other in hits :: TermInMessage(a, h.term, other.term)
  }

  function DominantProducts(a: Alphabet, hits: set<Hit>): set<ProductId> {
    set h | h in hits && Dominates(a, hits, h) :: h.productId
  }

  function NarrowByCategory(ids: set<ProductId>, categoryIds: set<ProductId>): set<ProductId> {
    if |ids| > 1 && ids * categoryIds != {} then ids * categoryIds else ids
  }

  function NarrowByDominant(ids: set<ProductId>, dominant: set<ProductId>): set<ProductId> {
    if |ids| > 1 && |dominant| == 1 && dominant <= ids then dominant else ids
  }

  /** Narrowing by category, then by the one alias that contains all the others. */
  function Narrow(a: Alphabet, strongest: set<Hit>, categoryIds: set<ProductId>): set<ProductId> {
    NarrowByDominant(NarrowByCategory(ProductIds(strongest), categoryIds), DominantProducts(a, strongest))
  }

  /** `_unique_products`. */
  function UniqueProducts(catalog: seq<CatalogProduct>, ids: set<ProductId>): seq<ProductId> {
    if catalog == [] then []
    else
      var before, id := UniqueProducts(catalog[..|catalog| - 1], ids), catalog[|catalog| - 1].productId;
      if id in ids && id !in before then before + [id] else before
  }

  function FromCandidates(candidates: seq<ProductId>): Resolution {
    if |candidates| == 1 then Resolution(Some(candidates[0]), false, candidates)
    else Resolution(None, candidates != [], candidates)
  }

  function Resolve(a: Alphabet, catalog: seq<CatalogProduct>, message: string): Resolution {
    var m := Normalize(a, message);
    var hits, categoryIds := AllHits(a, catalog, m), CategoryProducts(a, catalog, m);
    if hits != {} then FromCandidates(UniqueProducts(catalog, Narrow(a, Strongest(hits), categoryIds)))
    else if categoryIds != {} then FromCandidates(UniqueProducts(catalog, categoryIds))
    else NOTHING
  }

  method CollectTerms(a: Alphabet, p: CatalogProduct) returns (terms: map<string, int>)
    ensures terms == Terms(a, p)
  {
    terms := map[Normalize(a, p.name) := 10];
    for i := 0 to |p.aliases|
      invariant terms == AddAliases(a, map[Normalize(a, p.name) := 10], p.aliases[..i])
    {
      var alias := p.aliases[i];
      assert p.aliases[..i + 1][..i] == p.aliases[..i];
      var term := Normalize(a, alias.value);
      if term != "" {
        terms := terms[term := Min(if term in terms then terms[term] else alias.priority, alias.priority)];
      }
    }
    assert p.aliases[..|p.aliases|] == p.aliases;
  }

  method CollectHits(a: Alphabet, p: CatalogProduct, message: string) returns (hits: seq<Hit>)
    ensures Elements(hits) == ProductHits(a, p, message)
  {
    var terms := CollectTerms(a, p);
    hits := [];
    var rest := terms.Keys;
    while rest != {}
      invariant rest <= terms.Keys
      invariant forall h :: h in hits <==>
                  h.term in terms.Keys - rest && TermInMessage(a, message, h.term) && h == Hit(p.productId, h.term, terms[h.term])
      decreases rest
    {
      var term :| term in rest;
      if TermInMessage(a, message, term) {
        hits := hits + [Hit(p.productId, term, terms[term])];
      }
      rest := rest - {term};
    }
  }

  /** The two result lists of the loop over the catalogue. */
  method Scan(a: Alphabet, catalog: seq<CatalogProduct>, message: string) returns (hits: seq<Hit>, categoryIds: set<ProductId>)
    ensures Elements(hits) == AllHits(a, catalog, message)
    ensures categoryIds == CategoryProducts(a, catalog, message)
  {
    hits, categoryIds := [], {};
    for i := 0 to |catalog|
      invariant Elements(hits) == AllHits(a, catalog[..i], message)
      invariant categoryIds == CategoryProducts(a, catalog[..i], message)
    {
      var found := CollectHits(a, catalog[i], message);
      AllHitsOneMore(a, catalog[..i], catalog[i], message);
      TakeOneMore(catalog, i);
      assert Elements(hits + found) == Elements(hits) + Elements(found);
      hits := hits + found;
      if CategoryMatches(a, catalog[i], message) {
        categoryIds := categoryIds + {catalog[i].productId};
      }
    }
    assert catalog[..|catalog|] == catalog;
  }

  lemma AllHitsOneMore(a: Alphabet, catalog: seq<CatalogProduct>, p: CatalogProduct, message: string)
    ensures AllHits(a, catalog + [p], message) == AllHits(a, catalog, message) + ProductHits(a, p, message)
    ensures CategoryProducts(a, catalog + [p], message)
            == CategoryProducts(a, catalog, message) + (if CategoryMatches(a, p, message) then {p.productId} else {})
  {
    assert p in catalog + [p];
    forall q | q in catalog
      ensures q in catalog + [p]
    {
    }
  }

  method StrongestHits(hits: seq<Hit>) returns (strongest: seq<Hit>)
    requires hits != []
    ensures Elements(strongest) == Strongest(Elements(hits))
  {
    var best := hits[0].priority;
    for i := 1 to |hits|
      invariant forall j :: 0 <= j < i ==> best <= hits[j].priority
      invariant exists j :: 0 <= j < i && hits[j].priority == best
    {
      best := Min(best, hits[i].priority);
    }
    strongest := [];
    for i := 0 to |hits|
      invariant forall h :: h in strongest <==> h in hits[..i] && h.priority == best
    {
      assert hits[..i + 1] == hits[..i] + [hits[i]];
      if hits[i].priority == best {
        strongest := strongest + [hits[i]];
      }
    }
    assert hits[..|hits|] == hits;
    ghost var all := Elements(hits);
    var j :| 0 <= j < |hits| && hits[j].priority == best;
    assert hits[j] in all;
  }

  /** `_dominant_alias_product`: the one product with an alias that contains every competing alias, if any. */
  method DominantAliasProduct(a: Alphabet, hits: seq<Hit>) returns (dominant: set<ProductId>)
    ensures var ids := DominantProducts(a, Elements(hits));
            dominant == if |ids| == 1 then ids else {}
  {
    var ids: set<ProductId> := {};
    ghost var all := Elements(hits);
    for i := 0 to |hits|
      invariant ids == DominantAmong(a, all, hits[..i])
    {
      var h := hits[i];
      DominantOneMore(a, all, hits[..i], h);
      assert hits[..i + 1] == hits[..i] + [h];
      if forall other | other in hits :: TermInMessage(a, h.term, other.term) {
        ids := ids + {h.productId};
      }
      assert Dominates(a, all, h) <==> forall other | other in hits :: TermInMessage(a, h.term, other.term) by {
        assert forall other :: other in all <==> other in hits;
      }
    }
    assert hits[..|hits|] == hits;
    DominantAmongAll(a, hits);
    dominant := if |ids| == 1 then ids else {};
  }

  ghost function DominantAmong(a: Alphabet, all: set<Hit>, hits: seq<Hit>): set<ProductId> {
    set h | h in hits && Dominates(a, all, h) :: h.productId
  }

  lemma DominantAmongAll(a: Alphabet, hits: seq<Hit>)
    ensures DominantAmong(a, Elements(hits), hits) == DominantProducts(a, Elements(hits))
  {
  }

  lemma DominantOneMore(a: Alphabet, all: set<Hit>, hits: seq<Hit>, h: Hit)
    ensures DominantAmong(a, all, hits + [h]) == DominantAmong(a, all, hits) + (if Dominates(a, all, h) then {h.productId} else {})
  {
    assert h in hits + [h];
    forall g | g in hits
      ensures g in hits + [h]
    {
    }
  }

  method CollectUnique(catalog: seq<CatalogProduct>, ids: set<ProductId>) returns (products: seq<ProductId>)
    ensures products == UniqueProducts(catalog, ids)
  {
    products := [];
    var seen: set<ProductId> := {};
    for i := 0 to |catalog|
      invariant products == UniqueProducts(catalog[..i], ids)
      invariant forall id :: id in seen <==> id in products
    {
      assert catalog[..i + 1][..i] == catalog[..i];
      var id := catalog[i].productId;
      if id in ids && id !in seen {
        products := products + [id];
        seen := seen + {id};
      }
    }
    assert catalog[..|catalog|] == catalog;
  }

  lemma NarrowByOne(kept: set<ProductId>, all: set<ProductId>, dominant: set<ProductId>)
    requires |kept| > 1 && dominant == if |all| == 1 then all else {}
    ensures NarrowByDominant(kept, all) == if dominant != {} && dominant <= kept then dominant else kept
  {
    if |all| == 1 {
      assert all != {};
    }
  }

  method NarrowHits(a: Alphabet, strongest: seq<Hit>, categoryIds: set<ProductId>) returns (ids: set<ProductId>)
    ensures ids == Narrow(a, Elements(strongest), categoryIds)
  {
    ids := set h | h in strongest :: h.productId;
    assert ids == ProductIds(Elements(strongest));
    if |ids| > 1 && categoryIds != {} {
      var narrowed := ids * categoryIds;
      if narrowed != {} {
        ids := narrowed;
      }
    }
    ghost var kept := NarrowByCategory(ProductIds(Elements(strongest)), categoryIds);
    assert ids == kept;
    if |ids| > 1 {
      var dominant := DominantAliasProduct(a, strongest);
      ghost var all := DominantProducts(a, Elements(strongest));
      NarrowByOne(kept, all, dominant);
      if dominant != {} && dominant <= ids {
        ids := dominant;
      }
    }
  }

  method ResolveProduct(a: Alphabet, catalog: seq<CatalogProduct>, message: string) returns (r: Resolution)
    ensures r == Resolve(a, catalog, message)
  {
    var m := Normalize(a, message);
    var hits, categoryIds := Scan(a, catalog, m);
    ghost var all := Elements(hits);
    if hits != [] {
      assert hits[0] in all;
      var strongest := StrongestHits(hits);
      var ids := NarrowHits(a, strongest, categoryIds);
      var candidates := CollectUnique(catalog, ids);
      return FromCandidates(candidates);
    }
    if categoryIds != {} {
      var candidates := CollectUnique(catalog, categoryIds);
      return FromCandidates(candidates);
    }
    r := NOTHING;
  }

  /** Each product row of a version has its own product (unique constraint), and no term names two of them. */
  ghost predicate Unambiguous(a: Alphabet, catalog: seq<CatalogProduct>) {
    forall p, q :: p in catalog && q in catalog && (p.productId == q.productId || Terms(a, p).Keys * Terms(a, q).Keys - {""} != {}) ==> p == q
  }

  lemma {:induction false} TermsAreNormal(a: Alphabet, terms: map<string, int>, aliases: seq<PublishedAlias>)
    requires ValidAlphabet(a) && forall t :: t in terms ==> Normalize(a, t) == t
    ensures forall t :: t in AddAliases(a, terms, aliases) ==> Normalize(a, t) == t
  {
    if aliases != [] {
      TermsAreNormal(a, terms, aliases[..|aliases| - 1]);
      NormalizeIdempotent(a, aliases[|aliases| - 1].value);
    }
  }

  lemma HitsAreNormal(a: Alphabet, catalog: seq<CatalogProduct>, m: string, h: Hit) returns (p: CatalogProduct)
    requires ValidAlphabet(a) && Normalize(a, m) == m && h in AllHits(a, catalog, m)
    ensures p in catalog && p.productId == h.productId && h.term in Terms(a, p) && h.term != ""
    ensures Normalize(a, h.term) == h.term && Contains(a, m, h.term)
  {
    p :| p in catalog && h in ProductHits(a, p, m);
    NormalizeIdempotent(a, p.name);
    TermsAreNormal(a, map[Normalize(a, p.name) := 10], p.aliases);
  }

  /** At most one product can dominate: two dominating terms contain each other, so they are the same term. */
  lemma AtMostOneDominates(a: Alphabet, catalog: seq<CatalogProduct>, m: string, hits: set<Hit>, g: Hit, h: Hit)
    requires ValidAlphabet(a) && Unambiguous(a, catalog) && Normalize(a, m) == m
    requires hits <= AllHits(a, catalog, m) && Dominates(a, hits, g) && Dominates(a, hits, h)
    ensures g.productId == h.productId
  {
    var p := HitsAreNormal(a, catalog, m, g);
    var q := HitsAreNormal(a, catalog, m, h);
    ContainsIsAntisymmetric(a, g.term, h.term);
    assert g.term in Terms(a, p).Keys * Terms(a, q).Keys - {""};
  }

  predicate Offers(catalog: seq<CatalogProduct>, id: ProductId) {
    exists p | p in catalog :: p.productId == id
  }

  lemma OffersOneMore(catalog: seq<CatalogProduct>, last: CatalogProduct, id: ProductId)
    ensures Offers(catalog + [last], id) <==> Offers(catalog, id) || last.productId == id
  {
    assert forall p :: p in catalog + [last] <==> p in catalog || p == last;
  }

  lemma {:induction false} UniqueProductsOfOne(catalog: seq<CatalogProduct>, id: ProductId)
    ensures UniqueProducts(catalog, {id}) == if Offers(catalog, id) then [id] else []
  {
    if catalog != [] {
      var front, last := catalog[..|catalog| - 1], catalog[|catalog| - 1];
      UniqueProductsOfOne(front, id);
      OffersOneMore(front, last, id);
      SplitLast(catalog);
    }
  }

  lemma {:induction false} UniqueProductsWithin(catalog: seq<CatalogProduct>, ids: set<ProductId>)
    ensures forall id :: id in UniqueProducts(catalog, ids) ==> id in ids
  {
    if catalog != [] {
      UniqueProductsWithin(catalog[..|catalog| - 1], ids);
    }
  }

  lemma ExactAliasDominates(a: Alphabet, catalog: seq<CatalogProduct>, p: CatalogProduct, term: string)
    requires ValidAlphabet(a) && Unambiguous(a, catalog) && p in catalog
    requires term in Terms(a, p) && term != "" && Normalize(a, term) == term
    requires IsStrongest(AllHits(a, catalog, term), Hit(p.productId, term, Terms(a, p)[term]))
    ensures DominantProducts(a, Strongest(AllHits(a, catalog, term))) == {p.productId}
  {
    var hits := Strongest(AllHits(a, catalog, term));
    var h := Hit(p.productId, term, Terms(a, p)[term]);
    forall other | other in hits
      ensures TermInMessage(a, h.term, other.term)
    {
      var q := HitsAreNormal(a, catalog, term, other);
    }
    assert Dominates(a, hits, h);
    forall g | Dominates(a, hits, g)
      ensures g.productId == p.productId
    {
      AtMostOneDominates(a, catalog, term, hits, g, h);
    }
  }

  lemma SingletonOrMore(ids: set<ProductId>, id: ProductId)
    requires id in ids
    ensures |ids| >= 1 && (|ids| == 1 ==> ids == {id})
  {
    if |ids| == 1 {
      assert |ids - {id}| == 0;
      assert ids - {id} == {};
    }
  }

  lemma NarrowKeeps(ids: set<ProductId>, categoryIds: set<ProductId>, id: ProductId)
    requires id in ids
    ensures var r := NarrowByDominant(NarrowByCategory(ids, categoryIds), {id});
            if ids * categoryIds == {} || id in categoryIds then r == {id} else id !in r
  {
    SingletonOrMore(ids, id);
    if id in NarrowByCategory(ids, categoryIds) {
      SingletonOrMore(NarrowByCategory(ids, categoryIds), id);
    }
  }

  /** A message that is exactly an alias of `p`, of the strongest matching priority, resolves to `p` alone;
      the one exception is a message that names the category of some other strongest match but not of `p`. */
  lemma ExactAliasResolves(a: Alphabet, catalog: seq<CatalogProduct>, message: string, p: CatalogProduct, term: string)
    requires ValidAlphabet(a) && Unambiguous(a, catalog) && p in catalog
    requires Normalize(a, message) == term && term != "" && term in Terms(a, p)
    requires IsStrongest(AllHits(a, catalog, term), Hit(p.productId, term, Terms(a, p)[term]))
    ensures var categoryIds := CategoryProducts(a, catalog, term);
            var rivals := ProductIds(Strongest(AllHits(a, catalog, term))) * categoryIds;
            Resolve(a, catalog, message) == Resolution(Some(p.productId), false, [p.productId])
            <==> (rivals == {} || p.productId in categoryIds)
  {
    NormalizeIdempotent(a, message);
    ExactAliasDominates(a, catalog, p, term);
    var hits, categoryIds := AllHits(a, catalog, term), CategoryProducts(a, catalog, term);
    assert Hit(p.productId, term, Terms(a, p)[term]) in Strongest(hits);
    var ids := ProductIds(Strongest(hits));
    NarrowKeeps(ids, categoryIds, p.productId);
    var narrow := Narrow(a, Strongest(hits), categoryIds);
    assert Resolve(a, catalog, message) == FromCandidates(UniqueProducts(catalog, narrow));
    if ids * categoryIds == {} || p.productId in categoryIds {
      UniqueProductsOfOne(catalog, p.productId);
    } else {
      UniqueProductsWithin(catalog, narrow);
    }
  }

  /** Product `p` answers to the term at priority `n`: by its name at 10, or by an alias. */
  ghost predicate Sourced(a: Alphabet, p: CatalogProduct, term: string, n: int) {
    term != "" && ((term == Normalize(a, p.name) && n == 10)
                   || exists x :: x in p.aliases && Normalize(a, x.value) == term && x.priority == n)
  }

  /** Such a term occurs in the normal form `m` of the message. */
  ghost predicate Occurs(a: Alphabet, m: string, p: CatalogProduct, term: string, n: int) {
    Sourced(a, p, term, n) && Contains(a, m, term)
  }

  ghost predicate OccursIn(a: Alphabet, catalog: seq<CatalogProduct>, m: string, id: ProductId, term: string, n: int) {
    exists p :: p in catalog && p.productId == id && Occurs(a, m, p, term, n)
  }

  /** No term of the catalogue occurs at a better priority. */
  ghost predicate BestIs(a: Alphabet, catalog: seq<CatalogProduct>, m: string, n: int) {
    forall id, term, k :: OccursIn(a, catalog, m, id, term, k) ==> n <= k
  }

  /** The term occurs, for product `id`, at the best priority of all. */
  ghost predicate StrongTerm(a: Alphabet, catalog: seq<CatalogProduct>, m: string, id: ProductId, term: string) {
    exists n :: OccursIn(a, catalog, m, id, term, n) && BestIs(a, catalog, m, n)
  }

  ghost predicate StrongProduct(a: Alphabet, catalog: seq<CatalogProduct>, m: string, id: ProductId) {
    exists term :: StrongTerm(a, catalog, m, id, term)
  }

  ghost predicate InCategory(a: Alphabet, catalog: seq<CatalogProduct>, m: string, id: ProductId) {
    exists p :: p in catalog && p.productId == id && p.category.Some?
      && exists value :: value in [p.category.value] + Split(p.category.value, '/') && Contains(a, m, Normalize(a, value))
  }

  /** Strong products, those in a named category if there are any. */
  ghost predicate Kept(a: Alphabet, catalog: seq<CatalogProduct>, m: string, id: ProductId) {
    && StrongProduct(a, catalog, m, id)
    && ((exists other :: StrongProduct(a, catalog, m, other) && InCategory(a, catalog, m, other)) ==> InCategory(a, catalog, m, id))
  }

  /** One of the product's strong terms contains every strong term. */
  ghost predicate Dominating(a: Alphabet, catalog: seq<CatalogProduct>, m: string, id: ProductId) {
    exists term :: StrongTerm(a, catalog, m, id, term)
      && forall other, u :: StrongTerm(a, catalog, m, other, u) ==> Contains(a, term, u)
  }

  ghost predicate OnlyDominating(a: Alphabet, catalog: seq<CatalogProduct>, m: string, id: ProductId) {
    Dominating(a, catalog, m, id) && forall other :: Dominating(a, catalog, m, other) ==> other == id
  }

  /** What the answer to a message should offer. */
  ghost predicate Candidate(a: Alphabet, catalog: seq<CatalogProduct>, m: string, id: ProductId) {
    if exists other :: StrongProduct(a, catalog, m, other) then
      Kept(a, catalog, m, id)
      && ((exists other :: Kept(a, catalog, m, other) && OnlyDominating(a, catalog, m, other)) ==> OnlyDominating(a, catalog, m, id))
    else InCategory(a, catalog, m, id)
  }

  lemma {:induction false} TermsExactly(a: Alphabet, p: CatalogProduct, aliases: seq<PublishedAlias>, term: string)
    requires term != ""
    ensures var terms := AddAliases(a, map[Normalize(a, p.name) := 10], aliases);
            var q := p.(aliases := aliases);
            && (forall n :: Sourced(a, q, term, n) ==> term in terms && terms[term] <= n)
            && (term in terms ==> Sourced(a, q, term, terms[term]))
  {
    var terms := AddAliases(a, map[Normalize(a, p.name) := 10], aliases);
    var q := p.(aliases := aliases);
    if aliases != [] {
      var front, last := aliases[..|aliases| - 1], aliases[|aliases| - 1];
      TermsExactly(a, p, front, term);
      SplitLast(aliases);
      assert forall x :: x in aliases <==> x in front || x == last;
      assert forall n :: Sourced(a, q, term, n) <==>
                         Sourced(a, p.(aliases := front), term, n) || (Normalize(a, last.value) == term && n == last.priority);
    }
  }

  lemma HitExactly(a: Alphabet, catalog: seq<CatalogProduct>, m: string, id: ProductId, term: string, n: int)
    requires ValidAlphabet(a) && Normalize(a, m) == m
    ensures Hit(id, term, n) in AllHits(a, catalog, m) ==> OccursIn(a, catalog, m, id, term, n)
    ensures OccursIn(a, catalog, m, id, term, n) ==> exists k :: k <= n && Hit(id, term, k) in AllHits(a, catalog, m)
  {
    if Hit(id, term, n) in AllHits(a, catalog, m) {
      var p :| p in catalog && Hit(id, term, n) in ProductHits(a, p, m);
      NormalizeIdempotent(a, p.name);
      TermsAreNormal(a, map[Normalize(a, p.name) := 10], p.aliases);
      TermsExactly(a, p, p.aliases, term);
      assert Occurs(a, m, p, term, n);
    }
    if OccursIn(a, catalog, m, id, term, n) {
      var p :| p in catalog && p.productId == id && Occurs(a, m, p, term, n);
      NormalizeIdempotent(a, p.name);
      TermsAreNormal(a, map[Normalize(a, p.name) := 10], p.aliases);
      TermsExactly(a, p, p.aliases, term);
      assert Hit(id, term, Terms(a, p)[term]) in ProductHits(a, p, m);
    }
  }

  lemma StrongestExactly(a: Alphabet, catalog: seq<CatalogProduct>, m: string, id: ProductId, term: string)
    requires ValidAlphabet(a) && Normalize(a, m) == m
    ensures StrongTerm(a, catalog, m, id, term) <==> exists n :: Hit(id, term, n) in Strongest(AllHits(a, catalog, m))
  {
    var hits := AllHits(a, catalog, m);
    if n :| Hit(id, term, n) in Strongest(hits) {
      HitExactly(a, catalog, m, id, term, n);
      forall other, t, k | OccursIn(a, catalog, m, other, t, k)
        ensures n <= k
      {
        HitExactly(a, catalog, m, other, t, k);
      }
      assert BestIs(a, catalog, m, n);
    }
    if StrongTerm(a, catalog, m, id, term) {
      var n :| OccursIn(a, catalog, m, id, term, n) && BestIs(a, catalog, m, n);
      HitExactly(a, catalog, m, id, term, n);
      var k :| k <= n && Hit(id, term, k) in hits;
      forall h | h in hits
        ensures n <= h.priority
      {
        HitExactly(a, catalog, m, h.productId, h.term, h.priority);
      }
      assert Hit(id, term, n) in Strongest(hits);
    }
  }

  lemma StrongProductExactly(a: Alphabet, catalog: seq<CatalogProduct>, m: string, id: ProductId)
    requires ValidAlphabet(a) && Normalize(a, m) == m
    ensures StrongProduct(a, catalog, m, id) <==> id in ProductIds(Strongest(AllHits(a, catalog, m)))
  {
    var strongest := Strongest(AllHits(a, catalog, m));
    if id in ProductIds(strongest) {
      var h :| h in strongest && h.productId == id;
      assert h == Hit(id, h.term, h.priority);
      StrongestExactly(a, catalog, m, id, h.term);
    }
    if term :| StrongTerm(a, catalog, m, id, term) {
      StrongestExactly(a, catalog, m, id, term);
    }
  }

  lemma CategoryExactly(a: Alphabet, catalog: seq<CatalogProduct>, m: string, id: ProductId)
    requires ValidAlphabet(a) && Normalize(a, m) == m
    ensures InCategory(a, catalog, m, id) <==> id in CategoryProducts(a, catalog, m)
  {
    forall p, value | p in catalog && p.category.Some? && value in [p.category.value] + Split(p.category.value, '/')
      ensures TermInMessage(a, m, Normalize(a, value)) <==> Contains(a, m, Normalize(a, value))
    {
      NormalizeIdempotent(a, value);
    }
  }

  lemma DominatingExactly(a: Alphabet, catalog: seq<CatalogProduct>, m: string, id: ProductId)
    requires ValidAlphabet(a) && Normalize(a, m) == m
    ensures Dominating(a, catalog, m, id) <==> id in DominantProducts(a, Strongest(AllHits(a, catalog, m)))
  {
    var strongest := Strongest(AllHits(a, catalog, m));
    if id in DominantProducts(a, strongest) {
      var h :| h in strongest && Dominates(a, strongest, h) && h.productId == id;
      assert h == Hit(id, h.term, h.priority);
      StrongestExactly(a, catalog, m, id, h.term);
      forall other, u | StrongTerm(a, catalog, m, other, u)
        ensures Contains(a, h.term, u)
      {
        StrongestExactly(a, catalog, m, other, u);
        var n :| Hit(other, u, n) in strongest;
        TermsContain(a, catalog, m, h, Hit(other, u, n));
      }
    }
    if term :| StrongTerm(a, catalog, m, id, term) && forall other, u :: StrongTerm(a, catalog, m, other, u) ==> Contains(a, term, u) {
      StrongestExactly(a, catalog, m, id, term);
      var n :| Hit(id, term, n) in strongest;
      forall other | other in strongest
        ensures TermInMessage(a, term, other.term)
      {
        assert other == Hit(other.productId, other.term, other.priority);
        StrongestExactly(a, catalog, m, other.productId, other.term);
        TermsContain(a, catalog, m, Hit(id, term, n), other);
      }
      assert Dominates(a, strongest, Hit(id, term, n));
    }
  }

  lemma TermsContain(a: Alphabet, catalog: seq<CatalogProduct>, m: string, g: Hit, h: Hit)
    requires ValidAlphabet(a) && Normalize(a, m) == m && g in AllHits(a, catalog, m) && h in AllHits(a, catalog, m)
    ensures TermInMessage(a, g.term, h.term) <==> Contains(a, g.term, h.term)
  {
    var _ := HitsAreNormal(a, catalog, m, g);
    var _ := HitsAreNormal(a, catalog, m, h);
  }

  lemma MeetsExactly(s: set<ProductId>, t: set<ProductId>)
    ensures s * t != {} <==> exists id :: id in s && id in t
  {
    if forall id :: id in s ==> id !in t {
      assert s * t == {};
    }
    if id :| id in s && id in t {
      assert id in s * t;
    }
  }

  lemma NarrowedByCategory(ids: set<ProductId>, categoryIds: set<ProductId>, id: ProductId)
    ensures id in NarrowByCategory(ids, categoryIds)
            <==> id in ids && ((exists other :: other in ids && other in categoryIds) ==> id in categoryIds)
  {
    MeetsExactly(ids, categoryIds);
    if id in ids && |ids| <= 1 {
      SingletonOrMore(ids, id);
    }
  }

  lemma NarrowedByDominant(ids: set<ProductId>, dominant: set<ProductId>, id: ProductId)
    ensures id in NarrowByDominant(ids, dominant)
            <==> id in ids && (|dominant| == 1 && (exists other :: other in ids && other in dominant) ==> id in dominant)
  {
    if other :| other in ids && other in dominant {
      SingletonOrMore(dominant, other);
      SingletonOrMore(ids, other);
    }
    if |dominant| == 1 && dominant <= ids {
      MeetsExactly(ids, dominant);
      assert ids * dominant == dominant;
    }
  }

  lemma OnlyDominatingExactly(a: Alphabet, catalog: seq<CatalogProduct>, m: string, id: ProductId)
    requires ValidAlphabet(a) && Normalize(a, m) == m
    ensures var dominant := DominantProducts(a, Strongest(AllHits(a, catalog, m)));
            OnlyDominating(a, catalog, m, id) <==> |dominant| == 1 && id in dominant
  {
    var dominant := DominantProducts(a, Strongest(AllHits(a, catalog, m)));
    forall other {
      DominatingExactly(a, catalog, m, other);
    }
    if id in dominant {
      SingletonOrMore(dominant, id);
      if OnlyDominating(a, catalog, m, id) {
        assert dominant == {id};
      }
    }
  }

  lemma {:induction false} UniqueProductsExactly(catalog: seq<CatalogProduct>, ids: set<ProductId>)
    ensures forall id :: id in UniqueProducts(catalog, ids) <==> id in ids && Offers(catalog, id)
    ensures InOrderOf(catalog, UniqueProducts(catalog, ids))
  {
    if catalog != [] {
      var front, last := catalog[..|catalog| - 1], catalog[|catalog| - 1];
      UniqueProductsExactly(front, ids);
      SplitLast(catalog);
      forall id {
        OffersOneMore(front, last, id);
      }
      OrderOneMore(front, last, UniqueProducts(front, ids));
    }
  }

  lemma OrderOneMore(front: seq<CatalogProduct>, last: CatalogProduct, products: seq<ProductId>)
    requires InOrderOf(front, products) && forall id :: id in products ==> Offers(front, id)
    ensures InOrderOf(front + [last], products)
    ensures !Offers(front, last.productId) ==> InOrderOf(front + [last], products + [last.productId])
  {
    forall x, y | Precedes(front, x, y)
      ensures Precedes(front + [last], x, y)
    {
      var k :| 0 <= k < |front| && front[k].productId == x && forall l :: 0 <= l <= k ==> front[l].productId != y;
      assert (front + [last])[k].productId == x;
    }
    if !Offers(front, last.productId) {
      forall x | Offers(front, x)
        ensures Precedes(front + [last], x, last.productId)
      {
        var k :| 0 <= k < |front| && front[k].productId == x;
        assert (front + [last])[k].productId == x;
        assert forall l :: 0 <= l <= k ==> (front + [last])[l] in front;
      }
    }
  }

  /** The products are distinct and stand in the order in which the catalogue first names them. */
  ghost predicate InOrderOf(catalog: seq<CatalogProduct>, products: seq<ProductId>) {
    forall i, j :: 0 <= i < j < |products| ==> Precedes(catalog, products[i], products[j])
  }

  ghost predicate Precedes(catalog: seq<CatalogProduct>, x: ProductId, y: ProductId) {
    exists k :: 0 <= k < |catalog| && catalog[k].productId == x && forall l :: 0 <= l <= k ==> catalog[l].productId != y
  }

  lemma OfferedByRows(a: Alphabet, catalog: seq<CatalogProduct>, m: string, id: ProductId)
    ensures StrongProduct(a, catalog, m, id) || InCategory(a, catalog, m, id) ==> Offers(catalog, id)
  {
  }

  lemma KeptExactly(a: Alphabet, catalog: seq<CatalogProduct>, m: string, id: ProductId)
    requires ValidAlphabet(a) && Normalize(a, m) == m
    ensures Kept(a, catalog, m, id)
            <==> id in NarrowByCategory(ProductIds(Strongest(AllHits(a, catalog, m))), CategoryProducts(a, catalog, m))
  {
    var ids, categoryIds := ProductIds(Strongest(AllHits(a, catalog, m))), CategoryProducts(a, catalog, m);
    forall other
      ensures StrongProduct(a, catalog, m, other) <==> other in ids
      ensures InCategory(a, catalog, m, other) <==> other in categoryIds
    {
      StrongProductExactly(a, catalog, m, other);
      CategoryExactly(a, catalog, m, other);
    }
    NarrowedByCategory(ids, categoryIds, id);
  }

  lemma NarrowedExactly(a: Alphabet, catalog: seq<CatalogProduct>, m: string, id: ProductId)
    requires ValidAlphabet(a) && Normalize(a, m) == m
    ensures id in Narrow(a, Strongest(AllHits(a, catalog, m)), CategoryProducts(a, catalog, m))
            <==> Kept(a, catalog, m, id)
                 && ((exists other :: Kept(a, catalog, m, other) && OnlyDominating(a, catalog, m, other)) ==> OnlyDominating(a, catalog, m, id))
  {
    var kept := NarrowByCategory(ProductIds(Strongest(AllHits(a, catalog, m))), CategoryProducts(a, catalog, m));
    var dominant := DominantProducts(a, Strongest(AllHits(a, catalog, m)));
    forall other
      ensures Kept(a, catalog, m, other) <==> other in kept
      ensures OnlyDominating(a, catalog, m, other) <==> |dominant| == 1 && other in dominant
    {
      KeptExactly(a, catalog, m, other);
      OnlyDominatingExactly(a, catalog, m, other);
    }
    NarrowedByDominant(kept, dominant, id);
  }

  /** The answer to every message, through containment on normal forms: the candidates are the products of the terms
      of best priority that occur, narrowed to those in a named category and then to the one whose term contains all
      others; or, when no term occurs, the products of the named categories. Each is given once, in catalogue order. */
  lemma ResolveExactly(a: Alphabet, catalog: seq<CatalogProduct>, message: string)
    requires ValidAlphabet(a)
    ensures var r := Resolve(a, catalog, message);
            && (forall id :: id in r.candidates <==> Candidate(a, catalog, Normalize(a, message), id))
            && InOrderOf(catalog, r.candidates)
            && r.ambiguous == (|r.candidates| > 1)
            && r.product == if |r.candidates| == 1 then Some(r.candidates[0]) else None
  {
    var m := Normalize(a, message);
    NormalizeIdempotent(a, message);
    var ids := CandidateIds(a, catalog, m);
    UniqueProductsExactly(catalog, ids);
    ResolveByIds(a, catalog, message);
    forall id
      ensures id in UniqueProducts(catalog, ids) <==> Candidate(a, catalog, m, id)
    {
      CandidateExactly(a, catalog, m, id);
      OfferedByRows(a, catalog, m, id);
    }
  }

  function CandidateIds(a: Alphabet, catalog: seq<CatalogProduct>, m: string): set<ProductId> {
    if AllHits(a, catalog, m) != {} then Narrow(a, Strongest(AllHits(a, catalog, m)), CategoryProducts(a, catalog, m))
    else CategoryProducts(a, catalog, m)
  }

  lemma {:induction false} NoProducts(catalog: seq<CatalogProduct>)
    ensures UniqueProducts(catalog, {}) == []
  {
    if catalog != [] {
      NoProducts(catalog[..|catalog| - 1]);
    }
  }

  lemma ResolveByIds(a: Alphabet, catalog: seq<CatalogProduct>, message: string)
    ensures Resolve(a, catalog, message) == FromCandidates(UniqueProducts(catalog, CandidateIds(a, catalog, Normalize(a, message))))
  {
    NoProducts(catalog);
  }

  lemma CandidateExactly(a: Alphabet, catalog: seq<CatalogProduct>, m: string, id: ProductId)
    requires ValidAlphabet(a) && Normalize(a, m) == m
    ensures id in CandidateIds(a, catalog, m) <==> Candidate(a, catalog, m, id)
  {
    if AllHits(a, catalog, m) != {} {
      SomeStrongest(AllHits(a, catalog, m));
      var other :| other in ProductIds(Strongest(AllHits(a, catalog, m)));
      StrongProductExactly(a, catalog, m, other);
      NarrowedExactly(a, catalog, m, id);
    } else {
      forall other
        ensures !StrongProduct(a, catalog, m, other)
      {
        StrongProductExactly(a, catalog, m, other);
      }
      CategoryExactly(a, catalog, m, id);
    }
  }

  lemma SomeStrongest(hits: set<Hit>)
    requires hits != {}
    ensures ProductIds(Strongest(hits)) != {}
    decreases |hits|
  {
    var h :| h in hits;
    if hits != {h} {
      SomeStrongest(hits - {h});
      var g :| g in Strongest(hits - {h});
      assert hits == (hits - {h}) + {h};
      assert g in Strongest(hits) || h in Strongest(hits);
    } else {
      assert h in Strongest(hits);
    }
    var x :| x in Strongest(hits);
    assert x.productId in ProductIds(Strongest(hits));
  }

  /** Some term of the catalogue occurs. */
  ghost predicate AnyTermOccurs(a: Alphabet, catalog: seq<CatalogProduct>, m: string) {
    exists id, term, n :: OccursIn(a, catalog, m, id, term, n)
  }

  lemma SomeTermIsStrong(a: Alphabet, catalog: seq<CatalogProduct>, m: string)
    requires ValidAlphabet(a) && Normalize(a, m) == m && AnyTermOccurs(a, catalog, m)
    ensures exists id :: StrongProduct(a, catalog, m, id)
  {
    var id, term, n :| OccursIn(a, catalog, m, id, term, n);
    HitExactly(a, catalog, m, id, term, n);
    SomeStrongest(AllHits(a, catalog, m));
    var other :| other in ProductIds(Strongest(AllHits(a, catalog, m)));
    StrongProductExactly(a, catalog, m, other);
  }

  /** When terms occur and those of best priority belong to one product, the answer is that product alone, whatever
      else the message says. */
  lemma OneStrongProductResolves(a: Alphabet, catalog: seq<CatalogProduct>, message: string, id: ProductId)
    requires ValidAlphabet(a) && AnyTermOccurs(a, catalog, Normalize(a, message))
    requires forall other :: StrongProduct(a, catalog, Normalize(a, message), other) ==> other == id
    ensures Resolve(a, catalog, message) == Resolution(Some(id), false, [id])
  {
    var m := Normalize(a, message);
    NormalizeIdempotent(a, message);
    SomeTermIsStrong(a, catalog, m);
    ResolveExactly(a, catalog, message);
    OnlyCandidate(a, catalog, m, id);
    OneElement(catalog, Resolve(a, catalog, message).candidates, id);
  }

  lemma OnlyCandidate(a: Alphabet, catalog: seq<CatalogProduct>, m: string, id: ProductId)
    requires StrongProduct(a, catalog, m, id) && forall other :: StrongProduct(a, catalog, m, other) ==> other == id
    ensures forall other :: Candidate(a, catalog, m, other) <==> other == id
  {
    assert Kept(a, catalog, m, id);
  }

  lemma InOrderIsDistinct(catalog: seq<CatalogProduct>, products: seq<ProductId>)
    requires InOrderOf(catalog, products)
    ensures forall i, j :: 0 <= i < j < |products| ==> products[i] != products[j]
  {
    forall i, j | 0 <= i < j < |products|
      ensures products[i] != products[j]
    {
      assert Precedes(catalog, products[i], products[j]);
    }
  }

  lemma OneElement(catalog: seq<CatalogProduct>, products: seq<ProductId>, id: ProductId)
    requires InOrderOf(catalog, products) && forall other :: other in products <==> other == id
    ensures products == [id]
  {
    InOrderIsDistinct(catalog, products);
    assert id in products;
    assert products[0] in products && products[|products| - 1] in products;
  }

  /** When no term occurs the candidates are the products of the named categories. */
  lemma CategoriesAnswer(a: Alphabet, catalog: seq<CatalogProduct>, message: string)
    requires ValidAlphabet(a) && !AnyTermOccurs(a, catalog, Normalize(a, message))
    ensures var r := Resolve(a, catalog, message);
            && (forall id :: id in r.candidates <==> InCategory(a, catalog, Normalize(a, message), id))
            && InOrderOf(catalog, r.candidates) && r.ambiguous == (|r.candidates| > 1)
  {
    ResolveExactly(a, catalog, message);
    forall id
      ensures !StrongProduct(a, catalog, Normalize(a, message), id)
    {
    }
  }

  lemma SomeCandidate(a: Alphabet, catalog: seq<CatalogProduct>, m: string, strong: ProductId) returns (id: ProductId)
    requires StrongProduct(a, catalog, m, strong)
    ensures Candidate(a, catalog, m, id)
  {
    id := strong;
    if named :| StrongProduct(a, catalog, m, named) && InCategory(a, catalog, m, named) {
      id := named;
    }
    assert Kept(a, catalog, m, id);
    if sole :| Kept(a, catalog, m, sole) && OnlyDominating(a, catalog, m, sole) {
      id := sole;
    }
  }

  lemma CandidateIsNamed(a: Alphabet, catalog: seq<CatalogProduct>, m: string, id: ProductId)
    requires ValidAlphabet(a) && Normalize(a, m) == m && Candidate(a, catalog, m, id)
    ensures StrongProduct(a, catalog, m, id) || (!AnyTermOccurs(a, catalog, m) && InCategory(a, catalog, m, id))
  {
    if AnyTermOccurs(a, catalog, m) {
      SomeTermIsStrong(a, catalog, m);
    }
  }

  lemma CandidateExists(a: Alphabet, catalog: seq<CatalogProduct>, m: string)
    requires ValidAlphabet(a) && Normalize(a, m) == m
    ensures (exists id :: Candidate(a, catalog, m, id)) <==> AnyTermOccurs(a, catalog, m) || exists id :: InCategory(a, catalog, m, id)
  {
    if AnyTermOccurs(a, catalog, m) {
      SomeTermIsStrong(a, catalog, m);
    }
    if strong :| StrongProduct(a, catalog, m, strong) {
      assert AnyTermOccurs(a, catalog, m);
      var id := SomeCandidate(a, catalog, m, strong);
    } else {
      assert forall id :: Candidate(a, catalog, m, id) <==> InCategory(a, catalog, m, id);
    }
  }

  /** Nothing is offered exactly when neither a term nor a category occurs. */
  lemma NothingExactly(a: Alphabet, catalog: seq<CatalogProduct>, message: string)
    requires ValidAlphabet(a)
    ensures Resolve(a, catalog, message) == NOTHING
            <==> !AnyTermOccurs(a, catalog, Normalize(a, message)) && forall id :: !InCategory(a, catalog, Normalize(a, message), id)
  {
    NormalizeIdempotent(a, message);
    CandidateExists(a, catalog, Normalize(a, message));
    NothingIsEmpty(a, catalog, message);
  }

  lemma NothingIsEmpty(a: Alphabet, catalog: seq<CatalogProduct>, message: string)
    requires ValidAlphabet(a)
    ensures Resolve(a, catalog, message) == NOTHING <==> !exists id :: Candidate(a, catalog, Normalize(a, message), id)
  {
    var candidates := Resolve(a, catalog, message).candidates;
    ResolveExactly(a, catalog, message);
    if candidates != [] {
      assert candidates[0] in candidates;
      assert Candidate(a, catalog, Normalize(a, message), candidates[0]);
    }
    if id :| Candidate(a, catalog, Normalize(a, message), id) {
      assert id in candidates;
    }
  }

  /** Every candidate has a strongest term that occurs or, when no term does, a category that does. */
  lemma CandidatesAreNamed(a: Alphabet, catalog: seq<CatalogProduct>, message: string, id: ProductId)
    requires ValidAlphabet(a) && id in Resolve(a, catalog, message).candidates
    ensures StrongProduct(a, catalog, Normalize(a, message), id)
            || (!AnyTermOccurs(a, catalog, Normalize(a, message)) && InCategory(a, catalog, Normalize(a, message), id))
  {
    NormalizeIdempotent(a, message);
    ResolveExactly(a, catalog, message);
    CandidateIsNamed(a, catalog, Normalize(a, message), id);
  }
}
