/** Analysing a catalogue payload into a proposal and its blocking warnings
    (app/catalog_training.py, `analyze_catalog`). */
module CatalogAnalysis {
  import opened Options
  import opened Sequences
  import opened CatalogText
  import opened CatalogAliases

  /** What the analysis takes from elsewhere: the derived aliases, the digest-based key of a product without a
      client id, and the category inferred from its words. */
  datatype Env = Env(a: Alphabet, gen: string -> seq<string>, autoKey: (nat, string) -> string, infer: (string, seq<string>) -> string)

  const MAX_KEY := 100

  ghost predicate ValidEnv(env: Env) {
    && ValidAlphabet(env.a)
    && (forall i, name :: var key := env.autoKey(i, name); key != "" && |key| <= MAX_KEY && Strip(env.a, key) == key)
    && (forall name, words :: env.infer(name, words) != "" && Strip(env.a, env.infer(name, words)) == env.infer(name, words))
  }

  datatype KnowledgeInput = KnowledgeInput(kind: string, title: string, answer: string)
  datatype Payload = Payload(products: seq<ProductInput>, knowledge: seq<KnowledgeInput>)

  datatype ProductDraft = ProductDraft(clientId: string, productId: Option<int>, name: string, keywords: seq<string>, category: string, aliases: seq<Alias>)
  datatype Proposal = Proposal(products: seq<ProductDraft>, knowledge: seq<KnowledgeInput>)

  /** The warnings by code: products without an alias, normal forms claimed twice, repeated knowledge. All block. */
  datatype Warnings = Warnings(missing: set<nat>, conflicts: set<string>, duplicates: set<nat>)

  predicate Blocking(w: Warnings) {
    w.missing != {} || w.conflicts != {} || w.duplicates != {}
  }

  /** `_external_key`. */
  function ExternalKey(env: Env, clientId: string, name: string, index: nat): string {
    var supplied := Strip(env.a, clientId);
    if supplied == "" then env.autoKey(index, Normalize(env.a, name))
    else if |supplied| > MAX_KEY then supplied[..MAX_KEY] else supplied
  }

  function CleanKeywords(a: Alphabet, keywords: seq<string>): seq<string> {
    if keywords == [] then []
    else
      var front, last := CleanKeywords(a, keywords[..|keywords| - 1]), Strip(a, keywords[|keywords| - 1]);
      if last == "" then front else front + [last]
  }

  function Category(env: Env, p: ProductInput, keywords: seq<string>): string {
    var supplied := Strip(env.a, p.category);
    if supplied != "" then supplied else env.infer(Strip(env.a, p.name), keywords)
  }

  function DraftProduct(env: Env, p: ProductInput, index: nat): ProductDraft {
    var keywords := CleanKeywords(env.a, p.keywords);
    ProductDraft(ExternalKey(env, p.clientId, p.name, index),
                 if p.productId == Some(0) then None else p.productId,
                 Strip(env.a, p.name), keywords, Category(env, p, keywords),
                 AliasesOf(env.a, env.gen, p.(keywords := keywords)))
  }

  function DraftKnowledge(a: Alphabet, k: KnowledgeInput): KnowledgeInput {
    KnowledgeInput(k.kind, Strip(a, k.title), Strip(a, k.answer))
  }

  function DraftProducts(env: Env, inputs: seq<ProductInput>): (r: seq<ProductDraft>)
    ensures |r| == |inputs|
  {
    if inputs == [] then []
    else
      var n := |inputs| - 1;
      DraftProducts(env, inputs[..n]) + [DraftProduct(env, inputs[n], n)]
  }

  lemma DraftOneMore(env: Env, inputs: seq<ProductInput>, i: nat)
    requires i < |inputs|
    ensures DraftProducts(env, inputs[..i + 1]) == DraftProducts(env, inputs[..i]) + [DraftProduct(env, inputs[i], i)]
  {
    assert inputs[..i + 1][..i] == inputs[..i];
  }

  function DraftItems(a: Alphabet, inputs: seq<KnowledgeInput>): (r: seq<KnowledgeInput>)
    ensures |r| == |inputs|
    ensures forall i :: 0 <= i < |inputs| ==> r[i] == DraftKnowledge(a, inputs[i])
  {
    if inputs == [] then []
    else
      var n := |inputs| - 1;
      DraftItems(a, inputs[..n]) + [DraftKnowledge(a, inputs[n])]
  }

  function Propose(env: Env, payload: Payload): Proposal {
    Proposal(DraftProducts(env, payload.products), DraftItems(env.a, payload.knowledge))
  }

  /** The product claims this normal form with an approved alias. */
  predicate Claims(p: ProductDraft, key: string) {
    exists x | x in p.aliases :: x.approved && x.normalized == key
  }

  function Owners(products: seq<ProductDraft>, key: string): set<string> {
    set p | p in products && Claims(p, key) :: p.clientId
  }

  predicate Conflicting(products: seq<ProductDraft>, key: string) {
    exists p, q | p in products && q in products :: p.clientId != q.clientId && Claims(p, key) && Claims(q, key)
  }

  ghost predicate IsConflicts(products: seq<ProductDraft>, conflicts: set<string>) {
    forall key :: key in conflicts <==> Conflicting(products, key)
  }

  function KnowledgeKey(a: Alphabet, k: KnowledgeInput): (string, string) {
    (k.kind, Normalize(a, k.title))
  }

  predicate RepeatsEarlier(a: Alphabet, items: seq<KnowledgeInput>, j: nat)
    requires j < |items|
  {
    exists i | 0 <= i < j :: KnowledgeKey(a, items[i]) == KnowledgeKey(a, items[j])
  }

  ghost predicate AreDuplicates(a: Alphabet, items: seq<KnowledgeInput>, duplicates: set<nat>) {
    forall j: nat :: j in duplicates <==> j < |items| && RepeatsEarlier(a, items, j)
  }

  ghost predicate AreMissing(products: seq<ProductDraft>, missing: set<nat>) {
    forall i: nat :: i in missing <==> i < |products| && products[i].aliases == []
  }

  ghost predicate IsWarnings(a: Alphabet, proposal: Proposal, w: Warnings) {
    && AreMissing(proposal.products, w.missing)
    && IsConflicts(proposal.products, w.conflicts)
    && AreDuplicates(a, proposal.knowledge, w.duplicates)
  }

  function OwnersOf(owners: map<string, set<string>>, key: string): set<string> {
    if key in owners then owners[key] else {}
  }

  /** The table lists under every normal form the client ids that claim it. */
  ghost predicate ListsOwners(owners: map<string, set<string>>, products: seq<ProductDraft>) {
    forall key :: OwnersOf(owners, key) == Owners(products, key)
  }

  /** Registers the approved aliases of one product under its key. */
  method Register(owners: map<string, set<string>>, p: ProductDraft) returns (r: map<string, set<string>>)
    ensures forall key :: OwnersOf(r, key) == OwnersOf(owners, key) + (if Claims(p, key) then {p.clientId} else {})
  {
    r := owners;
    for i := 0 to |p.aliases|
      invariant forall key :: (OwnersOf(r, key) == OwnersOf(owners, key)
        + (if exists k :: 0 <= k < i && p.aliases[k].approved && p.aliases[k].normalized == key then {p.clientId} else {}))
    {
      var x := p.aliases[i];
      if x.approved {
        r := r[x.normalized := OwnersOf(r, x.normalized) + {p.clientId}];
      }
    }
    assert forall key :: Claims(p, key) <==> exists k :: 0 <= k < |p.aliases| && p.aliases[k].approved && p.aliases[k].normalized == key;
  }

  method AnalyzeProduct(env: Env, p: ProductInput, index: nat) returns (draft: ProductDraft)
    ensures draft == DraftProduct(env, p, index)
  {
    var keywords := CleanKeywords(env.a, p.keywords);
    var aliases := BuildAliases(env.a, env.gen, p.(keywords := keywords));
    draft := ProductDraft(ExternalKey(env, p.clientId, p.name, index), if p.productId == Some(0) then None else p.productId,
                          Strip(env.a, p.name), keywords, Category(env, p, keywords), aliases);
  }

  method AnalyzeProducts(env: Env, inputs: seq<ProductInput>) returns (products: seq<ProductDraft>, missing: set<nat>, owners: map<string, set<string>>)
    ensures products == DraftProducts(env, inputs)
    ensures AreMissing(products, missing)
    ensures ListsOwners(owners, products)
  {
    products, missing, owners := [], {}, map[];
    for i := 0 to |inputs|
      invariant products == DraftProducts(env, inputs[..i])
      invariant AreMissing(products, missing)
      invariant ListsOwners(owners, products)
    {
      var draft := AnalyzeProduct(env, inputs[i], i);
      DraftOneMore(env, inputs, i);
      MissingOneMore(products, draft, missing);
      if draft.aliases == [] {
        missing := missing + {i};
      }
      var more := Register(owners, draft);
      OwnersStep(owners, products, draft, more);
      owners := more;
      products := products + [draft];
    }
    assert inputs[..|inputs|] == inputs;
  }

  lemma MissingOneMore(products: seq<ProductDraft>, p: ProductDraft, missing: set<nat>)
    requires AreMissing(products, missing)
    ensures AreMissing(products + [p], missing + (if p.aliases == [] then {|products|} else {}))
  {
  }

  lemma OwnersStep(owners: map<string, set<string>>, products: seq<ProductDraft>, p: ProductDraft, more: map<string, set<string>>)
    requires ListsOwners(owners, products)
    requires forall key :: OwnersOf(more, key) == OwnersOf(owners, key) + (if Claims(p, key) then {p.clientId} else {})
    ensures ListsOwners(more, products + [p])
  {
    forall key
      ensures OwnersOf(more, key) == Owners(products + [p], key)
    {
      OwnersOneMore(products, p, key);
    }
  }

  lemma OwnersOneMore(products: seq<ProductDraft>, p: ProductDraft, key: string)
    ensures Owners(products + [p], key) == Owners(products, key) + (if Claims(p, key) then {p.clientId} else {})
  {
    assert p in products + [p];
    forall q | q in products
      ensures q in products + [p]
    {
    }
  }

  /** More than one owner is a conflict. */
  lemma ManyOwnersConflict(products: seq<ProductDraft>, key: string)
    ensures |Owners(products, key)| > 1 <==> Conflicting(products, key)
  {
    var owners := Owners(products, key);
    if |owners| > 1 {
      var x :| x in owners;
      assert |owners - {x}| > 0;
      var y :| y in owners - {x};
    }
    if Conflicting(products, key) {
      var p, q :| p in products && q in products && p.clientId != q.clientId && Claims(p, key) && Claims(q, key);
      assert {p.clientId, q.clientId} <= owners;
      assert |owners - {p.clientId, q.clientId}| == |owners| - 2;
    }
  }

  method AnalyzeKnowledge(a: Alphabet, inputs: seq<KnowledgeInput>) returns (items: seq<KnowledgeInput>, duplicates: set<nat>)
    ensures items == DraftItems(a, inputs)
    ensures AreDuplicates(a, items, duplicates)
  {
    items, duplicates := [], {};
    var seen: set<(string, string)> := {};
    for j: nat := 0 to |inputs|
      invariant items == DraftItems(a, inputs[..j])
      invariant seen == SeenKeys(a, items)
      invariant AreDuplicates(a, items, duplicates)
    {
      assert inputs[..j + 1][..j] == inputs[..j];
      var item := DraftKnowledge(a, inputs[j]);
      var key := KnowledgeKey(a, item);
      SeenOneMore(a, items, item);
      DuplicatesOneMore(a, items, item, duplicates);
      if key in seen {
        duplicates := duplicates + {j};
      }
      seen := seen + {key};
      items := items + [item];
    }
    assert inputs[..|inputs|] == inputs;
  }

  function SeenKeys(a: Alphabet, items: seq<KnowledgeInput>): set<(string, string)> {
    set k | k in items :: KnowledgeKey(a, k)
  }

  lemma SeenOneMore(a: Alphabet, items: seq<KnowledgeInput>, item: KnowledgeInput)
    ensures SeenKeys(a, items + [item]) == SeenKeys(a, items) + {KnowledgeKey(a, item)}
  {
    assert item in items + [item];
    forall k | k in items
      ensures k in items + [item]
    {
    }
  }

  lemma RepeatsAsBefore(a: Alphabet, items: seq<KnowledgeInput>, item: KnowledgeInput, j: nat)
    requires j < |items|
    ensures RepeatsEarlier(a, items + [item], j) <==> RepeatsEarlier(a, items, j)
  {
    assert forall i :: 0 <= i <= j ==> (items + [item])[i] == items[i];
  }

  lemma LastRepeats(a: Alphabet, items: seq<KnowledgeInput>, item: KnowledgeInput)
    ensures RepeatsEarlier(a, items + [item], |items|) <==> KnowledgeKey(a, item) in SeenKeys(a, items)
  {
    var more := items + [item];
    assert forall i :: 0 <= i < |items| ==> more[i] == items[i];
    if KnowledgeKey(a, item) in SeenKeys(a, items) {
      var k :| k in items && KnowledgeKey(a, k) == KnowledgeKey(a, item);
      var i :| 0 <= i < |items| && items[i] == k;
      assert KnowledgeKey(a, more[i]) == KnowledgeKey(a, more[|items|]);
    }
  }

  lemma DuplicatesOneMore(a: Alphabet, items: seq<KnowledgeInput>, item: KnowledgeInput, duplicates: set<nat>)
    requires AreDuplicates(a, items, duplicates)
    ensures AreDuplicates(a, items + [item], duplicates + (if KnowledgeKey(a, item) in SeenKeys(a, items) then {|items|} else {}))
  {
    LastRepeats(a, items, item);
    forall j: nat | j < |items|
      ensures RepeatsEarlier(a, items + [item], j) <==> RepeatsEarlier(a, items, j)
    {
      RepeatsAsBefore(a, items, item, j);
    }
  }

  method AnalyzeCatalog(env: Env, payload: Payload) returns (proposal: Proposal, warnings: Warnings)
    ensures proposal == Propose(env, payload)
    ensures IsWarnings(env.a, proposal, warnings)
  {
    var products, missing, owners := AnalyzeProducts(env, payload.products);
    var conflicts := set key | key in owners && |owners[key]| > 1;
    forall key
      ensures key in conflicts <==> Conflicting(products, key)
    {
      ManyOwnersConflict(products, key);
      assert OwnersOf(owners, key) == Owners(products, key);
    }
    var items, duplicates := AnalyzeKnowledge(env.a, payload.knowledge);
    proposal, warnings := Proposal(products, items), Warnings(missing, conflicts, duplicates);
  }

  /** The warnings are a function of the proposal. */
  lemma WarningsAreUnique(a: Alphabet, proposal: Proposal, w: Warnings, w': Warnings)
    requires IsWarnings(a, proposal, w) && IsWarnings(a, proposal, w')
    ensures w == w'
  {
    forall i: nat
      ensures i in w.missing <==> i in w'.missing
      ensures i in w.duplicates <==> i in w'.duplicates
    {
    }
    forall key
      ensures key in w.conflicts <==> key in w'.conflicts
    {
    }
  }

  /** A stored product as the publisher hands it to the analysis again. */
  function Reload(d: ProductDraft): ProductInput {
    ProductInput(d.clientId, d.productId, d.name, d.keywords, StoredAll(d.aliases), d.category)
  }

  function ReloadAll(ds: seq<ProductDraft>): (r: seq<ProductInput>)
    ensures |r| == |ds|
  {
    if ds == [] then [] else ReloadAll(ds[..|ds| - 1]) + [Reload(ds[|ds| - 1])]
  }

  function PayloadOf(proposal: Proposal): Payload {
    Payload(ReloadAll(proposal.products), proposal.knowledge)
  }

  /** Cutting the client id to its limit does not leave a blank at the end. */
  predicate KeyStable(a: Alphabet, clientId: string) {
    var supplied := Strip(a, clientId);
    |supplied| <= MAX_KEY || !a.isSpace(supplied[MAX_KEY - 1])
  }

  predicate AllKeysStable(a: Alphabet, products: seq<ProductInput>) {
    forall p | p in products :: KeyStable(a, p.clientId)
  }

  const MAX_NAME := 200

  /** The limits the schema sets on every product an admin sends (app/admin_schemas.py). */
  predicate SchemaValid(payload: Payload) {
    forall p | p in payload.products :: |p.clientId| <= MAX_KEY && |p.name| <= MAX_NAME
  }

  /** Within those limits no client id is cut at all. */
  lemma SchemaKeepsKeys(a: Alphabet, payload: Payload)
    requires SchemaValid(payload)
    ensures AllKeysStable(a, payload.products)
  {
    forall p | p in payload.products
      ensures KeyStable(a, p.clientId)
    {
      StripNoLonger(a, p.clientId);
    }
  }

  lemma StripOfCut(a: Alphabet, text: string)
    requires |Strip(a, text)| > MAX_KEY
    ensures var cut := Strip(a, text)[..MAX_KEY]; Strip(a, cut) == cut <==> KeyStable(a, text)
  {
    StripLeftStarts(a, text);
    StripRightEnds(a, StripLeft(a, text));
    var cut := Strip(a, text)[..MAX_KEY];
    StripRightEnds(a, cut);
  }

  /** Keying a keyed product again keeps the key exactly when the cut was clean. */
  lemma KeyAgain(env: Env, clientId: string, name: string, index: nat, name': string)
    requires ValidEnv(env)
    ensures var key := ExternalKey(env, clientId, name, index);
            key != "" && |key| <= MAX_KEY && (ExternalKey(env, key, name', index) == key <==> KeyStable(env.a, clientId))
  {
    StripIdempotent(env.a, clientId);
    if |Strip(env.a, clientId)| > MAX_KEY {
      StripOfCut(env.a, clientId);
    }
    assert Strip(env.a, env.autoKey(index, Normalize(env.a, name'))) == env.autoKey(index, Normalize(env.a, name'));
    var key := ExternalKey(env, clientId, name, index);
    StripNoLonger(env.a, key);
  }

  lemma StripNoLonger(a: Alphabet, s: string)
    ensures |Strip(a, s)| <= |s|
  {
    StripRightEnds(a, StripLeft(a, s));
    StripLeftNoLonger(a, s);
  }

  lemma {:induction false} StripLeftNoLonger(a: Alphabet, s: string)
    ensures |StripLeft(a, s)| <= |s|
  {
    if s != [] && a.isSpace(s[0]) {
      StripLeftNoLonger(a, s[1..]);
    }
  }

  lemma {:induction false} CleanKeywordsIdempotent(a: Alphabet, keywords: seq<string>)
    ensures CleanKeywords(a, CleanKeywords(a, keywords)) == CleanKeywords(a, keywords)
    decreases |keywords|
  {
    if keywords != [] {
      var last := keywords[|keywords| - 1];
      CleanKeywordsIdempotent(a, keywords[..|keywords| - 1]);
      StripIdempotent(a, last);
      var front := CleanKeywords(a, keywords[..|keywords| - 1]);
      assert (front + [Strip(a, last)])[..|front|] == front;
    }
  }

  /** Blanks around the name change no alias. */
  lemma NameBlanksIgnored(a: Alphabet, gen: string -> seq<string>, p: ProductInput, q: ProductInput)
    requires ValidAlphabet(a) && q.name == Strip(a, p.name) && q.keywords == p.keywords && q.aliases == p.aliases
    ensures AliasesOf(a, gen, q) == AliasesOf(a, gen, p)
  {
    StripIdempotent(a, p.name);
    NormalizeStrip(a, p.name);
    assert Candidates(a, gen, q) == Candidates(a, gen, p);
  }

  lemma AliasesAgain(env: Env, p: ProductInput, q: ProductInput, aliases: seq<Alias>)
    requires ValidEnv(env)
    requires aliases == AliasesOf(env.a, env.gen, p)
    requires q.name == Strip(env.a, p.name) && q.keywords == p.keywords && q.aliases == StoredAll(aliases)
    ensures AliasesOf(env.a, env.gen, q) == aliases
  {
    BuildAliasesIdempotent(env.a, env.gen, p);
    NameBlanksIgnored(env.a, env.gen, p.(aliases := StoredAll(aliases)), q);
  }

  lemma CategoryAgain(env: Env, p: ProductInput, q: ProductInput, keywords: seq<string>)
    requires ValidEnv(env) && q.category == Category(env, p, keywords)
    ensures Category(env, q, keywords) == q.category
  {
    StripIdempotent(env.a, p.category);
  }

  /** Drafting a stored draft again gives it back exactly when its key survives. */
  lemma DraftAgain(env: Env, p: ProductInput, index: nat, d: ProductDraft, d': ProductDraft)
    requires ValidEnv(env)
    requires d == DraftProduct(env, p, index) && d' == DraftProduct(env, Reload(d), index)
    ensures d' == d <==> KeyStable(env.a, p.clientId)
  {
    var q := Reload(d);
    KeyAgain(env, p.clientId, p.name, index, q.name);
    StripIdempotent(env.a, p.name);
    CleanKeywordsIdempotent(env.a, p.keywords);
    AliasesAgain(env, p.(keywords := d.keywords), q.(keywords := d.keywords), d.aliases);
    CategoryAgain(env, p, q, d.keywords);
    assert d'.aliases == d.aliases;
  }

  lemma DraftSnoc(env: Env, inputs: seq<ProductInput>, last: ProductInput)
    ensures DraftProducts(env, inputs + [last]) == DraftProducts(env, inputs) + [DraftProduct(env, last, |inputs|)]
  {
    assert (inputs + [last])[..|inputs|] == inputs;
  }

  lemma DraftLast(env: Env, inputs: seq<ProductInput>, n: nat)
    requires |inputs| == n + 1
    ensures DraftProducts(env, inputs)[n] == DraftProduct(env, inputs[n], n)
  {
  }

  /** Later products change nothing about earlier ones. */
  lemma DraftPrefix(env: Env, inputs: seq<ProductInput>, k: nat)
    requires k <= |inputs|
    ensures DraftProducts(env, inputs[..k]) <= DraftProducts(env, inputs)
  {
    var n := |inputs|;
    var chain := seq(n + 1, j requires 0 <= j <= n => DraftProducts(env, inputs[..j]));
    forall j: nat | j < n
      ensures chain[j] <= chain[j + 1]
    {
      DraftOneMore(env, inputs, j);
    }
    ChainOfPrefixes(chain, k, n);
    assert inputs[..n] == inputs;
  }

  lemma DraftProductAt(env: Env, inputs: seq<ProductInput>, i: nat)
    requires i < |inputs|
    ensures DraftProducts(env, inputs)[i] == DraftProduct(env, inputs[i], i)
  {
    DraftPrefix(env, inputs, i + 1);
    DraftLast(env, inputs[..i + 1], i);
    assert inputs[..i + 1][i] == inputs[i];
  }

  lemma ReloadSnoc(ds: seq<ProductDraft>, d: ProductDraft)
    ensures ReloadAll(ds + [d]) == ReloadAll(ds) + [Reload(d)]
  {
    assert (ds + [d])[..|ds|] == ds;
  }

  lemma {:induction false} DraftAllAgain(env: Env, inputs: seq<ProductInput>, ds: seq<ProductDraft>, ds': seq<ProductDraft>)
    requires ValidEnv(env)
    requires ds == DraftProducts(env, inputs) && ds' == DraftProducts(env, ReloadAll(ds))
    ensures ds' == ds <==> AllKeysStable(env.a, inputs)
    decreases |inputs|
  {
    if inputs != [] {
      var n := |inputs| - 1;
      var front, last := inputs[..n], inputs[n];
      SplitLast(inputs);
      var init := DraftProducts(env, front);
      var d := DraftProduct(env, last, n);
      var again := DraftProduct(env, Reload(d), n);
      DraftSnoc(env, front, last);
      ReloadSnoc(init, d);
      DraftSnoc(env, ReloadAll(init), Reload(d));
      DraftAllAgain(env, front, init, DraftProducts(env, ReloadAll(init)));
      DraftAgain(env, last, n, d, again);
      SnocAgain(env.a, front, last, init, DraftProducts(env, ReloadAll(init)), d, again, ds, ds');
    }
  }

  lemma SnocAgain(a: Alphabet, front: seq<ProductInput>, last: ProductInput, init: seq<ProductDraft>, init': seq<ProductDraft>,
                  d: ProductDraft, d': ProductDraft, ds: seq<ProductDraft>, ds': seq<ProductDraft>)
    requires ds == init + [d] && ds' == init' + [d'] && |init| == |init'|
    requires init' == init <==> AllKeysStable(a, front)
    requires d' == d <==> KeyStable(a, last.clientId)
    ensures ds' == ds <==> AllKeysStable(a, front + [last])
  {
    assert forall p :: p in front + [last] <==> p in front || p == last;
    assert ds[..|init|] == init && ds'[..|init|] == init' && ds[|init|] == d && ds'[|init|] == d';
  }

  lemma {:induction false} ItemsAgain(a: Alphabet, items: seq<KnowledgeInput>)
    ensures DraftItems(a, DraftItems(a, items)) == DraftItems(a, items)
    decreases |items|
  {
    if items != [] {
      var last := items[|items| - 1];
      ItemsAgain(a, items[..|items| - 1]);
      StripIdempotent(a, last.title);
      StripIdempotent(a, last.answer);
    }
  }

  /** Analysing a stored proposal again, as publishing does, reproduces it exactly when every client id was cut
      cleanly; then the warnings, and with them the blocking, are those of the draft. */
  lemma ReanalysisReproduces(env: Env, payload: Payload)
    requires ValidEnv(env)
    ensures var proposal := Propose(env, payload);
            Propose(env, PayloadOf(proposal)) == proposal <==> AllKeysStable(env.a, payload.products)
  {
    var ds := DraftProducts(env, payload.products);
    DraftAllAgain(env, payload.products, ds, DraftProducts(env, ReloadAll(ds)));
    ItemsAgain(env.a, payload.knowledge);
  }

  /** So for every payload the schema lets through, publishing sees the draft and the warnings of its own analysis. */
  lemma ReanalysisBlocksTheSame(env: Env, payload: Payload, w: Warnings, w': Warnings)
    requires ValidEnv(env) && SchemaValid(payload)
    requires IsWarnings(env.a, Propose(env, payload), w)
    requires IsWarnings(env.a, Propose(env, PayloadOf(Propose(env, payload))), w')
    ensures Propose(env, PayloadOf(Propose(env, payload))) == Propose(env, payload)
    ensures w' == w && (Blocking(w') <==> Blocking(w))
  {
    SchemaKeepsKeys(env.a, payload);
    ReanalysisReproduces(env, payload);
    WarningsAreUnique(env.a, Propose(env, payload), w, w');
  }

  /** The keywords that are kept are the stripped ones that are not empty. */
  lemma {:induction false} CleanKeywordsExactly(a: Alphabet, keywords: seq<string>, x: string)
    ensures x in CleanKeywords(a, keywords) <==> x != "" && exists v :: v in keywords && Strip(a, v) == x
    decreases |keywords|
  {
    if keywords != [] {
      var front, last := keywords[..|keywords| - 1], keywords[|keywords| - 1];
      SplitLast(keywords);
      CleanKeywordsExactly(a, front, x);
      assert forall v :: v in keywords <==> v in front || v == last;
    }
  }
}
