/** Training drafts and the versions published from them (app/catalog_training.py, 293-500), and which version a
    store answers from (app/catalog_runtime.py, 34-57). A version is known by its place in publication order. */
module CatalogPublication {
  import opened Options
  import opened Sequences
  import opened CatalogText
  import opened CatalogAliases
  import opened CatalogAnalysis
  import Runtime = CatalogRuntime

  type Slug = string
  type ProductId = int

  datatype CatalogRow = CatalogRow(externalKey: string, productId: ProductId, name: string, aliases: seq<Alias>, category: string)
  datatype Version = Version(slug: Slug, number: nat, sourceDraft: nat, rows: seq<CatalogRow>)
  datatype Draft = Draft(slug: Slug, proposal: Proposal, published: bool)

  /** The tables. A version has one category row for each normal form of a category, which its products share; each
      catalogue row carries that row's name. `stores` holds each store's active version; `nextProduct` the next primary
      key of a product. */
  datatype Catalogue = Catalogue(
    stores: map<Slug, Option<nat>>, drafts: seq<Draft>, versions: seq<Version>, products: map<ProductId, string>, nextProduct: ProductId)

  datatype Outcome =
    | Published(version: nat)
    | Drafted(draft: nat)
    | NotFound
    | AlreadyPublished
    | Blocked
    | NoStore
    | Conflict

  /** How many versions of the store are in the list. */
  function Count(versions: seq<Version>, slug: Slug): nat {
    if versions == [] then 0
    else Count(versions[..|versions| - 1], slug) + if versions[|versions| - 1].slug == slug then 1 else 0
  }

  /** The most recently published version of the store. */
  function Latest(versions: seq<Version>, slug: Slug): (r: Option<nat>)
    ensures r.Some? ==> r.value < |versions| && versions[r.value].slug == slug
                        && forall i :: r.value < i < |versions| ==> versions[i].slug != slug
    ensures r.None? ==> forall i :: 0 <= i < |versions| ==> versions[i].slug != slug
  {
    if versions == [] then None
    else if versions[|versions| - 1].slug == slug then Some(|versions| - 1)
    else Latest(versions[..|versions| - 1], slug)
  }

  function Approved(aliases: seq<Alias>): (r: seq<Alias>)
    ensures forall x :: x in r <==> x in aliases && x.approved
  {
    if aliases == [] then []
    else
      var last := aliases[|aliases| - 1];
      assert aliases == aliases[..|aliases| - 1] + [last];
      Approved(aliases[..|aliases| - 1]) + if last.approved then [last] else []
  }

  /** `category_by_name`: the normal forms of the categories so far, each with the spelling that came first. */
  function Categories(a: Alphabet, ds: seq<ProductDraft>): map<string, string> {
    if ds == [] then map[]
    else
      var before, last := Categories(a, ds[..|ds| - 1]), ds[|ds| - 1].category;
      if Normalize(a, last) in before then before else before[Normalize(a, last) := last]
  }

  predicate Spells(a: Alphabet, ds: seq<ProductDraft>, form: string) {
    exists d | d in ds :: Normalize(a, d.category) == form
  }

  lemma {:induction false} CategoriesSpell(a: Alphabet, ds: seq<ProductDraft>, form: string)
    ensures form in Categories(a, ds) <==> Spells(a, ds, form)
    ensures form in Categories(a, ds) ==> Normalize(a, Categories(a, ds)[form]) == form
    decreases |ds|
  {
    if ds != [] {
      SplitLast(ds);
      CategoriesSpell(a, ds[..|ds| - 1], form);
    }
  }

  /** The drafts with the category row each one is filed under. */
  function Filed(a: Alphabet, ds: seq<ProductDraft>): (r: seq<ProductDraft>)
    ensures |r| == |ds|
  {
    if ds == [] then []
    else
      var last := ds[|ds| - 1];
      SplitLast(ds);
      CategoriesSpell(a, ds, Normalize(a, last.category));
      Filed(a, ds[..|ds| - 1]) + [last.(category := Categories(a, ds)[Normalize(a, last.category)])]
  }

  lemma FiledOneMore(a: Alphabet, ds: seq<ProductDraft>, k: nat)
    requires k < |ds|
    ensures ds[..k + 1][..k] == ds[..k] && Spells(a, ds[..k + 1], Normalize(a, ds[k].category))
    ensures Normalize(a, ds[k].category) in Categories(a, ds[..k + 1])
    ensures Filed(a, ds[..k + 1]) == Filed(a, ds[..k]) + [ds[k].(category := Categories(a, ds[..k + 1])[Normalize(a, ds[k].category)])]
  {
    assert ds[..k + 1][..k] == ds[..k] && ds[..k + 1][k] == ds[k];
    assert ds[k] in ds[..k + 1];
    CategoriesSpell(a, ds[..k + 1], Normalize(a, ds[k].category));
  }

  lemma FiledPrefix(a: Alphabet, ds: seq<ProductDraft>, k: nat)
    requires k <= |ds|
    ensures Filed(a, ds[..k]) <= Filed(a, ds)
  {
    var n := |ds|;
    var chain := seq(n + 1, j requires 0 <= j <= n => Filed(a, ds[..j]));
    forall j: nat | j < n
      ensures chain[j] <= chain[j + 1]
    {
      FiledOneMore(a, ds, j);
    }
    ChainOfPrefixes(chain, k, n);
    assert ds[..n] == ds;
  }

  /** Filing changes nothing but the category, and that only with what came before. */
  lemma FiledAt(a: Alphabet, ds: seq<ProductDraft>, k: nat)
    requires k < |ds|
    ensures Normalize(a, ds[k].category) in Categories(a, ds[..k + 1])
    ensures Filed(a, ds)[k] == ds[k].(category := Categories(a, ds[..k + 1])[Normalize(a, ds[k].category)])
  {
    FiledOneMore(a, ds, k);
    FiledPrefix(a, ds, k + 1);
  }

  lemma {:induction false} CategoriesFirst(a: Alphabet, ds: seq<ProductDraft>, form: string) returns (i: nat)
    requires form in Categories(a, ds)
    ensures i < |ds| && Normalize(a, ds[i].category) == form && Categories(a, ds)[form] == ds[i].category
    ensures forall j :: 0 <= j < i ==> Normalize(a, ds[j].category) != form
    decreases |ds|
  {
    var n := |ds| - 1;
    if form in Categories(a, ds[..n]) {
      i := CategoriesFirst(a, ds[..n], form);
      assert forall j :: 0 <= j <= i ==> ds[..n][j] == ds[j];
    } else {
      i := n;
      CategoriesSpell(a, ds[..n], form);
      assert forall j :: 0 <= j < n ==> ds[j] in ds[..n];
    }
  }

  /** Every product is filed under the spelling of the first product of its version whose category has the same
      normal form, and under no other. */
  lemma FiledUnderFirst(a: Alphabet, ds: seq<ProductDraft>, k: nat) returns (i: nat)
    requires k < |ds|
    ensures i <= k && Normalize(a, ds[i].category) == Normalize(a, ds[k].category)
    ensures forall j :: 0 <= j < i ==> Normalize(a, ds[j].category) != Normalize(a, ds[k].category)
    ensures Filed(a, ds)[k] == ds[k].(category := ds[i].category)
  {
    FiledAt(a, ds, k);
    i := CategoriesFirst(a, ds[..k + 1], Normalize(a, ds[k].category));
    assert forall j :: 0 <= j <= k ==> ds[..k + 1][j] == ds[j];
  }

  /** Two products share a category row exactly when their categories have one normal form, however they are spelled. */
  lemma SharedCategory(a: Alphabet, ds: seq<ProductDraft>, j: nat, k: nat)
    requires j < |ds| && k < |ds|
    ensures Filed(a, ds)[j].category == Filed(a, ds)[k].category <==> Normalize(a, ds[j].category) == Normalize(a, ds[k].category)
  {
    var i := FiledUnderFirst(a, ds, j);
    var l := FiledUnderFirst(a, ds, k);
  }

  function Carried(rows: seq<CatalogRow>): map<string, ProductId> {
    if rows == [] then map[]
    else
      var last := rows[|rows| - 1];
      Carried(rows[..|rows| - 1])[last.externalKey := last.productId]
  }

  /** The product a row asks for: the explicit id, else the one its key had in the active version. */
  function Target(d: ProductDraft, carried: map<string, ProductId>): Option<ProductId> {
    if d.productId.Some? && d.productId.value != 0 then d.productId
    else if d.clientId in carried then Some(carried[d.clientId])
    else None
  }

  predicate Reuses(d: ProductDraft, carried: map<string, ProductId>, known: set<ProductId>) {
    Target(d, carried).Some? && Target(d, carried).value in known
  }

  /** How many products the drafts add. */
  function Created(ds: seq<ProductDraft>, carried: map<string, ProductId>, known: set<ProductId>): nat {
    if ds == [] then 0
    else Created(ds[..|ds| - 1], carried, known) + if Reuses(ds[|ds| - 1], carried, known) then 0 else 1
  }

  /** The product of the k-th row. */
  function Assigned(ds: seq<ProductDraft>, carried: map<string, ProductId>, known: set<ProductId>, next: ProductId, k: nat): ProductId
    requires k < |ds|
  {
    if Reuses(ds[k], carried, known) then Target(ds[k], carried).value else next + Created(ds[..k], carried, known)
  }

  function RowFor(d: ProductDraft, id: ProductId): CatalogRow {
    CatalogRow(d.clientId, id, d.name, Approved(d.aliases), d.category)
  }

  /** Row `j` violates a unique constraint against row `i`: the same key, or the same product, be it one that
      existed or the one row `i` has just added. */
  predicate Clash(ds: seq<ProductDraft>, carried: map<string, ProductId>, known: set<ProductId>, next: ProductId, i: nat, j: nat)
    requires i < j < |ds|
  {
    ds[i].clientId == ds[j].clientId || Target(ds[j], carried) == Some(Assigned(ds, carried, known, next, i))
  }

  ghost predicate Clashes(ds: seq<ProductDraft>, carried: map<string, ProductId>, known: set<ProductId>, next: ProductId) {
    exists i: nat, j: nat :: i < j < |ds| && Clash(ds, carried, known, next, i, j)
  }

  ghost predicate AreRows(ds: seq<ProductDraft>, carried: map<string, ProductId>, known: set<ProductId>, next: ProductId, rows: seq<CatalogRow>) {
    |rows| == |ds| && forall k: nat :: k < |ds| ==> rows[k] == RowFor(ds[k], Assigned(ds, carried, known, next, k))
  }

  function Renamed(products: map<ProductId, string>, rows: seq<CatalogRow>): map<ProductId, string> {
    if rows == [] then products
    else
      var last := rows[|rows| - 1];
      Renamed(products, rows[..|rows| - 1])[last.productId := last.name]
  }

  predicate Has(rows: seq<CatalogRow>, key: string, id: ProductId) {
    exists row | row in rows :: row.externalKey == key || row.productId == id
  }

  lemma {:induction false} RenamedKeys(products: map<ProductId, string>, rows: seq<CatalogRow>, id: ProductId)
    ensures id in Renamed(products, rows) <==> id in products || exists row :: row in rows && row.productId == id
  {
    if rows != [] {
      var front, last := rows[..|rows| - 1], rows[|rows| - 1];
      RenamedKeys(products, front, id);
      assert rows == front + [last];
      assert last in rows;
    }
  }

  lemma AssignedPrefix(ds: seq<ProductDraft>, carried: map<string, ProductId>, known: set<ProductId>, next: ProductId, n: nat, k: nat)
    requires k < n <= |ds|
    ensures Assigned(ds[..n], carried, known, next, k) == Assigned(ds, carried, known, next, k)
  {
    assert ds[..n][..k] == ds[..k];
  }

  /** The loop's test and choice for row `j`, against the rows written so far. */
  predicate FindsProduct(target: Option<ProductId>, products: map<ProductId, string>, rows: seq<CatalogRow>) {
    target.Some? && target.value in Renamed(products, rows)
  }

  lemma RowsBelow(ds: seq<ProductDraft>, carried: map<string, ProductId>, products: map<ProductId, string>, next: ProductId, j: nat,
                  rows: seq<CatalogRow>, i: nat)
    requires i < j <= |ds| && (forall id :: id in products ==> id < next) && AreRows(ds[..j], carried, products.Keys, next, rows)
    ensures rows[i] == RowFor(ds[i], Assigned(ds, carried, products.Keys, next, i))
    ensures rows[i].productId < next + Created(ds[..j], carried, products.Keys)
  {
    AssignedPrefix(ds, carried, products.Keys, next, j, i);
    CreatedBefore(ds, carried, products.Keys, i, j);
  }

  lemma PlaceClash(ds: seq<ProductDraft>, carried: map<string, ProductId>, products: map<ProductId, string>, next: ProductId, j: nat,
                   rows: seq<CatalogRow>, id: ProductId)
    requires j < |ds| && (forall id :: id in products ==> id < next)
    requires AreRows(ds[..j], carried, products.Keys, next, rows)
    requires id == if FindsProduct(Target(ds[j], carried), products, rows) then Target(ds[j], carried).value
                   else next + Created(ds[..j], carried, products.Keys)
    ensures Has(rows, ds[j].clientId, id) <==> ClashesAt(ds, carried, products.Keys, next, j)
  {
    forall i: nat | i < j
      ensures rows[i] == RowFor(ds[i], Assigned(ds, carried, products.Keys, next, i))
      ensures rows[i].productId < next + Created(ds[..j], carried, products.Keys)
    {
      RowsBelow(ds, carried, products, next, j, rows, i);
    }
    if Has(rows, ds[j].clientId, id) {
      var row :| row in rows && (row.externalKey == ds[j].clientId || row.productId == id);
      var i: nat :| i < |rows| && rows[i] == row;
      assert Clash(ds, carried, products.Keys, next, i, j);
    }
    if ClashesAt(ds, carried, products.Keys, next, j) {
      var i: nat :| i < j && Clash(ds, carried, products.Keys, next, i, j);
      assert rows[i] in rows;
      if Target(ds[j], carried).Some? {
        RenamedKeys(products, rows, Target(ds[j], carried).value);
      }
    }
  }

  lemma PlaceAssigned(ds: seq<ProductDraft>, carried: map<string, ProductId>, products: map<ProductId, string>, next: ProductId, j: nat,
                      rows: seq<CatalogRow>, id: ProductId)
    requires j < |ds| && !Has(rows, ds[j].clientId, id)
    requires id == if FindsProduct(Target(ds[j], carried), products, rows) then Target(ds[j], carried).value
                   else next + Created(ds[..j], carried, products.Keys)
    ensures FindsProduct(Target(ds[j], carried), products, rows) <==> Reuses(ds[j], carried, products.Keys)
    ensures id == Assigned(ds, carried, products.Keys, next, j)
  {
    if Target(ds[j], carried).Some? {
      RenamedKeys(products, rows, Target(ds[j], carried).value);
    }
  }

  lemma {:induction false} CreatedBefore(ds: seq<ProductDraft>, carried: map<string, ProductId>, known: set<ProductId>, i: nat, j: nat)
    requires i < j <= |ds|
    ensures Created(ds[..i], carried, known) + (if Reuses(ds[i], carried, known) then 0 else 1) <= Created(ds[..j], carried, known)
    decreases j
  {
    assert ds[..j][..j - 1] == ds[..j - 1];
    if i < j - 1 {
      CreatedBefore(ds, carried, known, i, j - 1);
    }
  }

  lemma RowsOneMore(ds: seq<ProductDraft>, carried: map<string, ProductId>, known: set<ProductId>, next: ProductId, j: nat,
                    rows: seq<CatalogRow>, row: CatalogRow)
    requires j < |ds| && AreRows(ds[..j], carried, known, next, rows)
    requires row == RowFor(ds[j], Assigned(ds, carried, known, next, j))
    ensures AreRows(ds[..j + 1], carried, known, next, rows + [row])
    ensures Created(ds[..j + 1], carried, known) == Created(ds[..j], carried, known) + if Reuses(ds[j], carried, known) then 0 else 1
  {
    assert ds[..j + 1][..j] == ds[..j];
    forall k: nat | k <= j
      ensures (rows + [row])[k] == RowFor(ds[k], Assigned(ds[..j + 1], carried, known, next, k))
    {
      AssignedPrefix(ds, carried, known, next, j + 1, k);
      if k < j {
        AssignedPrefix(ds, carried, known, next, j, k);
      }
    }
  }

  ghost predicate ClashesAt(ds: seq<ProductDraft>, carried: map<string, ProductId>, known: set<ProductId>, next: ProductId, j: nat)
    requires j < |ds|
  {
    exists i: nat :: i < j && Clash(ds, carried, known, next, i, j)
  }

  ghost predicate NoneClash(ds: seq<ProductDraft>, carried: map<string, ProductId>, known: set<ProductId>, next: ProductId, n: nat)
    requires n <= |ds|
  {
    forall j: nat :: j < n ==> !ClashesAt(ds, carried, known, next, j)
  }

  lemma ClashesSomewhere(ds: seq<ProductDraft>, carried: map<string, ProductId>, known: set<ProductId>, next: ProductId)
    ensures Clashes(ds, carried, known, next) <==> !NoneClash(ds, carried, known, next, |ds|)
  {
    if j: nat :| j < |ds| && ClashesAt(ds, carried, known, next, j) {
      var i: nat :| i < j && Clash(ds, carried, known, next, i, j);
    }
    if Clashes(ds, carried, known, next) {
      var i: nat, j: nat :| i < j < |ds| && Clash(ds, carried, known, next, i, j);
      assert ClashesAt(ds, carried, known, next, j);
    }
  }

  lemma NoneClashStep(ds: seq<ProductDraft>, carried: map<string, ProductId>, known: set<ProductId>, next: ProductId, n: nat)
    requires n < |ds| && NoneClash(ds, carried, known, next, n) && !ClashesAt(ds, carried, known, next, n)
    ensures NoneClash(ds, carried, known, next, n + 1)
  {
    forall j: nat | j <= n
      ensures !ClashesAt(ds, carried, known, next, j)
    {
      if j < n {
        assert !ClashesAt(ds, carried, known, next, j);
      }
    }
  }

  /** The tables after the first `j` rows. */
  ghost predicate Placed(ds: seq<ProductDraft>, carried: map<string, ProductId>, products: map<ProductId, string>, next: ProductId, j: nat,
                         rows: seq<CatalogRow>, products': map<ProductId, string>, next': ProductId)
  {
    && j <= |ds|
    && AreRows(ds[..j], carried, products.Keys, next, rows)
    && products' == Renamed(products, rows)
    && next' == next + Created(ds[..j], carried, products.Keys)
  }

  method PlaceProduct(d: ProductDraft, carried: map<string, ProductId>, ghost ds: seq<ProductDraft>, ghost products: map<ProductId, string>,
                      ghost next: ProductId, ghost j: nat, rows: seq<CatalogRow>, now: map<ProductId, string>, nextNow: ProductId)
    returns (ok: bool, rows': seq<CatalogRow>, products': map<ProductId, string>, next': ProductId)
    requires j < |ds| && ds[j] == d && (forall id :: id in products ==> id < next)
    requires Placed(ds, carried, products, next, j, rows, now, nextNow)
    ensures ok <==> !ClashesAt(ds, carried, products.Keys, next, j)
    ensures ok ==> Placed(ds, carried, products, next, j + 1, rows', products', next')
  {
    rows', products', next' := rows, now, nextNow;
    var id;
    var target := Target(d, carried);
    if target.Some? && target.value in now {
      id := target.value;
    } else {
      id := nextNow;
      next' := nextNow + 1;
    }
    PlaceClash(ds, carried, products, next, j, rows, id);
    ok := !Has(rows, d.clientId, id);
    if ok {
      PlaceAssigned(ds, carried, products, next, j, rows, id);
      rows', products' := rows + [RowFor(d, id)], now[id := d.name];
      PlacedOneMore(ds, carried, products, next, j, rows, now, nextNow, RowFor(d, id), next');
    }
  }

  lemma PlacedOneMore(ds: seq<ProductDraft>, carried: map<string, ProductId>, products: map<ProductId, string>, next: ProductId,
                      j: nat, rows: seq<CatalogRow>, now: map<ProductId, string>, nextNow: ProductId, row: CatalogRow, next': ProductId)
    requires j < |ds| && Placed(ds, carried, products, next, j, rows, now, nextNow)
    requires row == RowFor(ds[j], Assigned(ds, carried, products.Keys, next, j))
    requires next' == nextNow + if Reuses(ds[j], carried, products.Keys) then 0 else 1
    ensures Placed(ds, carried, products, next, j + 1, rows + [row], now[row.productId := ds[j].name], next')
  {
    RowsOneMore(ds, carried, products.Keys, next, j, rows, row);
    assert (rows + [row])[..|rows|] == rows;
  }

  /** The category row of the next product: the one that has its normal form, or a new one. */
  method FileCategory(a: Alphabet, ds: seq<ProductDraft>, j: nat, categories: map<string, string>)
    returns (filed: ProductDraft, categories': map<string, string>)
    requires j < |ds| && categories == Categories(a, ds[..j])
    ensures filed == Filed(a, ds)[j] && categories' == Categories(a, ds[..j + 1])
  {
    FiledOneMore(a, ds, j);
    FiledAt(a, ds, j);
    var form := Normalize(a, ds[j].category);
    categories' := categories;
    if form !in categories {
      categories' := categories[form := ds[j].category];
    }
    filed := ds[j].(category := categories'[form]);
  }

  /** The loop that writes the rows; `None` stands for the integrity error that rolls everything back. */
  method PlaceProducts(a: Alphabet, ds: seq<ProductDraft>, carried: map<string, ProductId>, products: map<ProductId, string>, next: ProductId)
    returns (rows: Option<seq<CatalogRow>>, products': map<ProductId, string>, next': ProductId)
    requires forall id :: id in products ==> id < next
    ensures rows.None? <==> Clashes(Filed(a, ds), carried, products.Keys, next)
    ensures rows.Some? ==> Placed(Filed(a, ds), carried, products, next, |ds|, rows.value, products', next')
  {
    ghost var fs := Filed(a, ds);
    var written: seq<CatalogRow>, categories: map<string, string> := [], map[];
    products', next' := products, next;
    ClashesSomewhere(fs, carried, products.Keys, next);
    for j := 0 to |ds|
      invariant categories == Categories(a, ds[..j])
      invariant Placed(fs, carried, products, next, j, written, products', next')
      invariant NoneClash(fs, carried, products.Keys, next, j)
    {
      var d, ok;
      d, categories := FileCategory(a, ds, j, categories);
      ok, written, products', next' := PlaceProduct(d, carried, fs, products, next, j, written, products', next');
      if !ok {
        rows := None;
        return;
      }
      NoneClashStep(fs, carried, products.Keys, next, j);
    }
    rows := Some(written);
  }

  /** The warnings block publication: a product without an alias, a normal form claimed under two client ids, or a
      repeated knowledge entry. */
  ghost predicate MustBlock(a: Alphabet, proposal: Proposal) {
    SomeMissing(proposal.products) || SomeConflict(proposal.products) || SomeRepeated(a, proposal.knowledge)
  }

  ghost predicate SomeMissing(products: seq<ProductDraft>) {
    exists p :: p in products && p.aliases == []
  }

  ghost predicate SomeConflict(products: seq<ProductDraft>) {
    exists key :: Conflicting(products, key)
  }

  ghost predicate SomeRepeated(a: Alphabet, items: seq<KnowledgeInput>) {
    exists j: nat :: j < |items| && RepeatsEarlier(a, items, j)
  }

  lemma BlockingMeans(a: Alphabet, proposal: Proposal, w: Warnings)
    requires IsWarnings(a, proposal, w)
    ensures Blocking(w) <==> MustBlock(a, proposal)
  {
    if w.missing != {} {
      var i :| i in w.missing;
      assert proposal.products[i] in proposal.products;
    }
    if p :| p in proposal.products && p.aliases == [] {
      var i: nat :| i < |proposal.products| && proposal.products[i] == p;
      assert i in w.missing;
    }
    if key :| Conflicting(proposal.products, key) {
      assert key in w.conflicts;
    }
    if j: nat :| j < |proposal.knowledge| && RepeatsEarlier(a, proposal.knowledge, j) {
      assert j in w.duplicates;
    }
  }

  /** Two knowledge entries of the payload have one kind and one normal form of the title. */
  ghost predicate RepeatedTitle(a: Alphabet, items: seq<KnowledgeInput>, i: nat, j: nat)
    requires i < j < |items|
  {
    items[i].kind == items[j].kind && Normalize(a, items[i].title) == Normalize(a, items[j].title)
  }

  /** Two products with different keys have approved aliases of one normal form. */
  ghost predicate ShareForm(d: ProductDraft, e: ProductDraft) {
    d.clientId != e.clientId
    && exists x, y :: x in d.aliases && y in e.aliases && x.approved && y.approved && x.normalized == y.normalized
  }

  /** What blocks, in terms of the aliases of the products and the titles of the payload. */
  lemma MustBlockExactly(env: Env, payload: Payload)
    requires ValidEnv(env)
    ensures var ds := Propose(env, payload).products;
            MustBlock(env.a, Propose(env, payload)) <==>
            || (exists d :: d in ds && d.aliases == [])
            || (exists d, e :: d in ds && e in ds && ShareForm(d, e))
            || (exists i: nat, j: nat :: i < j < |payload.knowledge| && RepeatedTitle(env.a, payload.knowledge, i, j))
  {
    TitlesExactly(env.a, payload.knowledge);
    ConflictsExactly(Propose(env, payload).products);
  }

  lemma SharedFormConflicts(ds: seq<ProductDraft>, d: ProductDraft, e: ProductDraft)
    requires d in ds && e in ds && ShareForm(d, e)
    ensures SomeConflict(ds)
  {
    var x, y :| x in d.aliases && y in e.aliases && x.approved && y.approved && x.normalized == y.normalized;
    assert Claims(d, x.normalized) && Claims(e, x.normalized);
    assert Conflicting(ds, x.normalized);
  }

  lemma ConflictsExactly(ds: seq<ProductDraft>)
    ensures SomeConflict(ds) <==> exists d, e :: d in ds && e in ds && ShareForm(d, e)
  {
    if key :| Conflicting(ds, key) {
      var d, e :| d in ds && e in ds && d.clientId != e.clientId && Claims(d, key) && Claims(e, key);
      assert ShareForm(d, e);
    }
    if d, e :| d in ds && e in ds && ShareForm(d, e) {
      SharedFormConflicts(ds, d, e);
    }
  }

  lemma TitlesExactly(a: Alphabet, items: seq<KnowledgeInput>)
    requires ValidAlphabet(a)
    ensures SomeRepeated(a, DraftItems(a, items)) <==> exists i: nat, j: nat :: i < j < |items| && RepeatedTitle(a, items, i, j)
  {
    var drafted := DraftItems(a, items);
    if j: nat :| j < |drafted| && RepeatsEarlier(a, drafted, j) {
      var i: nat :| i < j && KnowledgeKey(a, drafted[i]) == KnowledgeKey(a, drafted[j]);
      SameTitle(a, items, i, j);
    }
    if i: nat, j: nat :| i < j < |items| && RepeatedTitle(a, items, i, j) {
      SameTitle(a, items, i, j);
      assert RepeatsEarlier(a, drafted, j);
    }
  }

  lemma SameTitle(a: Alphabet, items: seq<KnowledgeInput>, i: nat, j: nat)
    requires ValidAlphabet(a) && i < j < |items|
    ensures KnowledgeKey(a, DraftItems(a, items)[i]) == KnowledgeKey(a, DraftItems(a, items)[j]) <==> RepeatedTitle(a, items, i, j)
  {
    NormalizeStrip(a, items[i].title);
    NormalizeStrip(a, items[j].title);
  }

  datatype Event =
    | Create(slug: Slug, payload: Payload)
    | Update(draft: nat, payload: Payload)
    | Publish(draft: nat)

  function ActiveRows(s: Catalogue, slug: Slug): seq<CatalogRow> {
    if slug in s.stores && s.stores[slug].Some? && s.stores[slug].value < |s.versions| then s.versions[s.stores[slug].value].rows else []
  }

  /** The version published from a draft, if any. */
  function VersionOf(versions: seq<Version>, draft: nat): (r: Option<nat>)
    ensures r.Some? ==> r.value < |versions| && versions[r.value].sourceDraft == draft
    ensures r.None? ==> forall i :: 0 <= i < |versions| ==> versions[i].sourceDraft != draft
  {
    if versions == [] then None
    else if versions[|versions| - 1].sourceDraft == draft then Some(|versions| - 1)
    else VersionOf(versions[..|versions| - 1], draft)
  }

  /** The proposal that publishing a draft writes: the stored one, analysed again. */
  function Republished(env: Env, s: Catalogue, id: nat): Proposal
    requires id < |s.drafts|
  {
    Propose(env, PayloadOf(s.drafts[id].proposal))
  }

  /** The state after a successful publication with these rows. */
  function AfterPublish(s: Catalogue, id: nat, proposal: Proposal, rows: seq<CatalogRow>, next: ProductId): Catalogue
    requires id < |s.drafts|
  {
    var slug := s.drafts[id].slug;
    s.(stores := s.stores[slug := Some(|s.versions|)],
       drafts := s.drafts[id := Draft(slug, proposal, true)],
       versions := s.versions + [Version(slug, Count(s.versions, slug) + 1, id, rows)],
       products := Renamed(s.products, rows),
       nextProduct := next)
  }

  ghost predicate IsPublication(a: Alphabet, s: Catalogue, id: nat, proposal: Proposal, t: Catalogue, rows: seq<CatalogRow>)
    requires id < |s.drafts|
  {
    var ds, carried, known := Filed(a, proposal.products), Carried(ActiveRows(s, s.drafts[id].slug)), s.products.Keys;
    && !Clashes(ds, carried, known, s.nextProduct)
    && AreRows(ds, carried, known, s.nextProduct, rows)
    && t == AfterPublish(s, id, proposal, rows, s.nextProduct + Created(ds, carried, known))
  }

  ghost predicate PublishStep(env: Env, s: Catalogue, id: nat, t: Catalogue, r: Outcome) {
    if id >= |s.drafts| then r == NotFound && t == s
    else if VersionOf(s.versions, id).Some? then r == Published(VersionOf(s.versions, id).value) && t == s
    else
      var proposal, slug := Republished(env, s, id), s.drafts[id].slug;
      if MustBlock(env.a, proposal) then r == Blocked && t == s
      else if slug !in s.stores then r == NoStore && t == s
      else if Clashes(Filed(env.a, proposal.products), Carried(ActiveRows(s, slug)), s.products.Keys, s.nextProduct) then r == Conflict && t == s
      else r == Published(|s.versions|) && exists rows :: IsPublication(env.a, s, id, proposal, t, rows)
  }

  ghost predicate Next(env: Env, s: Catalogue, event: Event, t: Catalogue, r: Outcome) {
    match event
    case Create(slug, payload) =>
      r == Drafted(|s.drafts|)
      && t == s.(stores := if slug in s.stores then s.stores else s.stores[slug := None],
                 drafts := s.drafts + [Draft(slug, Propose(env, payload), false)])
    case Update(id, payload) =>
      if id >= |s.drafts| then r == NotFound && t == s
      else if s.drafts[id].published then r == AlreadyPublished && t == s
      else r == Drafted(id) && t == s.(drafts := s.drafts[id := s.drafts[id].(proposal := Propose(env, payload))])
    case Publish(id) => PublishStep(env, s, id, t, r)
  }

  /** No two rows share a key or a product, and no two share the normal form of an alias. */
  ghost predicate RowsSound(a: Alphabet, rows: seq<CatalogRow>) {
    forall i, j :: 0 <= i < j < |rows| ==>
      && rows[i].externalKey != rows[j].externalKey && rows[i].productId != rows[j].productId
      && forall x, y :: x in rows[i].aliases && y in rows[j].aliases ==> Normalize(a, x.value) != Normalize(a, y.value)
  }

  ghost predicate VersionSound(a: Alphabet, s: Catalogue, i: nat)
    requires i < |s.versions|
  {
    var v := s.versions[i];
    && v.slug in s.stores && v.number == Count(s.versions[..i], v.slug) + 1
    && v.sourceDraft < |s.drafts| && s.drafts[v.sourceDraft].published && s.drafts[v.sourceDraft].slug == v.slug
    && VersionOf(s.versions, v.sourceDraft) == Some(i)
    && RowsSound(a, v.rows) && forall row :: row in v.rows ==> row.productId in s.products
  }

  /** What every run keeps: numbers without gaps, one version per published draft, the active version of each
      store its latest one, and sound rows. */
  ghost predicate Sound(a: Alphabet, s: Catalogue) {
    && (forall i: nat :: i < |s.versions| ==> VersionSound(a, s, i))
    && (forall slug :: slug in s.stores ==> s.stores[slug] == Latest(s.versions, slug))
    && (forall d: nat :: d < |s.drafts| ==> s.drafts[d].slug in s.stores)
    && (forall d: nat :: d < |s.drafts| ==> (s.drafts[d].published <==> VersionOf(s.versions, d).Some?))
    && (forall id :: id in s.products ==> 0 < id < s.nextProduct) && s.nextProduct > 0
  }

  const EMPTY := Catalogue(map[], [], [], map[], 1)

  /** What never changes: versions are only appended, published drafts stay as they are, products stay. */
  ghost predicate Progress(s: Catalogue, t: Catalogue) {
    && s.versions <= t.versions
    && |s.drafts| <= |t.drafts|
    && (forall d: nat :: d < |s.drafts| && s.drafts[d].published ==> t.drafts[d] == s.drafts[d])
    && (forall d: nat :: d < |s.drafts| ==> t.drafts[d].slug == s.drafts[d].slug)
    && s.stores.Keys <= t.stores.Keys && s.products.Keys <= t.products.Keys && s.nextProduct <= t.nextProduct
  }

  lemma ProgressIsTransitive(s: Catalogue, t: Catalogue, u: Catalogue)
    requires Progress(s, t) && Progress(t, u)
    ensures Progress(s, u)
  {
  }

  lemma RenamedKeepsAll(products: map<ProductId, string>, rows: seq<CatalogRow>)
    ensures products.Keys <= Renamed(products, rows).Keys
  {
    forall id | id in products
      ensures id in Renamed(products, rows)
    {
      RenamedKeys(products, rows, id);
    }
  }

  lemma NextIsProgress(env: Env, s: Catalogue, event: Event, t: Catalogue, r: Outcome)
    requires Sound(env.a, s) && Next(env, s, event, t, r)
    ensures Progress(s, t)
  {
    if event.Publish? && t != s {
      var id := event.draft;
      var rows :| IsPublication(env.a, s, id, Republished(env, s, id), t, rows);
      RenamedKeepsAll(s.products, rows);
    }
  }

  lemma RowsAreDistinct(ds: seq<ProductDraft>, carried: map<string, ProductId>, known: set<ProductId>, next: ProductId, rows: seq<CatalogRow>,
                        i: nat, j: nat)
    requires AreRows(ds, carried, known, next, rows) && !Clashes(ds, carried, known, next) && i < j < |ds|
    requires forall id :: id in known ==> id < next
    ensures rows[i].externalKey != rows[j].externalKey && rows[i].productId != rows[j].productId
  {
    assert !Clash(ds, carried, known, next, i, j);
    CreatedBefore(ds, carried, known, i, j);
  }

  lemma {:induction false} DraftsWellMade(env: Env, inputs: seq<ProductInput>, p: ProductDraft, x: Alias)
    requires p in DraftProducts(env, inputs) && x in p.aliases
    ensures WellMade(env.a, x)
    decreases |inputs|
  {
    var n := |inputs| - 1;
    if p in DraftProducts(env, inputs[..n]) {
      DraftsWellMade(env, inputs[..n], p, x);
    } else {
      var q := inputs[n].(keywords := CleanKeywords(env.a, inputs[n].keywords));
      assert p == DraftProduct(env, inputs[n], n);
      AliasesWellMade(env.a, env.gen, q);
    }
  }

  lemma AliasesAreDisjoint(env: Env, payload: Payload, p: ProductDraft, q: ProductDraft, x: Alias, y: Alias)
    requires !MustBlock(env.a, Propose(env, payload))
    requires p in Propose(env, payload).products && q in Propose(env, payload).products && p.clientId != q.clientId
    requires x in Approved(p.aliases) && y in Approved(q.aliases)
    ensures Normalize(env.a, x.value) != Normalize(env.a, y.value)
  {
    DraftsWellMade(env, payload.products, p, x);
    DraftsWellMade(env, payload.products, q, y);
    if x.normalized == y.normalized {
      assert Claims(p, x.normalized) && Claims(q, x.normalized);
      assert Conflicting(Propose(env, payload).products, x.normalized);
    }
  }

  lemma NewRowsSound(env: Env, payload: Payload, carried: map<string, ProductId>, known: set<ProductId>, next: ProductId, rows: seq<CatalogRow>)
    requires !MustBlock(env.a, Propose(env, payload))
    requires var ds := Filed(env.a, Propose(env, payload).products);
             AreRows(ds, carried, known, next, rows) && !Clashes(ds, carried, known, next)
    requires forall id :: id in known ==> id < next
    ensures RowsSound(env.a, rows)
  {
    var ds, fs := Propose(env, payload).products, Filed(env.a, Propose(env, payload).products);
    forall i: nat, j: nat | i < j < |rows|
      ensures rows[i].externalKey != rows[j].externalKey && rows[i].productId != rows[j].productId
      ensures forall x, y :: x in rows[i].aliases && y in rows[j].aliases ==> Normalize(env.a, x.value) != Normalize(env.a, y.value)
    {
      FiledAt(env.a, ds, i);
      FiledAt(env.a, ds, j);
      RowsAreDistinct(fs, carried, known, next, rows, i, j);
      forall x, y | x in rows[i].aliases && y in rows[j].aliases
        ensures Normalize(env.a, x.value) != Normalize(env.a, y.value)
      {
        AliasesAreDisjoint(env, payload, ds[i], ds[j], x, y);
      }
    }
  }

  lemma OldVersionStaysSound(a: Alphabet, s: Catalogue, t: Catalogue, i: nat)
    requires i < |s.versions| && VersionSound(a, s, i)
    requires Progress(s, t) && VersionOf(t.versions, s.versions[i].sourceDraft) == Some(i)
    ensures VersionSound(a, t, i)
  {
    assert t.versions[i] == s.versions[i] && t.versions[..i] == s.versions[..i];
  }

  lemma {:induction false} RenamedIds(products: map<ProductId, string>, rows: seq<CatalogRow>, low: ProductId, high: ProductId)
    requires forall id :: id in products ==> low < id < high
    requires forall row :: row in rows ==> low < row.productId < high
    ensures forall id :: id in Renamed(products, rows) ==> low < id < high
  {
    forall id | id in Renamed(products, rows)
      ensures low < id < high
    {
      RenamedKeys(products, rows, id);
    }
  }

  lemma AssignedRange(ds: seq<ProductDraft>, carried: map<string, ProductId>, known: set<ProductId>, next: ProductId, k: nat)
    requires k < |ds| && next > 0 && forall id :: id in known ==> 0 < id < next
    ensures 0 < Assigned(ds, carried, known, next, k) < next + Created(ds, carried, known) + (if Reuses(ds[k], carried, known) then 1 else 0)
  {
    CreatedBefore(ds, carried, known, k, |ds|);
    assert ds[..|ds|] == ds;
  }

  lemma NewVersionSound(env: Env, s: Catalogue, id: nat, t: Catalogue, rows: seq<CatalogRow>)
    requires Sound(env.a, s) && id < |s.drafts| && VersionOf(s.versions, id).None?
    requires !MustBlock(env.a, Republished(env, s, id)) && IsPublication(env.a, s, id, Republished(env, s, id), t, rows)
    ensures VersionSound(env.a, t, |s.versions|)
  {
    var n := |s.versions|;
    assert t.versions[..n] == s.versions;
    NewRowsSound(env, PayloadOf(s.drafts[id].proposal), Carried(ActiveRows(s, s.drafts[id].slug)), s.products.Keys, s.nextProduct, rows);
    forall row | row in rows
      ensures row.productId in t.products
    {
      RenamedKeys(s.products, rows, row.productId);
    }
  }

  lemma ProductsStaySound(a: Alphabet, s: Catalogue, id: nat, proposal: Proposal, t: Catalogue, rows: seq<CatalogRow>)
    requires id < |s.drafts| && IsPublication(a, s, id, proposal, t, rows)
    requires s.nextProduct > 0 && forall p :: p in s.products ==> 0 < p < s.nextProduct
    ensures t.nextProduct > 0 && forall p :: p in t.products ==> 0 < p < t.nextProduct
  {
    var carried, known := Carried(ActiveRows(s, s.drafts[id].slug)), s.products.Keys;
    forall row | row in rows
      ensures 0 < row.productId < t.nextProduct
    {
      var k: nat :| k < |rows| && rows[k] == row;
      AssignedRange(Filed(a, proposal.products), carried, known, s.nextProduct, k);
    }
    RenamedIds(s.products, rows, 0, t.nextProduct);
  }

  lemma VersionsStaySound(env: Env, s: Catalogue, id: nat, t: Catalogue, rows: seq<CatalogRow>, i: nat)
    requires Sound(env.a, s) && id < |s.drafts| && VersionOf(s.versions, id).None? && Progress(s, t)
    requires !MustBlock(env.a, Republished(env, s, id)) && IsPublication(env.a, s, id, Republished(env, s, id), t, rows)
    requires i < |t.versions|
    ensures VersionSound(env.a, t, i)
  {
    var n := |s.versions|;
    assert t.versions[..n] == s.versions;
    if i < n {
      assert VersionSound(env.a, s, i);
      OldVersionStaysSound(env.a, s, t, i);
    } else {
      NewVersionSound(env, s, id, t, rows);
    }
  }

  lemma PublicationIsAfterPublish(a: Alphabet, s: Catalogue, id: nat, proposal: Proposal, t: Catalogue, rows: seq<CatalogRow>)
    requires id < |s.drafts| && IsPublication(a, s, id, proposal, t, rows)
    ensures t == AfterPublish(s, id, proposal, rows, t.nextProduct)
  {
  }

  lemma StoresStaySound(a: Alphabet, s: Catalogue, id: nat, proposal: Proposal, t: Catalogue, rows: seq<CatalogRow>)
    requires id < |s.drafts| && Sound(a, s) && VersionOf(s.versions, id).None? && IsPublication(a, s, id, proposal, t, rows)
    ensures forall slug :: slug in t.stores ==> t.stores[slug] == Latest(t.versions, slug)
    ensures forall d: nat :: d < |t.drafts| ==> t.drafts[d].slug in t.stores && (t.drafts[d].published <==> VersionOf(t.versions, d).Some?)
  {
    PublicationIsAfterPublish(a, s, id, proposal, t, rows);
    StoresAfterPublish(a, s, id, proposal, t, rows);
  }

  lemma StoresAfterPublish(a: Alphabet, s: Catalogue, id: nat, proposal: Proposal, t: Catalogue, rows: seq<CatalogRow>)
    requires Sound(a, s) && id < |s.drafts| && VersionOf(s.versions, id).None? && t == AfterPublish(s, id, proposal, rows, t.nextProduct)
    ensures forall slug :: slug in t.stores ==> t.stores[slug] == Latest(t.versions, slug)
    ensures forall d: nat :: d < |t.drafts| ==> t.drafts[d].slug in t.stores && (t.drafts[d].published <==> VersionOf(t.versions, d).Some?)
  {
    assert t.versions[..|s.versions|] == s.versions;
  }

  lemma PublicationKeepsSound(env: Env, s: Catalogue, id: nat, t: Catalogue, rows: seq<CatalogRow>)
    requires Sound(env.a, s) && id < |s.drafts| && VersionOf(s.versions, id).None? && Progress(s, t)
    requires !MustBlock(env.a, Republished(env, s, id)) && IsPublication(env.a, s, id, Republished(env, s, id), t, rows)
    ensures Sound(env.a, t)
  {
    forall i: nat | i < |t.versions|
      ensures VersionSound(env.a, t, i)
    {
      VersionsStaySound(env, s, id, t, rows, i);
    }
    StoresStaySound(env.a, s, id, Republished(env, s, id), t, rows);
    ProductsStaySound(env.a, s, id, Republished(env, s, id), t, rows);
  }

  lemma DraftingKeepsSound(a: Alphabet, s: Catalogue, t: Catalogue)
    requires Sound(a, s) && Progress(s, t)
    requires t.versions == s.versions && t.products == s.products && t.nextProduct == s.nextProduct
    requires forall d: nat :: d < |t.drafts| ==> t.drafts[d].slug in t.stores
    requires forall d: nat :: d < |s.drafts| ==> t.drafts[d].published == s.drafts[d].published
    requires forall d: nat :: |s.drafts| <= d < |t.drafts| ==> !t.drafts[d].published
    requires forall slug :: slug in t.stores ==> if slug in s.stores then t.stores[slug] == s.stores[slug] else t.stores[slug] == None
    ensures Sound(a, t)
  {
    forall i: nat | i < |t.versions|
      ensures VersionSound(a, t, i)
      ensures s.versions[i].slug in s.stores && s.versions[i].sourceDraft < |s.drafts|
    {
      assert VersionSound(a, s, i);
      OldVersionStaysSound(a, s, t, i);
    }
  }

  /** Every event keeps the invariant, and publishing never finds its store missing. */
  lemma NextKeepsSound(env: Env, s: Catalogue, event: Event, t: Catalogue, r: Outcome)
    requires Sound(env.a, s) && Next(env, s, event, t, r)
    ensures Sound(env.a, t) && r != NoStore
  {
    NextIsProgress(env, s, event, t, r);
    if event.Publish? {
      if t != s {
        var rows :| IsPublication(env.a, s, event.draft, Republished(env, s, event.draft), t, rows);
        PublicationKeepsSound(env, s, event.draft, t, rows);
      }
    } else {
      DraftingKeepsSound(env.a, s, t);
    }
  }

  /** The events so far and the states they went through, from the empty tables on. */
  ghost predicate IsRun(env: Env, states: seq<Catalogue>, events: seq<Event>, outcomes: seq<Outcome>) {
    && |states| == |events| + 1 && |outcomes| == |events| && states[0] == EMPTY
    && forall k: nat :: k < |events| ==> Next(env, states[k], events[k], states[k + 1], outcomes[k])
  }

  ghost predicate KeepsSound(a: Alphabet, states: seq<Catalogue>, k: nat)
    requires k + 1 < |states|
  {
    Sound(a, states[k]) ==> Sound(a, states[k + 1])
  }

  lemma {:induction false} SoundAlong(a: Alphabet, states: seq<Catalogue>, k: nat)
    requires k < |states| && Sound(a, states[0]) && forall i: nat :: i + 1 < |states| ==> KeepsSound(a, states, i)
    ensures Sound(a, states[k])
  {
    if k > 0 {
      SoundAlong(a, states, k - 1);
      assert KeepsSound(a, states, k - 1);
    }
  }

  lemma StepKeepsSound(env: Env, states: seq<Catalogue>, events: seq<Event>, outcomes: seq<Outcome>, k: nat)
    requires k + 1 < |states| && k < |events| == |outcomes| && Next(env, states[k], events[k], states[k + 1], outcomes[k])
    ensures KeepsSound(env.a, states, k)
  {
    if Sound(env.a, states[k]) {
      NextKeepsSound(env, states[k], events[k], states[k + 1], outcomes[k]);
    }
  }

  lemma EmptyIsSound(a: Alphabet)
    ensures Sound(a, EMPTY)
  {
  }

  lemma RunIsSound(env: Env, states: seq<Catalogue>, events: seq<Event>, outcomes: seq<Outcome>, k: nat)
    requires IsRun(env, states, events, outcomes) && k < |states|
    ensures Sound(env.a, states[k])
  {
    EmptyIsSound(env.a);
    forall i: nat | i + 1 < |states|
      ensures KeepsSound(env.a, states, i)
    {
      StepKeepsSound(env, states, events, outcomes, i);
    }
    SoundAlong(env.a, states, k);
  }

  lemma StepProgresses(env: Env, states: seq<Catalogue>, events: seq<Event>, outcomes: seq<Outcome>, k: nat)
    requires IsRun(env, states, events, outcomes) && k < |events|
    ensures Progress(states[k], states[k + 1])
  {
    RunIsSound(env, states, events, outcomes, k);
    NextIsProgress(env, states[k], events[k], states[k + 1], outcomes[k]);
  }

  lemma {:induction false} StepsProgress(states: seq<Catalogue>, i: nat, j: nat)
    requires i <= j < |states| && forall k: nat :: k + 1 < |states| ==> Progress(states[k], states[k + 1])
    ensures Progress(states[i], states[j])
    decreases j
  {
    if i < j {
      StepsProgress(states, i, j - 1);
      assert Progress(states[j - 1], states[j - 1 + 1]);
      ProgressIsTransitive(states[i], states[j - 1], states[j]);
    }
  }

  /** Versions and published drafts never change, at any distance. */
  lemma RunProgresses(env: Env, states: seq<Catalogue>, events: seq<Event>, outcomes: seq<Outcome>, i: nat, j: nat)
    requires IsRun(env, states, events, outcomes) && i <= j < |states|
    ensures Progress(states[i], states[j])
  {
    forall k: nat | k + 1 < |states|
      ensures Progress(states[k], states[k + 1])
    {
      StepProgresses(env, states, events, outcomes, k);
    }
    StepsProgress(states, i, j);
  }

  /** Publishing a draft that was published before returns the same version and adds nothing, however late. */
  lemma PublishingTwiceAddsNothing(env: Env, states: seq<Catalogue>, events: seq<Event>, outcomes: seq<Outcome>, i: nat, j: nat, id: nat, v: nat)
    requires IsRun(env, states, events, outcomes) && i < j < |events|
    requires events[i] == Publish(id) && events[j] == Publish(id) && outcomes[i] == Published(v)
    ensures outcomes[j] == Published(v) && states[j + 1] == states[j]
  {
    assert Next(env, states[i], events[i], states[i + 1], outcomes[i]) && Next(env, states[j], events[j], states[j + 1], outcomes[j]);
    RunIsSound(env, states, events, outcomes, j);
    RunProgresses(env, states, events, outcomes, i + 1, j);
    assert v < |states[i + 1].versions| && states[i + 1].versions[v].sourceDraft == id;
    assert VersionSound(env.a, states[j], v);
  }

  function MaxNumber(versions: seq<Version>, slug: Slug): nat {
    if versions == [] then 0
    else
      var v, before := versions[|versions| - 1], MaxNumber(versions[..|versions| - 1], slug);
      if v.slug == slug && v.number > before then v.number else before
  }

  ghost predicate Numbered(versions: seq<Version>) {
    forall i: nat :: i < |versions| ==> versions[i].number == Count(versions[..i], versions[i].slug) + 1
  }

  lemma SoundIsNumbered(a: Alphabet, s: Catalogue)
    requires Sound(a, s)
    ensures Numbered(s.versions)
  {
    forall i: nat | i < |s.versions|
      ensures s.versions[i].number == Count(s.versions[..i], s.versions[i].slug) + 1
    {
      assert VersionSound(a, s, i);
    }
  }

  lemma NumberedPrefix(versions: seq<Version>, n: nat)
    requires Numbered(versions) && n <= |versions|
    ensures Numbered(versions[..n])
  {
    forall i: nat | i < n
      ensures versions[..n][i].number == Count(versions[..n][..i], versions[..n][i].slug) + 1
    {
      assert versions[..n][..i] == versions[..i];
    }
  }

  /** The greatest number of a store is how many versions it has. */
  lemma {:induction false} MaxIsCount(versions: seq<Version>, slug: Slug)
    requires Numbered(versions)
    ensures MaxNumber(versions, slug) == Count(versions, slug)
    decreases |versions|
  {
    if versions != [] {
      var n := |versions| - 1;
      NumberedPrefix(versions, n);
      MaxIsCount(versions[..n], slug);
      assert versions[n].number == Count(versions[..n], versions[n].slug) + 1;
    }
  }

  predicate HasNumber(versions: seq<Version>, slug: Slug, number: nat) {
    exists v | v in versions :: v.slug == slug && v.number == number
  }

  /** The numbers of a store are 1..n: each occurs, and no version has another number. */
  lemma {:induction false} NumbersHaveNoGaps(versions: seq<Version>, slug: Slug, number: nat)
    requires Numbered(versions)
    ensures HasNumber(versions, slug, number) <==> 1 <= number <= Count(versions, slug)
    decreases |versions|
  {
    if versions != [] {
      var n := |versions| - 1;
      NumberedPrefix(versions, n);
      NumbersHaveNoGaps(versions[..n], slug, number);
      assert versions[n].number == Count(versions[..n], versions[n].slug) + 1;
      HasNumberOneMore(versions[..n], versions[n], slug, number);
      SplitLast(versions);
    }
  }

  lemma HasNumberOneMore(versions: seq<Version>, v: Version, slug: Slug, number: nat)
    ensures HasNumber(versions + [v], slug, number) <==> HasNumber(versions, slug, number) || (v.slug == slug && v.number == number)
  {
    assert v in versions + [v];
    assert forall u :: u in versions + [v] <==> u in versions || u == v;
  }

  /** `_active_version_id`: whether the store is managed, and its version. */
  function ActiveVersion(s: Catalogue, slug: Slug): (bool, Option<nat>) {
    if slug !in s.stores || s.stores[slug].None? then (slug != "default", None)
    else
      var v := s.stores[slug].value;
      (true, if v < |s.versions| && s.versions[v].slug == slug then Some(v) else None)
  }

  /** A store answers from the version published last for it, and the ownership check never refuses it; only the
      default store without a publication is unmanaged. */
  lemma ActiveVersionIsLatest(a: Alphabet, s: Catalogue, slug: Slug)
    requires Sound(a, s)
    ensures ActiveVersion(s, slug).1 == Latest(s.versions, slug)
    ensures ActiveVersion(s, slug).0 <==> slug != "default" || Latest(s.versions, slug).Some?
  {
    forall i: nat | i < |s.versions|
      ensures s.versions[i].slug in s.stores
    {
      assert VersionSound(a, s, i);
    }
  }

  lemma {:induction false} CarriedOf(rows: seq<CatalogRow>, k: nat)
    requires k < |rows| && forall i, j :: 0 <= i < j < |rows| ==> rows[i].externalKey != rows[j].externalKey
    ensures rows[k].externalKey in Carried(rows) && Carried(rows)[rows[k].externalKey] == rows[k].productId
    decreases |rows|
  {
    if k < |rows| - 1 {
      CarriedOf(rows[..|rows| - 1], k);
    }
  }

  lemma CarriedRow(ds: seq<ProductDraft>, carried: map<string, ProductId>, known: set<ProductId>, next: ProductId, rows: seq<CatalogRow>,
                   before: CatalogRow, k: nat)
    requires AreRows(ds, carried, known, next, rows) && k < |ds| && ds[k].clientId == before.externalKey && ds[k].productId.None?
    requires before.externalKey in carried && carried[before.externalKey] == before.productId && before.productId in known
    ensures rows[k].externalKey == before.externalKey && rows[k].productId == before.productId
  {
  }

  /** A key of the active version that is published again without an explicit product keeps its product. */
  lemma CarriedKeyKeepsProduct(env: Env, s: Catalogue, id: nat, t: Catalogue, v: nat, before: CatalogRow, k: nat)
    requires Sound(env.a, s) && PublishStep(env, s, id, t, Published(v)) && t != s
    requires before in ActiveRows(s, s.drafts[id].slug)
    requires k < |Republished(env, s, id).products|
    requires var d := Republished(env, s, id).products[k]; d.clientId == before.externalKey && d.productId.None?
    ensures v == |s.versions| && v < |t.versions| && k < |t.versions[v].rows|
    ensures t.versions[v].rows[k].externalKey == before.externalKey && t.versions[v].rows[k].productId == before.productId
  {
    var u := s.stores[s.drafts[id].slug].value;
    assert VersionSound(env.a, s, u);
    var rows := ActiveRows(s, s.drafts[id].slug);
    var i: nat :| i < |rows| && rows[i] == before;
    CarriedOf(rows, i);
    var products := Republished(env, s, id).products;
    var written :| IsPublication(env.a, s, id, Republished(env, s, id), t, written);
    FiledAt(env.a, products, k);
    CarriedRow(Filed(env.a, products), Carried(rows), s.products.Keys, s.nextProduct, written, before, k);
  }

  lemma {:induction false} CarriedFrom(rows: seq<CatalogRow>, key: string)
    requires key in Carried(rows)
    ensures exists row :: row in rows && row.externalKey == key && row.productId == Carried(rows)[key]
    decreases |rows|
  {
    var last := rows[|rows| - 1];
    assert last in rows;
    if key != last.externalKey {
      CarriedFrom(rows[..|rows| - 1], key);
    }
  }

  /** The drafted product names this product id, or names none while the active version has one under its key. */
  ghost predicate AsksFor(active: seq<CatalogRow>, d: ProductDraft, id: ProductId) {
    if d.productId.Some? then d.productId.value == id
    else exists row :: row in active && row.externalKey == d.clientId && row.productId == id
  }

  lemma TargetExactly(a: Alphabet, active: seq<CatalogRow>, d: ProductDraft, id: ProductId)
    requires RowsSound(a, active) && d.productId != Some(0)
    ensures Target(d, Carried(active)) == Some(id) <==> AsksFor(active, d, id)
  {
    if d.productId.None? {
      if d.clientId in Carried(active) {
        CarriedFrom(active, d.clientId);
      }
      if row :| row in active && row.externalKey == d.clientId && row.productId == id {
        var i: nat :| i < |active| && active[i] == row;
        CarriedOf(active, i);
      }
    }
  }

  lemma ActiveRowsSound(a: Alphabet, s: Catalogue, slug: Slug)
    requires Sound(a, s) && slug in s.stores
    ensures RowsSound(a, ActiveRows(s, slug)) && forall row :: row in ActiveRows(s, slug) ==> row.productId in s.products
  {
    if s.stores[slug].Some? {
      assert VersionSound(a, s, s.stores[slug].value);
    }
  }

  lemma AssignedExactly(a: Alphabet, active: seq<CatalogRow>, ds: seq<ProductDraft>, known: set<ProductId>, next: ProductId, k: nat, id: ProductId)
    requires RowsSound(a, active) && k < |ds| && ds[k].productId != Some(0) && forall x :: x in known ==> x < next
    ensures id in known ==> (Assigned(ds, Carried(active), known, next, k) == id <==> AsksFor(active, ds[k], id))
  {
    TargetExactly(a, active, ds[k], id);
  }

  lemma FiledKeeps(env: Env, inputs: seq<ProductInput>, k: nat)
    requires k < |inputs|
    ensures var d, f := DraftProducts(env, inputs)[k], Filed(env.a, DraftProducts(env, inputs))[k];
            f.clientId == d.clientId && f.productId == d.productId != Some(0)
  {
    DraftProductAt(env, inputs, k);
    FiledAt(env.a, DraftProducts(env, inputs), k);
  }

  lemma SameAsks(active: seq<CatalogRow>, d: ProductDraft, e: ProductDraft, id: ProductId)
    requires d.clientId == e.clientId && d.productId == e.productId
    ensures AsksFor(active, d, id) == AsksFor(active, e, id)
  {
  }

  lemma PublishedRow(env: Env, s: Catalogue, id: nat, t: Catalogue, v: nat, k: nat)
    requires PublishStep(env, s, id, t, Published(v)) && t != s && k < |Republished(env, s, id).products|
    ensures v == |s.versions| && v < |t.versions| && k < |t.versions[v].rows|
    ensures t.versions[v].rows[k].productId
            == Assigned(Filed(env.a, Republished(env, s, id).products), Carried(ActiveRows(s, s.drafts[id].slug)), s.products.Keys, s.nextProduct, k)
  {
    var rows :| IsPublication(env.a, s, id, Republished(env, s, id), t, rows);
  }

  /** The product of each published row is the known one it asks for, or else a new one. */
  lemma PublishedProductExactly(env: Env, s: Catalogue, id: nat, t: Catalogue, v: nat, k: nat, product: ProductId)
    requires Sound(env.a, s) && PublishStep(env, s, id, t, Published(v)) && t != s && k < |Republished(env, s, id).products|
    ensures v == |s.versions| && v < |t.versions| && k < |t.versions[v].rows|
    ensures product in s.products ==>
              (t.versions[v].rows[k].productId == product
               <==> AsksFor(ActiveRows(s, s.drafts[id].slug), Republished(env, s, id).products[k], product))
  {
    var active, products := ActiveRows(s, s.drafts[id].slug), Republished(env, s, id).products;
    PublishedRow(env, s, id, t, v, k);
    FiledKeeps(env, PayloadOf(s.drafts[id].proposal).products, k);
    ActiveRowsSound(env.a, s, s.drafts[id].slug);
    SameAsks(active, products[k], Filed(env.a, products)[k], product);
    AssignedExactly(env.a, active, Filed(env.a, products), s.products.Keys, s.nextProduct, k, product);
  }

  lemma {:induction false} RenamedExactly(products: map<ProductId, string>, rows: seq<CatalogRow>, k: nat)
    requires k < |rows| && forall i, j :: 0 <= i < j < |rows| ==> rows[i].productId != rows[j].productId
    ensures rows[k].productId in Renamed(products, rows) && Renamed(products, rows)[rows[k].productId] == rows[k].name
    decreases |rows|
  {
    if k < |rows| - 1 {
      RenamedExactly(products, rows[..|rows| - 1], k);
    }
  }

  lemma {:induction false} RenamedOthers(products: map<ProductId, string>, rows: seq<CatalogRow>, id: ProductId)
    requires id in products && forall row :: row in rows ==> row.productId != id
    ensures id in Renamed(products, rows) && Renamed(products, rows)[id] == products[id]
    decreases |rows|
  {
    if rows != [] {
      assert rows[|rows| - 1] in rows;
      RenamedOthers(products, rows[..|rows| - 1], id);
    }
  }

  lemma RenamedBy(a: Alphabet, products: map<ProductId, string>, rows: seq<CatalogRow>, row: CatalogRow)
    requires RowsSound(a, rows) && row in rows
    ensures row.productId in Renamed(products, rows) && Renamed(products, rows)[row.productId] == row.name
  {
    var k: nat :| k < |rows| && rows[k] == row;
    RenamedExactly(products, rows, k);
  }

  lemma PublishedWrites(env: Env, s: Catalogue, id: nat, t: Catalogue, v: nat)
    requires Sound(env.a, s) && PublishStep(env, s, id, t, Published(v)) && t != s
    ensures v == |s.versions| && v < |t.versions| && RowsSound(env.a, t.versions[v].rows) && t.products == Renamed(s.products, t.versions[v].rows)
  {
    var rows: seq<CatalogRow> :| IsPublication(env.a, s, id, Republished(env, s, id), t, rows);
    NewRowsSound(env, PayloadOf(s.drafts[id].proposal), Carried(ActiveRows(s, s.drafts[id].slug)), s.products.Keys, s.nextProduct, rows);
  }

  /** Publishing gives the products of its rows the rows' names and leaves all others as they are. */
  lemma PublishingRenames(env: Env, s: Catalogue, id: nat, t: Catalogue, v: nat, product: ProductId)
    requires Sound(env.a, s) && PublishStep(env, s, id, t, Published(v)) && t != s
    ensures v == |s.versions| && v < |t.versions|
    ensures forall row :: row in t.versions[v].rows ==> row.productId in t.products && t.products[row.productId] == row.name
    ensures product in s.products && (forall row :: row in t.versions[v].rows ==> row.productId != product)
            ==> product in t.products && t.products[product] == s.products[product]
  {
    PublishedWrites(env, s, id, t, v);
    var rows := t.versions[v].rows;
    forall row | row in rows
      ensures row.productId in t.products && t.products[row.productId] == row.name
    {
      RenamedBy(env.a, s.products, rows, row);
    }
    if product in s.products && forall row :: row in rows ==> row.productId != product {
      RenamedOthers(s.products, rows, product);
    }
  }

  /** Two products of the payload have one key, or ask for the same product. */
  ghost predicate Rivals(active: seq<CatalogRow>, ds: seq<ProductDraft>, i: nat, j: nat)
    requires i < j < |ds|
  {
    ds[i].clientId == ds[j].clientId || exists id :: AsksFor(active, ds[i], id) && AsksFor(active, ds[j], id)
  }

  lemma ClashExactly(a: Alphabet, active: seq<CatalogRow>, ds: seq<ProductDraft>, known: set<ProductId>, next: ProductId, i: nat, j: nat)
    requires RowsSound(a, active) && i < j < |ds| && (forall x :: x in known ==> x < next)
    requires ds[i].productId != Some(0) && ds[j].productId != Some(0)
    requires forall id :: AsksFor(active, ds[i], id) || AsksFor(active, ds[j], id) ==> id in known
    ensures Clash(ds, Carried(active), known, next, i, j) <==> Rivals(active, ds, i, j)
  {
    var carried := Carried(active);
    forall id
      ensures Target(ds[i], carried) == Some(id) <==> AsksFor(active, ds[i], id)
      ensures Target(ds[j], carried) == Some(id) <==> AsksFor(active, ds[j], id)
    {
      TargetExactly(a, active, ds[i], id);
      TargetExactly(a, active, ds[j], id);
    }
  }

  lemma SameRivals(active: seq<CatalogRow>, ds: seq<ProductDraft>, fs: seq<ProductDraft>, i: nat, j: nat)
    requires i < j < |ds| == |fs|
    requires ds[i].clientId == fs[i].clientId && ds[i].productId == fs[i].productId
    requires ds[j].clientId == fs[j].clientId && ds[j].productId == fs[j].productId
    ensures Rivals(active, fs, i, j) == Rivals(active, ds, i, j)
  {
    forall id
      ensures AsksFor(active, ds[i], id) == AsksFor(active, fs[i], id) && AsksFor(active, ds[j], id) == AsksFor(active, fs[j], id)
    {
      SameAsks(active, ds[i], fs[i], id);
      SameAsks(active, ds[j], fs[j], id);
    }
  }

  /** A draft that is not blocked and whose explicit product ids exist is published exactly when its keys differ and no
      two of its products ask for the same one. */
  lemma PublishesExactly(env: Env, s: Catalogue, id: nat, t: Catalogue, r: Outcome)
    requires Sound(env.a, s) && id < |s.drafts| && VersionOf(s.versions, id).None? && PublishStep(env, s, id, t, r)
    requires !MustBlock(env.a, Republished(env, s, id))
    requires forall d :: d in Republished(env, s, id).products && d.productId.Some? ==> d.productId.value in s.products
    ensures var ds, active := Republished(env, s, id).products, ActiveRows(s, s.drafts[id].slug);
            r == Published(|s.versions|) <==> forall i: nat, j: nat :: i < j < |ds| ==> !Rivals(active, ds, i, j)
  {
    var ds, active := Republished(env, s, id).products, ActiveRows(s, s.drafts[id].slug);
    var fs := Filed(env.a, ds);
    ActiveRowsSound(env.a, s, s.drafts[id].slug);
    forall i: nat, j: nat | i < j < |ds|
      ensures Clash(fs, Carried(active), s.products.Keys, s.nextProduct, i, j) <==> Rivals(active, ds, i, j)
    {
      FiledKeeps(env, PayloadOf(s.drafts[id].proposal).products, i);
      FiledKeeps(env, PayloadOf(s.drafts[id].proposal).products, j);
      SameRivals(active, ds, fs, i, j);
      AskedIsKnown(env.a, s, active, ds, fs, i);
      AskedIsKnown(env.a, s, active, ds, fs, j);
      ClashExactly(env.a, active, fs, s.products.Keys, s.nextProduct, i, j);
    }
  }

  lemma AskedIsKnown(a: Alphabet, s: Catalogue, active: seq<CatalogRow>, ds: seq<ProductDraft>, fs: seq<ProductDraft>, i: nat)
    requires fs == Filed(a, ds) && i < |ds| && forall row :: row in active ==> row.productId in s.products
    requires forall d :: d in ds && d.productId.Some? ==> d.productId.value in s.products
    ensures forall id :: AsksFor(active, fs[i], id) ==> id in s.products
  {
    FiledAt(a, ds, i);
    assert ds[i] in ds;
  }

  /** The catalogue the resolver loads for a version. */
  function PublishedAliases(aliases: seq<Alias>): (r: seq<Runtime.PublishedAlias>)
    ensures |r| == |aliases| && forall i :: 0 <= i < |r| ==> r[i] == Runtime.PublishedAlias(aliases[i].value, aliases[i].priority)
  {
    seq(|aliases|, i requires 0 <= i < |aliases| => Runtime.PublishedAlias(aliases[i].value, aliases[i].priority))
  }

  function Loaded(row: CatalogRow): Runtime.CatalogProduct {
    Runtime.CatalogProduct(row.productId, row.name, PublishedAliases(row.aliases), Some(row.category))
  }

  function CatalogOf(rows: seq<CatalogRow>): (r: seq<Runtime.CatalogProduct>)
    ensures |r| == |rows| && forall i :: 0 <= i < |r| ==> r[i] == Loaded(rows[i])
  {
    seq(|rows|, i requires 0 <= i < |rows| => Loaded(rows[i]))
  }

  predicate HasForm(a: Alphabet, aliases: seq<Alias>, form: string) {
    exists x | x in aliases :: Normalize(a, x.value) == form
  }

  /** Every product's own name is among its approved aliases (or has no normal form at all). */
  ghost predicate NamesApproved(a: Alphabet, rows: seq<CatalogRow>) {
    forall i :: 0 <= i < |rows| ==> Normalize(a, rows[i].name) == "" || HasForm(a, rows[i].aliases, Normalize(a, rows[i].name))
  }

  lemma {:induction false} TermsAreForms(a: Alphabet, terms: map<string, int>, aliases: seq<Runtime.PublishedAlias>, form: string)
    requires form in Runtime.AddAliases(a, terms, aliases)
    ensures form in terms || exists x :: x in aliases && Normalize(a, x.value) == form
    decreases |aliases|
  {
    if aliases != [] {
      var last := aliases[|aliases| - 1];
      assert last in aliases;
      if form in Runtime.AddAliases(a, terms, aliases[..|aliases| - 1]) {
        TermsAreForms(a, terms, aliases[..|aliases| - 1], form);
      }
    }
  }

  lemma TermHasAlias(a: Alphabet, rows: seq<CatalogRow>, i: nat, form: string) returns (x: Alias)
    requires NamesApproved(a, rows) && i < |rows| && form != "" && form in Runtime.Terms(a, Loaded(rows[i]))
    ensures x in rows[i].aliases && Normalize(a, x.value) == form
  {
    TermsAreForms(a, map[Normalize(a, rows[i].name) := 10], PublishedAliases(rows[i].aliases), form);
    if form == Normalize(a, rows[i].name) {
      x :| x in rows[i].aliases && Normalize(a, x.value) == form;
    } else {
      var y :| y in PublishedAliases(rows[i].aliases) && Normalize(a, y.value) == form;
      var j: nat :| j < |rows[i].aliases| && PublishedAliases(rows[i].aliases)[j] == y;
      x := rows[i].aliases[j];
    }
  }

  /** What publishing guarantees is what the resolver needs. */
  lemma SoundRowsAreUnambiguous(a: Alphabet, rows: seq<CatalogRow>)
    requires RowsSound(a, rows) && NamesApproved(a, rows)
    ensures Runtime.Unambiguous(a, CatalogOf(rows))
  {
    var catalog := CatalogOf(rows);
    forall p, q | p in catalog && q in catalog
        && (p.productId == q.productId || Runtime.Terms(a, p).Keys * Runtime.Terms(a, q).Keys - {""} != {})
      ensures p == q
    {
      var i: nat :| i < |catalog| && catalog[i] == p;
      var j: nat :| j < |catalog| && catalog[j] == q;
      SharedTermIsSameRow(a, rows, i, j);
    }
  }

  lemma SharedTermIsSameRow(a: Alphabet, rows: seq<CatalogRow>, i: nat, j: nat)
    requires RowsSound(a, rows) && NamesApproved(a, rows) && i < |rows| && j < |rows|
    requires rows[i].productId == rows[j].productId
             || Runtime.Terms(a, Loaded(rows[i])).Keys * Runtime.Terms(a, Loaded(rows[j])).Keys - {""} != {}
    ensures i == j
  {
    if rows[i].productId != rows[j].productId {
      var form :| form in Runtime.Terms(a, Loaded(rows[i])).Keys * Runtime.Terms(a, Loaded(rows[j])).Keys - {""};
      var x := TermHasAlias(a, rows, i, form);
      var y := TermHasAlias(a, rows, j, form);
    }
  }

  /** Publisher and resolver together: in any reachable state, a message that is exactly a term of a product of the
      active version, of the strongest matching priority, resolves to that product alone, unless it names the
      category of another strongest match and not this product's. */
  lemma PublishedAliasResolves(a: Alphabet, s: Catalogue, slug: Slug, v: nat, message: string, p: Runtime.CatalogProduct, term: string)
    requires ValidAlphabet(a) && Sound(a, s) && ActiveVersion(s, slug).1 == Some(v) && NamesApproved(a, s.versions[v].rows)
    requires p in CatalogOf(s.versions[v].rows) && Normalize(a, message) == term && term != "" && term in Runtime.Terms(a, p)
    requires Runtime.IsStrongest(Runtime.AllHits(a, CatalogOf(s.versions[v].rows), term), Runtime.Hit(p.productId, term, Runtime.Terms(a, p)[term]))
    ensures var catalog := CatalogOf(s.versions[v].rows);
            var categoryIds := Runtime.CategoryProducts(a, catalog, term);
            var rivals := Runtime.ProductIds(Runtime.Strongest(Runtime.AllHits(a, catalog, term))) * categoryIds;
            Runtime.Resolve(a, catalog, message) == Runtime.Resolution(Some(p.productId), false, [p.productId])
            <==> (rivals == {} || p.productId in categoryIds)
  {
    assert VersionSound(a, s, v);
    SoundRowsAreUnambiguous(a, s.versions[v].rows);
    Runtime.ExactAliasResolves(a, CatalogOf(s.versions[v].rows), message, p, term);
  }

  /** Event `k` drafted this payload as draft `id`, and no later event before `n` replaced it. */
  ghost predicate DraftedAs(events: seq<Event>, outcomes: seq<Outcome>, k: nat, n: nat, id: nat, payload: Payload) {
    && k < n <= |events| == |outcomes| && outcomes[k] == Drafted(id)
    && (events[k].Create? || events[k].Update?) && events[k].payload == payload
    && forall i :: k < i < n ==> !Replaces(events[i], outcomes[i], id)
  }

  predicate Replaces(event: Event, outcome: Outcome, id: nat) {
    event.Update? && outcome == Drafted(id)
  }

  /** The rows are those of the drafts, each with some product. */
  ghost predicate RowsOf(ds: seq<ProductDraft>, rows: seq<CatalogRow>) {
    |rows| == |ds| && forall i :: 0 <= i < |ds| ==> rows[i] == RowFor(ds[i], rows[i].productId)
  }

  /** The draft holds the proposal, and if it was published, that is what was published. */
  ghost predicate Holds(env: Env, s: Catalogue, id: nat, proposal: Proposal) {
    && id < |s.drafts| && s.drafts[id].proposal == proposal
    && var v := VersionOf(s.versions, id);
       v.Some? ==> !MustBlock(env.a, proposal) && RowsOf(Filed(env.a, proposal.products), s.versions[v.value].rows)
  }

  lemma DraftingHolds(env: Env, s: Catalogue, event: Event, t: Catalogue, id: nat)
    requires ValidEnv(env) && Sound(env.a, s) && Next(env, s, event, t, Drafted(id)) && (event.Create? || event.Update?)
    ensures Holds(env, t, id, Propose(env, event.payload))
  {
    if event.Create? {
      forall i: nat | i < |s.versions|
        ensures s.versions[i].sourceDraft != id
      {
        assert VersionSound(env.a, s, i);
      }
    }
  }

  lemma PublishingHolds(env: Env, s: Catalogue, published: nat, t: Catalogue, rows: seq<CatalogRow>, id: nat, proposal: Proposal)
    requires ValidEnv(env) && Sound(env.a, s) && Holds(env, s, id, proposal) && Propose(env, PayloadOf(proposal)) == proposal
    requires published < |s.drafts| && VersionOf(s.versions, published).None? && !MustBlock(env.a, Republished(env, s, published))
    requires IsPublication(env.a, s, published, Republished(env, s, published), t, rows)
    ensures Holds(env, t, id, proposal)
  {
    PublicationIsAfterPublish(env.a, s, published, Republished(env, s, published), t, rows);
    if published != id {
      OthersHold(env, s, published, Republished(env, s, published), t, rows, id, proposal);
    } else {
      assert t.versions[..|s.versions|] == s.versions;
    }
  }

  lemma OthersHold(env: Env, s: Catalogue, published: nat, written: Proposal, t: Catalogue, rows: seq<CatalogRow>, id: nat, proposal: Proposal)
    requires published < |s.drafts| && published != id && Holds(env, s, id, proposal)
    requires t == AfterPublish(s, published, written, rows, t.nextProduct)
    ensures Holds(env, t, id, proposal)
  {
    assert t.versions[..|s.versions|] == s.versions;
    assert VersionOf(t.versions, id) == VersionOf(s.versions, id);
  }

  lemma NextHolds(env: Env, s: Catalogue, event: Event, t: Catalogue, r: Outcome, id: nat, proposal: Proposal)
    requires ValidEnv(env) && Sound(env.a, s) && Next(env, s, event, t, r) && !Replaces(event, r, id)
    requires Holds(env, s, id, proposal) && Propose(env, PayloadOf(proposal)) == proposal
    ensures Holds(env, t, id, proposal)
  {
    if event.Publish? && r.Published? && t != s {
      var rows :| IsPublication(env.a, s, event.draft, Republished(env, s, event.draft), t, rows);
      PublishingHolds(env, s, event.draft, t, rows, id, proposal);
    }
  }

  lemma RunNext(env: Env, states: seq<Catalogue>, events: seq<Event>, outcomes: seq<Outcome>, k: nat)
    requires IsRun(env, states, events, outcomes) && k < |events|
    ensures Sound(env.a, states[k]) && Next(env, states[k], events[k], states[k + 1], outcomes[k])
  {
    RunIsSound(env, states, events, outcomes, k);
  }

  lemma RunDrafts(env: Env, states: seq<Catalogue>, events: seq<Event>, outcomes: seq<Outcome>, k: nat, id: nat)
    requires ValidEnv(env) && IsRun(env, states, events, outcomes) && k < |events| && outcomes[k] == Drafted(id) && (events[k].Create? || events[k].Update?)
    ensures Holds(env, states[k + 1], id, Propose(env, events[k].payload))
  {
    RunNext(env, states, events, outcomes, k);
    DraftingHolds(env, states[k], events[k], states[k + 1], id);
  }

  lemma RunHolds(env: Env, states: seq<Catalogue>, events: seq<Event>, outcomes: seq<Outcome>, k: nat, id: nat, proposal: Proposal)
    requires ValidEnv(env) && IsRun(env, states, events, outcomes) && k < |events| && !Replaces(events[k], outcomes[k], id)
    requires Holds(env, states[k], id, proposal) && Propose(env, PayloadOf(proposal)) == proposal
    ensures Holds(env, states[k + 1], id, proposal)
  {
    RunNext(env, states, events, outcomes, k);
    NextHolds(env, states[k], events[k], states[k + 1], outcomes[k], id, proposal);
  }

  ghost predicate HoldsOn(env: Env, states: seq<Catalogue>, k: nat, n: nat, id: nat, proposal: Proposal)
    requires k < n < |states|
  {
    forall i :: k < i < n && Holds(env, states[i], id, proposal) ==> Holds(env, states[i + 1], id, proposal)
  }

  lemma {:induction false} HoldsAlong(env: Env, states: seq<Catalogue>, k: nat, n: nat, id: nat, proposal: Proposal)
    requires k < n < |states| && Holds(env, states[k + 1], id, proposal) && HoldsOn(env, states, k, n, id, proposal)
    ensures Holds(env, states[n], id, proposal)
    decreases n
  {
    if k + 1 < n {
      HoldsAlong(env, states, k, n - 1, id, proposal);
      assert Holds(env, states[n - 1 + 1], id, proposal);
    }
  }

  lemma RunHoldsOn(env: Env, states: seq<Catalogue>, events: seq<Event>, outcomes: seq<Outcome>, k: nat, n: nat, id: nat, proposal: Proposal)
    requires ValidEnv(env) && IsRun(env, states, events, outcomes) && k < n < |states| && Propose(env, PayloadOf(proposal)) == proposal
    requires forall i :: k < i < n ==> !Replaces(events[i], outcomes[i], id)
    ensures HoldsOn(env, states, k, n, id, proposal)
  {
    forall i | k < i < n && Holds(env, states[i], id, proposal)
      ensures Holds(env, states[i + 1], id, proposal)
    {
      RunHolds(env, states, events, outcomes, i, id, proposal);
    }
  }

  lemma DraftHolds(env: Env, states: seq<Catalogue>, events: seq<Event>, outcomes: seq<Outcome>, k: nat, n: nat, id: nat, payload: Payload)
    requires ValidEnv(env) && IsRun(env, states, events, outcomes) && DraftedAs(events, outcomes, k, n, id, payload) && SchemaValid(payload)
    ensures Holds(env, states[n], id, Propose(env, payload))
  {
    SchemaReproduces(env, payload);
    RunDrafts(env, states, events, outcomes, k, id);
    RunHoldsOn(env, states, events, outcomes, k, n, id, Propose(env, payload));
    HoldsAlong(env, states, k, n, id, Propose(env, payload));
  }

  lemma SchemaReproduces(env: Env, payload: Payload)
    requires ValidEnv(env) && SchemaValid(payload)
    ensures Propose(env, PayloadOf(Propose(env, payload))) == Propose(env, payload)
  {
    SchemaKeepsKeys(env.a, payload);
    ReanalysisReproduces(env, payload);
  }

  lemma BlockedExactly(env: Env, s: Catalogue, id: nat, t: Catalogue, r: Outcome, proposal: Proposal)
    requires PublishStep(env, s, id, t, r) && Holds(env, s, id, proposal) && Propose(env, PayloadOf(proposal)) == proposal
    ensures r == Blocked <==> MustBlock(env.a, proposal)
  {
  }

  /** Whatever happens to other drafts in between, publishing a draft is blocked exactly when the analysis of the
      payload it was drafted from already was. */
  lemma PublishDecidesAsDrafted(env: Env, states: seq<Catalogue>, events: seq<Event>, outcomes: seq<Outcome>, k: nat, n: nat, id: nat, payload: Payload)
    requires ValidEnv(env) && IsRun(env, states, events, outcomes) && DraftedAs(events, outcomes, k, n, id, payload) && SchemaValid(payload)
    requires n < |events| && events[n] == Publish(id)
    ensures outcomes[n] == Blocked <==> MustBlock(env.a, Propose(env, payload))
  {
    DraftHolds(env, states, events, outcomes, k, n, id, payload);
    SchemaReproduces(env, payload);
    RunNext(env, states, events, outcomes, n);
    BlockedExactly(env, states[n], id, states[n + 1], outcomes[n], Propose(env, payload));
  }

  /** No disapproved entry of the client's list takes the place of the product's own name. */
  predicate NameKept(a: Alphabet, p: ProductInput) {
    Normalize(a, p.name) == "" || NeverOverridden(FromAllProvided(a, p.aliases), Normalize(a, p.name))
  }

  lemma RowNameApproved(env: Env, p: ProductInput, index: nat, productId: ProductId)
    requires ValidEnv(env) && |p.name| <= MAX_NAME
    ensures var row := RowFor(DraftProduct(env, p, index), productId);
            Normalize(env.a, row.name) == Normalize(env.a, p.name)
            && (Normalize(env.a, row.name) == "" || HasForm(env.a, row.aliases, Normalize(env.a, row.name)) <==> NameKept(env.a, p))
  {
    var row, q := RowFor(DraftProduct(env, p, index), productId), p.(keywords := CleanKeywords(env.a, p.keywords));
    var form := Normalize(env.a, p.name);
    NormalizeStrip(env.a, p.name);
    StripNoLonger(env.a, p.name);
    if form != "" {
      var aliases := AliasesOf(env.a, env.gen, q);
      AliasesWellMade(env.a, env.gen, q);
      CanonicalNameApproved(env.a, env.gen, q, MakeAlias(env.a, p.name, "canonical", "manager", 10).value);
      assert HasForm(env.a, row.aliases, form) <==> ApprovesForm(aliases, form) by {
        assert forall x :: x in row.aliases <==> x in aliases && x.approved;
      }
    }
  }

  lemma NamesOfRows(env: Env, inputs: seq<ProductInput>, rows: seq<CatalogRow>)
    requires ValidEnv(env) && RowsOf(Filed(env.a, DraftProducts(env, inputs)), rows) && forall p :: p in inputs ==> |p.name| <= MAX_NAME
    ensures NamesApproved(env.a, rows) <==> forall p | p in inputs :: NameKept(env.a, p)
  {
    forall i: nat | i < |rows|
      ensures Normalize(env.a, rows[i].name) == "" || HasForm(env.a, rows[i].aliases, Normalize(env.a, rows[i].name)) <==> NameKept(env.a, inputs[i])
    {
      DraftProductAt(env, inputs, i);
      FiledAt(env.a, DraftProducts(env, inputs), i);
      RowNameApproved(env, inputs[i], i, rows[i].productId);
    }
  }

  /** A published catalogue approves every product's own name exactly when no product of the payload had its name
      overridden by a disapproved entry. */
  lemma PublishedNamesApproved(env: Env, states: seq<Catalogue>, events: seq<Event>, outcomes: seq<Outcome>, k: nat, n: nat, id: nat, payload: Payload, v: nat)
    requires ValidEnv(env) && IsRun(env, states, events, outcomes) && DraftedAs(events, outcomes, k, n, id, payload) && SchemaValid(payload)
    requires VersionOf(states[n].versions, id) == Some(v)
    ensures NamesApproved(env.a, states[n].versions[v].rows) <==> forall p | p in payload.products :: NameKept(env.a, p)
  {
    DraftHolds(env, states, events, outcomes, k, n, id, payload);
    NamesOfRows(env, payload.products, states[n].versions[v].rows);
  }

  /** In every run a published product answers to the category as the first product of its normal form spells it, parts
      between slashes included, whatever its own spelling is; two products do so alike exactly when their categories
      have one normal form. */
  lemma PublishedCategoryIsShared(env: Env, states: seq<Catalogue>, events: seq<Event>, outcomes: seq<Outcome>, k: nat, n: nat, id: nat, payload: Payload,
                                  v: nat, x: nat, y: nat) returns (i: nat)
    requires ValidEnv(env) && IsRun(env, states, events, outcomes) && DraftedAs(events, outcomes, k, n, id, payload) && SchemaValid(payload)
    requires VersionOf(states[n].versions, id) == Some(v) && x < |payload.products| && y < |payload.products|
    ensures var ds, rows := Propose(env, payload).products, states[n].versions[v].rows;
            && |rows| == |ds| == |payload.products|
            && i <= x && Normalize(env.a, ds[i].category) == Normalize(env.a, ds[x].category)
            && (forall j :: 0 <= j < i ==> Normalize(env.a, ds[j].category) != Normalize(env.a, ds[x].category))
            && Loaded(rows[x]).category == Some(ds[i].category)
            && (rows[x].category == rows[y].category <==> Normalize(env.a, ds[x].category) == Normalize(env.a, ds[y].category))
    ensures var p := payload.products[i];
            Propose(env, payload).products[i].category
            == if Strip(env.a, p.category) != "" then Strip(env.a, p.category)
               else env.infer(Strip(env.a, p.name), CleanKeywords(env.a, p.keywords))
  {
    DraftHolds(env, states, events, outcomes, k, n, id, payload);
    var ds := Propose(env, payload).products;
    i := FiledUnderFirst(env.a, ds, x);
    SharedCategory(env.a, ds, x, y);
    DraftProductAt(env, payload.products, i);
  }

  /** What publishing makes of product `p`, the `i`-th of the payload: its key and name, and every approved alias of its
      list, with the alias's own text and priority. */
  ghost predicate Carries(env: Env, p: ProductInput, i: nat, row: CatalogRow) {
    && row.externalKey == (if Strip(env.a, p.clientId) == "" then env.autoKey(i, Normalize(env.a, p.name)) else Strip(env.a, p.clientId))
    && row.name == Strip(env.a, p.name)
    && forall x :: x in row.aliases <==> x.approved && x in AliasesOf(env.a, env.gen, p.(keywords := CleanKeywords(env.a, p.keywords)))
  }

  lemma DraftCarries(env: Env, p: ProductInput, i: nat, category: string, id: ProductId)
    requires |p.clientId| <= MAX_KEY
    ensures Carries(env, p, i, RowFor(DraftProduct(env, p, i).(category := category), id))
  {
    StripNoLonger(env.a, p.clientId);
  }

  lemma FiledRowCarries(env: Env, inputs: seq<ProductInput>, rows: seq<CatalogRow>, i: nat)
    requires RowsOf(Filed(env.a, DraftProducts(env, inputs)), rows) && i < |inputs| && |inputs[i].clientId| <= MAX_KEY
    ensures i < |rows| && Carries(env, inputs[i], i, rows[i])
  {
    DraftProductAt(env, inputs, i);
    FiledAt(env.a, DraftProducts(env, inputs), i);
    DraftCarries(env, inputs[i], i, Filed(env.a, DraftProducts(env, inputs))[i].category, rows[i].productId);
  }

  /** In every run the rows of a published draft carry exactly the approved aliases of the payload it was drafted from. */
  lemma PublishedRowsCarryAliases(env: Env, states: seq<Catalogue>, events: seq<Event>, outcomes: seq<Outcome>, k: nat, n: nat, id: nat,
                                  payload: Payload, v: nat, i: nat)
    requires ValidEnv(env) && IsRun(env, states, events, outcomes) && DraftedAs(events, outcomes, k, n, id, payload) && SchemaValid(payload)
    requires VersionOf(states[n].versions, id) == Some(v) && i < |payload.products|
    ensures |states[n].versions[v].rows| == |payload.products|
    ensures Carries(env, payload.products[i], i, states[n].versions[v].rows[i])
  {
    DraftHolds(env, states, events, outcomes, k, n, id, payload);
    assert payload.products[i] in payload.products;
    FiledRowCarries(env, payload.products, states[n].versions[v].rows, i);
  }

  lemma AliasOccurs(a: Alphabet, rows: seq<CatalogRow>, i: nat, x: Alias, m: string)
    requires i < |rows| && x in rows[i].aliases && x.normalized == Normalize(a, x.value) && Contains(a, m, x.normalized)
    ensures Runtime.OccursIn(a, CatalogOf(rows), m, rows[i].productId, x.normalized, x.priority)
  {
    var p := Loaded(rows[i]);
    assert CatalogOf(rows)[i] == p;
    var j: nat :| j < |rows[i].aliases| && rows[i].aliases[j] == x;
    assert PublishedAliases(rows[i].aliases)[j] in PublishedAliases(rows[i].aliases);
    assert Runtime.Occurs(a, m, p, x.normalized, x.priority);
  }

  /** So the customer is heard: a message that contains an approved alias of a published product hits that product, at
      the alias's priority or better. */
  lemma PublishedAliasIsHit(env: Env, states: seq<Catalogue>, events: seq<Event>, outcomes: seq<Outcome>, k: nat, n: nat, id: nat,
                            payload: Payload, v: nat, i: nat, x: Alias, message: string)
    requires ValidEnv(env) && IsRun(env, states, events, outcomes) && DraftedAs(events, outcomes, k, n, id, payload) && SchemaValid(payload)
    requires VersionOf(states[n].versions, id) == Some(v) && i < |payload.products|
    requires var p := payload.products[i];
             x.approved && x in AliasesOf(env.a, env.gen, p.(keywords := CleanKeywords(env.a, p.keywords)))
    requires Contains(env.a, Normalize(env.a, message), x.normalized)
    ensures i < |states[n].versions[v].rows|
    ensures var rows := states[n].versions[v].rows;
            Runtime.OccursIn(env.a, CatalogOf(rows), Normalize(env.a, message), rows[i].productId, x.normalized, x.priority)
    ensures var rows := states[n].versions[v].rows;
            exists priority :: priority <= x.priority
              && Runtime.Hit(rows[i].productId, x.normalized, priority) in Runtime.AllHits(env.a, CatalogOf(rows), Normalize(env.a, message))
  {
    PublishedRowsCarryAliases(env, states, events, outcomes, k, n, id, payload, v, i);
    var p, rows := payload.products[i], states[n].versions[v].rows;
    AliasesWellMade(env.a, env.gen, p.(keywords := CleanKeywords(env.a, p.keywords)));
    NormalizeIdempotent(env.a, message);
    AliasOccurs(env.a, rows, i, x, Normalize(env.a, message));
    Runtime.HitExactly(env.a, CatalogOf(rows), Normalize(env.a, message), rows[i].productId, x.normalized, x.priority);
  }

  /** A message that contains the product's own name hits it at priority 10, also when the name is not approved. */
  lemma PublishedNameIsHit(env: Env, states: seq<Catalogue>, events: seq<Event>, outcomes: seq<Outcome>, k: nat, n: nat, id: nat,
                           payload: Payload, v: nat, i: nat, message: string)
    requires ValidEnv(env) && IsRun(env, states, events, outcomes) && DraftedAs(events, outcomes, k, n, id, payload) && SchemaValid(payload)
    requires VersionOf(states[n].versions, id) == Some(v) && i < |payload.products|
    requires Contains(env.a, Normalize(env.a, message), Normalize(env.a, payload.products[i].name))
    ensures i < |states[n].versions[v].rows|
    ensures var rows := states[n].versions[v].rows;
            Runtime.OccursIn(env.a, CatalogOf(rows), Normalize(env.a, message), rows[i].productId, Normalize(env.a, payload.products[i].name), 10)
  {
    PublishedRowsCarryAliases(env, states, events, outcomes, k, n, id, payload, v, i);
    NormalizeStrip(env.a, payload.products[i].name);
    NameOccurs(env.a, states[n].versions[v].rows, i, Normalize(env.a, payload.products[i].name), Normalize(env.a, message));
  }

  lemma NameOccurs(a: Alphabet, rows: seq<CatalogRow>, i: nat, term: string, m: string)
    requires i < |rows| && term == Normalize(a, rows[i].name) && Contains(a, m, term)
    ensures Runtime.OccursIn(a, CatalogOf(rows), m, rows[i].productId, term, 10)
  {
    assert CatalogOf(rows)[i] == Loaded(rows[i]);
    assert Runtime.Occurs(a, m, Loaded(rows[i]), term, 10);
  }

  /** The letters of the example below, and a slash that normalizes to a blank as punctuation does. */
  ghost predicate KnowsExample(a: Alphabet) {
    && ValidAlphabet(a) && a.fold('/') == ' ' && a.fold('a') == 'a' && a.fold('b') == 'b' && !a.isSpace('a') && !a.isSpace('b')
  }

  lemma ExampleForms(a: Alphabet)
    requires KnowsExample(a)
    ensures Normalize(a, "a") == "a" && Normalize(a, "b") == "b" && Normalize(a, "a b") == "a b" && Normalize(a, "a/b") == "a b"
  {
    assert Squeeze(a, "a") == "a" && Squeeze(a, "b") == "b" by {
      assert "a"[..0] == "" && "b"[..0] == "";
    }
    SpacedForm(a, ' ');
    SpacedForm(a, '/');
  }

  lemma SpacedForm(a: Alphabet, c: char)
    requires KnowsExample(a) && a.fold(c) == ' ' && Squeeze(a, "a") == "a"
    ensures Normalize(a, ['a', c, 'b']) == "a b"
  {
    var s := ['a', c, 'b'];
    assert s[..2] == ['a', c] && ['a', c][..1] == "a";
    assert Squeeze(a, ['a', c]) == "a ";
    assert Squeeze(a, s) == "a b";
  }

  lemma SplitCons(c: char, s: string, parts: seq<string>)
    requires parts == Runtime.Split(s, '/')
    ensures parts != [] && Runtime.Split([c] + s, '/') == if c == '/' then [""] + parts else [[c] + parts[0]] + parts[1..]
  {
    assert ([c] + s)[1..] == s;
  }

  lemma ExampleParts()
    ensures Runtime.Split("a/b", '/') == ["a", "b"] && Runtime.Split("a b", '/') == ["a b"]
  {
    SplitCons('b', "", [""]);
    assert ['b'] + "" == "b" && [['b'] + ""] + [""][1..] == ["b"];
    SplitCons('/', "b", ["b"]);
    SplitCons(' ', "b", ["b"]);
    assert ['/'] + "b" == "/b" && [' '] + "b" == " b" && [[' '] + "b"] + ["b"][1..] == [" b"];
    SplitCons('a', "/b", ["", "b"]);
    SplitCons('a', " b", [" b"]);
    assert ['a'] + "/b" == "a/b" && ['a'] + " b" == "a b";
    assert ['a'] + "" == "a" && ["", "b"][1..] == ["b"] && [['a'] + " b"] + [" b"][1..] == ["a b"];
  }

  lemma NotContained(a: Alphabet)
    ensures !Contains(a, "b", "a b")
  {
  }

  /** The second product is in category "a b", which the first spelled "a/b": so it answers to "b", which its own
      spelling does not contain as a part. */
  lemma OtherSpellingAnswers(a: Alphabet, d: ProductDraft, e: ProductDraft, id: ProductId)
    requires KnowsExample(a) && d.category == "a/b" && e.category == "a b"
    ensures Filed(a, [d, e])[1].category == "a/b"
    ensures Runtime.CategoryMatches(a, Loaded(RowFor(Filed(a, [d, e])[1], id)), "b")
    ensures !Runtime.CategoryMatches(a, Loaded(RowFor(e, id)), "b")
  {
    ExampleForms(a);
    ExampleParts();
    var i := FiledUnderFirst(a, [d, e], 1);
    assert [d, e][0] == d && [d, e][1] == e;
    ContainsIsReflexive(a, "b");
    NotContained(a);
    assert Runtime.TermInMessage(a, "b", Normalize(a, "b"));
    assert "b" in ["a/b"] + ["a", "b"];
    assert forall value :: value in ["a b"] + ["a b"] ==> value == "a b";
  }

  /** From the payload to the customer: once a schema-valid payload without such an entry is published and active, a
      message that is a term of one of its products, of the strongest matching priority, resolves to that product
      alone, unless it names the category of another strongest match and not this product's. */
  lemma PublishedPayloadResolves(env: Env, states: seq<Catalogue>, events: seq<Event>, outcomes: seq<Outcome>, k: nat, n: nat, id: nat, payload: Payload,
                                 slug: Slug, v: nat, message: string, p: Runtime.CatalogProduct, term: string)
    requires ValidEnv(env) && IsRun(env, states, events, outcomes) && DraftedAs(events, outcomes, k, n, id, payload) && SchemaValid(payload)
    requires forall q | q in payload.products :: NameKept(env.a, q)
    requires VersionOf(states[n].versions, id) == Some(v) && ActiveVersion(states[n], slug).1 == Some(v)
    requires p in CatalogOf(states[n].versions[v].rows) && Normalize(env.a, message) == term && term != "" && term in Runtime.Terms(env.a, p)
    requires Runtime.IsStrongest(Runtime.AllHits(env.a, CatalogOf(states[n].versions[v].rows), term), Runtime.Hit(p.productId, term, Runtime.Terms(env.a, p)[term]))
    ensures var catalog := CatalogOf(states[n].versions[v].rows);
            var categoryIds := Runtime.CategoryProducts(env.a, catalog, term);
            var rivals := Runtime.ProductIds(Runtime.Strongest(Runtime.AllHits(env.a, catalog, term))) * categoryIds;
            Runtime.Resolve(env.a, catalog, message) == Runtime.Resolution(Some(p.productId), false, [p.productId])
            <==> (rivals == {} || p.productId in categoryIds)
  {
    RunIsSound(env, states, events, outcomes, n);
    PublishedNamesApproved(env, states, events, outcomes, k, n, id, payload, v);
    PublishedAliasResolves(env.a, states[n], slug, v, message, p, term);
  }

  lemma PlacedIsWhole(ds: seq<ProductDraft>, carried: map<string, ProductId>, products: map<ProductId, string>, next: ProductId,
                      rows: seq<CatalogRow>, products': map<ProductId, string>, next': ProductId)
    requires Placed(ds, carried, products, next, |ds|, rows, products', next')
    ensures AreRows(ds, carried, products.Keys, next, rows) && products' == Renamed(products, rows)
    ensures next' == next + Created(ds, carried, products.Keys)
  {
    assert ds[..|ds|] == ds;
  }

  lemma PlacedIsPublication(a: Alphabet, s: Catalogue, id: nat, proposal: Proposal, rows: seq<CatalogRow>,
                            products': map<ProductId, string>, next': ProductId)
    requires id < |s.drafts|
    requires var ds, carried := Filed(a, proposal.products), Carried(ActiveRows(s, s.drafts[id].slug));
             && !Clashes(ds, carried, s.products.Keys, s.nextProduct)
             && Placed(ds, carried, s.products, s.nextProduct, |ds|, rows, products', next')
    ensures products' == Renamed(s.products, rows)
    ensures IsPublication(a, s, id, proposal, AfterPublish(s, id, proposal, rows, next'), rows)
  {
    var ds, carried := Filed(a, proposal.products), Carried(ActiveRows(s, s.drafts[id].slug));
    PlacedIsWhole(ds, carried, s.products, s.nextProduct, rows, products', next');
    assert AreRows(ds, carried, s.products.Keys, s.nextProduct, rows);
    assert next' == s.nextProduct + Created(ds, carried, s.products.Keys);
  }

  lemma WrittenIsAfterPublish(s: Catalogue, id: nat, proposal: Proposal, rows: seq<CatalogRow>, next': ProductId, t: Catalogue)
    requires id < |s.drafts|
    requires t.stores == s.stores[s.drafts[id].slug := Some(|s.versions|)]
    requires t.drafts == s.drafts[id := Draft(s.drafts[id].slug, proposal, true)]
    requires t.versions == s.versions + [Version(s.drafts[id].slug, Count(s.versions, s.drafts[id].slug) + 1, id, rows)]
    requires t.products == Renamed(s.products, rows) && t.nextProduct == next'
    ensures t == AfterPublish(s, id, proposal, rows, next')
  {
  }

  class Publisher {
    const env: Env
    var stores: map<Slug, Option<nat>>
    var drafts: seq<Draft>
    var versions: seq<Version>
    var products: map<ProductId, string>
    var nextProduct: ProductId

    ghost function State(): Catalogue
      reads this
    {
      Catalogue(stores, drafts, versions, products, nextProduct)
    }

    ghost predicate Valid()
      reads this
    {
      ValidEnv(env) && Sound(env.a, State())
    }

    constructor (env: Env)
      requires ValidEnv(env)
      ensures Valid() && State() == EMPTY && this.env == env
    {
      this.env := env;
      stores, drafts, versions, products, nextProduct := map[], [], [], map[], 1;
    }

    /** `create_training_draft`, for the store that `ensure_default_store` finds or creates. */
    method CreateDraft(slug: Slug, payload: Payload) returns (r: Outcome, warnings: Warnings)
      requires Valid()
      modifies this
      ensures Valid() && Next(env, old(State()), Create(slug, payload), State(), r)
      ensures IsWarnings(env.a, Propose(env, payload), warnings)
    {
      ghost var before := State();
      if slug !in stores {
        stores := stores[slug := None];
      }
      var proposal;
      proposal, warnings := AnalyzeCatalog(env, payload);
      r := Drafted(|drafts|);
      drafts := drafts + [Draft(slug, proposal, false)];
      NextKeepsSound(env, before, Create(slug, payload), State(), r);
    }

    /** `update_training_draft`. */
    method UpdateDraft(id: nat, payload: Payload) returns (r: Outcome, warnings: Option<Warnings>)
      requires Valid()
      modifies this`drafts
      ensures Valid() && Next(env, old(State()), Update(id, payload), State(), r)
      ensures if r.Drafted? then warnings.Some? && IsWarnings(env.a, Propose(env, payload), warnings.value) else warnings.None?
    {
      ghost var before := State();
      warnings := None;
      if id >= |drafts| {
        r := NotFound;
      } else if drafts[id].published {
        r := AlreadyPublished;
      } else {
        var proposal, found := AnalyzeCatalog(env, payload);
        drafts := drafts[id := drafts[id].(proposal := proposal)];
        r, warnings := Drafted(id), Some(found);
      }
      NextKeepsSound(env, before, Update(id, payload), State(), r);
    }

    /** The query for the version of a draft. */
    method FindVersion(id: nat) returns (v: Option<nat>)
      ensures v == VersionOf(versions, id)
    {
      v := None;
      for i := 0 to |versions|
        invariant v == VersionOf(versions[..i], id)
      {
        assert versions[..i + 1][..i] == versions[..i];
        if versions[i].sourceDraft == id {
          v := Some(i);
        }
      }
      assert versions[..|versions|] == versions;
    }

    /** `func.max(version_number)` over the store's versions. */
    method LargestNumber(slug: Slug) returns (number: nat)
      requires Valid()
      ensures number == Count(versions, slug)
    {
      number := 0;
      for i := 0 to |versions|
        invariant number == MaxNumber(versions[..i], slug)
      {
        assert versions[..i + 1][..i] == versions[..i];
        if versions[i].slug == slug && versions[i].number > number {
          number := versions[i].number;
        }
      }
      assert versions[..|versions|] == versions;
      SoundIsNumbered(env.a, State());
      MaxIsCount(versions, slug);
    }

    /** The keys of the active version and their products. */
    method CarriedProducts(slug: Slug) returns (carried: map<string, ProductId>)
      requires Valid() && slug in stores
      ensures carried == Carried(ActiveRows(State(), slug))
    {
      carried := map[];
      if stores[slug].Some? {
        var rows := versions[stores[slug].value].rows;
        for k := 0 to |rows|
          invariant carried == Carried(rows[..k])
        {
          assert rows[..k + 1][..k] == rows[..k];
          carried := carried[rows[k].externalKey := rows[k].productId];
        }
        assert rows[..|rows|] == rows;
      }
    }

    /** `publish_training_draft`. */
    method PublishDraft(id: nat) returns (r: Outcome)
      requires Valid()
      modifies this
      ensures Valid() && Next(env, old(State()), Publish(id), State(), r) && r != NoStore
    {
      ghost var before := State();
      if id >= |drafts| {
        return NotFound;
      }
      var existing := FindVersion(id);
      if existing.Some? {
        return Published(existing.value);
      }
      var proposal, warnings := AnalyzeCatalog(env, PayloadOf(drafts[id].proposal));
      BlockingMeans(env.a, proposal, warnings);
      if Blocking(warnings) {
        return Blocked;
      }
      r := WriteVersion(id, proposal);
      NextKeepsSound(env, before, Publish(id), State(), r);
    }

    method WriteVersion(id: nat, proposal: Proposal) returns (r: Outcome)
      requires Valid() && id < |drafts| && VersionOf(versions, id).None?
      modifies this
      ensures if Clashes(Filed(env.a, proposal.products), Carried(ActiveRows(old(State()), old(drafts[id].slug))), old(products.Keys), old(nextProduct))
              then r == Conflict && State() == old(State())
              else r == Published(old(|versions|)) && exists rows :: IsPublication(env.a, old(State()), id, proposal, State(), rows)
    {
      var slug := drafts[id].slug;
      var number := LargestNumber(slug);
      var carried := CarriedProducts(slug);
      var rows, products', next' := PlaceProducts(env.a, proposal.products, carried, products, nextProduct);
      if rows.None? {
        return Conflict;
      }
      r := Published(|versions|);
      PlacedIsPublication(env.a, State(), id, proposal, rows.value, products', next');
      CommitVersion(id, proposal, number + 1, rows.value, products', next');
    }

    /** The version, its rows, the products and the draft are written together. */
    method CommitVersion(id: nat, proposal: Proposal, number: nat, rows: seq<CatalogRow>, products': map<ProductId, string>, next': ProductId)
      requires id < |drafts| && number == Count(versions, drafts[id].slug) + 1 && products' == Renamed(products, rows)
      modifies this
      ensures State() == AfterPublish(old(State()), id, proposal, rows, next')
    {
      ghost var before := State();
      var slug := drafts[id].slug;
      products, nextProduct := products', next';
      stores := stores[slug := Some(|versions|)];
      versions := versions + [Version(slug, number, id, rows)];
      drafts := drafts[id := Draft(slug, proposal, true)];
      WrittenIsAfterPublish(before, id, proposal, rows, next', State());
    }

    /** Which catalogue the store answers from. */
    method LoadCatalog(slug: Slug) returns (managed: bool, catalog: Option<seq<Runtime.CatalogProduct>>)
      requires Valid()
      ensures managed <==> slug != "default" || Latest(versions, slug).Some?
      ensures catalog == if Latest(versions, slug).Some? then Some(CatalogOf(versions[Latest(versions, slug).value].rows)) else None
    {
      ActiveVersionIsLatest(env.a, State(), slug);
      if slug !in stores || stores[slug].None? {
        return slug != "default", None;
      }
      var v := stores[slug].value;
      if v >= |versions| || versions[v].slug != slug {
        return true, None;
      }
      return true, Some(CatalogOf(versions[v].rows));
    }
  }
}
