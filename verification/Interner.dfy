/** The id interner of an import: dimension values looked up by name, minted when
    new, and registered in the model at the end. */
module Interner {
  import opened Integers
  import opened Results
  import opened Formulas

  type ItemId = U32
  const MAX_ID: U32 := 0xFFFF_FFFF

  datatype Item = Item(id: ItemId, category: CategoryId, name: string)

  datatype Category = Category(id: CategoryId, name: string, items: seq<ItemId>)

  type Names = map<string, ItemId>

  /** The part of a model an import of items changes. */
  class Model {
    var items: map<ItemId, Item>
    var categories: map<CategoryId, Category>

    constructor (items: map<ItemId, Item>, categories: map<CategoryId, Category>)
      ensures this.items == items && this.categories == categories
    {
      this.items, this.categories := items, categories;
    }
  }

  /** The id of `name` in `category`, when the interner has one. */
  function Lookup(table: map<CategoryId, Names>, category: CategoryId, name: string): Option<ItemId> {
    if category in table && name in table[category] then Some(table[category][name]) else None
  }

  /** Two different names never share an id, in one category or in two. */
  ghost predicate Injective(table: map<CategoryId, Names>) {
    forall c, d, n, m :: Lookup(table, c, n).Some? && Lookup(table, c, n) == Lookup(table, d, m) ==> c == d && n == m
  }

  ghost predicate AllBelow(table: map<CategoryId, Names>, bound: nat) {
    forall c, n :: Lookup(table, c, n).Some? ==> Lookup(table, c, n).value < bound
  }

  /** `table` with one more name. */
  function Entered(table: map<CategoryId, Names>, c: CategoryId, n: string, id: ItemId): map<CategoryId, Names> {
    table[c := (if c in table then table[c] else map[])[n := id]]
  }

  /** Where an id of the model stands in the table, its item has that category and name. */
  ghost predicate Agrees(table: map<CategoryId, Names>, items: map<ItemId, Item>) {
    forall c, n :: Lookup(table, c, n).Some? && Lookup(table, c, n).value in items ==>
      items[Lookup(table, c, n).value].category == c && items[Lookup(table, c, n).value].name == n
  }

  /** Every item is filed under its own id. */
  ghost predicate KeyedById(items: map<ItemId, Item>) {
    forall k :: k in items ==> items[k].id == k
  }

  class ItemInterner {
    var nextItem: nat
    var table: map<CategoryId, Names>

    /** Names and ids match one to one, and every id from `nextItem` on is unused. */
    ghost predicate Valid()
      reads this
    {
      Injective(table) && AllBelow(table, nextItem)
    }

    /** Starts at `base`, but above every item of the model. */
    constructor SeededFrom(items: map<ItemId, Item>, base: U32)
      requires KeyedById(items)
      ensures base <= nextItem <= MAX_ID
      ensures nextItem <= 1 || nextItem == base || exists k :: k in items && nextItem <= k + 1
      ensures Injective(table) && Agrees(table, items)
      ensures forall c, n :: Lookup(table, c, n).Some? ==> Lookup(table, c, n).value in items
      ensures forall k :: k in items ==> Lookup(table, items[k].category, items[k].name).Some?
      ensures (forall k :: k in items ==> k < nextItem) <==> MAX_ID !in items
      ensures MAX_ID !in items ==> Valid()
    {
      var seeded, maxId := Seed(items);
      table := seeded;
      nextItem := Max(base, if maxId == MAX_ID then MAX_ID else maxId + 1);
    }

    /** The id of `name` in `category`: the one it has, or the next unused one. */
    method Intern(category: CategoryId, name: string) returns (id: ItemId)
      requires Valid()
      requires Lookup(table, category, name).None? ==> nextItem < MAX_ID
      modifies this
      ensures Valid()
      ensures Lookup(table, category, name) == Some(id)
      ensures old(Lookup(table, category, name)).Some? ==> table == old(table) && nextItem == old(nextItem)
      ensures old(Lookup(table, category, name)).None? ==>
                id == old(nextItem) && nextItem == old(nextItem) + 1 && table == Entered(old(table), category, name, id)
      ensures forall c, n :: old(Lookup(table, c, n)).Some? ==> Lookup(table, c, n) == old(Lookup(table, c, n))
    {
      if Lookup(table, category, name).Some? {
        return table[category][name];
      }
      id := nextItem;
      nextItem := nextItem + 1;
      ghost var before := table;
      table := Entered(table, category, name, id);
      EnteredLooksUp(before, category, name, id);
    }

    /** Enters every interned item into the model, and lists it in its category. */
    method Register(model: Model)
      requires Injective(table)
      modifies model
      ensures Grown(table, old(model.items), model.items, table.Keys)
      ensures old(Agrees(table, model.items)) ==> Agrees(table, model.items)
      ensures model.categories.Keys == old(model.categories).Keys
      ensures forall c :: c in model.categories ==> Extends(old(model.categories)[c], model.categories[c], Ids(table, c))
      ensures AllRegistered(table, model.items, model.categories)
      ensures old(AllRegistered(table, model.items, model.categories)) ==>
                model.items == old(model.items) && model.categories == old(model.categories)
    {
      var todo := table.Keys;
      ghost var items0, categories0 := model.items, model.categories;
      while todo != {}
        invariant todo <= table.Keys
        invariant Grown(table, items0, model.items, table.Keys - todo)
        invariant Listed(table, categories0, model.categories, table.Keys - todo)
        decreases |todo|
      {
        var c :| c in todo;
        ghost var items1, categories1 := model.items, model.categories;
        RegisterCategory(model, c);
        GrownTwice(table, items0, items1, model.items, table.Keys - todo, c);
        ListedTwice(table, categories0, categories1, model.categories, table.Keys - todo, c);
        assert table.Keys - (todo - {c}) == table.Keys - todo + {c};
        todo := todo - {c};
      }
      assert table.Keys - {} == table.Keys;
      GrownAgrees(table, items0, model.items);
      ListedAll(table, items0, model.items, categories0, model.categories);
    }

    /** One category's names: each item entered unless it is there, each id listed unless it is. */
    method RegisterCategory(model: Model, c: CategoryId)
      requires c in table
      modifies model
      ensures Grown(table, old(model.items), model.items, {c})
      ensures Listed(table, old(model.categories), model.categories, {c})
    {
      var list: seq<ItemId> := if c in model.categories then model.categories[c].items else [];
      var items, longer := EnterNames(model.items, list, c, table[c]);
      EnteringIsGrown(table, model.items, items, c);
      model.items := items;
      if c in model.categories {
        ListingIsExtending(model.categories[c], longer, table[c]);
        model.categories := model.categories[c := model.categories[c].(items := longer)];
      }
    }
  }

  method EnterNames(items0: map<ItemId, Item>, list0: seq<ItemId>, c: CategoryId, names: Names)
    returns (items: map<ItemId, Item>, list: seq<ItemId>)
    ensures Entering(items0, items, c, names, names.Keys)
    ensures Listing(list0, list, names, names.Keys)
  {
    items, list := items0, list0;
    var todo := names.Keys;
    while todo != {}
      invariant todo <= names.Keys
      invariant Entering(items0, items, c, names, names.Keys - todo)
      invariant Listing(list0, list, names, names.Keys - todo)
      decreases |todo|
    {
      var name :| name in todo;
      var id := names[name];
      EnterOne(items0, items, c, names, names.Keys - todo, name);
      ListOne(list0, list, names, names.Keys - todo, name);
      if id !in items {
        items := items[id := Item(id, c, name)];
      }
      if id !in list {
        list := list + [id];
      }
      assert names.Keys - (todo - {name}) == names.Keys - todo + {name};
      todo := todo - {name};
    }
    assert names.Keys - {} == names.Keys;
  }

  lemma EnterOne(items0: map<ItemId, Item>, items: map<ItemId, Item>, c: CategoryId, names: Names, done: set<string>, name: string)
    requires Entering(items0, items, c, names, done) && name in names
    ensures Entering(items0, if names[name] in items then items else items[names[name] := Item(names[name], c, name)],
                     c, names, done + {name})
  {
  }

  lemma ListOne(list0: seq<ItemId>, list: seq<ItemId>, names: Names, done: set<string>, name: string)
    requires Listing(list0, list, names, done) && name in names
    ensures Listing(list0, if names[name] in list then list else list + [names[name]], names, done + {name})
  {
  }

  lemma EnteredLooksUp(table: map<CategoryId, Names>, c: CategoryId, n: string, id: ItemId)
    ensures forall d, m :: Lookup(Entered(table, c, n, id), d, m) == if d == c && m == n then Some(id) else Lookup(table, d, m)
  {
  }

  // ----- seeding -----

  method Seed(items: map<ItemId, Item>) returns (table: map<CategoryId, Names>, maxId: U32)
    requires KeyedById(items)
    ensures Injective(table) && Agrees(table, items)
    ensures forall c, n :: Lookup(table, c, n).Some? ==> Lookup(table, c, n).value in items
    ensures forall k :: k in items ==> Lookup(table, items[k].category, items[k].name).Some?
    ensures forall k :: k in items ==> k <= maxId
    ensures maxId == 0 || maxId in items
  {
    table, maxId := map[], 0;
    var todo := items.Keys;
    while todo != {}
      invariant todo <= items.Keys
      invariant forall c, n :: Lookup(table, c, n).Some? ==> Lookup(table, c, n).value in items && Agrees1(table, items, c, n)
      invariant forall k :: k in items && k !in todo ==> Lookup(table, items[k].category, items[k].name).Some? && k <= maxId
      invariant maxId == 0 || maxId in items
      decreases |todo|
    {
      var k :| k in todo;
      todo := todo - {k};
      var it := items[k];
      EnteredLooksUp(table, it.category, it.name, it.id);
      table := Entered(table, it.category, it.name, it.id);
      maxId := Max(maxId, it.id);
    }
    forall c, d, n, m | Lookup(table, c, n).Some? && Lookup(table, c, n) == Lookup(table, d, m)
      ensures c == d && n == m
    {
      assert Agrees1(table, items, c, n) && Agrees1(table, items, d, m);
    }
  }

  ghost predicate Agrees1(table: map<CategoryId, Names>, items: map<ItemId, Item>, c: CategoryId, n: string) {
    Lookup(table, c, n).Some? && Lookup(table, c, n).value in items ==>
      items[Lookup(table, c, n).value].category == c && items[Lookup(table, c, n).value].name == n
  }

  // ----- registering -----

  function Ids(table: map<CategoryId, Names>, c: CategoryId): set<ItemId> {
    if c in table then table[c].Values else {}
  }

  /** `id` was minted for a name of one of `cats`, and its item says so. */
  ghost predicate MintedFor(table: map<CategoryId, Names>, cats: set<CategoryId>, id: ItemId, item: Item) {
    exists c, n :: c in cats && Lookup(table, c, n) == Some(id) && item == Item(id, c, n)
  }

  /** Existing items keep theirs, new ones are of the names of `cats`, and every
      name of `cats` has its item. */
  ghost predicate Grown(table: map<CategoryId, Names>, before: map<ItemId, Item>, now: map<ItemId, Item>, cats: set<CategoryId>) {
    && (forall k :: k in before ==> k in now && now[k] == before[k])
    && (forall k :: k in now && k !in before ==> MintedFor(table, cats, k, now[k]))
    && (forall c, n :: c in cats && Lookup(table, c, n).Some? ==> Lookup(table, c, n).value in now)
  }

  lemma GrownTwice(table: map<CategoryId, Names>, a: map<ItemId, Item>, b: map<ItemId, Item>, now: map<ItemId, Item>,
                   cats: set<CategoryId>, c: CategoryId)
    requires Grown(table, a, b, cats) && Grown(table, b, now, {c})
    ensures Grown(table, a, now, cats + {c})
  {
    forall k | k in now && k !in a
      ensures MintedFor(table, cats + {c}, k, now[k])
    {
      if k in b {
        assert MintedFor(table, cats, k, b[k]);
        var d, n :| d in cats && Lookup(table, d, n) == Some(k) && b[k] == Item(k, d, n);
        assert d in cats + {c};
      } else {
        assert MintedFor(table, {c}, k, now[k]);
      }
    }
  }

  lemma GrownAgrees(table: map<CategoryId, Names>, before: map<ItemId, Item>, now: map<ItemId, Item>)
    requires Injective(table) && Grown(table, before, now, table.Keys)
    ensures Agrees(table, before) ==> Agrees(table, now)
  {
    if Agrees(table, before) {
      forall c, n | Lookup(table, c, n).Some? && Lookup(table, c, n).value in now
        ensures now[Lookup(table, c, n).value].category == c && now[Lookup(table, c, n).value].name == n
      {
        var k := Lookup(table, c, n).value;
        if k !in before {
          var d, m :| d in table.Keys && Lookup(table, d, m) == Some(k) && now[k] == Item(k, d, m);
          assert Lookup(table, c, n) == Lookup(table, d, m);
        }
      }
    }
  }

  /** Part of one category's names entered. */
  ghost predicate Entering(before: map<ItemId, Item>, now: map<ItemId, Item>, c: CategoryId, names: Names, done: set<string>) {
    && (forall k :: k in before ==> k in now && now[k] == before[k])
    && (forall k :: k in now && k !in before ==> exists n :: n in done && n in names && names[n] == k && now[k] == Item(k, c, n))
    && (forall n :: n in done && n in names ==> names[n] in now)
  }

  lemma EnteringIsGrown(table: map<CategoryId, Names>, before: map<ItemId, Item>, now: map<ItemId, Item>, c: CategoryId)
    requires c in table && Entering(before, now, c, table[c], table[c].Keys)
    ensures Grown(table, before, now, {c})
  {
    forall k | k in now && k !in before
      ensures MintedFor(table, {c}, k, now[k])
    {
      var n :| n in table[c] && table[c][n] == k && now[k] == Item(k, c, n);
      assert Lookup(table, c, n) == Some(k);
    }
  }

  /** Part of one category's ids listed: those not listed before, once each, at the end. */
  ghost predicate Listing(before: seq<ItemId>, now: seq<ItemId>, names: Names, done: set<string>) {
    && before <= now
    && (forall i :: |before| <= i < |now| ==> exists n :: n in done && n in names && names[n] == now[i])
    && (forall i, j :: |before| <= i < |now| && 0 <= j < i ==> now[j] != now[i])
    && (forall n :: n in done && n in names ==> names[n] in now)
  }

  /** A category with the ids of `ids` it did not list appended, each once. */
  ghost predicate Extends(before: Category, now: Category, ids: set<ItemId>) {
    && now.id == before.id && now.name == before.name
    && before.items <= now.items
    && (forall i :: |before.items| <= i < |now.items| ==> now.items[i] in ids)
    && (forall i, j :: |before.items| <= i < |now.items| && 0 <= j < i ==> now.items[j] != now.items[i])
    && (forall k :: k in ids ==> k in now.items)
  }

  lemma ListingIsExtending(before: Category, list: seq<ItemId>, names: Names)
    requires Listing(before.items, list, names, names.Keys)
    ensures Extends(before, before.(items := list), names.Values)
  {
  }

  /** The categories of `cats` extended, the others as they were. */
  ghost predicate Listed(table: map<CategoryId, Names>, before: map<CategoryId, Category>, now: map<CategoryId, Category>,
                         cats: set<CategoryId>) {
    && now.Keys == before.Keys
    && forall c :: c in before ==> if c in cats then Extends(before[c], now[c], Ids(table, c)) else now[c] == before[c]
  }

  lemma ListedTwice(table: map<CategoryId, Names>, a: map<CategoryId, Category>, b: map<CategoryId, Category>,
                    now: map<CategoryId, Category>, cats: set<CategoryId>, c: CategoryId)
    requires c !in cats && Listed(table, a, b, cats) && Listed(table, b, now, {c})
    ensures Listed(table, a, now, cats + {c})
  {
  }

  /** Every interned id has an item, and is listed where its category exists. */
  ghost predicate AllRegistered(table: map<CategoryId, Names>, items: map<ItemId, Item>, categories: map<CategoryId, Category>) {
    && (forall c, n :: Lookup(table, c, n).Some? ==> Lookup(table, c, n).value in items)
    && (forall c, k :: c in categories && k in Ids(table, c) ==> k in categories[c].items)
  }

  lemma ListedAll(table: map<CategoryId, Names>, items0: map<ItemId, Item>, items: map<ItemId, Item>,
                  categories0: map<CategoryId, Category>, categories: map<CategoryId, Category>)
    requires Grown(table, items0, items, table.Keys) && Listed(table, categories0, categories, table.Keys)
    ensures forall c :: c in categories ==> Extends(categories0[c], categories[c], Ids(table, c))
    ensures AllRegistered(table, items, categories)
    ensures AllRegistered(table, items0, categories0) ==> items == items0 && categories == categories0
  {
    assert forall c :: c in categories ==> Extends(categories0[c], categories[c], Ids(table, c));
    if AllRegistered(table, items0, categories0) {
      forall k | k in items
        ensures k in items0
      {
      }
      forall c | c in categories
        ensures categories[c] == categories0[c]
      {
        NothingToAppend(categories0[c], categories[c], Ids(table, c));
      }
    }
  }

  lemma NothingToAppend(before: Category, now: Category, ids: set<ItemId>)
    requires Extends(before, now, ids) && forall k :: k in ids ==> k in before.items
    ensures now == before
  {
    forall i | |before.items| <= i < |now.items|
      ensures now.items[i] !in before.items
    {
      forall j | 0 <= j < |before.items|
        ensures before.items[j] != now.items[i]
      {
        assert before.items[j] == now.items[j];
      }
    }
    if |now.items| > |before.items| {
      NotListed(now.items[|before.items|], before, ids);
    }
  }

  lemma NotListed(k: ItemId, before: Category, ids: set<ItemId>)
    requires forall i :: i in ids ==> i in before.items
    ensures k in before.items || k !in ids
  {
  }

  // ----- a whole import -----

  /** Interning any list of names after seeding, then registering: every name has
      an id whose item has that category and name, and no id stands for two names. */
  method Import(model: Model, base: U32, rows: seq<(CategoryId, string)>) returns (ids: seq<ItemId>)
    requires KeyedById(model.items) && (forall k :: k in model.items ==> k + |rows| < MAX_ID) && base + |rows| < MAX_ID
    modifies model
    ensures |ids| == |rows|
    ensures forall i :: 0 <= i < |rows| ==>
              ids[i] in model.items && model.items[ids[i]].category == rows[i].0 && model.items[ids[i]].name == rows[i].1
    ensures forall i, j :: 0 <= i < |rows| && 0 <= j < |rows| && ids[i] == ids[j] ==> rows[i] == rows[j]
    ensures forall k :: k in old(model.items) ==> k in model.items && model.items[k] == old(model.items)[k]
  {
    var interner := new ItemInterner.SeededFrom(model.items, base);
    ids := [];
    ghost var items0 := model.items;
    for i := 0 to |rows|
      invariant |ids| == i && interner.Valid() && fresh(interner)
      invariant interner.nextItem + |rows| - i <= MAX_ID
      invariant model.items == items0
      invariant forall k :: k in items0 ==> k < interner.nextItem
      invariant Agrees(interner.table, items0)
      invariant forall j :: 0 <= j < i ==> Lookup(interner.table, rows[j].0, rows[j].1) == Some(ids[j])
    {
      ghost var table0 := interner.table;
      var id := interner.Intern(rows[i].0, rows[i].1);
      EnteredLooksUp(table0, rows[i].0, rows[i].1, id);
      ids := ids + [id];
    }
    interner.Register(model);
  }
}
