/**
 * The in-memory part of the three mutating handlers of the stores endpoint:
 * adding a grocery to a category (creating the category on demand), moving a
 * grocery within its category, and moving a category within its store.
 *
 * Each handler receives the store document the database returned (`None` when
 * no store matched) and returns the document it would write back, or the
 * reason it writes nothing.
 */
module Stores {
  import opened Wrappers

  /** A grocery item, identified within its category by name and ranked by `order`. */
  datatype Grocery = Grocery(groceryName: string, order: int)

  /**
   * A category of a store. `order` is `None` when the document has no order
   * field, which is how AddGrocery creates categories.
   */
  datatype Category = Category(name: string, order: Option<int>, groceries: seq<Grocery>)

  /** A store document. A document without a categories field has `categories == []`. */
  datatype Store = Store(storeId: string, categories: seq<Category>)

  /** Why a handler writes nothing back. */
  datatype Error = NotFound | DuplicateItem

  /** The body of an add request; `category` is `None` when the field is absent. */
  datatype GroceryRequest = GroceryRequest(category: Option<string>, groceryName: string)

  /** The `{name, order}` pair a category move request carries twice. */
  datatype CategoryRef = CategoryRef(name: string, order: int)

  /** The name given to a category created for a request that names none. */
  const DefaultCategoryName: string := "Uncategorized"

  // ---------------------------------------------------------------------------
  // Lookups (the `find` calls of the handlers: the first element whose key matches)
  // ---------------------------------------------------------------------------

  /** Index of the first category called `name`, or `None` when there is none. */
  function FindCategory(cats: seq<Category>, name: string): (r: Option<nat>)
    ensures r.Some? ==> r.value < |cats| && cats[r.value].name == name
    ensures r.Some? ==> forall j :: 0 <= j < r.value ==> cats[j].name != name
    ensures r.None? <==> forall j :: 0 <= j < |cats| ==> cats[j].name != name
  {
    if |cats| == 0 then None
    else if cats[0].name == name then Some(0)
    else match FindCategory(cats[1..], name)
      case None => None
      case Some(i) => Some(i + 1)
  }

  /** Index of the first grocery called `name`, or `None` when there is none. */
  function FindGrocery(gs: seq<Grocery>, name: string): (r: Option<nat>)
    ensures r.Some? ==> r.value < |gs| && gs[r.value].groceryName == name
    ensures r.Some? ==> forall j :: 0 <= j < r.value ==> gs[j].groceryName != name
    ensures r.None? <==> forall j :: 0 <= j < |gs| ==> gs[j].groceryName != name
  {
    if |gs| == 0 then None
    else if gs[0].groceryName == name then Some(0)
    else match FindGrocery(gs[1..], name)
      case None => None
      case Some(i) => Some(i + 1)
  }

  /** Two grocery lists with the same names position by position give the same lookup result. */
  lemma FindGroceryIgnoresOrders(xs: seq<Grocery>, ys: seq<Grocery>, name: string)
    requires |xs| == |ys|
    requires forall i :: 0 <= i < |xs| ==> xs[i].groceryName == ys[i].groceryName
    ensures FindGrocery(xs, name) == FindGrocery(ys, name)
  {
  }

  /** Two category lists with the same names position by position give the same lookup result. */
  lemma FindCategoryIgnoresOrders(xs: seq<Category>, ys: seq<Category>, name: string)
    requires |xs| == |ys|
    requires forall i :: 0 <= i < |xs| ==> xs[i].name == ys[i].name
    ensures FindCategory(xs, name) == FindCategory(ys, name)
  {
  }

  /**
   * The category an add request addresses. A request without a category field
   * is compared against names as `undefined`, which no stored name equals.
   */
  function RequestedCategory(cats: seq<Category>, requested: Option<string>): (r: Option<nat>)
    ensures requested.None? ==> r.None?
    ensures r.Some? ==> r.value < |cats| && cats[r.value].name == requested.value
    ensures r.Some? ==> forall j :: 0 <= j < r.value ==> cats[j].name != requested.value
    ensures requested.Some? && (exists j :: 0 <= j < |cats| && cats[j].name == requested.value) ==> r.Some?
  {
    match requested
    case None => None
    case Some(name) => FindCategory(cats, name)
  }

  /** The name of a category created for an add request: a missing or empty name defaults. */
  function NewCategoryName(requested: Option<string>): (name: string)
    ensures name != ""
    ensures requested.Some? && requested.value != "" ==> name == requested.value
    ensures requested.None? || requested.value == "" ==> name == DefaultCategoryName
  {
    if requested.Some? && requested.value != "" then requested.value else DefaultCategoryName
  }

  /** The largest order in a non-empty grocery list (`Math.max` over the orders). */
  function MaxOrder(gs: seq<Grocery>): (m: int)
    requires |gs| > 0
    ensures forall i :: 0 <= i < |gs| ==> gs[i].order <= m
    ensures exists i :: 0 <= i < |gs| && gs[i].order == m
  {
    if |gs| == 1 then gs[0].order
    else
      var rest := MaxOrder(gs[1..]);
      assert forall i :: 1 <= i < |gs| ==> gs[i] == gs[1..][i - 1];
      if gs[0].order >= rest then gs[0].order else rest
  }

  // ---------------------------------------------------------------------------
  // The specification of the rank shift
  // ---------------------------------------------------------------------------

  /**
   * What the shift loop does to one order: moving up, every order at or after
   * the target makes room by growing by one; moving down or staying, every
   * order at or before the target shrinks by one.
   */
  function ShiftedOrder(o: int, movingUp: bool, target: int): int
  {
    if movingUp then (if o >= target then o + 1 else o)
    else (if o <= target then o - 1 else o)
  }

  /**
   * The same rule on a category order; an absent order compares false both
   * ways and is left alone.
   */
  function ShiftedRank(o: Option<int>, movingUp: bool, target: int): Option<int>
  {
    match o
    case None => None
    case Some(v) => Some(ShiftedOrder(v, movingUp, target))
  }

  /** A grocery list after the grocery at `k` is placed at `target` and the rest shifted. */
  function GroceriesReinserted(gs: seq<Grocery>, k: nat, movingUp: bool, target: int): seq<Grocery>
    requires k < |gs|
  {
    seq(|gs|, i requires 0 <= i < |gs| =>
      if i == k then gs[i].(order := target)
      else gs[i].(order := ShiftedOrder(gs[i].order, movingUp, target)))
  }

  /** A category list after the category at `k` is placed at `target` and the rest shifted. */
  function CategoriesReinserted(cs: seq<Category>, k: nat, movingUp: bool, target: int): seq<Category>
    requires k < |cs|
  {
    seq(|cs|, i requires 0 <= i < |cs| =>
      if i == k then cs[i].(order := Some(target))
      else cs[i].(order := ShiftedRank(cs[i].order, movingUp, target)))
  }

  /** What the grocery move handler writes back, or why it writes nothing. */
  function MoveGroceryResult(loaded: Option<Store>, categoryName: string, current: Grocery, updated: Grocery)
    : (r: Result<Store, Error>)
    ensures r.Err? ==> r.error == NotFound
    ensures r.Ok? ==> loaded.Some? && r.value.storeId == loaded.value.storeId &&
                      |r.value.categories| == |loaded.value.categories|
  {
    if loaded.None? then Err(NotFound)
    else
      var store := loaded.value;
      match FindCategory(store.categories, categoryName)
      case None => Err(NotFound)
      case Some(ci) =>
        var category := store.categories[ci];
        match FindGrocery(category.groceries, current.groceryName)
        case None => Err(NotFound)
        case Some(k) =>
          var moved := GroceriesReinserted(category.groceries, k, updated.order < current.order, updated.order);
          Ok(store.(categories := store.categories[ci := category.(groceries := moved)]))
  }

  /** What the category move handler writes back, or why it writes nothing. */
  function MoveCategoryResult(loaded: Option<Store>, current: CategoryRef, updated: CategoryRef)
    : (r: Result<Store, Error>)
    ensures r.Err? ==> r.error == NotFound
    ensures r.Ok? ==> loaded.Some? && r.value.storeId == loaded.value.storeId &&
                      |r.value.categories| == |loaded.value.categories|
  {
    if loaded.None? then Err(NotFound)
    else
      var store := loaded.value;
      match FindCategory(store.categories, current.name)
      case None => Err(NotFound)
      case Some(k) =>
        Ok(store.(categories := CategoriesReinserted(store.categories, k, updated.order < current.order, updated.order)))
  }

  // ---------------------------------------------------------------------------
  // Document invariants
  // ---------------------------------------------------------------------------

  /** No two groceries of a list share a name, and no two share an order. */
  ghost predicate GroceryKeysUnique(gs: seq<Grocery>)
  {
    (forall i, j :: 0 <= i < j < |gs| ==> gs[i].groceryName != gs[j].groceryName) &&
    (forall i, j :: 0 <= i < j < |gs| ==> gs[i].order != gs[j].order)
  }

  /** No two categories of a list share a name. */
  ghost predicate CategoryNamesUnique(cs: seq<Category>)
  {
    forall i, j :: 0 <= i < j < |cs| ==> cs[i].name != cs[j].name
  }

  /** No two categories of a list that have an order share it. */
  ghost predicate CategoryOrdersUnique(cs: seq<Category>)
  {
    forall i, j :: 0 <= i < j < |cs| && cs[i].order.Some? && cs[j].order.Some? ==>
      cs[i].order.value != cs[j].order.value
  }

  /** Every grocery list of the categories has unique names and unique orders. */
  ghost predicate GroceryListsConsistent(cs: seq<Category>)
  {
    forall i :: 0 <= i < |cs| ==> GroceryKeysUnique(cs[i].groceries)
  }

  /** The uniqueness invariants of a store document: keys and ranks at both levels. */
  ghost predicate Consistent(s: Store)
  {
    CategoryNamesUnique(s.categories) && CategoryOrdersUnique(s.categories) &&
    GroceryListsConsistent(s.categories)
  }

  /** The add handler takes the maximum order only of a category that has groceries. */
  predicate MaxOrderDefined(loaded: Option<Store>, request: GroceryRequest)
  {
    loaded.Some? ==>
      match RequestedCategory(loaded.value.categories, request.category)
      case None => true
      case Some(ci) => |loaded.value.categories[ci].groceries| > 0
  }

  // ---------------------------------------------------------------------------
  // The handlers
  // ---------------------------------------------------------------------------

  /**
   * POST /:storeId/grocery. Adds the grocery to the requested category: a
   * missing category is appended with the grocery at order 1; a grocery whose
   * name is already there is rejected; otherwise the grocery is appended with
   * the category's largest order plus one.
   */
  method AddGrocery(loaded: Option<Store>, request: GroceryRequest) returns (r: Result<Store, Error>)
    requires MaxOrderDefined(loaded, request)
    ensures loaded.None? ==> r == Err(NotFound)
    // a category that is not there is created at the end; nothing else changes
    ensures loaded.Some? && RequestedCategory(loaded.value.categories, request.category).None? ==>
      r == Ok(loaded.value.(categories := loaded.value.categories +
                [Category(NewCategoryName(request.category), None, [Grocery(request.groceryName, 1)])]))
    // a name already in the category is rejected and nothing is written
    ensures loaded.Some? && RequestedCategory(loaded.value.categories, request.category).Some? ==>
      var ci := RequestedCategory(loaded.value.categories, request.category).value;
      (r.Err? <==> FindGrocery(loaded.value.categories[ci].groceries, request.groceryName).Some?) &&
      (r.Err? ==> r.error == DuplicateItem)
    // otherwise exactly one grocery is appended to that category, ranked after all the others
    ensures loaded.Some? && RequestedCategory(loaded.value.categories, request.category).Some? && r.Ok? ==>
      var s, ci := loaded.value, RequestedCategory(loaded.value.categories, request.category).value;
      var before := s.categories[ci].groceries;
      var t := r.value;
      t.storeId == s.storeId && |t.categories| == |s.categories| &&
      (forall j :: 0 <= j < |s.categories| && j != ci ==> t.categories[j] == s.categories[j]) &&
      t.categories[ci].name == s.categories[ci].name && t.categories[ci].order == s.categories[ci].order &&
      var after := t.categories[ci].groceries;
      |after| == |before| + 1 && after[..|before|] == before &&
      after[|before|].groceryName == request.groceryName &&
      (forall i :: 0 <= i < |before| ==> before[i].order < after[|before|].order) &&
      (exists i :: 0 <= i < |before| && before[i].order + 1 == after[|before|].order)
    // the uniqueness of grocery keys and of category orders is kept
    ensures loaded.Some? && r.Ok? && GroceryListsConsistent(loaded.value.categories) ==>
      GroceryListsConsistent(r.value.categories)
    ensures loaded.Some? && r.Ok? && CategoryOrdersUnique(loaded.value.categories) ==>
      CategoryOrdersUnique(r.value.categories)
    // category names stay unique when the request names a category ...
    ensures loaded.Some? && r.Ok? && request.category.Some? && request.category.value != "" &&
            CategoryNamesUnique(loaded.value.categories) ==>
      CategoryNamesUnique(r.value.categories)
    // ... but not when it names none and an "Uncategorized" category exists already
    ensures loaded.Some? && request.category.None? &&
            (exists j :: 0 <= j < |loaded.value.categories| && loaded.value.categories[j].name == DefaultCategoryName) ==>
      r.Ok? && !CategoryNamesUnique(r.value.categories)
  {
    if loaded.None? {
      return Err(NotFound);
    }
    var store := loaded.value;
    var categories := store.categories;
    var found := RequestedCategory(categories, request.category);
    if found.None? {
      var category := Category(NewCategoryName(request.category), None, [Grocery(request.groceryName, 1)]);
      categories := categories + [category];
      if request.category.None? && exists j :: 0 <= j < |store.categories| && store.categories[j].name == DefaultCategoryName {
        var j :| 0 <= j < |store.categories| && store.categories[j].name == DefaultCategoryName;
        assert categories[j].name == categories[|categories| - 1].name;
      }
    } else {
      var ci := found.value;
      var category := categories[ci];
      var existing := FindGrocery(category.groceries, request.groceryName);
      if existing.Some? {
        return Err(DuplicateItem);
      }
      var order := MaxOrder(category.groceries);
      var newGrocery := Grocery(request.groceryName, order + 1);
      category := category.(groceries := category.groceries + [newGrocery]);
      categories := categories[ci := category];
      assert category.groceries[..|store.categories[ci].groceries|] == store.categories[ci].groceries;
    }
    r := Ok(store.(categories := categories));
  }

  /** The shift loop of the grocery move handler, run in place over the category's list. */
  method ShiftGroceries(a: array<Grocery>, movingUp: bool, target: int)
    modifies a
    ensures forall i :: 0 <= i < a.Length ==>
      a[i] == old(a[i]).(order := ShiftedOrder(old(a[i]).order, movingUp, target))
  {
    for i := 0 to a.Length
      invariant forall j :: 0 <= j < i ==>
        a[j] == old(a[j]).(order := ShiftedOrder(old(a[j]).order, movingUp, target))
      invariant forall j :: i <= j < a.Length ==> a[j] == old(a[j])
    {
      var g := a[i];
      if movingUp {
        if g.order >= target {
          a[i] := g.(order := g.order + 1);
        }
      } else {
        if g.order <= target {
          a[i] := g.(order := g.order - 1);
        }
      }
    }
  }

  /** The shift loop of the category move handler, run in place over the store's list. */
  method ShiftCategories(a: array<Category>, movingUp: bool, target: int)
    modifies a
    ensures forall i :: 0 <= i < a.Length ==>
      a[i] == old(a[i]).(order := ShiftedRank(old(a[i]).order, movingUp, target))
  {
    for i := 0 to a.Length
      invariant forall j :: 0 <= j < i ==>
        a[j] == old(a[j]).(order := ShiftedRank(old(a[j]).order, movingUp, target))
      invariant forall j :: i <= j < a.Length ==> a[j] == old(a[j])
    {
      var c := a[i];
      if movingUp {
        if c.order.Some? && c.order.value >= target {
          a[i] := c.(order := Some(c.order.value + 1));
        }
      } else {
        if c.order.Some? && c.order.value <= target {
          a[i] := c.(order := Some(c.order.value - 1));
        }
      }
    }
  }

  /**
   * PUT /:storeId/grocery. Shifts the orders of the addressed category's
   * groceries to make room, then places the named grocery at the requested order.
   */
  method MoveGrocery(loaded: Option<Store>, categoryName: string, current: Grocery, updated: Grocery)
    returns (r: Result<Store, Error>)
    ensures r == MoveGroceryResult(loaded, categoryName, current, updated)
  {
    if loaded.None? {
      return Err(NotFound);
    }
    var store := loaded.value;
    var movingUp := updated.order < current.order;
    var found := FindCategory(store.categories, categoryName);
    if found.None? {
      return Err(NotFound);
    }
    var ci := found.value;
    var category := store.categories[ci];
    var gs := category.groceries;
    var a := new Grocery[|gs|](i requires 0 <= i < |gs| => gs[i]);
    ShiftGroceries(a, movingUp, updated.order);
    FindGroceryIgnoresOrders(a[..], gs, current.groceryName);
    var k := FindGrocery(a[..], current.groceryName);
    if k.None? {
      return Err(NotFound);
    }
    a[k.value] := a[k.value].(order := updated.order);
    var moved := a[..];
    assert moved == GroceriesReinserted(gs, k.value, movingUp, updated.order);
    r := Ok(store.(categories := store.categories[ci := category.(groceries := moved)]));
  }

  /**
   * PUT /:storeId/category. Shifts the orders of the store's categories to make
   * room, then places the named category at the requested order.
   */
  method MoveCategory(loaded: Option<Store>, current: CategoryRef, updated: CategoryRef)
    returns (r: Result<Store, Error>)
    ensures r == MoveCategoryResult(loaded, current, updated)
  {
    if loaded.None? {
      return Err(NotFound);
    }
    var store := loaded.value;
    var movingUp := updated.order < current.order;
    var cs := store.categories;
    var a := new Category[|cs|](i requires 0 <= i < |cs| => cs[i]);
    ShiftCategories(a, movingUp, updated.order);
    FindCategoryIgnoresOrders(a[..], cs, current.name);
    var k := FindCategory(a[..], current.name);
    if k.None? {
      return Err(NotFound);
    }
    a[k.value] := a[k.value].(order := Some(updated.order));
    var moved := a[..];
    assert moved == CategoriesReinserted(cs, k.value, movingUp, updated.order);
    r := Ok(store.(categories := moved));
  }
}
