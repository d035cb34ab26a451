/**
 * Properties of the three handlers: what a move does to each element, what it
 * leaves alone, which document invariants every handler keeps, when a move
 * keeps a dense ranking 1..n, and the concrete cases that pin the rules down.
 */
module StoreProperties {
  import opened Wrappers
  import opened Stores

  // ---------------------------------------------------------------------------
  // Rankings: orders that are exactly 1..n, each once
  // ---------------------------------------------------------------------------

  /** The orders of a grocery list, position by position. */
  function GroceryOrders(gs: seq<Grocery>): seq<int>
  {
    seq(|gs|, i requires 0 <= i < |gs| => gs[i].order)
  }

  /** The orders of a category list, position by position; an absent order reads as 0. */
  function CategoryOrders(cs: seq<Category>): seq<int>
  {
    seq(|cs|, i requires 0 <= i < |cs| => if cs[i].order.Some? then cs[i].order.value else 0)
  }

  /** Every order lies in 1..n and no two are equal. */
  ghost predicate IsRanking(os: seq<int>)
  {
    (forall i :: 0 <= i < |os| ==> 1 <= os[i] <= |os|) &&
    (forall i, j :: 0 <= i < j < |os| ==> os[i] != os[j])
  }

  /** Every category has an order, and the orders form a ranking. */
  ghost predicate CategoriesRanked(cs: seq<Category>)
  {
    (forall i :: 0 <= i < |cs| ==> cs[i].order.Some?) && IsRanking(CategoryOrders(cs))
  }

  /** The orders present in a list. */
  ghost function OrderSet(os: seq<int>): set<int>
  {
    set i | 0 <= i < |os| :: os[i]
  }

  /** The ranks 1..n, in order. */
  function Iota(n: nat): seq<int>
  {
    seq(n, i requires 0 <= i < n => i + 1)
  }

  lemma {:induction false} OrderSetSize(os: seq<int>)
    requires forall i, j :: 0 <= i < j < |os| ==> os[i] != os[j]
    ensures |OrderSet(os)| == |os|
  {
    if |os| > 0 {
      var front := os[..|os| - 1];
      OrderSetSize(front);
      assert OrderSet(os) == OrderSet(front) + {os[|os| - 1]};
      assert os[|os| - 1] !in OrderSet(front);
    }
  }

  /** A ranking uses every rank 1..n exactly once: it is a permutation of 1..n. */
  lemma RankingIsPermutation(os: seq<int>)
    requires IsRanking(os)
    ensures OrderSet(os) == OrderSet(Iota(|os|))
  {
    var ranks := OrderSet(Iota(|os|));
    OrderSetSize(os);
    OrderSetSize(Iota(|os|));
    forall v | v in OrderSet(os)
      ensures v in ranks
    {
      var i :| 0 <= i < |os| && os[i] == v;
      assert Iota(|os|)[v - 1] == v;
    }
    var missing := ranks - OrderSet(os);
    assert ranks == OrderSet(os) + missing;
    assert |missing| == 0;
  }

  // ---------------------------------------------------------------------------
  // The rank shift on plain orders
  // ---------------------------------------------------------------------------

  /** The shift leaves the target free and never merges two different orders. */
  lemma ShiftLeavesGapAtTarget(x: int, y: int, movingUp: bool, target: int)
    ensures ShiftedOrder(x, movingUp, target) != target
    ensures x != y ==> ShiftedOrder(x, movingUp, target) != ShiftedOrder(y, movingUp, target)
  {
  }

  /** Placing one order at the target and shifting the rest keeps orders unique. */
  lemma {:induction false} ReinsertKeepsOrdersUnique(os: seq<int>, ns: seq<int>, k: nat, movingUp: bool, target: int)
    requires forall i, j :: 0 <= i < j < |os| ==> os[i] != os[j]
    requires k < |os| && |ns| == |os| && ns[k] == target
    requires forall i :: 0 <= i < |os| && i != k ==> ns[i] == ShiftedOrder(os[i], movingUp, target)
    ensures forall i, j :: 0 <= i < j < |ns| ==> ns[i] != ns[j]
  {
    forall i, j | 0 <= i < j < |ns|
      ensures ns[i] != ns[j]
    {
      ShiftLeavesGapAtTarget(os[i], os[j], movingUp, target);
      ShiftLeavesGapAtTarget(os[j], os[i], movingUp, target);
    }
  }

  /** Moving the last-ranked element up to any rank below n keeps a ranking. */
  lemma LastUpKeepsRanking(os: seq<int>, ns: seq<int>, k: nat, target: int)
    requires IsRanking(os) && k < |os| && os[k] == |os|
    requires 1 <= target < |os|
    requires |ns| == |os| && ns[k] == target
    requires forall i :: 0 <= i < |os| && i != k ==> ns[i] == ShiftedOrder(os[i], true, target)
    ensures IsRanking(ns)
  {
    ReinsertKeepsOrdersUnique(os, ns, k, true, target);
  }

  /** Moving the first-ranked element down to any rank within 1..n keeps a ranking. */
  lemma FirstDownKeepsRanking(os: seq<int>, ns: seq<int>, k: nat, target: int)
    requires IsRanking(os) && k < |os| && os[k] == 1
    requires 1 <= target <= |os|
    requires |ns| == |os| && ns[k] == target
    requires forall i :: 0 <= i < |os| && i != k ==> ns[i] == ShiftedOrder(os[i], false, target)
    ensures IsRanking(ns)
  {
    ReinsertKeepsOrdersUnique(os, ns, k, false, target);
  }

  // ---------------------------------------------------------------------------
  // MoveGrocery
  // ---------------------------------------------------------------------------

  /** A grocery move fails exactly when the store, the category or the grocery is missing. */
  lemma MoveGroceryFailsIffMissing(loaded: Option<Store>, categoryName: string, current: Grocery, updated: Grocery)
    ensures var r := MoveGroceryResult(loaded, categoryName, current, updated);
      (r.Err? <==>
        loaded.None? || FindCategory(loaded.value.categories, categoryName).None? ||
        FindGrocery(loaded.value.categories[FindCategory(loaded.value.categories, categoryName).value].groceries,
                    current.groceryName).None?) &&
      (r.Err? ==> r.error == NotFound)
  {
  }

  /**
   * Moving up: every other grocery at or after the target order moves one
   * down the ranking, the rest keep their order, and the moved grocery takes
   * the target order.
   */
  lemma MoveGroceryUp(store: Store, categoryName: string, current: Grocery, updated: Grocery, ci: nat, k: nat)
    requires FindCategory(store.categories, categoryName) == Some(ci)
    requires FindGrocery(store.categories[ci].groceries, current.groceryName) == Some(k)
    requires updated.order < current.order
    ensures MoveGroceryResult(Some(store), categoryName, current, updated).Ok?
    ensures var before := store.categories[ci].groceries;
      var after := MoveGroceryResult(Some(store), categoryName, current, updated).value.categories[ci].groceries;
      |after| == |before| && after[k] == before[k].(order := updated.order) &&
      forall i :: 0 <= i < |before| && i != k ==>
        after[i].groceryName == before[i].groceryName &&
        after[i].order == (if before[i].order >= updated.order then before[i].order + 1 else before[i].order)
  {
  }

  /**
   * Moving down or staying: every other grocery at or before the target order
   * moves one up the ranking, the rest keep their order, and the moved grocery
   * takes the target order.
   */
  lemma MoveGroceryDown(store: Store, categoryName: string, current: Grocery, updated: Grocery, ci: nat, k: nat)
    requires FindCategory(store.categories, categoryName) == Some(ci)
    requires FindGrocery(store.categories[ci].groceries, current.groceryName) == Some(k)
    requires updated.order >= current.order
    ensures MoveGroceryResult(Some(store), categoryName, current, updated).Ok?
    ensures var before := store.categories[ci].groceries;
      var after := MoveGroceryResult(Some(store), categoryName, current, updated).value.categories[ci].groceries;
      |after| == |before| && after[k] == before[k].(order := updated.order) &&
      forall i :: 0 <= i < |before| && i != k ==>
        after[i].groceryName == before[i].groceryName &&
        after[i].order == (if before[i].order <= updated.order then before[i].order - 1 else before[i].order)
  {
  }

  /**
   * A grocery move changes only orders, and only in the addressed category:
   * positions, names and every other category stay as they were.
   */
  lemma MoveGroceryOnlyReorders(loaded: Option<Store>, categoryName: string, current: Grocery, updated: Grocery)
    requires MoveGroceryResult(loaded, categoryName, current, updated).Ok?
    ensures var s, t := loaded.value, MoveGroceryResult(loaded, categoryName, current, updated).value;
      var ci := FindCategory(s.categories, categoryName).value;
      t.storeId == s.storeId && |t.categories| == |s.categories| &&
      (forall j :: 0 <= j < |s.categories| && j != ci ==> t.categories[j] == s.categories[j]) &&
      t.categories[ci].name == s.categories[ci].name && t.categories[ci].order == s.categories[ci].order &&
      |t.categories[ci].groceries| == |s.categories[ci].groceries| &&
      forall i :: 0 <= i < |s.categories[ci].groceries| ==>
        t.categories[ci].groceries[i].groceryName == s.categories[ci].groceries[i].groceryName
  {
  }

  /**
   * A grocery move keeps each uniqueness invariant of the store on its own,
   * whatever orders are requested and whether or not the others hold.
   */
  lemma MoveGroceryKeepsConsistent(store: Store, categoryName: string, current: Grocery, updated: Grocery)
    requires MoveGroceryResult(Some(store), categoryName, current, updated).Ok?
    ensures var t := MoveGroceryResult(Some(store), categoryName, current, updated).value;
      (GroceryListsConsistent(store.categories) ==> GroceryListsConsistent(t.categories)) &&
      (CategoryNamesUnique(store.categories) ==> CategoryNamesUnique(t.categories)) &&
      (CategoryOrdersUnique(store.categories) ==> CategoryOrdersUnique(t.categories)) &&
      (Consistent(store) ==> Consistent(t))
  {
    var t := MoveGroceryResult(Some(store), categoryName, current, updated).value;
    var ci := FindCategory(store.categories, categoryName).value;
    var before := store.categories[ci].groceries;
    var k := FindGrocery(before, current.groceryName).value;
    var after := t.categories[ci].groceries;
    if GroceryListsConsistent(store.categories) {
      ReinsertKeepsOrdersUnique(GroceryOrders(before), GroceryOrders(after), k,
                                updated.order < current.order, updated.order);
      assert GroceryKeysUnique(after) by {
        forall i, j | 0 <= i < j < |after|
          ensures after[i].order != after[j].order
        {
          assert GroceryOrders(after)[i] != GroceryOrders(after)[j];
        }
      }
    }
  }

  /** With the orders 1..n, moving the grocery ranked n up to any rank below n gives a permutation of 1..n again. */
  lemma MoveGroceryLastUp(store: Store, categoryName: string, current: Grocery, updated: Grocery, ci: nat, k: nat)
    requires FindCategory(store.categories, categoryName) == Some(ci)
    requires FindGrocery(store.categories[ci].groceries, current.groceryName) == Some(k)
    requires IsRanking(GroceryOrders(store.categories[ci].groceries))
    requires store.categories[ci].groceries[k].order == current.order == |store.categories[ci].groceries|
    requires 1 <= updated.order < current.order
    ensures MoveGroceryResult(Some(store), categoryName, current, updated).Ok?
    ensures IsRanking(GroceryOrders(MoveGroceryResult(Some(store), categoryName, current, updated).value.categories[ci].groceries))
  {
    var before := store.categories[ci].groceries;
    var after := MoveGroceryResult(Some(store), categoryName, current, updated).value.categories[ci].groceries;
    LastUpKeepsRanking(GroceryOrders(before), GroceryOrders(after), k, updated.order);
  }

  /** With the orders 1..n, moving the grocery ranked 1 down to any rank within 1..n gives a permutation of 1..n again. */
  lemma MoveGroceryFirstDown(store: Store, categoryName: string, current: Grocery, updated: Grocery, ci: nat, k: nat)
    requires FindCategory(store.categories, categoryName) == Some(ci)
    requires FindGrocery(store.categories[ci].groceries, current.groceryName) == Some(k)
    requires IsRanking(GroceryOrders(store.categories[ci].groceries))
    requires store.categories[ci].groceries[k].order == current.order == 1
    requires 1 <= updated.order <= |store.categories[ci].groceries|
    ensures MoveGroceryResult(Some(store), categoryName, current, updated).Ok?
    ensures IsRanking(GroceryOrders(MoveGroceryResult(Some(store), categoryName, current, updated).value.categories[ci].groceries))
  {
    var before := store.categories[ci].groceries;
    var after := MoveGroceryResult(Some(store), categoryName, current, updated).value.categories[ci].groceries;
    FirstDownKeepsRanking(GroceryOrders(before), GroceryOrders(after), k, updated.order);
  }

  /** Dairy holds Milk(1), Eggs(2), Butter(3); moving Milk to 3 gives Eggs 1, Butter 2, Milk 3. */
  lemma MoveMilkToBottom()
    ensures
      var dairy := Category("Dairy", Some(1), [Grocery("Milk", 1), Grocery("Eggs", 2), Grocery("Butter", 3)]);
      var store := Store("S1", [dairy]);
      MoveGroceryResult(Some(store), "Dairy", Grocery("Milk", 1), Grocery("Milk", 3)) ==
        Ok(Store("S1", [dairy.(groceries := [Grocery("Milk", 3), Grocery("Eggs", 1), Grocery("Butter", 2)])]))
  {
    var gs := [Grocery("Milk", 1), Grocery("Eggs", 2), Grocery("Butter", 3)];
    var dairy := Category("Dairy", Some(1), gs);
    assert FindCategory([dairy], "Dairy") == Some(0);
    assert FindGrocery(gs, "Milk") == Some(0);
    var moved := [Grocery("Milk", 3), Grocery("Eggs", 1), Grocery("Butter", 2)];
    assert GroceriesReinserted(gs, 0, false, 3) == moved;
    assert [dairy][0 := dairy.(groceries := moved)] == [dairy.(groceries := moved)];
  }

  /** The four groceries ranked 1..4 that the counterexamples below start from. */
  function FourInARow(): Store
  {
    Store("S1", [Category("Dairy", Some(1), [Grocery("Milk", 1), Grocery("Eggs", 2), Grocery("Butter", 3), Grocery("Cheese", 4)])])
  }

  /** Moving the grocery ranked 3 of 1..4 to rank 1 leaves the orders 2, 3, 1, 5: not a ranking. */
  lemma MoveThirdToFirstLeavesGap()
    ensures MoveGroceryResult(Some(FourInARow()), "Dairy", Grocery("Butter", 3), Grocery("Butter", 1)).Ok?
    ensures var after := MoveGroceryResult(Some(FourInARow()), "Dairy", Grocery("Butter", 3), Grocery("Butter", 1)).value;
      GroceryOrders(after.categories[0].groceries) == [2, 3, 1, 5] &&
      !IsRanking(GroceryOrders(after.categories[0].groceries))
  {
    var gs := FourInARow().categories[0].groceries;
    assert FindGrocery(gs, "Butter") == Some(2);
    var after := GroceriesReinserted(gs, 2, true, 1);
    assert GroceryOrders(after) == [2, 3, 1, 5];
    assert GroceryOrders(after)[3] > 4;
  }

  /** Moving the grocery ranked 2 of 1..4 to rank 3 leaves the orders 0, 3, 2, 4: not a ranking. */
  lemma MoveSecondToThirdLeavesZero()
    ensures MoveGroceryResult(Some(FourInARow()), "Dairy", Grocery("Eggs", 2), Grocery("Eggs", 3)).Ok?
    ensures var after := MoveGroceryResult(Some(FourInARow()), "Dairy", Grocery("Eggs", 2), Grocery("Eggs", 3)).value;
      GroceryOrders(after.categories[0].groceries) == [0, 3, 2, 4] &&
      !IsRanking(GroceryOrders(after.categories[0].groceries))
  {
    var gs := FourInARow().categories[0].groceries;
    assert FindGrocery(gs, "Eggs") == Some(1);
    var after := GroceriesReinserted(gs, 1, false, 3);
    assert GroceryOrders(after) == [0, 3, 2, 4];
    assert GroceryOrders(after)[0] < 1;
  }

  /** Leaving the grocery ranked 2 of 1..4 at rank 2 still shifts the others down: 0, 2, 3, 4, not a ranking. */
  lemma StaySecondLeavesZero()
    ensures MoveGroceryResult(Some(FourInARow()), "Dairy", Grocery("Eggs", 2), Grocery("Eggs", 2)).Ok?
    ensures var after := MoveGroceryResult(Some(FourInARow()), "Dairy", Grocery("Eggs", 2), Grocery("Eggs", 2)).value;
      GroceryOrders(after.categories[0].groceries) == [0, 2, 3, 4] &&
      !IsRanking(GroceryOrders(after.categories[0].groceries))
  {
    var gs := FourInARow().categories[0].groceries;
    assert FindGrocery(gs, "Eggs") == Some(1);
    var after := GroceriesReinserted(gs, 1, false, 2);
    assert GroceryOrders(after) == [0, 2, 3, 4];
    assert GroceryOrders(after)[0] < 1;
  }

  // ---------------------------------------------------------------------------
  // MoveCategory
  // ---------------------------------------------------------------------------

  /** A category move fails exactly when the store or the named category is missing. */
  lemma MoveCategoryFailsIffMissing(loaded: Option<Store>, current: CategoryRef, updated: CategoryRef)
    ensures var r := MoveCategoryResult(loaded, current, updated);
      (r.Err? <==> loaded.None? || FindCategory(loaded.value.categories, current.name).None?) &&
      (r.Err? ==> r.error == NotFound)
  {
  }

  /**
   * Moving up: every other category with an order at or after the target moves
   * one down, the rest (including those without an order) keep theirs, and the
   * moved category takes the target order.
   */
  lemma MoveCategoryUp(store: Store, current: CategoryRef, updated: CategoryRef, k: nat)
    requires FindCategory(store.categories, current.name) == Some(k)
    requires updated.order < current.order
    ensures MoveCategoryResult(Some(store), current, updated).Ok?
    ensures var before, after := store.categories, MoveCategoryResult(Some(store), current, updated).value.categories;
      |after| == |before| && after[k] == before[k].(order := Some(updated.order)) &&
      forall i :: 0 <= i < |before| && i != k ==>
        after[i].name == before[i].name &&
        after[i].order == (if before[i].order.Some? && before[i].order.value >= updated.order
                           then Some(before[i].order.value + 1) else before[i].order)
  {
  }

  /**
   * Moving down or staying: every other category with an order at or before
   * the target moves one up, the rest keep theirs, and the moved category takes
   * the target order.
   */
  lemma MoveCategoryDown(store: Store, current: CategoryRef, updated: CategoryRef, k: nat)
    requires FindCategory(store.categories, current.name) == Some(k)
    requires updated.order >= current.order
    ensures MoveCategoryResult(Some(store), current, updated).Ok?
    ensures var before, after := store.categories, MoveCategoryResult(Some(store), current, updated).value.categories;
      |after| == |before| && after[k] == before[k].(order := Some(updated.order)) &&
      forall i :: 0 <= i < |before| && i != k ==>
        after[i].name == before[i].name &&
        after[i].order == (if before[i].order.Some? && before[i].order.value <= updated.order
                           then Some(before[i].order.value - 1) else before[i].order)
  {
  }

  /** A category move changes only category orders: names, positions and grocery lists stay. */
  lemma MoveCategoryOnlyReorders(loaded: Option<Store>, current: CategoryRef, updated: CategoryRef)
    requires MoveCategoryResult(loaded, current, updated).Ok?
    ensures var s, t := loaded.value, MoveCategoryResult(loaded, current, updated).value;
      t.storeId == s.storeId && |t.categories| == |s.categories| &&
      forall j :: 0 <= j < |s.categories| ==>
        t.categories[j].name == s.categories[j].name &&
        t.categories[j].groceries == s.categories[j].groceries
  {
  }

  /**
   * A category move keeps each uniqueness invariant of the store on its own,
   * whatever orders are requested and whether or not the others hold.
   */
  lemma MoveCategoryKeepsConsistent(store: Store, current: CategoryRef, updated: CategoryRef)
    requires MoveCategoryResult(Some(store), current, updated).Ok?
    ensures var t := MoveCategoryResult(Some(store), current, updated).value;
      (CategoryOrdersUnique(store.categories) ==> CategoryOrdersUnique(t.categories)) &&
      (CategoryNamesUnique(store.categories) ==> CategoryNamesUnique(t.categories)) &&
      (GroceryListsConsistent(store.categories) ==> GroceryListsConsistent(t.categories)) &&
      (Consistent(store) ==> Consistent(t))
  {
    var before := store.categories;
    var after := MoveCategoryResult(Some(store), current, updated).value.categories;
    var k := FindCategory(before, current.name).value;
    var movingUp := updated.order < current.order;
    if CategoryOrdersUnique(before) {
      forall i, j | 0 <= i < j < |after| && after[i].order.Some? && after[j].order.Some?
        ensures after[i].order.value != after[j].order.value
      {
        if i != k && j != k {
          ShiftLeavesGapAtTarget(before[i].order.value, before[j].order.value, movingUp, updated.order);
        } else if i == k {
          ShiftLeavesGapAtTarget(before[j].order.value, 0, movingUp, updated.order);
        } else {
          ShiftLeavesGapAtTarget(before[i].order.value, 0, movingUp, updated.order);
        }
      }
    }
  }

  /** With every category ranked 1..n, moving the one ranked n up to any rank below n gives a permutation of 1..n again. */
  lemma MoveCategoryLastUp(store: Store, current: CategoryRef, updated: CategoryRef, k: nat)
    requires FindCategory(store.categories, current.name) == Some(k)
    requires CategoriesRanked(store.categories)
    requires store.categories[k].order == Some(current.order) && current.order == |store.categories|
    requires 1 <= updated.order < current.order
    ensures MoveCategoryResult(Some(store), current, updated).Ok?
    ensures CategoriesRanked(MoveCategoryResult(Some(store), current, updated).value.categories)
  {
    var before := store.categories;
    var after := MoveCategoryResult(Some(store), current, updated).value.categories;
    LastUpKeepsRanking(CategoryOrders(before), CategoryOrders(after), k, updated.order);
  }

  /** With every category ranked 1..n, moving the one ranked 1 down to any rank within 1..n gives a permutation of 1..n again. */
  lemma MoveCategoryFirstDown(store: Store, current: CategoryRef, updated: CategoryRef, k: nat)
    requires FindCategory(store.categories, current.name) == Some(k)
    requires CategoriesRanked(store.categories)
    requires store.categories[k].order == Some(current.order) && current.order == 1
    requires 1 <= updated.order <= |store.categories|
    ensures MoveCategoryResult(Some(store), current, updated).Ok?
    ensures CategoriesRanked(MoveCategoryResult(Some(store), current, updated).value.categories)
  {
    var before := store.categories;
    var after := MoveCategoryResult(Some(store), current, updated).value.categories;
    FirstDownKeepsRanking(CategoryOrders(before), CategoryOrders(after), k, updated.order);
  }

  // ---------------------------------------------------------------------------
  // AddGrocery
  // ---------------------------------------------------------------------------

  /** Adding Cheese to a Dairy category ranked 1, 2, 3 gives Cheese the order 4 at the end. */
  method AddAfterThreeGetsFour() returns (r: Result<Store, Error>)
    ensures r.Ok? && |r.value.categories| == 1
    ensures r.value.categories[0].groceries ==
      [Grocery("Milk", 1), Grocery("Eggs", 2), Grocery("Butter", 3), Grocery("Cheese", 4)]
  {
    var gs := [Grocery("Milk", 1), Grocery("Eggs", 2), Grocery("Butter", 3)];
    var store := Store("S1", [Category("Dairy", Some(1), gs)]);
    assert FindCategory(store.categories, "Dairy") == Some(0);
    assert FindGrocery(gs, "Cheese") == None;
    r := AddGrocery(Some(store), GroceryRequest(Some("Dairy"), "Cheese"));
    var after := r.value.categories[0].groceries;
    assert after[..3] == gs;
    assert after == gs + [after[3]];
  }
}
