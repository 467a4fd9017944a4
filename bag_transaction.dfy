/** BagTransaction: the create-or-update contract a caller hands to a bag. `name()`
    gives the key, `newItem()` builds an item only when the key is absent, and
    `updateItem(v, result)` returns the new budget or null for "unchanged, do not
    reindex". The bag itself is not part of this model; `Protocol` states how the
    contract documents the bag's use of these three answers. */
module BagTransactions {
  import opened Wrappers
  import opened JavaNumbers
  import opened Budgets

  /** An item (Itemized): its key and the budget object it owns. */
  class Item<K> {
    const key: K
    const budget: UnitBudget

    constructor (key: K, budget: UnitBudget)
      ensures this.key == key && this.budget == budget
    {
      this.key := key;
      this.budget := budget;
    }

    /** `delete()`: deletes the item's budget and reports true. */
    method Delete() returns (b: bool)
      requires budget.Valid()
      modifies budget
      ensures budget.Valid() && b
      ensures budget.Value() == old(budget.Value()).(priority := NaN, durability := 0.0, quality := 0.0)
    {
      b := budget.Delete();
    }
  }

  /** A transaction's three answers. `name` is None for a null key; `updateItem` gets
      the item and its current budget and answers None for "unchanged". */
  datatype Transaction<K, !V> = Transaction(
    name: Option<K>,
    newItem: () -> V,
    updateItem: (V, BudgetValue) -> Option<BudgetValue>)

  /** What a put does with a transaction. */
  datatype PutStep<K, V> =
    | Inserted(item: V)                       // key absent: newItem() is inserted
    | Reindexed(key: K, budget: BudgetValue)  // updateItem returned a budget: reinsert
    | Untouched(key: K)                       // updateItem returned null: no reindexing
    | NoItem                                  // null key and nothing to peek at

  /** The contract as the bag follows it: the key is `name()`, or the bag's next item
      when that is null; a present key goes to `updateItem` with the item's current
      budget, an absent one to `newItem`. */
  function Protocol<K, V>(tx: Transaction<K, V>, items: map<K, V>, budgetOf: V -> BudgetValue, peekNext: Option<K>): (r: PutStep<K, V>)
    requires peekNext.Some? ==> peekNext.value in items
    ensures tx.name.Some? && tx.name.value !in items <==> r.Inserted?
    ensures r.Inserted? ==> r.item == tx.newItem()
    ensures r.NoItem? <==> tx.name.None? && peekNext.None?
    ensures r.Untouched? || r.Reindexed? ==>
              var k := if tx.name.Some? then tx.name.value else peekNext.value;
              && (r.Untouched? ==> r.key == k) && (r.Reindexed? ==> r.key == k)
              && k in items
              && (r.Untouched? <==> tx.updateItem(items[k], budgetOf(items[k])).None?)
              && (r.Reindexed? ==> r.budget == tx.updateItem(items[k], budgetOf(items[k])).value)
  {
    var key := if tx.name.Some? then tx.name else peekNext;
    match key
    case None => NoItem
    case Some(k) =>
      if k !in items then Inserted(tx.newItem())
      else
        match tx.updateItem(items[k], budgetOf(items[k]))
        case None => Untouched(k)
        case Some(b) => Reindexed(k, b)
  }

  /** `newItem()` is never consulted for a key the bag already holds, and a null key
      never creates an item. */
  lemma NewItemOnlyWhenAbsent<K, V>(tx: Transaction<K, V>, items: map<K, V>, budgetOf: V -> BudgetValue, peekNext: Option<K>)
    requires peekNext.Some? ==> peekNext.value in items
    ensures Protocol(tx, items, budgetOf, peekNext).Inserted? ==> tx.name.Some? && tx.name.value !in items
    ensures tx.name.None? ==> !Protocol(tx, items, budgetOf, peekNext).Inserted?
  {
  }

  /** The default `overflow(item)`: the displaced item is deleted. */
  method Overflow<K>(overflow: Item<K>)
    requires overflow.budget.Valid()
    modifies overflow.budget
    ensures overflow.budget.Valid()
    ensures IsDeleted(overflow.budget.Value())
    ensures overflow.budget.Value() == old(overflow.budget.Value()).(priority := NaN, durability := 0.0, quality := 0.0)
  {
    var _ := overflow.Delete();
  }
}
