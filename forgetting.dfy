/** ParametricBagForgetting: a bag update that classifies each item with a pluggable
    model into one of four actions, remembers the item as `selected` or not, and
    decays its budget or not, answering null ("no change") when nothing moved. */
module Forgetting {
  import opened Wrappers
  import opened JavaNumbers
  import opened Budgets
  import opened BagTransactions

  datatype ForgetAction = Select | SelectAndForget | Ignore | IgnoreAndForget

  /** The switch of `updateItem`: (select, forget) for each action. */
  function Decision(a: ForgetAction): (d: (bool, bool))
    ensures d.0 <==> a == Select || a == SelectAndForget
    ensures d.1 <==> a != Ignore
  {
    match a
    case Ignore => (false, false)
    case IgnoreAndForget => (false, true)
    case Select => (true, true)
    case SelectAndForget => (true, true)
  }

  /** Whether `updateItem` hands `result` back (the item must be reindexed): only when
      the action decays the budget and the priority read before decay is not `==` to
      the one after it, in Java's float sense. */
  predicate ReportsChange(a: ForgetAction, priorityStart: Float, priorityEnd: Float)
  {
    Decision(a).1 && !FloatEq(priorityStart, priorityEnd)
  }

  /** Selecting and decaying are independent choices except that an item cannot be
      selected without being decayed; the two selecting actions behave alike. */
  lemma DecisionTable()
    ensures forall a :: Decision(a).0 ==> Decision(a).1
    ensures Decision(Select) == Decision(SelectAndForget)
    ensures forall s: bool, f: bool :: (s ==> f) ==> exists a :: Decision(a) == (s, f)
  {
    assert Decision(Ignore) == (false, false);
    assert Decision(IgnoreAndForget) == (false, true);
    assert Decision(Select) == (true, true);
  }

  /** Because NaN is never `==` to anything, a deleted item that is decayed is always
      reported as changed. */
  lemma DeletedItemAlwaysReindexed(a: ForgetAction, priorityEnd: Float)
    requires a != Ignore
    ensures ReportsChange(a, NaN, priorityEnd)
  {
  }

  class ParametricBagForgetting<K> {
    /** The classifier; None stands for a null model. */
    var model: Option<Item<K> -> ForgetAction>
    /** The item this update selected, or None (null). */
    var selected: Option<Item<K>>
    /** Current time and forget period, set by the enclosing BagForgetting for each
        cycle (BagForgetting is not part of this model). */
    var now: int64
    var forgetCycles: real

    constructor (now: int64, forgetCycles: real)
      ensures model == None && selected == None
      ensures this.now == now && this.forgetCycles == forgetCycles
    {
      model := None;
      selected := None;
      this.now := now;
      this.forgetCycles := forgetCycles;
    }

    /** `setModel(m)`. */
    method SetModel(m: Option<Item<K> -> ForgetAction>)
      modifies this`model
      ensures model == m
    {
      model := m;
    }

    /** The action for item `v`: the model's answer, or SelectAndForget without one.
        The ensures spell out the body for callers' proofs. */
    function Action(v: Item<K>): (a: ForgetAction)
      reads this
      ensures model.None? ==> a == SelectAndForget
      ensures model.Some? ==> a == model.value(v)
    {
      if model.Some? then model.value(v) else SelectAndForget
    }

    /** `updateItem(v, result)`. Memory.forget (not part of this model) is taken to run
        `result.forget(now, forgetCycles, minForgettable)` and report the priority it
        leaves. */
    method UpdateItem(v: Item<K>, result: UnitBudget, minForgettable: real, alann: DecayCurve) returns (r: Option<UnitBudget>)
      requires result.Valid()
      modifies this`selected, result
      ensures result.Valid()
      ensures selected == if Decision(Action(v)).0 then Some(v) else None
      ensures !Decision(Action(v)).1 ==> result.Value() == old(result.Value())
      ensures Decision(Action(v)).1 ==> result.Value() == ForgetValue(old(result.Value()), now, forgetCycles, alann)
      ensures r.Some? <==> ReportsChange(Action(v), old(v.budget.GetPriority()), result.GetPriority())
      ensures r.Some? ==> r.value == result
    {
      var a := if model.Some? then model.value(v) else SelectAndForget;
      var select, forget;
      match a {
        case Ignore =>
          select, forget := false, false;
        case IgnoreAndForget =>
          select, forget := false, true;
        case Select =>
          select, forget := true, true;
        case SelectAndForget =>
          select, forget := true, true;
      }

      selected := if select then Some(v) else None;

      if !forget {
        return None;
      }

      var priorityStart := v.budget.GetPriority();
      var forgotten := result.Forget(now, forgetCycles, minForgettable, alann);
      var priorityEnd := forgotten.GetPriority();
      if FloatEq(priorityStart, priorityEnd) {
        return None;
      }
      r := Some(result);
    }
  }
}
