/** UnitBudget: the mutable (priority, durability, quality) triple every bag item
    carries, each component kept in [0,1], with a "deleted" state, the time it was
    last forgotten, threshold and epsilon tests, and its fixed textual form. */
module Budgets {
  import opened JavaNumbers
  import opened Wrappers

  /** Tense.TIMELESS, the "never forgotten" time (Tense is not part of this model;
      its value is taken to be Long.MIN_VALUE). */
  const TIMELESS: int := INT64_MIN

  /** Symbols.BUDGET_VALUE_MARK and Symbols.VALUE_SEPARATOR. */
  const BUDGET_VALUE_MARK: char := '$'
  const VALUE_SEPARATOR: char := ';'

  /** What a budget holds at one moment. A deleted budget has a NaN priority. */
  datatype BudgetValue = BudgetValue(priority: Float, durability: real, quality: real, lastForgetTime: int64)

  predicate IsDeleted(v: BudgetValue)
  {
    v.priority.NaN?
  }

  /** The values a UnitBudget can hold: each component in [0,1], with NaN as the only
      other priority. */
  predicate WellFormed(v: BudgetValue)
  {
    && (v.priority.NaN? || (v.priority.Num? && 0.0 <= v.priority.r <= 1.0))
    && 0.0 <= v.durability <= 1.0
    && 0.0 <= v.quality <= 1.0
  }

  /** The decay curve BudgetFunctions.forgetAlann (not part of this model): the new
      priority for a budget, given the forget period in cycles and the current time. */
  type DecayCurve = (BudgetValue, real, int64) -> real

  /** The value `forget(now, forgetCycles, _)` leaves: a live budget gets the decayed
      priority (through the clamping setter); a deleted one keeps its components; in
      both cases the last-forget time becomes `now`. */
  function ForgetValue(v: BudgetValue, now: int64, forgetCycles: real, alann: DecayCurve): (r: BudgetValue)
    ensures r.lastForgetTime == now
    ensures r.durability == v.durability && r.quality == v.quality
    ensures IsDeleted(v) ==> r == v.(lastForgetTime := now)
    ensures !IsDeleted(v) ==> r.priority == Num(Clamp(alann(v, forgetCycles, now)))
    ensures WellFormed(v) ==> WellFormed(r)
  {
    if IsDeleted(v) then v.(lastForgetTime := now)
    else v.(priority := Num(Clamp(alann(v, forgetCycles, now))), lastForgetTime := now)
  }

  /** The elapsed period `setLastForgetTime(now)` reports: 0 the first time, otherwise
      the (64-bit) difference from the previous forget time. */
  function ForgetPeriod(previous: int64, now: int64): (period: int64)
    ensures previous == TIMELESS ==> period == 0
    ensures previous != TIMELESS && INT64_MIN <= now - previous <= INT64_MAX ==> period == now - previous
    ensures previous != TIMELESS && 0 <= previous <= now ==> 0 <= period == now - previous
  {
    if previous == TIMELESS then 0 else Int64(now - previous)
  }

  /** `summaryGreaterOrEqual(threshold)`. The summary comparison
      (Budget.summaryNotLessThan) is not part of this model and is passed in. */
  function SummaryGreaterOrEqual(v: BudgetValue, threshold: real, summaryNotLessThan: (BudgetValue, real) -> bool): (r: bool)
    ensures IsDeleted(v) ==> !r
    ensures !IsDeleted(v) && threshold <= 0.0 ==> r
    ensures !IsDeleted(v) && threshold > 0.0 ==> r == summaryNotLessThan(v, threshold)
  {
    if IsDeleted(v) then false
    else if threshold <= 0.0 then true
    else summaryNotLessThan(v, threshold)
  }

  /** UtilityFunctions.equal (not part of this model), taken as a strict epsilon test;
      a NaN or infinite operand is never equal. */
  predicate WithinEpsilon(a: Float, b: Float, epsilon: real)
  {
    a.Num? && b.Num? && -epsilon < a.r - b.r < epsilon
  }

  /** `equalsByPrecision(t, epsilon)`: all three components within epsilon. */
  function EqualsByPrecision(a: BudgetValue, b: BudgetValue, epsilon: real): (r: bool)
    ensures r <==> (WithinEpsilon(a.priority, b.priority, epsilon)
                    && WithinEpsilon(Num(a.durability), Num(b.durability), epsilon)
                    && WithinEpsilon(Num(a.quality), Num(b.quality), epsilon))
    ensures r ==> !IsDeleted(a) && !IsDeleted(b)
  {
    && WithinEpsilon(a.priority, b.priority, epsilon)
    && WithinEpsilon(Num(a.durability), Num(b.durability), epsilon)
    && WithinEpsilon(Num(a.quality), Num(b.quality), epsilon)
  }

  /** `equalsBudget(t)`, with Global.BUDGET_EPSILON passed in as `epsilon`. */
  function EqualsBudget(a: BudgetValue, b: BudgetValue, epsilon: real): (r: bool)
    ensures r <==> EqualsByPrecision(a, b, epsilon) && a.lastForgetTime == b.lastForgetTime
  {
    EqualsByPrecision(a, b, epsilon) && a.lastForgetTime == b.lastForgetTime
  }

  /** Epsilon equality is reflexive on live budgets, and a deleted budget (NaN priority)
      is equal to nothing, not even to itself. */
  lemma EqualsBudgetReflexiveUnlessDeleted(v: BudgetValue, epsilon: real)
    requires epsilon > 0.0
    ensures EqualsBudget(v, v, epsilon) <==> !IsDeleted(v) && v.priority.Num?
  {
    if v.priority.Num? {
      assert WithinEpsilon(v.priority, v.priority, epsilon);
      assert WithinEpsilon(Num(v.durability), Num(v.durability), epsilon);
      assert WithinEpsilon(Num(v.quality), Num(v.quality), epsilon);
    }
  }

  /** Epsilon equality does not depend on the order of its operands. */
  lemma EqualsBudgetSymmetric(a: BudgetValue, b: BudgetValue, epsilon: real)
    ensures EqualsBudget(a, b, epsilon) == EqualsBudget(b, a, epsilon)
  {
  }

  /** `toStringBuilder`: MARK p SEP d SEP q MARK. */
  function BudgetText(p: string, d: string, q: string): (s: string)
    ensures |s| == 1 + |p| + 1 + |d| + 1 + |q| + 1
    ensures s[0] == BUDGET_VALUE_MARK && s[|s| - 1] == BUDGET_VALUE_MARK
  {
    [BUDGET_VALUE_MARK] + p + [VALUE_SEPARATOR] + d + [VALUE_SEPARATOR] + q + [BUDGET_VALUE_MARK]
  }

  /** `toString`: each component printed with Texts.n4 (not part of this model; passed
      in). The text reads back into the three printed numbers whenever none of them
      contains the separator. */
  function ToText(v: BudgetValue, n4: Float -> string): (s: string)
    ensures |s| >= 4 && s[0] == BUDGET_VALUE_MARK && s[|s| - 1] == BUDGET_VALUE_MARK
    ensures NoSeparator(n4(v.priority), n4(Num(v.durability)), n4(Num(v.quality))) ==>
              ParseBudgetText(s) == Some((n4(v.priority), n4(Num(v.durability)), n4(Num(v.quality))))
  {
    PrintedWith(v, n4)
  }

  /** `toBudgetStringExternal`: the same form with Texts.n2 (passed in). */
  function ToTextExternal(v: BudgetValue, n2: Float -> string): (s: string)
    ensures |s| >= 4 && s[0] == BUDGET_VALUE_MARK && s[|s| - 1] == BUDGET_VALUE_MARK
    ensures NoSeparator(n2(v.priority), n2(Num(v.durability)), n2(Num(v.quality))) ==>
              ParseBudgetText(s) == Some((n2(v.priority), n2(Num(v.durability)), n2(Num(v.quality))))
  {
    PrintedWith(v, n2)
  }

  predicate NoSeparator(p: string, d: string, q: string)
  {
    VALUE_SEPARATOR !in p && VALUE_SEPARATOR !in d && VALUE_SEPARATOR !in q
  }

  /** The budget text of the three components, each printed by `fmt`. */
  function PrintedWith(v: BudgetValue, fmt: Float -> string): (s: string)
    ensures s == BudgetText(fmt(v.priority), fmt(Num(v.durability)), fmt(Num(v.quality)))
    ensures NoSeparator(fmt(v.priority), fmt(Num(v.durability)), fmt(Num(v.quality))) ==>
              ParseBudgetText(s) == Some((fmt(v.priority), fmt(Num(v.durability)), fmt(Num(v.quality))))
  {
    var p, d, q := fmt(v.priority), fmt(Num(v.durability)), fmt(Num(v.quality));
    if NoSeparator(p, d, q) then
      BudgetTextRoundTrip(p, d, q);
      BudgetText(p, d, q)
    else BudgetText(p, d, q)
  }

  /** The fields of a separated list, split at every separator. */
  function Split(s: string, sep: char): (fields: seq<string>)
    ensures |fields| >= 1
    decreases |s|
  {
    if sep !in s then [s]
    else
      var i := FirstIndex(s, sep);
      [s[..i]] + Split(s[i + 1..], sep)
  }

  function FirstIndex(s: string, c: char): (i: nat)
    requires c in s
    ensures i < |s| && s[i] == c && c !in s[..i]
  {
    if s[0] == c then 0 else 1 + FirstIndex(s[1..], c)
  }

  /** Reads the three fields back from a budget text. */
  function ParseBudgetText(s: string): (r: Option<(string, string, string)>)
  {
    if |s| < 2 || s[0] != BUDGET_VALUE_MARK || s[|s| - 1] != BUDGET_VALUE_MARK then None
    else
      var fields := Split(s[1..|s| - 1], VALUE_SEPARATOR);
      if |fields| == 3 then Some((fields[0], fields[1], fields[2])) else None
  }

  lemma {:induction false} SplitAppend(a: string, sep: char, b: string)
    requires sep !in a
    ensures Split(a + [sep] + b, sep) == [a] + Split(b, sep)
  {
    var s := a + [sep] + b;
    assert s[|a|] == sep;
    var i := FirstIndex(s, sep);
    assert s[..i] == a;
    assert s[i + 1..] == b;
  }

  /** The text form is readable back into its three fields whenever no field contains
      the separator. */
  lemma {:induction false} BudgetTextRoundTrip(p: string, d: string, q: string)
    requires VALUE_SEPARATOR !in p && VALUE_SEPARATOR !in d && VALUE_SEPARATOR !in q
    ensures ParseBudgetText(BudgetText(p, d, q)) == Some((p, d, q))
  {
    var s := BudgetText(p, d, q);
    assert s[1..|s| - 1] == p + [VALUE_SEPARATOR] + (d + [VALUE_SEPARATOR] + q);
    SplitAppend(p, VALUE_SEPARATOR, d + [VALUE_SEPARATOR] + q);
    SplitAppend(d, VALUE_SEPARATOR, q);
  }

  /** `prioritySum`'s result as a float fold from the left; a NaN (deleted) priority
      makes the sum NaN. */
  function PrioritySumOf(vs: seq<BudgetValue>): Float
  {
    if vs == [] then Num(0.0) else Add(PrioritySumOf(vs[..|vs| - 1]), vs[|vs| - 1].priority)
  }

  /** `summarySum`'s result, with Budget.summary (not part of this model) passed in. */
  function SummarySumOf(vs: seq<BudgetValue>, summary: BudgetValue -> Float): Float
  {
    if vs == [] then Num(0.0) else Add(SummarySumOf(vs[..|vs| - 1], summary), summary(vs[|vs| - 1]))
  }

  /** With summaries that are numbers in [0,1], the summary sum lies between 0 and the
      number of budgets; one NaN summary makes it NaN. */
  lemma {:induction false} SummarySumBounds(vs: seq<BudgetValue>, summary: BudgetValue -> Float)
    ensures (forall i :: 0 <= i < |vs| ==> summary(vs[i]).Num? && 0.0 <= summary(vs[i]).r <= 1.0) ==>
              SummarySumOf(vs, summary).Num? && 0.0 <= SummarySumOf(vs, summary).r <= |vs| as real
    ensures (exists i :: 0 <= i < |vs| && summary(vs[i]).NaN?) ==> SummarySumOf(vs, summary).NaN?
  {
    if vs != [] {
      var init := vs[..|vs| - 1];
      SummarySumBounds(init, summary);
      if exists i :: 0 <= i < |vs| && summary(vs[i]).NaN? {
        var i :| 0 <= i < |vs| && summary(vs[i]).NaN?;
        if i < |vs| - 1 {
          assert summary(init[i]).NaN?;
        }
      }
      if forall i :: 0 <= i < |vs| ==> summary(vs[i]).Num? && 0.0 <= summary(vs[i]).r <= 1.0 {
        assert forall i :: 0 <= i < |init| ==> summary(init[i]).Num? && 0.0 <= summary(init[i]).r <= 1.0 by {
          forall i | 0 <= i < |init| ensures summary(init[i]).Num? && 0.0 <= summary(init[i]).r <= 1.0 {
            assert init[i] == vs[i];
          }
        }
      }
    }
  }

  /** The priority sum of live budgets is a number between 0 and their count, and one
      deleted budget makes it NaN. */
  lemma {:induction false} PrioritySumBounds(vs: seq<BudgetValue>)
    requires forall i :: 0 <= i < |vs| ==> WellFormed(vs[i])
    ensures (forall i :: 0 <= i < |vs| ==> !IsDeleted(vs[i])) ==>
              PrioritySumOf(vs).Num? && 0.0 <= PrioritySumOf(vs).r <= |vs| as real
    ensures (exists i :: 0 <= i < |vs| && IsDeleted(vs[i])) ==> PrioritySumOf(vs).NaN?
  {
    if vs != [] {
      var init := vs[..|vs| - 1];
      PrioritySumBounds(init);
      if exists i :: 0 <= i < |vs| && IsDeleted(vs[i]) {
        var i :| 0 <= i < |vs| && IsDeleted(vs[i]);
        if i < |vs| - 1 {
          assert IsDeleted(init[i]);
        }
      }
      if forall i :: 0 <= i < |vs| ==> !IsDeleted(vs[i]) {
        assert forall i :: 0 <= i < |init| ==> !IsDeleted(init[i]) by {
          forall i | 0 <= i < |init| ensures !IsDeleted(init[i]) {
            assert init[i] == vs[i];
          }
        }
      }
    }
  }

  /** A budget object: priority, durability and quality, each kept in [0,1] by the
      setters, a deleted flag standing for the NaN priority, and the last forget time. */
  class UnitBudget {
    var priority: real
    var deleted: bool
    var durability: real
    var quality: real
    var lastForgetTime: int64

    ghost predicate Valid()
      reads this
    {
      && 0.0 <= priority <= 1.0
      && 0.0 <= durability <= 1.0
      && 0.0 <= quality <= 1.0
      && (deleted ==> priority == 0.0)
    }

    /** `getPriority()`: NaN when deleted. */
    function GetPriority(): (p: Float)
      reads this
      ensures deleted <==> p.NaN?
    {
      if deleted then NaN else Num(priority)
    }

    function Value(): (v: BudgetValue)
      reads this
      ensures Valid() ==> WellFormed(v)
      ensures IsDeleted(v) <==> deleted
    {
      BudgetValue(GetPriority(), durability, quality, lastForgetTime)
    }

    /** `UnitBudget()`: all components 0, never forgotten. */
    constructor Empty()
      ensures Valid()
      ensures Value() == BudgetValue(Num(0.0), 0.0, 0.0, TIMELESS)
    {
      priority, deleted, durability, quality := 0.0, false, 0.0, 0.0;
      lastForgetTime := TIMELESS;
    }

    /** `UnitBudget(p, d, q)`: fails on a NaN priority (the setter throws), otherwise
        every component passes through its clamping setter. */
    static method New(p: Float, d: real, q: real) returns (r: Result<UnitBudget>)
      ensures r.Failure? <==> p.NaN?
      ensures r.Success? ==> fresh(r.value) && r.value.Valid()
      ensures r.Success? ==> r.value.Value() == BudgetValue(Num(ClampFloat(p)), Clamp(d), Clamp(q), TIMELESS)
    {
      var b := new UnitBudget.Empty();
      var ok := b.SetPriority(p);
      if !ok {
        return Failure("NaN priority");
      }
      b.SetDurability(d);
      b.SetQuality(q);
      r := Success(b);
    }

    /** `setPriority(p)`: throws on NaN and changes nothing; otherwise stores clamp(p),
        which also ends a deleted state. */
    method SetPriority(p: Float) returns (ok: bool)
      requires Valid()
      modifies this
      ensures Valid()
      ensures ok <==> !p.NaN?
      ensures ok ==> Value() == old(Value()).(priority := Num(ClampFloat(p)))
      ensures !ok ==> Value() == old(Value())
    {
      if p.NaN? {
        return false;
      }
      priority := ClampFloat(p);
      deleted := false;
      ok := true;
    }

    /** `setDurability(d)`: stores clamp(d). */
    method SetDurability(d: real)
      requires Valid()
      modifies this
      ensures Valid()
      ensures Value() == old(Value()).(durability := Clamp(d))
    {
      durability := Clamp(d);
    }

    /** `setQuality(q)`: stores clamp(q). */
    method SetQuality(q: real)
      requires Valid()
      modifies this
      ensures Valid()
      ensures Value() == old(Value()).(quality := Clamp(q))
    {
      quality := Clamp(q);
    }

    /** `zero()`: all three components 0; returns this same object. */
    method Zero() returns (self: UnitBudget)
      requires Valid()
      modifies this
      ensures Valid() && self == this
      ensures Value() == old(Value()).(priority := Num(0.0), durability := 0.0, quality := 0.0)
    {
      priority, deleted, durability, quality := 0.0, false, 0.0, 0.0;
      self := this;
    }

    /** `deleteBudget()`: priority NaN, durability and quality 0. */
    method DeleteBudget()
      requires Valid()
      modifies this
      ensures Valid()
      ensures Value() == old(Value()).(priority := NaN, durability := 0.0, quality := 0.0)
    {
      priority, deleted, durability, quality := 0.0, true, 0.0, 0.0;
    }

    /** `delete()`: deletes the budget and reports true. */
    method Delete() returns (b: bool)
      requires Valid()
      modifies this
      ensures Valid() && b
      ensures Value() == old(Value()).(priority := NaN, durability := 0.0, quality := 0.0)
    {
      DeleteBudget();
      b := true;
    }

    /** `mulPriority(factor)`: stores clamp(priority * factor) through the setter, so a
        NaN product (a deleted budget, or an infinity times zero) throws. */
    method MulPriority(factor: Float) returns (ok: bool)
      requires Valid()
      modifies this
      ensures Valid()
      ensures ok <==> !Mul(old(GetPriority()), factor).NaN?
      ensures ok ==> Value() == old(Value()).(priority := Num(ClampFloat(Mul(old(GetPriority()), factor))))
      ensures !ok ==> Value() == old(Value())
      ensures old(deleted) ==> !ok
    {
      ok := SetPriority(Mul(GetPriority(), factor));
    }

    /** `setLastForgetTime(now)`: stores `now` and returns the elapsed period. */
    method SetLastForgetTime(now: int64) returns (period: int64)
      requires Valid()
      modifies this
      ensures Valid()
      ensures period == ForgetPeriod(old(lastForgetTime), now)
      ensures Value() == old(Value()).(lastForgetTime := now)
    {
      period := if lastForgetTime == TIMELESS then 0 else Int64(now - lastForgetTime);
      lastForgetTime := now;
    }

    /** `forget(now, forgetCycles, relativeThreshold)`: decays a live budget along the
        given curve and records `now`; the threshold is not used. Returns this object. */
    method Forget(now: int64, forgetCycles: real, relativeThreshold: real, alann: DecayCurve) returns (self: UnitBudget)
      requires Valid()
      modifies this
      ensures Valid() && self == this
      ensures Value() == ForgetValue(old(Value()), now, forgetCycles, alann)
    {
      if !deleted {
        var ok := SetPriority(Num(alann(Value(), forgetCycles, now)));
      }
      var _ := SetLastForgetTime(now);
      self := this;
    }

    /** `summaryGreaterOrEqual(threshold)` on the current value. */
    function IsAboveThreshold(threshold: real, summaryNotLessThan: (BudgetValue, real) -> bool): (r: bool)
      reads this
      ensures deleted ==> !r
      ensures !deleted && threshold <= 0.0 ==> r
      ensures !deleted && threshold > 0.0 ==> r == summaryNotLessThan(Value(), threshold)
    {
      SummaryGreaterOrEqual(Value(), threshold, summaryNotLessThan)
    }
  }

  /** `prioritySum(dd)`: the priorities of the budgets added up in order. */
  method PrioritySum(dd: seq<UnitBudget>) returns (f: Float)
    ensures f == PrioritySumOf(Values(dd))
  {
    f := Num(0.0);
    var i := 0;
    while i < |dd|
      invariant 0 <= i <= |dd|
      invariant f == PrioritySumOf(Values(dd[..i]))
    {
      assert Values(dd[..i + 1])[..i] == Values(dd[..i]);
      f := Add(f, dd[i].GetPriority());
      i := i + 1;
    }
    assert dd[..i] == dd;
  }

  /** `summarySum(dd)`: the summaries of the budgets added up in order. */
  method SummarySum(dd: seq<UnitBudget>, summary: BudgetValue -> Float) returns (f: Float)
    ensures f == SummarySumOf(Values(dd), summary)
  {
    f := Num(0.0);
    var i := 0;
    while i < |dd|
      invariant 0 <= i <= |dd|
      invariant f == SummarySumOf(Values(dd[..i]), summary)
    {
      assert Values(dd[..i + 1])[..i] == Values(dd[..i]);
      f := Add(f, summary(dd[i].Value()));
      i := i + 1;
    }
    assert dd[..i] == dd;
  }

  /** The current values of a sequence of budget objects. */
  function Values(dd: seq<UnitBudget>): (vs: seq<BudgetValue>)
    reads set b | b in dd
    ensures |vs| == |dd|
    ensures forall i :: 0 <= i < |dd| ==> vs[i] == dd[i].Value()
  {
    if dd == [] then [] else Values(dd[..|dd| - 1]) + [dd[|dd| - 1].Value()]
  }
}
