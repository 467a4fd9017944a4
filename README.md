# opennars attention and budget core, modelled in Dafny

This project models the attention and budget layer of the opennars reasoner:

- the mutable budget triple (priority, durability, quality) with its clamping setters, its
  deleted state, its forgetting bookkeeping, its threshold test, its epsilon equality and its
  text form (`UnitBudget`);
- the create-or-update contract a caller hands to a bag, and the forgetting transaction that
  classifies each item with a pluggable model (`BagTransaction`, `ParametricBagForgetting`);
- the flat byte keys of term-link templates (`TermLinkTemplate`);
- atom interning, equality, hashing and ordering (`Atom`);
- the set-algebra normalisation of extensional intersections (`IntersectionExt`);
- the zero-copy int buffer (`FasterIntArrayList`);
- one working cycle of the experimental `Equalized` reasoner, which spends a fixed busyness
  budget on new tasks (`Equalized.EqualizedCycle.cycle`).

There is one module per source file:

- `budget.dfy` (`Budgets`)
- `bag_transaction.dfy` (`BagTransactions`)
- `forgetting.dfy` (`Forgetting`)
- `term_link_template.dfy` (`TermLinks`)
- `atom.dfy` (`Atoms`)
- `intersection_ext.dfy` (`Intersections`)
- `int_list.dfy` (`IntLists`)
- `equalized.dfy` (`Scheduling`)

Two modules are shared:

- `java_numbers.dfy` (`JavaNumbers`) gives Java's `float` as a datatype (a real, NaN or an
  infinity) and wraps `int`, `long` and `byte` arithmetic explicitly.
- `wrappers.dfy` (`Wrappers`) holds `Option` and `Result`.

Objects whose fields the source updates are classes with `modifies` clauses. Their methods
are proved against specification functions, and the properties are lemmas about those
functions.

Collaborators whose code is not part of this model are parameters of the operations that use
them. These are:

- the decay curve `BudgetFunctions.forgetAlann`;
- the summary comparison;
- `Texts.n4` and `Texts.n2`;
- `Texts.compare`;
- `SetInt.make` and `SetExt.make`;
- `TaskProcess.get`;
- the new-task set's highest-first order and `commitNewTasks`.

The new-task set's `limit` is a field of the memory. The trimming lemmas take as their
hypotheses that it trims to its bound and loses nothing (`TrimsTo`), and that it keeps no
task lower than one it drops (`KeepsHighest`). `TopOfRanking` is a limit that meets both.

A thrown exception is a `Failure` or `None` result.

## Model

| member | source | states |
|---|---|---|
| JavaNumbers.Int32 | nars_util/src/main/java/nars/util/data/list/FasterIntArrayList.java:33 | `int` arithmetic: the result is in 32-bit range, equals the exact value when that fits, and is congruent to it modulo 2^32 |
| JavaNumbers.Int64 | nars_logic/src/main/java/nars/budget/UnitBudget.java:576 | `long` subtraction: in 64-bit range, exact when it fits, congruent modulo 2^64 |
| JavaNumbers.JavaByte | nars_logic/src/main/java/nars/nal/tlink/TermLinkTemplate.java:104-108 | the `(byte)` cast: in [-128,127], the identity on that range, congruent modulo 256 |
| JavaNumbers.Clamp | nars_logic/src/main/java/nars/budget/UnitBudget.java:261 | `Util.clamp`: the result lies in [0,1], is `x` when `x` is already there, 0 below and 1 above |
| JavaNumbers.ClampFloat | nars_logic/src/main/java/nars/budget/UnitBudget.java:257-262 | clamping a non-NaN float: infinities clamp to the bounds |
| JavaNumbers.Mul | nars_logic/src/main/java/nars/budget/UnitBudget.java:641-643 | float product: NaN absorbs, finite values multiply exactly, and NaN arises only from NaN or an infinity times zero |
| JavaNumbers.Add | nars_logic/src/main/java/nars/budget/UnitBudget.java:190-202 | float sum: NaN absorbs, finite values add exactly, and NaN arises only from NaN or opposite infinities |
| JavaNumbers.Reciprocal | nars_logic/src/main/java/nars/nar/experimental/Equalized.java:92 | `1f / n`: 1/n for n ≠ 0, and positive infinity for 0 |
| Budgets.ForgetValue | nars_logic/src/main/java/nars/budget/UnitBudget.java:650-658 | forgetting always records `now` and keeps durability and quality; a deleted budget keeps its NaN priority; a live one gets the clamped decayed priority; a well-formed value stays well-formed |
| Budgets.ForgetPeriod | nars_logic/src/main/java/nars/budget/UnitBudget.java:574-580 | the period is 0 after TIMELESS, otherwise `now - previous` (exact when it fits in a long, and non-negative for an ordered pair of times) |
| Budgets.SummaryGreaterOrEqual | nars_logic/src/main/java/nars/budget/UnitBudget.java:488-497 | false for a deleted budget, true for a threshold ≤ 0, otherwise the summary comparison's answer |
| Budgets.EqualsByPrecision | nars_logic/src/main/java/nars/budget/UnitBudget.java:455-459 | true iff all three components are within epsilon; true only for live budgets |
| Budgets.EqualsBudget | nars_logic/src/main/java/nars/budget/UnitBudget.java:461-463 | true iff the components are within epsilon and the last-forget times are equal |
| Budgets.EqualsBudgetReflexiveUnlessDeleted | nars_logic/src/main/java/nars/budget/UnitBudget.java:455-463 | a budget is equal to itself exactly when it is not deleted (a NaN priority is equal to nothing) |
| Budgets.EqualsBudgetSymmetric | nars_logic/src/main/java/nars/budget/UnitBudget.java:455-463 | epsilon equality does not depend on operand order |
| Budgets.BudgetText | nars_logic/src/main/java/nars/budget/UnitBudget.java:172-186 | the text is MARK p SEP d SEP q MARK, of the capacity the builder computes, and it starts and ends with the mark |
| Budgets.BudgetTextRoundTrip | nars_logic/src/main/java/nars/budget/UnitBudget.java:167-186 | when no field contains the separator, the text reads back into exactly its three fields |
| Budgets.ToText | nars_logic/src/main/java/nars/budget/UnitBudget.java:167-170 | `toString`: the `n4` text is at least four characters, framed by the budget mark, and reads back into the three formatted fields when none holds the separator |
| Budgets.ToTextExternal | nars_logic/src/main/java/nars/budget/UnitBudget.java:535-547 | `toBudgetStringExternal`: the same frame and read-back for the `n2` text |
| Budgets.PrioritySumBounds | nars_logic/src/main/java/nars/budget/UnitBudget.java:197-202 | the priority sum of live budgets lies between 0 and their count; one deleted budget makes it NaN |
| Budgets.PrioritySum | nars_logic/src/main/java/nars/budget/UnitBudget.java:197-202 | the loop returns the left fold of the budgets' priorities |
| Budgets.SummarySum | nars_logic/src/main/java/nars/budget/UnitBudget.java:190-195 | the loop returns the left fold of the budgets' summaries |
| Budgets.SummarySumBounds | nars_logic/src/main/java/nars/budget/UnitBudget.java:190-195 | with summaries in [0,1], the summary sum lies between 0 and the number of budgets; one NaN summary makes it NaN |
| Budgets.UnitBudget.GetPriority | nars_logic/src/main/java/nars/budget/UnitBudget.java:246-248 | the priority is NaN exactly when the budget is deleted |
| Budgets.UnitBudget.Empty | nars_logic/src/main/java/nars/budget/UnitBudget.java:129-130 | the default budget is (0, 0, 0) and was never forgotten |
| Budgets.UnitBudget.New | nars_logic/src/main/java/nars/budget/UnitBudget.java:119-123 | fails exactly on a NaN priority; otherwise every component is the clamped argument, so all lie in [0,1] |
| Budgets.UnitBudget.SetPriority | nars_logic/src/main/java/nars/budget/UnitBudget.java:257-262 | fails on NaN and changes nothing; otherwise stores clamp(p) and leaves the rest alone |
| Budgets.UnitBudget.SetDurability | nars_logic/src/main/java/nars/budget/UnitBudget.java:307-308 | stores clamp(d) and leaves the rest alone |
| Budgets.UnitBudget.SetQuality | nars_logic/src/main/java/nars/budget/UnitBudget.java:362-363 | stores clamp(q) and leaves the rest alone |
| Budgets.UnitBudget.Zero | nars_logic/src/main/java/nars/budget/UnitBudget.java:235-238 | all three components become 0, the forget time is kept, and the same object is returned |
| Budgets.UnitBudget.DeleteBudget | nars_logic/src/main/java/nars/budget/UnitBudget.java:665-669 | the priority becomes NaN and durability and quality 0 |
| Budgets.UnitBudget.Delete | nars_logic/src/main/java/nars/budget/UnitBudget.java:660-663 | deletes the budget and returns true |
| Budgets.UnitBudget.MulPriority | nars_logic/src/main/java/nars/budget/UnitBudget.java:641-643 | stores clamp(p·f) unless the product is NaN, in which case it fails and changes nothing; a deleted budget always fails |
| Budgets.UnitBudget.SetLastForgetTime | nars_logic/src/main/java/nars/budget/UnitBudget.java:574-580 | returns `ForgetPeriod(previous, now)` and stores `now`, nothing else |
| Budgets.UnitBudget.Forget | nars_logic/src/main/java/nars/budget/UnitBudget.java:650-658 | the new value is `ForgetValue` of the old one, and the same object is returned |
| Budgets.UnitBudget.IsAboveThreshold | nars_logic/src/main/java/nars/budget/UnitBudget.java:488-497 | a deleted budget never passes, a live one always passes a threshold ≤ 0, and above 0 a live one passes iff the summary comparison says so |
| BagTransactions.Item.Delete | nars_logic/src/main/java/nars/bag/BagTransaction.java:38 | deleting an item deletes its budget and reports true |
| BagTransactions.Protocol | nars_logic/src/main/java/nars/bag/BagTransaction.java:14-29 | the key is `name()`, or the peeked item when that is null. `newItem()` is used exactly when the key is absent. A present key goes to `updateItem` with the item's budget: null means untouched, and a budget means reindex with it |
| BagTransactions.NewItemOnlyWhenAbsent | nars_logic/src/main/java/nars/bag/BagTransaction.java:14-19 | an item is created only for a named key the bag lacks, and never for a null key |
| BagTransactions.Overflow | nars_logic/src/main/java/nars/bag/BagTransaction.java:35-39 | the displaced item's budget is deleted (NaN priority, durability and quality 0) |
| Forgetting.Decision | nars_logic/src/main/java/nars/bag/tx/ParametricBagForgetting.java:41-58 | select iff the action is Select or SelectAndForget; forget iff the action is not Ignore |
| Forgetting.DecisionTable | nars_logic/src/main/java/nars/bag/tx/ParametricBagForgetting.java:41-58 | no action selects without forgetting, the two selecting actions coincide, and every other (select, forget) pair is reachable |
| Forgetting.DeletedItemAlwaysReindexed | nars_logic/src/main/java/nars/bag/tx/ParametricBagForgetting.java:69-77 | a deleted item (NaN start priority) that is decayed is always reported as changed |
| Forgetting.ParametricBagForgetting.constructor | nars_logic/src/main/java/nars/bag/tx/ParametricBagForgetting.java:20-24 | starts with no model and nothing selected |
| Forgetting.ParametricBagForgetting.SetModel | nars_logic/src/main/java/nars/bag/tx/ParametricBagForgetting.java:26-28 | installs the given model |
| Forgetting.ParametricBagForgetting.Action | nars_logic/src/main/java/nars/bag/tx/ParametricBagForgetting.java:36-39 | the model's answer, or SelectAndForget without a model |
| Forgetting.ParametricBagForgetting.UpdateItem | nars_logic/src/main/java/nars/bag/tx/ParametricBagForgetting.java:31-78 | `selected` is the item iff the action selects. Without forgetting the budget is untouched and null is returned. With forgetting the budget is decayed, and `result` is returned iff the priority read before decay is not `==` to the one after |
| TermLinks.IndexBytes | nars_logic/src/main/java/nars/nal/tlink/TermLinkTemplate.java:106-110 | one byte `(byte)('a'+s)` per index component, in order |
| TermLinks.Prefix | nars_logic/src/main/java/nars/nal/tlink/TermLinkTemplate.java:92-112 | an outgoing SELF link with an empty index gives no bytes; otherwise the prefix is `(byte)('A'+t)` (t = type, minus one when outgoing), then the index bytes, one byte longer than the index |
| TermLinks.DecodePrefix | nars_logic/src/main/java/nars/nal/tlink/TermLinkTemplate.java:101-111 | reading a prefix back: none for no bytes, otherwise a type code and one index per remaining byte |
| TermLinks.PrefixDecodes | nars_logic/src/main/java/nars/nal/tlink/TermLinkTemplate.java:92-112 | when the codes fit in a byte, a non-empty prefix decodes to its direction's type code and its index |
| TermLinks.PrefixInjective | nars_logic/src/main/java/nars/nal/tlink/TermLinkTemplate.java:92-112 | equal prefixes of one direction come from equal types and indexes, when the codes fit in a byte |
| TermLinks.DirectionsDiffer | nars_logic/src/main/java/nars/nal/tlink/TermLinkTemplate.java:93-98 | a template's incoming and outgoing prefixes always differ |
| TermLinks.StaticPrefix | nars_logic/src/main/java/nars/nal/tlink/TermLinkTemplate.java:92-112 | the buffer-filling loop produces exactly `Prefix(type, index, incoming)` |
| TermLinks.TermLinkTemplate.Init | nars_logic/src/main/java/nars/nal/tlink/TermLinkTemplate.java:29-64 | COMPOUND_CONDITION stores a fresh index `[0] + indices`; other types keep `indices`. The caches start empty and `pending` is a fresh zero budget |
| TermLinks.TermLinkTemplate.New | nars_logic/src/main/java/nars/nal/tlink/TermLinkTemplate.java:40-64 | fails exactly on an odd link type; otherwise it builds the template with the index rule above, the host as its concept, empty caches and a fresh zero `pending` budget |
| TermLinks.TermLinkTemplate.PrefixFor | nars_logic/src/main/java/nars/nal/tlink/TermLinkTemplate.java:116-133 | returns the direction's prefix followed by the target name, fills that direction's cache with it, and leaves the other cache alone |
| TermLinks.TermLinkTemplate.PrefixArray | nars_logic/src/main/java/nars/nal/tlink/TermLinkTemplate.java:129-132 | the same bytes in a freshly allocated array |
| TermLinks.TermLinkTemplate.ToText | nars_logic/src/main/java/nars/nal/tlink/TermLinkTemplate.java:137-139 | the text holds the concept, two freshly allocated key arrays (incoming and outgoing key bytes) and the target |
| TermLinks.TermLinkTemplate.EqualsAsWritten | nars_logic/src/main/java/nars/nal/tlink/TermLinkTemplate.java:146-149 | as written, `equals` is false for every pair of templates, including a template and itself |
| TermLinks.TermLinkTemplate.Equals | nars_logic/src/main/java/nars/nal/tlink/TermLinkTemplate.java:137-149 | content equality: templates with the same concept, type, index and target are equal, whether or not they are one object, and when the codes fit in a byte equal templates have the same concept, type, index and target |
| TermLinks.TwinTemplates | nars_logic/src/main/java/nars/nal/tlink/TermLinkTemplate.java:137-149 | two templates constructed from the same arguments are distinct objects and equal to each other, so the corrected `equals` is not identity |
| TermLinks.TermLinkTemplate.EqualsSymmetric | nars_logic/src/main/java/nars/nal/tlink/TermLinkTemplate.java:146-149 | content equality does not depend on which template is asked |
| Atoms.Atom.constructor | nars_java/src/main/java/nars/nal/term/Atom.java:71-73 | an atom keeps the name it was given |
| Atoms.Equals | nars_java/src/main/java/nars/nal/term/Atom.java:151-156 | true iff the other term is an atom with an equal name |
| Atoms.EqualsIsEquivalence | nars_java/src/main/java/nars/nal/term/Atom.java:151-156 | `equals` on atoms is reflexive, symmetric and transitive |
| Atoms.StringHashIsPolynomial | nars_java/src/main/java/nars/nal/term/Atom.java:164-166 | the wrapped `String.hashCode` fold is the polynomial s[0]·31^(n-1)+…+s[n-1] modulo 2^32 |
| Atoms.StringHash | nars_java/src/main/java/nars/nal/term/Atom.java:164-166 | `String.hashCode` as a wrapped `int`: 0 for the empty name and the character code for a one-character name |
| Atoms.HashCode | nars_java/src/main/java/nars/nal/term/Atom.java:164-166 | the hash is congruent to the name's hash polynomial modulo 2^32 |
| Atoms.EqualAtomsHashAlike | nars_java/src/main/java/nars/nal/term/Atom.java:151-166 | atoms that are `equals` have equal hash codes |
| Atoms.CompareTo | nars_java/src/main/java/nars/nal/term/Atom.java:44-57 | 0 against itself, 1 against a variable, -1 against a non-atomic term, otherwise the name comparison |
| Atoms.CompareToConsistentWithEquals | nars_java/src/main/java/nars/nal/term/Atom.java:44-57 | with a name comparison that is 0 exactly on equal names, `compareTo` is 0 iff `equals` holds, against any term but a variable |
| Atoms.Complexity | nars_java/src/main/java/nars/nal/term/Atom.java:200-202 | an atom's complexity is 1 |
| Atoms.ContainsTerm | nars_java/src/main/java/nars/nal/term/Atom.java:225-227 | an atom contains exactly the atoms with its name |
| Atoms.ContainsTermRecursivelyOrEquals | nars_java/src/main/java/nars/nal/term/Atom.java:220-222 | the same as `containsTerm`: equality by name |
| Atoms.Digits | nars_java/src/main/java/nars/nal/term/Atom.java:107 | the decimal digits of a natural number: non-empty, all in '0'..'9' |
| Atoms.DecimalString | nars_java/src/main/java/nars/nal/term/Atom.java:107 | `Integer.toString`: non-empty, with a leading '-' exactly for negatives |
| Atoms.DigitsRoundTrip | nars_java/src/main/java/nars/nal/term/Atom.java:107 | the digits of n read back as n |
| Atoms.DecimalRoundTrip | nars_java/src/main/java/nars/nal/term/Atom.java:107 | the decimal text of any int reads back as that int |
| Atoms.DecimalStringInjective | nars_java/src/main/java/nars/nal/term/Atom.java:93-107 | distinct ints have distinct texts, so they name distinct atoms |
| Atoms.AtomTable.constructor | nars_java/src/main/java/nars/nal/term/Atom.java:22 | the table starts empty |
| Atoms.AtomTable.Get | nars_java/src/main/java/nars/nal/term/Atom.java:76-82 | returns the interned atom with the table unchanged, or a fresh plain atom of that name, entered under it with every other entry unchanged |
| Atoms.AtomTable.GetTwice | nars_java/src/main/java/nars/nal/term/Atom.java:76-82 | two `get` calls with one name return the identical instance |
| Atoms.AtomTable.GetInt | nars_java/src/main/java/nars/nal/term/Atom.java:93-107 | `get(int)` is `get` of the decimal text, fast path for 0 to 9 included |
| Atoms.AtomTable.Quoted | nars_java/src/main/java/nars/nal/term/Atom.java:25-27 | `quoted(t)` is `get` of `t` between double quotes |
| Atoms.QuotedInjective | nars_java/src/main/java/nars/nal/term/Atom.java:25-27 | distinct texts give distinct quoted names |
| Intersections.MakeN | nars_java/nars/language/IntersectionExt.java:123-128 | one component is returned as it is; otherwise an intersection whose components are exactly the arguments' |
| Intersections.ToArrayThenMake | nars_java/nars/language/IntersectionExt.java:107 | any array holding a set's elements once each is made into the set's term |
| Intersections.MakeFromSet | nars_java/nars/language/IntersectionExt.java:107 | a one-element set gives its element; any other set gives the intersection of exactly its elements |
| Intersections.Flattened | nars_java/nars/language/IntersectionExt.java:88-106 | an intersection contributes its components, any other term itself |
| Intersections.Make2 | nars_java/nars/language/IntersectionExt.java:76-108 | two SetInt operands give `SetInt.make` of their union, two SetExt operands `SetExt.make` of their intersection, and any other pair the term of both operands' flattened components |
| Intersections.Make2Commutative | nars_java/nars/language/IntersectionExt.java:76-108 | `make(t1, t2)` and `make(t2, t1)` agree, as `isCommutative` claims |
| Intersections.Make2Idempotent | nars_java/nars/language/IntersectionExt.java:102-107 | `make(t, t)` is `t` for a term that is neither a set nor an intersection |
| Intersections.Make | nars_java/nars/language/IntersectionExt.java:76-108 | SetInt operands unite and SetExt operands intersect through their builders; intersections flatten; the set is made into the term |
| Intersections.MakeUnduplicated | nars_java/nars/language/IntersectionExt.java:116-121 | a single argument is returned; otherwise the term of the set of the arguments |
| Intersections.UnduplicatedAgreesWhenDistinct | nars_java/nars/language/IntersectionExt.java:116-128 | for distinct arguments, `makeUnduplicated` and `make` agree |
| Intersections.MakeDiffersOnDuplicates | nars_java/nars/language/IntersectionExt.java:116-128 | with a repeated argument they differ: `make(a, a)` is (&, a) while `makeUnduplicated(a, a)` is `a` |
| Intersections.DistinctCardinality | nars_java/nars/language/IntersectionExt.java:118-120 | the set of distinct arguments has as many elements as the arguments |
| Intersections.Clone | nars_java/nars/language/IntersectionExt.java:60-67 | none fails; one succeeds iff it is compound and is returned; several give the intersection of exactly them |
| Intersections.Term.IsCommutative | nars_java/nars/language/IntersectionExt.java:146-148 | an intersection reports itself commutative, which `Make2Commutative` bears out |
| IntLists.PopToState | nars_util/src/main/java/nars/util/data/list/FasterIntArrayList.java:30-34 | the array is kept; the size becomes index+1 for every index below INT32_MAX (popTo(-1) empties the list), and wraps to INT32_MIN at INT32_MAX |
| IntLists.PopToIdempotent | nars_util/src/main/java/nars/util/data/list/FasterIntArrayList.java:30-34 | popping twice to one index equals popping once, whatever the size before |
| IntLists.Elements | nars_util/src/main/java/nars/util/data/list/FasterIntArrayList.java:29-33 | the list's elements exist iff the size is within the array, and there are `size` of them |
| IntLists.PopToTruncates | nars_util/src/main/java/nars/util/data/list/FasterIntArrayList.java:29-34 | popping to any index from -1 up to the last element keeps exactly the first index+1 elements, none for -1 |
| IntLists.PopToExposesBuffer | nars_util/src/main/java/nars/util/data/list/FasterIntArrayList.java:29-34 | popping past the size exposes the stale array cells, since nothing was cleared |
| IntLists.FasterIntArrayList.FromBuffer | nars_util/src/main/java/nars/util/data/list/FasterIntArrayList.java:15-18 | the given buffer is the backing array and the list starts empty |
| IntLists.FasterIntArrayList.Array | nars_util/src/main/java/nars/util/data/list/FasterIntArrayList.java:20-22 | returns the backing array itself |
| IntLists.FasterIntArrayList.Get | nars_util/src/main/java/nars/util/data/list/FasterIntArrayList.java:25-27 | succeeds iff the index is within the array, not the size; inside the list the cell is the element |
| IntLists.FasterIntArrayList.PopTo | nars_util/src/main/java/nars/util/data/list/FasterIntArrayList.java:30-34 | the new state is `PopToState` of the old one |
| Scheduling.AddEvents | nars_logic/src/main/java/nars/nar/experimental/Equalized.java:76-77 | one `memory.add` per command, in order |
| Scheduling.PerceptsRouted | nars_logic/src/main/java/nars/nar/experimental/Equalized.java:71-81 | the drained percepts split into commands and the rest, with none lost or doubled |
| Scheduling.PerceptsClassified | nars_logic/src/main/java/nars/nar/experimental/Equalized.java:76-79 | every command percept goes to memory and every other percept to the new-task set |
| Scheduling.ProcessEventsSound | nars_logic/src/main/java/nars/nar/experimental/Equalized.java:100-104 | exactly the visited tasks that got a process are run, each with the cycle's priority factor |
| Scheduling.FireFrom | nars_logic/src/main/java/nars/nar/experimental/Equalized.java:94-110 | the loop visits at least one more task when it can and stays within the limit. The busyness is the load of the visited tasks. Stopping short of the limit means the busyness exceeded the maximum |
| Scheduling.FireFromNoEarlyStop | nars_logic/src/main/java/nars/nar/experimental/Equalized.java:108-109 | at every visited position short of the last, the busyness was within the maximum |
| Scheduling.Visited | nars_logic/src/main/java/nars/nar/experimental/Equalized.java:89-95 | at most the set's initial size is visited |
| Scheduling.Reports | nars_logic/src/main/java/nars/nar/experimental/Equalized.java:133-137 | one "Ignored" report per dropped task, in order |
| Scheduling.TopOfRanking | nars_logic/src/main/java/nars/nar/experimental/Equalized.java:131-138 | a reference `limit`: the kept and dropped tasks together are the ranked set, and the kept part is the first `maxNewTasks` of them (clipped to 0 and to the set's size) |
| Scheduling.TopOfRankingKeepsHighest | nars_logic/src/main/java/nars/nar/experimental/Equalized.java:131-138 | with a ranking order, the reference `limit` of an oversized set keeps exactly `maxNewTasks` tasks, loses none, and keeps none lower than one it drops |
| Scheduling.TopOfRankingMeetsAssumptions | nars_logic/src/main/java/nars/nar/experimental/Equalized.java:131-138 | a memory whose `limit` is the reference one over a ranking order meets both hypotheses of the trimming lemmas |
| Scheduling.MaxNewTasks | nars_logic/src/main/java/nars/nar/experimental/Equalized.java:131 | the `int` product `conceptsToFire * duration`: exact when it fits in 32 bits, congruent to it modulo 2^32 otherwise |
| Scheduling.CycleBounds | nars_logic/src/main/java/nars/nar/experimental/Equalized.java:61-145 | for a `limit` that trims to its bound and loses nothing, after a cycle the set holds at most `conceptsToFire * duration` tasks and `temporary` is empty. The percept queue is empty when input is on and untouched otherwise |
| Scheduling.TrimReportsDropped | nars_logic/src/main/java/nars/nar/experimental/Equalized.java:131-140 | for a `limit` that trims to its bound, loses nothing and keeps the highest: an oversized set is trimmed to the bound, each dropped task is reported "Ignored", none is lost and no kept task ranks below a dropped one; a set within the bound is untouched |
| Scheduling.CycleEventOrder | nars_logic/src/main/java/nars/nar/experimental/Equalized.java:65-83 | forgetting comes first, then the commands of the drained percepts, then queueing, ahead of every later event |
| Scheduling.FirePhaseSplit | nars_logic/src/main/java/nars/nar/experimental/Equalized.java:88-111 | the visited tasks and the tasks left behind make up the whole set, and no visited task ranks below one left behind |
| Scheduling.QuietCycleVisitsAll | nars_logic/src/main/java/nars/nar/experimental/Equalized.java:95-109 | when the busyness never exceeds the maximum, every task in the set is visited |
| Scheduling.GetPriority | nars_logic/src/main/java/nars/nar/experimental/Equalized.java:149-189 | `min(conceptsToFire, 1)`: at most 1, exactly 1 for one or more concepts, and `conceptsToFire` itself below one |
| Scheduling.VisitHighestFirst | nars_logic/src/main/java/nars/nar/experimental/Equalized.java:88-110 | the counted loop visits `Visited(...)` tasks and runs exactly their processes, in order |
| Scheduling.EqualizedCycle.constructor | nars_logic/src/main/java/nars/nar/experimental/Equalized.java:47-51 | a cycle starts with an empty `temporary` list and no events, keeps the concepts-per-cycle setting it is given, and starts with an empty percept queue and new-task set. The new-task set is the fresh `ItemAccumulator` that `newCycleProcess` (Equalized.java:203-208) passes in. The percept queue belongs to `DefaultCycle`, which is not part of this model |
| Scheduling.EqualizedCycle.DrainPercepts | nars_logic/src/main/java/nars/nar/experimental/Equalized.java:71-81 | the new state is the input phase: the queue is emptied, commands go to memory in order, and the rest are appended to the new-task set |
| Scheduling.EqualizedCycle.FireNewTasks | nars_logic/src/main/java/nars/nar/experimental/Equalized.java:88-111 | the new state is the fire phase: visited tasks leave the set, their processes are recorded, and `temporary` is cleared |
| Scheduling.EqualizedCycle.ReportDropped | nars_logic/src/main/java/nars/nar/experimental/Equalized.java:133-137 | appends one "Ignored" report per dropped task |
| Scheduling.EqualizedCycle.TrimNewTasks | nars_logic/src/main/java/nars/nar/experimental/Equalized.java:131-140 | the new state is the trim phase |
| Scheduling.EqualizedCycle.ForgetNext | nars_logic/src/main/java/nars/nar/experimental/Equalized.java:65-68 | records the concept forgetting step |
| Scheduling.EqualizedCycle.Queue | nars_logic/src/main/java/nars/nar/experimental/Equalized.java:83 | records `queueNewTasks()` |
| Scheduling.EqualizedCycle.FireConceptsAndCommit | nars_logic/src/main/java/nars/nar/experimental/Equalized.java:116-129 | records concept firing, commits the new-task set, and records the run of the next tasks |
| Scheduling.EqualizedCycle.Cycle | nars_logic/src/main/java/nars/nar/experimental/Equalized.java:61-145 | the state after a cycle is `CycleSpec` of the state before, whose phases are bounded by the lemmas above |

## Left out

- Budgets.UnitBudget.New: the three-float constructor's durability and quality are reals, so a NaN durability or quality (which `Util.clamp` would pass through) and an infinite one are not modelled.
- Budgets.UnitBudget.SetDurability: the argument is a real, so NaN and infinite arguments (which clamp to a bound) are not modelled.
- Budgets.UnitBudget.SetQuality: the argument is a real, so NaN and infinite arguments are not modelled.
- The constructor taking a `Truth`, the cloning constructor, `clone`, the `or`/`and`/`mul` durability and quality helpers, `toStringExternalBudget1` and the `average`/`plus`/`max` merge procedures are outside the modelled operations.
- The decay curve `BudgetFunctions.forgetAlann` is a parameter. It is taken to set the priority through the clamping setter. `Memory.forget` is taken to be `forget(now, forgetCycles, threshold)` followed by reading the priority.
- `Texts.n4`, `Texts.n2` and `Texts.compare` are parameters; number formatting is not modelled.
- Budget.summary and summaryNotLessThan are parameters; the budget's summary formula is not part of this model.
- Float rounding: Java floats are exact reals, NaN or infinities.
- Budgets.ToTextExternal: `toBudgetStringExternal(sb)` with a non-null builder appends the text to the caller's builder. Only the text a fresh builder holds is modelled.
- Budgets.EqualsByPrecision: `UtilityFunctions.equal` is not part of this model; it is taken to be the strict test `|a - b| < epsilon`, false for a NaN or infinite operand.
- Budgets.PrioritySumBounds: the upper bound holds for exact reals; rounded float sums are not modelled.
- Constants whose source files are not part of this model take assumed values: `TermLink.SELF` = 0, `TermLink.COMPOUND_CONDITION` = 6, `Tense.TIMELESS` = `Long.MIN_VALUE`, the budget mark '$' and the separator ';'.
- The Bag itself (storage, peeking, reinsertion) is not part of this model. `BagTransactions.Protocol` states how the transaction's answers are documented to drive it.
- Forgetting.ParametricBagForgetting.UpdateItem: a model that answers a null action makes the source's `switch` throw a NullPointerException. Actions are never null here.
- Forgetting.ParametricBagForgetting.UpdateItem: the freedom `updateItem` has to modify other parts of the item is not modelled.
- TermLinks.TermLinkTemplate.Init: the normalisation check on the target (`ensureNormalized`) is not modelled. The convenience constructors with one to four indices are left out, since each only forwards to it.
- TermLinks.TermLinkTemplate.Equals: the source casts its argument, so comparing with anything but a template throws a ClassCastException. Only template arguments are modelled.
- TermLinks.TermLinkTemplate.PrefixFor: a template keeps the caller's `indices` array unless the type is COMPOUND_CONDITION, so the caller can change the index after the caches were filled. The `Valid()` precondition requires the caches to agree with the current index, so a stale cache is not modelled.
- TermLinks.StaticPrefix: the index array is never null. The source reads its length before its null test, so a null index would throw there.
- `ByteBuf` is a sequence of bytes, and term names are byte sequences.
- Thread safety of the static atom table, of the percept queue and of the shared concepts-per-cycle counter is not modelled.
- Atoms.StringHash: names are sequences of Dafny characters, which are Unicode scalar values, not UTF-16 code units. A name with a character outside the Basic Multilingual Plane hashes differently from Java's fold over its surrogate pair, and a lone surrogate cannot be represented.
- The static `Atom.get(Object)` and `Atom.clone()` are left out.
- The other `Term` members of `Atom` (normalisation, visitors, temporal order) are not modelled.
- `Term.toSortedSetArray` is a set of components; its order is not modelled.
- `IntersectionExt.clone()` without arguments is left out.
- `SetInt.make` and `SetExt.make` are parameters.
- The `FasterIntArrayList(int initialCapacity)` constructor and everything it inherits from `IntArrayList` are not part of this model.
- Scheduling.VisitHighestFirst: the new-task set's highest-first order never yields a null task, so the loop's early exit on a null task is not modelled.
- Scheduling.EqualizedCycle.Cycle: the concepts-per-cycle setting is read once per cycle. The source reads it twice, which differs only under concurrent change.
- `queueNewTasks()`, concept firing (`ConceptProcess.forEachPremise`) and `memory.runNextTasks()` become recorded events. Their effect on memory is not modelled.
- `commitNewTasks()` is a parameter that gives the new-task set afterwards.
- Whether `TaskProcess.get` produces a process, and a task's priority once that process ran, are parameters of the memory.
- `ItemAccumulator` (the new-task set) is a sequence. Its highest-first order is a parameter that the lemmas require to be a ranking. Merging of equal tasks and the scratch use of `temporary` inside `limit` are not modelled.
- Scheduling.CycleBounds: the bound assumes `limit` trims to its argument and loses nothing (`TrimsTo`), since `ItemAccumulator.limit` is not part of this model.
- Scheduling.TrimReportsDropped: assumes `TrimsTo` and `KeepsHighest` of `limit` for the same reason; `TopOfRankingMeetsAssumptions` shows a limit that meets both.
- Task priorities are reals; a deleted task's NaN priority is not modelled.

## Findings

| source | as written | input that shows it | evidently intended | confidence | as-written member | corrected member |
|---|---|---|---|---|---|---|
| nars_logic/src/main/java/nars/nal/tlink/TermLinkTemplate.java:137-149 | `equals` compares the `toString()` texts. Those texts concatenate `byte[]` values, which Java prints by identity, and `prefix(in, target)` allocates a new array on every call, so no two texts ever match | any template `t`: `t.equals(t)` is false | equality by content: concept, both key byte sequences and target | not executed (medium: relies on the String concatenation of a `byte[]` printing its identity) | TermLinks.TermLinkTemplate.EqualsAsWritten | TermLinks.TermLinkTemplate.Equals |
