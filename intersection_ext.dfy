/** IntersectionExt: the compound term (&, t1, ..., tn) whose extension is the
    intersection of its components' extensions. Its builders normalise by set
    algebra: two intensional sets unite, two extensional sets intersect, nested
    intersections flatten, and a single component stands for itself. */
module Intersections {
  import opened Wrappers

  /** The terms the builders tell apart. Component lists of the set-like compounds are
      sets, because their constructors keep them sorted and free of duplicates; every
      other compound kind is `Other`. */
  datatype Term =
    | Atomic(name: string)
    | SetInt(elems: set<Term>)
    | SetExt(elems: set<Term>)
    | IntersectionExt(elems: set<Term>)
    | Other(op: string, parts: seq<Term>)
  {
    predicate IsCompound() { !Atomic? }

    /** `isCommutative()` of an intersection: always true. */
    function IsCommutative(): (r: bool)
      requires IntersectionExt?
      ensures r
    {
      true
    }
  }

  /** The builders of the set terms, SetInt.make and SetExt.make (not part of this
      model). */
  type SetBuilder = set<Term> -> Term

  /** `make(t...)`: a single component is returned as it is; otherwise the components
      are sorted, freed of duplicates and wrapped in a new intersection. */
  function MakeN(t: seq<Term>): (r: Term)
    ensures |t| == 1 ==> r == t[0]
    ensures |t| != 1 ==> r.IntersectionExt? && (forall x :: x in r.elems <==> x in t)
  {
    if |t| == 1 then t[0] else IntersectionExt(set x | x in t)
  }

  /** What `make(set.toArray(...))` gives for a set of components: its only element
      when there is one, otherwise the intersection of all of them. */
  ghost function FromComponents(s: set<Term>): (r: Term)
  {
    if |s| == 1 then (var x :| x in s; x) else IntersectionExt(s)
  }

  lemma SingletonElement(s: set<Term>, x: Term)
    requires |s| == 1 && x in s
    ensures s == {x}
  {
    var rest := s - {x};
    assert |rest| == 0;
  }

  /** Any array holding the elements of a set once each (what `toArray` hands out) is
      made into `FromComponents` of that set. */
  lemma ToArrayThenMake(t: seq<Term>, s: set<Term>)
    requires |t| == |s|
    requires forall x :: x in t <==> x in s
    ensures MakeN(t) == FromComponents(s)
  {
    if |t| == 1 {
      var x :| x in s;
      SingletonElement(s, x);
      SingletonElement(s, t[0]);
    } else {
      assert (set x | x in t) == s;
    }
  }

  /** `make(set.toArray(new Term[set.size()]))` for a set of components. */
  method MakeFromSet(s: set<Term>) returns (r: Term)
    ensures r == FromComponents(s)
    ensures |s| == 1 ==> r in s
    ensures |s| != 1 ==> r == IntersectionExt(s)
  {
    if |s| == 1 {
      r :| r in s;
      SingletonElement(s, r);
    } else {
      r := IntersectionExt(s);
    }
  }

  /** The components a flattening step takes from one operand: an intersection's own
      components, or the operand itself.
      The ensures spell out the body for callers' proofs. */
  function Flattened(t: Term): (s: set<Term>)
    ensures t.IntersectionExt? ==> s == t.elems
    ensures !t.IntersectionExt? ==> s == {t}
  {
    if t.IntersectionExt? then t.elems else {t}
  }

  /** `make(term1, term2)` as its branches state it: two intensional sets unite, two
      extensional sets intersect, and otherwise the flattened components of both
      operands make the term. */
  ghost function Make2(t1: Term, t2: Term, setIntMake: SetBuilder, setExtMake: SetBuilder): (r: Term)
    ensures t1.SetInt? && t2.SetInt? ==> r == setIntMake(t1.elems + t2.elems)
    ensures t1.SetExt? && t2.SetExt? ==> r == setExtMake(t1.elems * t2.elems)
    ensures !(t1.SetInt? && t2.SetInt?) && !(t1.SetExt? && t2.SetExt?) ==>
              r == FromComponents(Flattened(t1) + Flattened(t2))
  {
    if t1.SetInt? && t2.SetInt? then setIntMake(t1.elems + t2.elems)
    else if t1.SetExt? && t2.SetExt? then setExtMake(t1.elems * t2.elems)
    else if t1.IntersectionExt? then
      if t2.IntersectionExt? then FromComponents(t1.elems + t2.elems)
      else FromComponents(t1.elems + {t2})
    else if t2.IntersectionExt? then
      assert t2.elems + {t1} == Flattened(t1) + Flattened(t2);
      FromComponents(t2.elems + {t1})
    else
      assert {t1, t2} == Flattened(t1) + Flattened(t2);
      FromComponents({t1, t2})
  }

  /** `make(term1, term2)` does not depend on the order of its operands, in keeping
      with `isCommutative()`. */
  lemma Make2Commutative(t1: Term, t2: Term, setIntMake: SetBuilder, setExtMake: SetBuilder)
    ensures Make2(t1, t2, setIntMake, setExtMake) == Make2(t2, t1, setIntMake, setExtMake)
  {
    if t1.SetInt? && t2.SetInt? {
      assert t1.elems + t2.elems == t2.elems + t1.elems;
    } else if t1.SetExt? && t2.SetExt? {
      assert t1.elems * t2.elems == t2.elems * t1.elems;
    } else {
      assert Flattened(t1) + Flattened(t2) == Flattened(t2) + Flattened(t1);
    }
  }

  /** An intersection with itself collapses: (&, t, t) is t unless t is a set term,
      which goes to its own builder. */
  lemma Make2Idempotent(t: Term, setIntMake: SetBuilder, setExtMake: SetBuilder)
    requires !t.SetInt? && !t.SetExt? && !t.IntersectionExt?
    ensures Make2(t, t, setIntMake, setExtMake) == t
  {
    assert {t, t} == {t};
    SingletonElement({t}, t);
  }

  /** `make(term1, term2)`: fills a set by the branch the operands select, then makes
      the term from its elements. */
  method Make(t1: Term, t2: Term, setIntMake: SetBuilder, setExtMake: SetBuilder) returns (r: Term)
    ensures r == Make2(t1, t2, setIntMake, setExtMake)
  {
    var s: set<Term>;
    if t1.SetInt? && t2.SetInt? {
      s := t1.elems;
      s := s + t2.elems;
      return setIntMake(s);
    }
    if t1.SetExt? && t2.SetExt? {
      s := t1.elems;
      s := s * t2.elems;
      return setExtMake(s);
    }
    if t1.IntersectionExt? {
      s := t1.elems;
      if t2.IntersectionExt? {
        s := s + t2.elems;
      } else {
        s := s + {t2};
      }
    } else if t2.IntersectionExt? {
      s := t2.elems;
      s := s + {t1};
    } else {
      s := {};
      s := s + {t1};
      s := s + {t2};
    }
    r := MakeFromSet(s);
  }

  /** `makeUnduplicated(t...)`: a single argument is returned as it is; otherwise the
      arguments are gathered into a set one by one and the term is made from it. */
  method MakeUnduplicated(t: seq<Term>) returns (r: Term)
    ensures |t| == 1 ==> r == t[0]
    ensures |t| != 1 ==> r == FromComponents(set x | x in t)
  {
    if |t| == 1 {
      return t[0];
    }
    var s: set<Term> := {};
    var i := 0;
    while i < |t|
      invariant 0 <= i <= |t|
      invariant s == set x | x in t[..i]
    {
      s := s + {t[i]};
      i := i + 1;
    }
    assert t[..i] == t;
    r := MakeFromSet(s);
  }

  /** Without duplicates among the arguments, `makeUnduplicated` and `make` agree;
      with them they can differ: `make(a, a)` is (&, a) while `makeUnduplicated(a, a)`
      is `a`. */
  lemma UnduplicatedAgreesWhenDistinct(t: seq<Term>)
    requires forall i, j :: 0 <= i < j < |t| ==> t[i] != t[j]
    requires |t| != 1
    ensures MakeN(t) == FromComponents(set x | x in t)
  {
    DistinctCardinality(t);
    ToArrayThenMake(t, set x | x in t);
  }

  lemma MakeDiffersOnDuplicates(a: Term)
    ensures MakeN([a, a]) == IntersectionExt({a})
    ensures FromComponents(set x | x in [a, a]) == a
  {
    assert (set x | x in [a, a]) == {a};
    SingletonElement({a}, a);
  }

  lemma {:induction false} DistinctCardinality(t: seq<Term>)
    requires forall i, j :: 0 <= i < j < |t| ==> t[i] != t[j]
    ensures |set x | x in t| == |t|
  {
    if |t| > 0 {
      var init := t[..|t| - 1];
      DistinctCardinality(init);
      assert (set x | x in t) == (set x | x in init) + {t[|t| - 1]};
      assert t[|t| - 1] !in (set x | x in init);
    }
  }

  /** `clone(replaced)`: one term is returned when it is compound (otherwise the cast
      fails), several are made into an intersection, and none is an error. */
  function Clone(replaced: seq<Term>): (r: Result<Term>)
    ensures |replaced| == 0 ==> r.Failure?
    ensures |replaced| == 1 ==> (r.Success? <==> replaced[0].IsCompound()) && (r.Success? ==> r.value == replaced[0])
    ensures |replaced| > 1 ==> r.Success? && r.value.IntersectionExt? && (forall x :: x in r.value.elems <==> x in replaced)
    ensures r.Success? ==> r.value.IsCompound()
  {
    if |replaced| == 1 then
      if replaced[0].IsCompound() then Success(replaced[0])
      else Failure("ClassCastException: the single term is not compound")
    else if |replaced| > 1 then Success(MakeN(replaced))
    else Failure("Invalid # of terms for Intersection")
  }
}
