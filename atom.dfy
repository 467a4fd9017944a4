/** Atom: an atomic term identified by its name. Atoms are interned in one name-keyed
    table, so asking twice for the same name gives the same instance; equality and
    hashing go by name, and the ordering puts variables first and non-atomic terms
    last. */
module Atoms {
  import opened JavaNumbers

  /** An atomic term. `isVariable` marks the Variable subclass, which the ordering
      treats apart; the interning table only ever creates plain atoms. */
  class Atom {
    const name: string
    const isVariable: bool

    constructor (name: string, isVariable: bool)
      ensures this.name == name && this.isVariable == isVariable
    {
      this.name := name;
      this.isVariable := isVariable;
    }
  }

  /** A term as `compareTo` and `equals` see it: an atom (or variable) instance, or a
      term of some other (compound) kind, told apart by an identity. */
  datatype TermRef = AtomRef(atom: Atom) | NonAtomic(id: nat)

  /** `equals(that)`: the same instance, or any atom with an equal name. */
  function Equals(a: Atom, that: TermRef): (r: bool)
    ensures r <==> that.AtomRef? && that.atom.name == a.name
  {
    if that == AtomRef(a) then true
    else if !that.AtomRef? then false
    else a.name == that.atom.name
  }

  /** Name equality on atoms is an equivalence relation. */
  lemma EqualsIsEquivalence(a: Atom, b: Atom, c: Atom)
    ensures Equals(a, AtomRef(a))
    ensures Equals(a, AtomRef(b)) == Equals(b, AtomRef(a))
    ensures Equals(a, AtomRef(b)) && Equals(b, AtomRef(c)) ==> Equals(a, AtomRef(c))
  {
  }

  /** Java's `String.hashCode` as it is computed: `h = 31*h + c` over the characters,
      each step wrapping around in 32 bits. */
  function StringHash(s: string): (h: int32)
    ensures |s| == 0 ==> h == 0
    ensures |s| == 1 ==> h == s[0] as int
    decreases |s|
  {
    if |s| == 0 then 0 else Int32(31 * StringHash(s[..|s| - 1]) + s[|s| - 1] as int)
  }

  /** The same polynomial without wrap-around: s[0]*31^(n-1) + ... + s[n-1]. */
  function HashPolynomial(s: string): int
    decreases |s|
  {
    if |s| == 0 then 0 else 31 * HashPolynomial(s[..|s| - 1]) + s[|s| - 1] as int
  }

  /** The wrapped hash is the polynomial taken modulo 2^32, as `String.hashCode`
      documents it. */
  lemma {:induction false} StringHashIsPolynomial(s: string)
    ensures (StringHash(s) - HashPolynomial(s)) % 0x1_0000_0000 == 0
    decreases |s|
  {
    if |s| > 0 {
      var init := s[..|s| - 1];
      StringHashIsPolynomial(init);
      HashStep(StringHash(init), HashPolynomial(init), s[|s| - 1] as int);
    }
  }

  /** One step of the hash keeps the wrapped and the exact value congruent. */
  lemma HashStep(h: int, p: int, c: int)
    requires (h - p) % 0x1_0000_0000 == 0
    ensures (Int32(31 * h + c) - (31 * p + c)) % 0x1_0000_0000 == 0
  {
    var x := 31 * h + c;
    var k := MultipleOf(h - p);
    var j := MultipleOf(Int32(x) - x);
    assert Int32(x) - (31 * p + c) == 0x1_0000_0000 * (j + 31 * k);
    MultipleMod(j + 31 * k);
  }

  lemma MultipleOf(d: int) returns (k: int)
    requires d % 0x1_0000_0000 == 0
    ensures d == 0x1_0000_0000 * k
  {
    k := d / 0x1_0000_0000;
  }

  lemma MultipleMod(k: int)
    ensures (0x1_0000_0000 * k) % 0x1_0000_0000 == 0
  {
  }

  /** `hashCode()`: the hash of the name. */
  function HashCode(a: Atom): (h: int32)
    ensures (h - HashPolynomial(a.name)) % 0x1_0000_0000 == 0
  {
    StringHashIsPolynomial(a.name);
    StringHash(a.name)
  }

  /** Atoms that are `equals` have equal hash codes. */
  lemma EqualAtomsHashAlike(a: Atom, b: Atom)
    requires Equals(a, AtomRef(b))
    ensures HashCode(a) == HashCode(b)
  {
  }

  /** `compareTo(that)`: 0 against itself, 1 against a variable (variables sort first),
      -1 against a non-atomic term, and otherwise the name comparison `compare`
      (Texts.compare, not part of this model). */
  function CompareTo(a: Atom, that: TermRef, compare: (string, string) -> int): (r: int)
    ensures that == AtomRef(a) ==> r == 0
    ensures that != AtomRef(a) && that.NonAtomic? ==> r == -1
    ensures that != AtomRef(a) && that.AtomRef? && that.atom.isVariable ==> r == 1
    ensures that != AtomRef(a) && that.AtomRef? && !that.atom.isVariable ==> r == compare(a.name, that.atom.name)
  {
    if that == AtomRef(a) then 0
    else if that.AtomRef? then
      if that.atom.isVariable then 1 else compare(a.name, that.atom.name)
    else -1
  }

  /** With a name comparison that answers 0 exactly on equal names, `compareTo` agrees
      with `equals` against any term that is not a variable. */
  lemma CompareToConsistentWithEquals(a: Atom, that: TermRef, compare: (string, string) -> int)
    requires forall x: string, y: string :: compare(x, y) == 0 <==> x == y
    requires !(that.AtomRef? && that.atom.isVariable)
    ensures CompareTo(a, that, compare) == 0 <==> Equals(a, that)
  {
  }

  /** `getComplexity()`, `containsTerm(t)` and `containsTermRecursivelyOrEquals(t)`:
      an atom has complexity 1 and contains exactly the terms equal to it.
      The ensures spell out the body for callers' proofs. */
  function Complexity(a: Atom): (c: int)
    ensures c == 1
  {
    1
  }

  function ContainsTerm(a: Atom, target: TermRef): (r: bool)
    ensures r <==> target.AtomRef? && target.atom.name == a.name
  {
    Equals(a, target)
  }

  function ContainsTermRecursivelyOrEquals(a: Atom, target: TermRef): (r: bool)
    ensures r <==> target.AtomRef? && target.atom.name == a.name
  {
    Equals(a, target)
  }

  /** The decimal digits of a natural number, most significant first. */
  function Digits(n: nat): (s: string)
    ensures |s| > 0
    ensures forall i :: 0 <= i < |s| ==> '0' <= s[i] <= '9'
    decreases n
  {
    if n < 10 then [('0' as int + n) as char]
    else Digits(n / 10) + [('0' as int + n % 10) as char]
  }

  /** `Integer.toString(i)`: a minus sign for negatives, then the digits. */
  function DecimalString(i: int): (s: string)
    ensures |s| > 0
    ensures s[0] == '-' <==> i < 0
  {
    if i < 0 then "-" + Digits(-i) else Digits(i)
  }

  /** Reads a string of decimal digits back. */
  function ParseDigits(s: string): int
    decreases |s|
  {
    if |s| == 0 then 0 else 10 * ParseDigits(s[..|s| - 1]) + (s[|s| - 1] as int - '0' as int)
  }

  function ParseDecimal(s: string): int
  {
    if |s| > 0 && s[0] == '-' then -ParseDigits(s[1..]) else ParseDigits(s)
  }

  lemma {:induction false} DigitsRoundTrip(n: nat)
    ensures ParseDigits(Digits(n)) == n
    decreases n
  {
    if n >= 10 {
      DigitsRoundTrip(n / 10);
      var s := Digits(n);
      assert s[..|s| - 1] == Digits(n / 10);
    }
  }

  /** The decimal text of an int reads back as that int, so distinct ints name
      distinct atoms. */
  lemma DecimalRoundTrip(i: int)
    ensures ParseDecimal(DecimalString(i)) == i
  {
    if i < 0 {
      DigitsRoundTrip(-i);
      assert DecimalString(i)[1..] == Digits(-i);
    } else {
      DigitsRoundTrip(i);
    }
  }

  lemma DecimalStringInjective(i: int, j: int)
    requires DecimalString(i) == DecimalString(j)
    ensures i == j
  {
    DecimalRoundTrip(i);
    DecimalRoundTrip(j);
  }

  /** The static interning table `atoms`, from names to their atoms. */
  class AtomTable {
    var atoms: map<string, Atom>

    /** Every entry is a plain atom filed under its own name. */
    ghost predicate Valid()
      reads this
    {
      forall n :: n in atoms ==> atoms[n].name == n && !atoms[n].isVariable
    }

    constructor ()
      ensures Valid() && atoms == map[]
    {
      atoms := map[];
    }

    /** `get(name)`: the interned atom, or a new one that is entered in the table; no
        other entry changes. */
    method Get(name: string) returns (x: Atom)
      requires Valid()
      modifies this
      ensures Valid()
      ensures x.name == name && !x.isVariable
      ensures name in atoms && atoms[name] == x
      ensures name in old(atoms) ==> x == old(atoms)[name] && atoms == old(atoms)
      ensures name !in old(atoms) ==> fresh(x) && atoms == old(atoms)[name := x]
    {
      if name in atoms {
        return atoms[name];
      }
      x := new Atom(name, false);
      atoms := atoms[name := x];
    }

    /** Two `get` calls with one name hand out the identical instance. */
    method GetTwice(name: string) returns (x: Atom, y: Atom)
      requires Valid()
      modifies this
      ensures Valid() && x == y && x.name == name
    {
      x := Get(name);
      y := Get(name);
    }

    /** `get(int i)`: the atom named by the decimal text of `i`; the digits 0 to 9
        take a shortcut that names the same atom. */
    method GetInt(i: int32) returns (x: Atom)
      requires Valid()
      modifies this
      ensures Valid()
      ensures x.name == DecimalString(i) && DecimalString(i) in atoms && atoms[DecimalString(i)] == x
      ensures DecimalString(i) in old(atoms) ==> x == old(atoms)[DecimalString(i)] && atoms == old(atoms)
      ensures DecimalString(i) !in old(atoms) ==> fresh(x) && atoms == old(atoms)[DecimalString(i) := x]
    {
      if 0 <= i <= 9 {
        x := Get([('0' as int + i) as char]);
      } else {
        x := Get(DecimalString(i));
      }
    }

    /** `quoted(t)`: the atom named by `t` between double quotes. */
    method Quoted(t: string) returns (x: Atom)
      requires Valid()
      modifies this
      ensures Valid()
      ensures x.name == "\"" + t + "\"" && "\"" + t + "\"" in atoms && atoms["\"" + t + "\""] == x
      ensures "\"" + t + "\"" in old(atoms) ==> x == old(atoms)["\"" + t + "\""] && atoms == old(atoms)
      ensures "\"" + t + "\"" !in old(atoms) ==> fresh(x) && atoms == old(atoms)["\"" + t + "\"" := x]
    {
      x := Get("\"" + t + "\"");
    }
  }

  /** Distinct texts give distinct quoted names. */
  lemma QuotedInjective(t: string, u: string)
    requires "\"" + t + "\"" == "\"" + u + "\""
    ensures t == u
  {
    assert t == ("\"" + t + "\"")[1..|t| + 1];
    assert u == ("\"" + u + "\"")[1..|u| + 1];
  }
}
