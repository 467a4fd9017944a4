/** TermLinkTemplate: the precomputed description of a link from a compound term to
    one of its components. Its keys are flat byte prefixes: one byte 'A'+type (type-1
    for the outgoing direction), one byte 'a'+i per component index, then the target
    term's name; the two direction prefixes are cached on first use. */
module TermLinks {
  import opened Wrappers
  import opened JavaNumbers
  import opened Budgets

  /** TermLink.SELF and TermLink.COMPOUND_CONDITION. TermLink is not part of this model;
      the values are those of its link-type table (both even, as templates require). */
  const SELF: int := 0
  const COMPOUND_CONDITION: int := 6

  /** The type code of the first prefix byte: the type itself for the incoming
      direction, the type minus one (the paired "component" code) for the outgoing one. */
  function TypeCode(linkType: int, incoming: bool): int
  {
    if incoming then linkType else linkType - 1
  }

  /** One `(byte)('a' + s)` per index component.
      The ensures spell out the body for callers' proofs. */
  function IndexBytes(index: seq<int>): (r: seq<int>)
    ensures |r| == |index|
    ensures forall i :: 0 <= i < |index| ==> r[i] == JavaByte('a' as int + index[i])
  {
    seq(|index|, i requires 0 <= i < |index| => JavaByte('a' as int + index[i]))
  }

  /** The static `prefix(linkType, index, incoming)`. */
  function Prefix(linkType: int, index: seq<int>, incoming: bool): (r: seq<int>)
    ensures !incoming && linkType == SELF && |index| == 0 ==> r == []
    ensures !(!incoming && linkType == SELF && |index| == 0) ==>
              |r| == |index| + 1 && r[0] == JavaByte('A' as int + TypeCode(linkType, incoming)) && r[1..] == IndexBytes(index)
  {
    if !incoming && linkType == SELF && |index| == 0 then []
    else [JavaByte('A' as int + TypeCode(linkType, incoming))] + IndexBytes(index)
  }

  /** Type and index values whose bytes do not wrap around in the `(byte)` casts. */
  predicate CodesFit(linkType: int, index: seq<int>)
  {
    && -128 <= 'A' as int + linkType - 1
    && 'A' as int + linkType <= 127
    && forall i :: 0 <= i < |index| ==> -128 <= 'a' as int + index[i] <= 127
  }

  /** Reads a non-empty prefix back into its type code and index. */
  function DecodePrefix(bytes: seq<int>): (r: Option<(int, seq<int>)>)
    ensures |bytes| == 0 <==> r.None?
    ensures r.Some? ==> |r.value.1| == |bytes| - 1
  {
    if |bytes| == 0 then None
    else Some((bytes[0] - 'A' as int, seq(|bytes| - 1, i requires 0 <= i < |bytes| - 1 => bytes[i + 1] - 'a' as int)))
  }

  /** Whenever the codes fit in a byte, a non-empty prefix decodes back to the type code
      of its direction and to the index it was built from. */
  lemma PrefixDecodes(linkType: int, index: seq<int>, incoming: bool)
    requires CodesFit(linkType, index)
    requires !(!incoming && linkType == SELF && |index| == 0)
    ensures DecodePrefix(Prefix(linkType, index, incoming)) == Some((TypeCode(linkType, incoming), index))
  {
    var p := Prefix(linkType, index, incoming);
    var d := DecodePrefix(p).value;
    assert d.0 == TypeCode(linkType, incoming);
    assert forall i :: 0 <= i < |index| ==> d.1[i] == index[i] by {
      forall i | 0 <= i < |index| ensures d.1[i] == index[i] {
        assert p[i + 1] == IndexBytes(index)[i];
      }
    }
    assert d.1 == index;
  }

  /** Prefixes of one direction are collision-free: equal bytes mean equal type and
      equal index, as long as the codes fit in a byte. */
  lemma PrefixInjective(t1: int, i1: seq<int>, t2: int, i2: seq<int>, incoming: bool)
    requires CodesFit(t1, i1) && CodesFit(t2, i2)
    requires !(!incoming && t1 == SELF && |i1| == 0) && !(!incoming && t2 == SELF && |i2| == 0)
    requires Prefix(t1, i1, incoming) == Prefix(t2, i2, incoming)
    ensures t1 == t2 && i1 == i2
  {
    PrefixDecodes(t1, i1, incoming);
    PrefixDecodes(t2, i2, incoming);
  }

  /** The incoming and outgoing prefixes of one template always differ. */
  lemma DirectionsDiffer(linkType: int, index: seq<int>)
    ensures Prefix(linkType, index, true) != Prefix(linkType, index, false)
  {
    var p := Prefix(linkType, index, true);
    var q := Prefix(linkType, index, false);
    if q != [] {
      assert p[0] != q[0];
    }
  }

  /** The static `prefix(linkType, index, incoming)`: fills a byte buffer one index
      component at a time. The index array is never null here (the source reads its
      length before its null test). */
  method StaticPrefix(linkType: int, index: array<int>, incoming: bool) returns (r: seq<int>)
    ensures r == Prefix(linkType, index[..], incoming)
  {
    var t := linkType;
    if !incoming {
      t := t - 1;
    }
    if !incoming && linkType == SELF && index.Length == 0 {
      return [];
    }
    var sb := [JavaByte('A' as int + t)];
    var i := 0;
    while i < index.Length
      invariant 0 <= i <= index.Length
      invariant sb == [JavaByte('A' as int + t)] + IndexBytes(index[..i])
    {
      sb := sb + [JavaByte('a' as int + index[i])];
      i := i + 1;
    }
    assert index[..i] == index[..];
    r := sb;
  }

  /** What `toString()` produces when the key arrays are concatenated into a String:
      Java prints a `byte[]` as its identity ("[B@" and an identity hash), so the text
      carries the arrays themselves rather than their bytes. */
  datatype TemplateText = TemplateText(concept: seq<int>, incoming: array<int>, outgoing: array<int>, target: seq<int>)

  class TermLinkTemplate {
    /** The host concept's term name and the target term's name bytes. */
    const concept: seq<int>
    const target: seq<int>
    const linkType: int
    const index: array<int>
    /** The cached prefixes; None stands for a not-yet-filled (null) cache. */
    var outgoing: Option<seq<int>>
    var incoming: Option<seq<int>>
    /** Budget accumulated for links not created yet. */
    const pending: UnitBudget

    ghost predicate Valid()
      reads this, index
    {
      && linkType % 2 == 0
      && (incoming.Some? ==> incoming.value == Prefix(linkType, index[..], true))
      && (outgoing.Some? ==> outgoing.value == Prefix(linkType, index[..], false))
    }

    /** The body of the constructor once its type check has passed. */
    constructor Init(host: seq<int>, target: seq<int>, linkType: int, indices: array<int>)
      requires linkType % 2 == 0
      ensures Valid()
      ensures this.concept == host && this.target == target && this.linkType == linkType
      ensures linkType == COMPOUND_CONDITION ==> fresh(index) && index[..] == [0] + indices[..]
      ensures linkType != COMPOUND_CONDITION ==> index == indices
      ensures incoming == None && outgoing == None
      ensures fresh(pending) && pending.Valid() && pending.Value() == BudgetValue(Num(0.0), 0.0, 0.0, TIMELESS)
    {
      var idx: array<int>;
      if linkType == COMPOUND_CONDITION {
        idx := new int[indices.Length + 1](_ => 0);
        var i := 0;
        while i < indices.Length
          invariant 0 <= i <= indices.Length
          invariant idx[0] == 0
          invariant forall j :: 0 <= j < i ==> idx[j + 1] == indices[j]
        {
          idx[i + 1] := indices[i];
          i := i + 1;
        }
        assert idx[..] == [0] + indices[..];
      } else {
        idx := indices;
      }
      var zero := UnitBudget.New(Num(0.0), 0.0, 0.0);
      var p: UnitBudget;
      if zero.Success? {
        p := zero.value;
      } else {
        p := new UnitBudget.Empty();
      }
      this.concept := host;
      this.target := target;
      this.linkType := linkType;
      this.index := idx;
      this.pending := p;
      incoming := None;
      outgoing := None;
    }

    /** The constructor `TermLinkTemplate(host, target, linkType, indices...)`: an odd type
        throws; COMPOUND_CONDITION gets a leading index 0. */
    static method New(host: seq<int>, target: seq<int>, linkType: int, indices: array<int>) returns (r: Result<TermLinkTemplate>)
      ensures r.Failure? <==> linkType % 2 != 0
      ensures r.Success? ==> fresh(r.value) && r.value.Valid() && r.value.linkType == linkType && r.value.target == target
      ensures r.Success? ==> r.value.concept == host && r.value.incoming == None && r.value.outgoing == None
      ensures r.Success? ==> fresh(r.value.pending) && r.value.pending.Valid()
      ensures r.Success? ==> r.value.pending.Value() == BudgetValue(Num(0.0), 0.0, 0.0, TIMELESS)
      ensures r.Success? && linkType == COMPOUND_CONDITION ==> r.value.index[..] == [0] + indices[..]
      ensures r.Success? && linkType != COMPOUND_CONDITION ==> r.value.index == indices
    {
      if linkType % 2 != 0 {
        return Failure("template types all point to compound and target is component");
      }
      var t := new TermLinkTemplate.Init(host, target, linkType, indices);
      r := Success(t);
    }

    /** `prefix(in, target)`: the cached prefix of that direction, filled on first use,
        followed by the target's name. */
    method PrefixFor(isIncoming: bool, targetName: seq<int>) returns (r: seq<int>)
      requires Valid()
      modifies this`incoming, this`outgoing
      ensures Valid()
      ensures r == Prefix(linkType, index[..], isIncoming) + targetName
      ensures isIncoming ==> incoming == Some(Prefix(linkType, index[..], true)) && outgoing == old(outgoing)
      ensures !isIncoming ==> outgoing == Some(Prefix(linkType, index[..], false)) && incoming == old(incoming)
    {
      var prefix: seq<int>;
      if isIncoming {
        if incoming.None? {
          var p := StaticPrefix(linkType, index, true);
          incoming := Some(p);
        }
        prefix := incoming.value;
      } else {
        if outgoing.None? {
          var p := StaticPrefix(linkType, index, false);
          outgoing := Some(p);
        }
        prefix := outgoing.value;
      }
      r := prefix + targetName;
    }

    /** `prefix(in, target)` as it is called from `toString()`: the same bytes, handed
        out in a freshly allocated array (ByteBuf.toBytes). */
    method PrefixArray(isIncoming: bool, targetName: seq<int>) returns (a: array<int>)
      requires Valid()
      modifies this`incoming, this`outgoing
      ensures Valid() && fresh(a)
      ensures a[..] == Prefix(linkType, index[..], isIncoming) + targetName
      ensures incoming.Some? || outgoing.Some?
    {
      var bytes := PrefixFor(isIncoming, targetName);
      a := new int[|bytes|](i requires 0 <= i < |bytes| => bytes[i]);
    }

    /** `toString()`: concept, both key arrays, target. */
    method ToText() returns (s: TemplateText)
      requires Valid()
      modifies this`incoming, this`outgoing
      ensures Valid()
      ensures fresh(s.incoming) && fresh(s.outgoing)
      ensures s.concept == concept && s.target == target
      ensures s.incoming[..] == Prefix(linkType, index[..], true) + target
      ensures s.outgoing[..] == Prefix(linkType, index[..], false) + target
    {
      var inArray := PrefixArray(true, target);
      var outArray := PrefixArray(false, target);
      s := TemplateText(concept, inArray, outArray, target);
    }

    /** `equals(obj)` as written: compares the two `toString()` texts. Each call builds
        new arrays, so the texts never match, even for `obj == this`. */
    method EqualsAsWritten(other: TermLinkTemplate) returns (b: bool)
      requires Valid() && other.Valid()
      modifies this`incoming, this`outgoing, other`incoming, other`outgoing
      ensures !b
    {
      var mine := ToText();
      var theirs := other.ToText();
      b := mine == theirs;
    }

    /** The content `toString()` is meant to show: concept, both keys' bytes, target. */
    function Key(): (seq<int>, seq<int>, seq<int>, seq<int>)
      reads this, index
    {
      (concept, Prefix(linkType, index[..], true) + target, Prefix(linkType, index[..], false) + target, target)
    }

    /** `equals(obj)` by content: the same concept, the same key bytes in both
        directions and the same target. Templates with the same concept, type, index and
        target are equal, whether or not they are one object; equal templates whose codes
        fit in a byte have the same concept, type, index and target. */
    function Equals(other: TermLinkTemplate): (r: bool)
      reads this, index, other, other.index
      ensures this == other ==> r
      ensures (&& concept == other.concept && linkType == other.linkType
               && index[..] == other.index[..] && target == other.target) ==> r
      ensures r && CodesFit(linkType, index[..]) && CodesFit(other.linkType, other.index[..]) ==>
                && concept == other.concept && linkType == other.linkType
                && index[..] == other.index[..] && target == other.target
    {
      var same := Key() == other.Key();
      if same && CodesFit(linkType, index[..]) && CodesFit(other.linkType, other.index[..]) then
        var p, q := Prefix(linkType, index[..], true), Prefix(other.linkType, other.index[..], true);
        assert p == (p + target)[..|p|];
        assert q == (q + other.target)[..|q|];
        PrefixInjective(linkType, index[..], other.linkType, other.index[..], true);
        same
      else same
    }

    /** Content equality is symmetric, as `equals` must be. */
    lemma EqualsSymmetric(other: TermLinkTemplate)
      ensures Equals(other) == other.Equals(this)
    {
    }
  }

  /** Equality by content is not identity: two templates built separately from the
      same arguments are distinct objects, and they are equal. */
  method TwinTemplates(host: seq<int>, target: seq<int>, linkType: int, indices: array<int>)
      returns (a: TermLinkTemplate, b: TermLinkTemplate)
    requires linkType % 2 == 0
    ensures a != b && a.Equals(b) && b.Equals(a)
  {
    a := new TermLinkTemplate.Init(host, target, linkType, indices);
    b := new TermLinkTemplate.Init(host, target, linkType, indices);
  }
}
