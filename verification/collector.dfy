/** The field collector: the tagged fields of one processing round, each
    turned into a descriptor and grouped under the type that encloses it. */
module Collector {
  import opened FieldInfo

  /** An enclosing type: its qualified name and the name of its package. */
  datatype Owner = Owner(qualifiedName: string, packageName: string)

  /** A field carrying the tag: the type enclosing it, its static type, its
      simple name and the tag's name() attribute. */
  datatype TaggedField = TaggedField(owner: Owner, fieldType: FieldType, simpleName: string, tagName: string)

  /** The key a field is looked up under: the tag's name, or the field's own
      name when the tag's name is empty. */
  function BundleKey(tagName: string, fieldName: string): (key: string)
    ensures tagName == "" ==> key == fieldName
    ensures tagName != "" ==> key == tagName
    ensures key == "" <==> tagName == "" && fieldName == ""
  {
    if tagName == "" then fieldName else tagName
  }

  /** The descriptor recorded for a tagged field. */
  function Describe(e: TaggedField): (d: FieldDescriptor)
    ensures d.fieldType == e.fieldType && d.fieldName == e.simpleName
    ensures d.bundleName == BundleKey(e.tagName, e.simpleName)
  {
    FieldDescriptor(e.fieldType, e.simpleName, BundleKey(e.tagName, e.simpleName))
  }

  /** The grouping the collector builds, one element at a time: an owner's
      list is created on its first element and appended to afterwards. */
  function Collect(es: seq<TaggedField>): (groups: map<Owner, seq<FieldDescriptor>>)
    ensures forall o :: o in groups ==> 0 < |groups[o]| <= |es|
  {
    if es == [] then map[]
    else
      var groups := Collect(es[..|es| - 1]);
      var e := es[|es| - 1];
      var list := if e.owner in groups then groups[e.owner] else [];
      groups[e.owner := list + [Describe(e)]]
  }

  /** Reference definition: the descriptors of the elements enclosed by o, in
      encounter order. */
  function OwnedBy(es: seq<TaggedField>, o: Owner): seq<FieldDescriptor>
  {
    if es == [] then []
    else
      var e := es[|es| - 1];
      OwnedBy(es[..|es| - 1], o) + (if e.owner == o then [Describe(e)] else [])
  }

  /** The owners of es, each once, in order of first encounter. */
  function Owners(es: seq<TaggedField>): seq<Owner>
  {
    if es == [] then []
    else
      var os := Owners(es[..|es| - 1]);
      var o := es[|es| - 1].owner;
      if o in os then os else os + [o]
  }

  /** The total length of the lists m holds under the owners os. */
  function SumSizes(m: map<Owner, seq<FieldDescriptor>>, os: seq<Owner>): nat
  {
    if os == [] then 0
    else (if os[0] in m then |m[os[0]]| else 0) + SumSizes(m, os[1..])
  }

  predicate NoDuplicates(os: seq<Owner>)
  {
    forall j, k :: 0 <= j < k < |os| ==> os[j] != os[k]
  }

  /** The grouping has a list for exactly the owners of some element; each
      list is non-empty and holds exactly the descriptors of that owner's
      elements, in encounter order. */
  lemma {:induction false} CollectGroupsByOwner(es: seq<TaggedField>)
    ensures forall o :: o in Collect(es) <==> exists i :: 0 <= i < |es| && es[i].owner == o
    ensures forall o :: o in Collect(es) ==> Collect(es)[o] == OwnedBy(es, o) && |Collect(es)[o]| > 0
  {
    if es != [] {
      var init, e := es[..|es| - 1], es[|es| - 1];
      CollectGroupsByOwner(init);
      forall o ensures o in Collect(es) <==> exists i :: 0 <= i < |es| && es[i].owner == o {
        if o in Collect(init) {
          var i :| 0 <= i < |init| && init[i].owner == o;
          assert es[i] == init[i];
        }
        if exists i :: 0 <= i < |es| && es[i].owner == o {
          var i :| 0 <= i < |es| && es[i].owner == o;
          if i < |init| { assert init[i] == es[i]; }
        }
      }
      forall o | o in Collect(es) ensures Collect(es)[o] == OwnedBy(es, o) {
        if o != e.owner {
          assert o in Collect(init);
        } else if o !in Collect(init) {
          assert OwnedBy(init, o) == [] by { OwnedByAbsent(init, o); }
        }
      }
    }
  }

  lemma {:induction false} OwnedByAbsent(es: seq<TaggedField>, o: Owner)
    requires forall i :: 0 <= i < |es| ==> es[i].owner != o
    ensures OwnedBy(es, o) == []
  {
    if es != [] {
      var init := es[..|es| - 1];
      forall i | 0 <= i < |init| ensures init[i].owner != o { assert init[i] == es[i]; }
      OwnedByAbsent(init, o);
    }
  }

  lemma {:induction false} OwnersOfCollect(es: seq<TaggedField>)
    ensures NoDuplicates(Owners(es))
    ensures forall o :: o in Owners(es) <==> o in Collect(es)
  {
    if es != [] {
      OwnersOfCollect(es[..|es| - 1]);
    }
  }

  lemma {:induction false} SumSizesAppend(m: map<Owner, seq<FieldDescriptor>>, os: seq<Owner>, o: Owner)
    ensures SumSizes(m, os + [o]) == SumSizes(m, os) + (if o in m then |m[o]| else 0)
  {
    if os != [] {
      assert (os + [o])[1..] == os[1..] + [o];
      SumSizesAppend(m, os[1..], o);
    }
  }

  /** Changing the list of an owner that os does not name leaves the sum alone. */
  lemma {:induction false} SumSizesOther(m: map<Owner, seq<FieldDescriptor>>, os: seq<Owner>, o: Owner, l: seq<FieldDescriptor>)
    requires o !in os
    ensures SumSizes(m[o := l], os) == SumSizes(m, os)
  {
    if os != [] {
      SumSizesOther(m, os[1..], o, l);
    }
  }

  /** Growing by one the list of an owner that os names once grows the sum by one. */
  lemma {:induction false} SumSizesGrow(m: map<Owner, seq<FieldDescriptor>>, os: seq<Owner>, o: Owner, d: FieldDescriptor)
    requires NoDuplicates(os) && o in os && o in m
    ensures SumSizes(m[o := m[o] + [d]], os) == SumSizes(m, os) + 1
  {
    if os[0] == o {
      assert o !in os[1..];
      SumSizesOther(m, os[1..], o, m[o] + [d]);
    } else {
      SumSizesGrow(m, os[1..], o, d);
    }
  }

  /** Every tagged element lands in exactly one list: the lists together hold
      as many descriptors as there are tagged elements. */
  lemma {:induction false} CollectKeepsEveryElement(es: seq<TaggedField>)
    ensures SumSizes(Collect(es), Owners(es)) == |es|
  {
    if es != [] {
      var init, e := es[..|es| - 1], es[|es| - 1];
      CollectKeepsEveryElement(init);
      OwnersOfCollect(init);
      var m, os := Collect(init), Owners(init);
      if e.owner in os {
        SumSizesGrow(m, os, e.owner, Describe(e));
      } else {
        assert Collect(es) == m[e.owner := [Describe(e)]] by { assert [] + [Describe(e)] == [Describe(e)]; }
        SumSizesOther(m, os, e.owner, [Describe(e)]);
        SumSizesAppend(m[e.owner := [Describe(e)]], os, e.owner);
      }
    }
  }

  /** No type declares two fields of the same name, as the Java compiler
      guarantees. */
  predicate FieldNamesUniquePerOwner(es: seq<TaggedField>)
  {
    forall i, j :: 0 <= i < j < |es| && es[i].owner == es[j].owner ==> es[i].simpleName != es[j].simpleName
  }

  /** An owner's list holds the descriptors of exactly its own elements. */
  lemma {:induction false} OwnedByMembers(es: seq<TaggedField>, o: Owner)
    ensures forall d :: d in OwnedBy(es, o) <==> exists i :: 0 <= i < |es| && es[i].owner == o && d == Describe(es[i])
  {
    if es != [] {
      var init, e := es[..|es| - 1], es[|es| - 1];
      OwnedByMembers(init, o);
      forall d ensures d in OwnedBy(es, o) <==> exists i :: 0 <= i < |es| && es[i].owner == o && d == Describe(es[i]) {
        if d in OwnedBy(init, o) {
          var i :| 0 <= i < |init| && init[i].owner == o && d == Describe(init[i]);
          assert es[i] == init[i];
        }
        if exists i :: 0 <= i < |es| && es[i].owner == o && d == Describe(es[i]) {
          var i :| 0 <= i < |es| && es[i].owner == o && d == Describe(es[i]);
          if i < |init| { assert init[i] == es[i]; }
        }
      }
    }
  }

  /** The fields listed for one owner have distinct names. */
  lemma {:induction false} OwnedByDistinctNames(es: seq<TaggedField>, o: Owner)
    requires FieldNamesUniquePerOwner(es)
    ensures forall i, j :: 0 <= i < j < |OwnedBy(es, o)| ==> OwnedBy(es, o)[i].fieldName != OwnedBy(es, o)[j].fieldName
  {
    if es != [] {
      var n := |es| - 1;
      var init, e := es[..n], es[n];
      assert FieldNamesUniquePerOwner(init) by {
        forall i, j | 0 <= i < j < |init| && init[i].owner == init[j].owner ensures init[i].simpleName != init[j].simpleName {
          assert init[i] == es[i] && init[j] == es[j];
        }
      }
      OwnedByDistinctNames(init, o);
      if e.owner == o {
        OwnedByMembers(init, o);
        var l := OwnedBy(init, o);
        forall i | 0 <= i < |l| ensures l[i].fieldName != e.simpleName {
          assert l[i] in l;
          var k :| 0 <= k < |init| && init[k].owner == o && l[i] == Describe(init[k]);
          assert init[k] == es[k];
        }
      }
    }
  }

  /** A duplicate-free sequence has as many elements as the set of its members. */
  lemma {:induction false} DistinctCount(os: seq<Owner>)
    requires NoDuplicates(os)
    ensures |set o | o in os| == |os|
  {
    if os != [] {
      var init, last := os[..|os| - 1], os[|os| - 1];
      assert NoDuplicates(init) by {
        forall j, k | 0 <= j < k < |init| ensures init[j] != init[k] {
          assert init[j] == os[j] && init[k] == os[k];
        }
      }
      DistinctCount(init);
      assert last !in init by {
        forall j | 0 <= j < |init| ensures init[j] != last { assert init[j] == os[j]; }
      }
      assert (set o | o in os) == (set o | o in init) + {last};
    }
  }

  /** Two duplicate-free sequences with the same members have the same length. */
  lemma SameMembersSameLength(a: seq<Owner>, b: seq<Owner>)
    requires NoDuplicates(a) && NoDuplicates(b)
    requires forall o :: o in a <==> o in b
    ensures |a| == |b|
  {
    DistinctCount(a);
    DistinctCount(b);
    assert (set o | o in a) == (set o | o in b);
  }
}
