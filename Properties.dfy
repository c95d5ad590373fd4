/** Properties of ReadOnlyAttribute that relate several calls or several markers:
    `Equals` is an equivalence relation on markers with exactly the two classes given by
    the flag, and equal markers need not be the same instance. */
module ReadOnlyAttributeProperties {
  import opened ComponentModel

  /** The shared instances: `Yes` is read-only, `No` and `Default` (one instance) are
      not, only the latter two are default, and `Yes` differs from both. */
  lemma WellKnownInstances(statics: StaticFields)
    requires statics.Valid()
    ensures statics.Yes.IsReadOnly && !statics.No.IsReadOnly && !statics.Default.IsReadOnly
    ensures statics.Default == statics.No
    ensures !statics.Yes.IsDefaultAttribute(statics)
    ensures statics.No.IsDefaultAttribute(statics) && statics.Default.IsDefaultAttribute(statics)
    ensures !statics.Yes.Equals(statics.No) && !statics.No.Equals(statics.Yes)
  {
  }

  /** On two markers, `Equals` is exactly equality of the flags, in both directions. */
  lemma EqualsIsFlagEquality(a: ReadOnlyAttribute, b: ReadOnlyAttribute)
    ensures a.Equals(b) <==> a.IsReadOnly == b.IsReadOnly
  {
  }

  /** `Equals` restricted to markers is reflexive, symmetric and transitive. */
  lemma EqualsIsEquivalence()
    ensures forall a: ReadOnlyAttribute :: a.Equals(a)
    ensures forall a: ReadOnlyAttribute, b: ReadOnlyAttribute :: a.Equals(b) <==> b.Equals(a)
    ensures forall a: ReadOnlyAttribute, b: ReadOnlyAttribute, c: ReadOnlyAttribute ::
              a.Equals(b) && b.Equals(c) ==> a.Equals(c)
  {
  }

  /** Value equality is strictly coarser than identity: there are only two classes, so
      among any three distinct markers two are different instances that compare equal. */
  lemma {:induction false} ThreeMarkersHaveAnEqualPair(s: set<ReadOnlyAttribute>)
    requires |s| >= 3
    ensures exists a, b :: a in s && b in s && a != b && a.Equals(b)
  {
    var x :| x in s;
    assert |s - {x}| == |s| - 1;
    var y :| y in s - {x};
    assert |s - {x, y}| == |s| - 2;
    var z :| z in s - {x, y};
    if x.IsReadOnly == y.IsReadOnly {
      assert x.Equals(y);
    } else if x.IsReadOnly == z.IsReadOnly {
      assert x.Equals(z);
    } else {
      assert y.Equals(z);
    }
  }

  /** Constructing two markers from the same flag gives two distinct instances that
      both carry the flag and compare equal in either order. */
  method NewMarkersWithSameFlag(isReadOnly: bool) returns (x: ReadOnlyAttribute, y: ReadOnlyAttribute)
    ensures x != y
    ensures x.IsReadOnly == isReadOnly && y.IsReadOnly == isReadOnly
    ensures x.Equals(y) && y.Equals(x)
  {
    x := new ReadOnlyAttribute(isReadOnly);
    y := new ReadOnlyAttribute(isReadOnly);
  }
}
