/** A model of System.ComponentModel.ReadOnlyAttribute: an immutable metadata marker
    that records whether the property it is bound to is read-only.

    The marker is a class so that reference identity stays observable: `Equals` has an
    identity fast path, `Default` is the very same instance as `No`, and two markers
    built from the same flag are distinct objects that nonetheless compare equal.
    The `object` argument of `Equals` is Dafny's `object?`, so a null reference and an
    object of a foreign class are ordinary inputs.
 */
module ComponentModel {

  /** C#'s `bool?`: either the null value or a boolean. */
  datatype NullableBool = Null | Value(b: bool)

  /** C#'s `value as ReadOnlyAttribute`: the same reference when `value` is a
      ReadOnlyAttribute, and null otherwise (a null `value` included); it never throws. */
  function AsReadOnlyAttribute(value: object?): (r: ReadOnlyAttribute?)
    ensures r != null <==> value is ReadOnlyAttribute
    ensures r != null ==> r == value
  {
    if value is ReadOnlyAttribute then value as ReadOnlyAttribute else null
  }

  /** C#'s `other?.IsReadOnly`: null when `other` is null, the flag otherwise. */
  function NullConditionalIsReadOnly(other: ReadOnlyAttribute?): (r: NullableBool)
    ensures r == Null <==> other == null
    ensures other != null ==> r.Value? && r.b == other.IsReadOnly
  {
    if other == null then Null else Value(other.IsReadOnly)
  }

  /** C#'s lifted `==` between a `bool?` and a `bool`: the boolean is lifted to `bool?`,
      and a null operand compares unequal to any boolean, so the answer is `false`
      rather than null or an exception. */
  function LiftedEquals(x: NullableBool, y: bool): (r: bool)
    ensures x == Null ==> !r
    ensures r <==> x == Value(y)
  {
    match x
    case Null => false
    case Value(b) => b == y
  }

  class ReadOnlyAttribute {
    /** The get-only auto-property: assigned once by the constructor, never again. */
    const IsReadOnly: bool

    constructor (isReadOnly: bool)
      ensures IsReadOnly == isReadOnly
    {
      IsReadOnly := isReadOnly;
    }

    /** The `Equals(object)` override: identity first, then a type test through `as`,
        then a null-conditional read of the other flag compared by lifted `==`.
        Its meaning is plain value equality on markers and `false` everywhere else. */
    function Equals(value: object?): (r: bool)
      ensures value == this ==> r
      ensures value == null ==> !r
      ensures !(value is ReadOnlyAttribute) ==> !r
      ensures value is ReadOnlyAttribute ==>
                (r <==> (value as ReadOnlyAttribute).IsReadOnly == IsReadOnly)
    {
      if this == value then
        true
      else
        var other := AsReadOnlyAttribute(value);
        LiftedEquals(NullConditionalIsReadOnly(other), IsReadOnly)
    }

    /** The `IsDefaultAttribute()` override: compares this flag with the flag of the
        shared `Default` instance. The shared instances are read from `statics`. */
    function IsDefaultAttribute(statics: StaticFields): (r: bool)
      requires statics.Valid()
      ensures r <==> !IsReadOnly
      ensures r == Equals(statics.Default)
      ensures r == Equals(statics.No)
      ensures r == !Equals(statics.Yes)
    {
      IsReadOnly == statics.Default.IsReadOnly
    }
  }

  /** The three `static readonly` fields of ReadOnlyAttribute, created once by the
      type's static initializer and never reassigned. */
  class StaticFields {
    const Yes: ReadOnlyAttribute
    const No: ReadOnlyAttribute
    const Default: ReadOnlyAttribute

    /** What the static initializer establishes: `Yes` carries `true`, `No` carries
        `false`, and `Default` is the same reference as `No`. */
    predicate Valid()
    {
      Yes.IsReadOnly && !No.IsReadOnly && Default == No
    }

    /** The static initializer: two fresh markers, and `Default` aliasing `No`. */
    constructor ()
      ensures Valid()
      ensures fresh(Yes) && fresh(No) && Yes != No
    {
      Yes := new ReadOnlyAttribute(true);
      No := new ReadOnlyAttribute(false);
      Default := No;
    }
  }
}
