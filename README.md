# ReadOnlyAttribute — a verified Dafny model

This project models `System.ComponentModel.ReadOnlyAttribute` from the .NET component
model. The attribute is an immutable metadata marker. It records whether the property
it is bound to is read-only. Designers and property grids read it; the marker itself
enforces nothing.

The marker carries one boolean, `IsReadOnly`, assigned once by the constructor. Three
shared instances exist: `Yes` (read-only), `No` (read/write), and `Default`, which is
the same instance as `No`. `Equals(object)` is overridden to mean value equality, and
`IsDefaultAttribute()` reports whether the marker carries the default flag.

Layout:

- `ReadOnlyAttribute.dfy`, module `ComponentModel`: the class `ReadOnlyAttribute` with a
  `const IsReadOnly`, so the flag cannot change after construction. It also holds the
  class `StaticFields` for the three shared instances, and three small functions that
  spell out the C# rules `Equals` relies on. These are `as` on an object, the
  null-conditional `?.` producing a `bool?`, and lifted `==` between `bool?` and `bool`.
- `Properties.dfy`, module `ReadOnlyAttributeProperties`: lemmas about the shared
  instances and about `Equals` as a relation, plus a method that builds two markers
  from one flag.

Modelling decisions:

- The marker is a class rather than a datatype, so reference identity stays
  observable. This covers the `this == value` fast path, `Default` aliasing `No`, and
  distinct instances that compare equal.
- The argument of `Equals` is Dafny's `object?`. A null reference and an object of any
  other class are therefore ordinary inputs, and the model shows they give `false`.
- Dafny cannot initialise a static constant of class type with `new`. The three
  `static readonly` fields therefore live in the class `StaticFields`, whose constructor
  plays the static initializer. `IsDefaultAttribute` reads `Default` from a
  `StaticFields` argument, and its `requires statics.Valid()` is exactly what that
  constructor establishes.

## Model

| member | source | states |
|---|---|---|
| `ComponentModel.ReadOnlyAttribute.constructor` | src/System.ComponentModel.Primitives/src/System/ComponentModel/ReadOnlyAttribute.cs:38-44 | Reading `IsReadOnly` after construction gives the constructor's argument; the field is a `const`, so it never changes afterwards. |
| `ComponentModel.AsReadOnlyAttribute` | src/System.ComponentModel.Primitives/src/System/ComponentModel/ReadOnlyAttribute.cs:53 | `value as ReadOnlyAttribute` is non-null exactly when `value` is a ReadOnlyAttribute, and then it is that same reference; null and foreign objects give null. |
| `ComponentModel.NullConditionalIsReadOnly` | src/System.ComponentModel.Primitives/src/System/ComponentModel/ReadOnlyAttribute.cs:54 | `other?.IsReadOnly` is the null `bool?` exactly when `other` is null, and otherwise carries `other`'s flag. |
| `ComponentModel.LiftedEquals` | src/System.ComponentModel.Primitives/src/System/ComponentModel/ReadOnlyAttribute.cs:54 | Lifted `==` of a `bool?` with a `bool` is `false` when the `bool?` is null, and true exactly when it holds that boolean. |
| `ComponentModel.ReadOnlyAttribute.Equals` | src/System.ComponentModel.Primitives/src/System/ComponentModel/ReadOnlyAttribute.cs:46-55 | True for the same reference; false for null and for any object that is not a ReadOnlyAttribute; for another marker, true exactly when the two flags are equal. |
| `ComponentModel.ReadOnlyAttribute.IsDefaultAttribute` | src/System.ComponentModel.Primitives/src/System/ComponentModel/ReadOnlyAttribute.cs:59 | True exactly when `IsReadOnly` is false; agrees with `Equals(Default)` and `Equals(No)`, and is the negation of `Equals(Yes)`. |
| `ComponentModel.StaticFields.constructor` | src/System.ComponentModel.Primitives/src/System/ComponentModel/ReadOnlyAttribute.cs:19-33 | The static initializer makes `Yes` with flag true and `No` with flag false as two distinct fresh instances, and `Default` is the same reference as `No`. |
| `ReadOnlyAttributeProperties.WellKnownInstances` | src/System.ComponentModel.Primitives/src/System/ComponentModel/ReadOnlyAttribute.cs:19-33 | `Yes.IsReadOnly` is true, `No.IsReadOnly` and `Default.IsReadOnly` are false; `No` and `Default` are default attributes and `Yes` is not; `Yes` and `No` are unequal both ways. |
| `ReadOnlyAttributeProperties.EqualsIsFlagEquality` | src/System.ComponentModel.Primitives/src/System/ComponentModel/ReadOnlyAttribute.cs:53-54 | For any two markers, `a.Equals(b)` holds if and only if `a.IsReadOnly == b.IsReadOnly`. |
| `ReadOnlyAttributeProperties.EqualsIsEquivalence` | src/System.ComponentModel.Primitives/src/System/ComponentModel/ReadOnlyAttribute.cs:48-54 | On markers, `Equals` is reflexive, symmetric and transitive. |
| `ReadOnlyAttributeProperties.ThreeMarkersHaveAnEqualPair` | src/System.ComponentModel.Primitives/src/System/ComponentModel/ReadOnlyAttribute.cs:53-54 | `Equals` has only two classes: any set of three or more markers contains two distinct instances that compare equal. |
| `ReadOnlyAttributeProperties.NewMarkersWithSameFlag` | src/System.ComponentModel.Primitives/src/System/ComponentModel/ReadOnlyAttribute.cs:38-54 | Two markers constructed from the same flag are distinct instances, both carry that flag, and each `Equals` the other. |

## Left out

- `GetHashCode` (ReadOnlyAttribute.cs:57) defers to the base-class hash, which is not shown; the model states nothing about hashing.
- The `[AttributeUsage(AttributeTargets.All)]` annotation and the `Attribute` base class belong to the runtime's reflection machinery, which is not part of this model.
- The thread-safety and timing of the static field initialisation are runtime concerns and are not modelled.
- The model does not make the shared instances unique: several `StaticFields` objects may exist, each with its own `Yes` and `No`, and every property is proved for any one that satisfies `Valid()`.
- Consumers of the marker, such as property grids, designers and serializers, are not part of this model.
