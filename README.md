# bevy_property: the type-erased `Property` handle

A model of `crates/bevy_property/src/property.rs` from the Bevy engine's
reflection layer. A `Property` is a value of some concrete type held behind
`dyn Property`, together with its runtime type identity. It can be seen as
`dyn Any` (`any`, `any_mut`), cloned polymorphically (`clone_prop`),
overwritten wholesale from another property (`set`), or merged (`apply`, which for a
generated leaf type is `set`). The typed accessors `val::<T>` and
`set_val::<T>` are implemented for `dyn Property` on top of the `Any` views.
The `impl_property!` macro generates the leaf implementation for a plain type
and for a generic type under `where` bounds. Both arms expand to the same five
`Property` bodies (`any`, `any_mut`, `clone_prop`, `apply`, `set`), so these
are modelled once. Only the plain arm also generates `as_properties`.

Two modules:

- `ErasedValue` (`erased_value.dfy`) is the pure model. It has a `TypeTag`
  (the runtime `TypeId`), the erased value `Erased(tag, payload)`, and
  `DowncastRef`, which is `downcast_ref` on `dyn Any`. The mutating operations
  are step functions (`SetValStep`, `SetStep`, `ApplyStep`) that return the new
  value and an `Outcome`, which is either `Done` or `Panicked(expected)`. It also
  models a sequence of calls on one handle (`Run`, stopping at the first panic).
  The lemmas about `Run` state the handle's invariants over any sequence of calls.
- `Property` (`property.rs` → `property.dfy`) is the imperative model. A class
  `PropertyHandle` has an immutable `tag` and a mutable `payload`.
  `SetVal`, `Set` and `Apply` update the payload in place. Each of them is proved
  against the step function of its operation. `Any`, `Val` and `AsProperties`
  are functions, and `CloneProp` allocates a new handle.

A panic is modelled as the outcome `Panicked(expected)` with the handle left
as it was. This matches the source: the check comes before the assignment, and
the panic unwinds before anything is written. `expected` is the type the panic
message names. That is `T` for `set_val` and `Self` for `set`/`apply`.

## Model

| member | source | states |
|---|---|---|
| `Property.PropertyHandle.Any` | crates/bevy_property/src/property.rs:53-55 | the `dyn Any` view of a handle downcasts back to exactly its payload at exactly its own type, and to nothing at every other type |
| `Property.PropertyHandle.AnyMut` | crates/bevy_property/src/property.rs:58-60 | the mutable view is the handle itself (it aliases it), so a write through it is a write to the handle |
| `Property.PropertyHandle.Val` | crates/bevy_property/src/property.rs:30-32 | `val::<T>` returns `Some(payload)` exactly when the handle's runtime type is `T` and `None` otherwise; it has no precondition, so it never panics |
| `Property.PropertyHandle.SetVal` | crates/bevy_property/src/property.rs:35-41 | on a matching type, the payload becomes `v` and `val::<T>` then returns `Some(v)`; on a mismatch it panics naming `T` and the payload is unchanged; the tag is never assigned; the new state is `SetValStep` of the old one |
| `Property.PropertyHandle.Set` | crates/bevy_property/src/property.rs:72-79 | `set(other)` succeeds exactly when `other` has this handle's type; it then copies `other`'s payload, and otherwise panics naming this handle's type with the payload unchanged; `other` is unchanged either way; the new state is `SetStep` of the old one (the generic arm at lines 113-120 is the same body) |
| `Property.PropertyHandle.Apply` | crates/bevy_property/src/property.rs:67-70 | `apply` has the same effect, the same success condition and the same panic as `set` (generic arm: lines 108-111) |
| `Property.PropertyHandle.CloneProp` | crates/bevy_property/src/property.rs:62-65 | `clone_prop` yields a newly allocated handle with the same type tag and an equal value (generic arm: lines 103-106) |
| `Property.PropertyHandle.AsProperties` | crates/bevy_property/src/property.rs:82-86 | a leaf type generated by the plain arm reports no aggregate structure: `as_properties` is always `None` (the generic arm generates no `as_properties`) |
| `Property.SetOnCloneIsIndependent` | crates/bevy_property/src/property.rs:62-79 | after cloning, a `set` on the clone from another handle does not change the original or the source; the clone holds the source's value when the types match and its own copy otherwise |
| `Property.CloneIsIndependent` | crates/bevy_property/src/property.rs:62-65 | after cloning, a `set_val` on the clone does not change the original, and the clone reads back the written value at its own type |
| `Property.OriginalIsIndependent` | crates/bevy_property/src/property.rs:62-65 | after cloning, a `set_val` on the original leaves the clone holding the value from before the write |
| `ErasedValue.DowncastRef` | crates/bevy_property/src/property.rs:31 | `downcast_ref::<T>` on `dyn Any` yields the payload exactly when the runtime type is `T`, and nothing otherwise (also used by `set` at lines 74 and 115) |
| `ErasedValue.ApplyStep` | crates/bevy_property/src/property.rs:67-70 | the value-level `apply` keeps the type tag, succeeds exactly when the tags match and then equals `other`, and otherwise panics naming `Self` with the value unchanged; `ApplyIsSet` proves it is `set` (generic arm: lines 108-111) |
| `ErasedValue.SetValStep` | crates/bevy_property/src/property.rs:35-40 | `set_val` keeps the type tag; it succeeds exactly when the tag is `T`, and then reading at `T` gives the new value; on a mismatch it panics naming `T` and assigns nothing |
| `ErasedValue.SetStep` | crates/bevy_property/src/property.rs:72-79 | `set` keeps `self`'s type tag; it succeeds exactly when `other` has the same tag, and then `self` becomes equal to `other`; on a mismatch it panics naming `Self` and `self` is unchanged |
| `ErasedValue.ClonePropValue` | crates/bevy_property/src/property.rs:62-65 | the clone has the same type tag, and a typed read gives the same answer on the clone as on the original at every type |
| `ErasedValue.SetValThenVal` | crates/bevy_property/src/property.rs:35-37 | after a successful `set_val::<T>(v)`, `val::<T>` returns `Some(v)` and `val::<U>` returns `None` for every other `U` |
| `ErasedValue.ApplyIsSet` | crates/bevy_property/src/property.rs:67-70 | leaf `apply` equals `set` in both effect and outcome, and it succeeds exactly when the two tags are equal |
| `ErasedValue.SetFromClone` | crates/bevy_property/src/property.rs:72-79 | `set` from a handle's own clone succeeds and changes nothing |
| `ErasedValue.SetIdempotent` | crates/bevy_property/src/property.rs:72-79 | repeating the same `set_val` or the same `set` changes nothing further and gives the same outcome |
| `ErasedValue.RunKeepsTag` | crates/bevy_property/src/property.rs:9-15 | over any sequence of `set_val`/`set`/`apply` calls, the concrete type behind the handle never changes |
| `ErasedValue.RunCompletesIffAllMatch` | crates/bevy_property/src/property.rs:34-79 | a sequence of calls completes without panicking exactly when every call's required type is the handle's type: every panic path is a type mismatch |
| `ErasedValue.RunPanicStopsAtFirstMismatch` | crates/bevy_property/src/property.rs:36-78 | when a sequence panics, it stops at the first mismatching call; the value is the one the earlier calls left, and the panic is that call's panic (`set_val`'s at lines 36-40, `set`'s and `apply`'s at lines 76-78 and 117-119) |
| `ErasedValue.RunLastWriteWins` | crates/bevy_property/src/property.rs:35-75 | when every call in a sequence matches, the handle ends holding the payload of the last call (or its original payload if there were no calls); the writes are `set_val`'s at line 37 and `set`'s at lines 75 and 116 |

## Left out

- Serialization through `erased_serde::Serialize` and `serialize_trait_object!` (lines 2, 9, 17). The encoder is a foreign library and is not part of this model.
- The `Send + Sync + 'static` bounds (line 9) and the `Any + 'static` bounds of the generic arm (line 91). They concern threads and lifetimes, not behaviour that this layer can state.
- The token dispatch of `impl_property!` (`@as_item`, the `$trait_<$args>` arm, lines 88-131). Both arms generate the same `Property` bodies, so the model states those bodies once.
- The panic message text from `std::any::type_name` (lines 39, 77, 118). A panic is modelled as `Panicked(expected)`, which carries the tag of the type the message names. Unwinding itself is not modelled; the failure is a returned outcome.
- Field-wise `apply` for aggregates. It belongs to the `Properties` trait, which is defined elsewhere in the crate and is not part of this model. `PropertiesRef` stands in for `&dyn Properties` only so that `AsProperties` has a result type.
- The container instantiations (HashMap, HashSet, VecDeque, BTreeMap, imported at line 5). This file has no invocation of the macro for them, and they would behave as opaque leaf payloads.
- Property.PropertyHandle.AsProperties: models the plain arm only (lines 82-86). The generic arm (lines 88-123) generates no `AsProperties` impl, so for a generic type `as_properties` comes from outside this file and is not part of this model.
- Property.PropertyHandle.CloneProp: the payload type's own `Clone` is assumed to return an equal value (the derived behaviour). A hand-written `Clone` that returns something else is not modelled. The same assumption is made in `Set`, which assigns a clone of `other`'s payload.
- Property.PropertyHandle.Set: all payloads come from one value type `V`, and the tag alone determines which concrete type a payload has. The model does not tie a payload's shape to its tag.
