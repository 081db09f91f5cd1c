/**
 * A reflectable property handle: the concrete value behind a `dyn Property`,
 * with the operations that `impl_property!` generates for a leaf type and the
 * typed accessors `val` and `set_val` layered on top of it. The runtime type
 * is a constant of the handle; only `SetVal`, `Set` and `Apply` change the
 * payload.
 */
module Property {
  import opened ErasedValue

  /**
   * What `as_properties` would return for an aggregate: its field names. The
   * aggregate abstraction itself is not part of this model; a generated leaf
   * never yields one.
   */
  datatype PropertiesRef = PropertiesRef(fieldNames: seq<string>)

  class PropertyHandle<V> {
    const tag: TypeTag
    var payload: V

    /** Converts a concrete value into erased form. */
    constructor (tag: TypeTag, payload: V)
      ensures this.tag == tag && this.payload == payload
    {
      this.tag := tag;
      this.payload := payload;
    }

    /** `any`: the handle seen as `&dyn Any`, which downcasts back to its payload at its own type only. */
    function Any(): (a: Erased<V>)
      reads this
      ensures forall t :: DowncastRef(a, t) == if t == tag then Some(payload) else None
    {
      Erased(tag, payload)
    }

    /** `any_mut`: the mutable view is the handle itself, so a write through it is a write to the handle. */
    method AnyMut() returns (h: PropertyHandle<V>)
      ensures h == this
    {
      h := this;
    }

    /** `val::<T>()`: the payload when the runtime type is `t`, nothing otherwise; never panics. */
    function Val(t: TypeTag): (r: Option<V>)
      reads this
      ensures r.Some? <==> t == tag
      ensures r.Some? ==> r.value == payload
    {
      DowncastRef(Any(), t)
    }

    /**
     * `set_val::<T>(v)`: overwrites the payload through the mutable view when
     * the runtime type is `t`; otherwise panics naming `t` and assigns nothing.
     */
    method SetVal(t: TypeTag, v: V) returns (o: Outcome)
      modifies this
      ensures Any() == SetValStep(old(Any()), t, v).state
      ensures o == SetValStep(old(Any()), t, v).outcome
      ensures o.Done? <==> t == tag
      ensures o.Done? ==> Val(t) == Some(v)
      ensures o.Panicked? ==> payload == old(payload) && o.expected == t
    {
      var view := AnyMut();
      if view.tag == t {
        view.payload := v;
        o := Done;
      } else {
        o := Panicked(t);
      }
    }

    /**
     * The generated `set(other)`: when `other` has this handle's type, the
     * payload becomes a clone of `other`'s; otherwise panics naming this
     * handle's type and leaves it as it was. `other` is only read.
     */
    method Set(other: PropertyHandle<V>) returns (o: Outcome)
      modifies this
      ensures Any() == SetStep(old(Any()), old(other.Any())).state
      ensures o == SetStep(old(Any()), old(other.Any())).outcome
      ensures o.Done? <==> other.tag == tag
      ensures o.Done? ==> payload == old(other.payload)
      ensures o.Panicked? ==> payload == old(payload) && o.expected == tag
      ensures other.payload == old(other.payload)
    {
      var value := other.Any();
      match DowncastRef(value, tag)
      case Some(prop) =>
        payload := prop;
        o := Done;
      case None =>
        o := Panicked(tag);
    }

    /** The generated `apply(other)`: delegates to `set`, with the same effect and failure. */
    method Apply(other: PropertyHandle<V>) returns (o: Outcome)
      modifies this
      ensures Any() == ApplyStep(old(Any()), old(other.Any())).state
      ensures o == ApplyStep(old(Any()), old(other.Any())).outcome
      ensures o.Done? <==> other.tag == tag
      ensures o.Done? ==> payload == old(other.payload)
      ensures o.Panicked? ==> payload == old(payload) && o.expected == tag
      ensures other.payload == old(other.payload)
    {
      o := Set(other);
    }

    /** `clone_prop`: a newly allocated handle with the same type and an equal value. */
    method CloneProp() returns (c: PropertyHandle<V>)
      ensures fresh(c)
      ensures c.Any() == ClonePropValue(Any())
      ensures c.tag == tag && c.Val(tag) == Val(tag)
    {
      c := new PropertyHandle(tag, payload);
    }

    /** `as_properties`: a generated leaf type has no named fields to expose. */
    function AsProperties(): (r: Option<PropertiesRef>)
      ensures r.None?
    {
      None
    }
  }

  /**
   * A clone is independent of its original: writing into the clone leaves
   * the original's value as it was.
   */
  method CloneIsIndependent<V>(h: PropertyHandle<V>, t: TypeTag, v: V)
    returns (c: PropertyHandle<V>)
    ensures fresh(c) && c.tag == h.tag
    ensures h.payload == old(h.payload)
    ensures c.Val(t) == if t == h.tag then Some(v) else None
  {
    c := h.CloneProp();
    var o := c.SetVal(t, v);
  }

  /**
   * Overwriting the clone wholesale with `set` from another handle leaves
   * the original's value as it was; the clone then holds `src`'s value if
   * the types match and its copy of the original's value otherwise.
   */
  method SetOnCloneIsIndependent<V>(h: PropertyHandle<V>, src: PropertyHandle<V>)
    returns (c: PropertyHandle<V>)
    ensures fresh(c) && c.tag == h.tag
    ensures h.payload == old(h.payload) && src.payload == old(src.payload)
    ensures c.payload == if src.tag == h.tag then old(src.payload) else old(h.payload)
  {
    c := h.CloneProp();
    var o := c.Set(src);
  }

  /**
   * Writing into the original after cloning leaves the clone's value as it
   * was.
   */
  method OriginalIsIndependent<V>(h: PropertyHandle<V>, v: V) returns (c: PropertyHandle<V>)
    modifies h
    ensures fresh(c) && c.tag == h.tag
    ensures c.payload == old(h.payload)
    ensures h.payload == v
  {
    c := h.CloneProp();
    var o := h.SetVal(h.tag, v);
  }
}
