/**
 * The value-level model of a reflectable property: a payload together with the
 * runtime identity of its concrete type, as `&dyn Any` presents it. The mutating
 * operations of a generated leaf implementation (`set_val`, `set`, `apply`) are
 * given here as step functions from the old erased value to the new one and the
 * way the operation ended; the class in module Property is proved against them.
 */
module ErasedValue {

  datatype Option<+T> = None | Some(value: T)

  /** Runtime identity of one concrete type (Rust's `TypeId`). */
  datatype TypeTag = TypeTag(id: nat)

  /** A value of some concrete type seen through `dyn Any`. */
  datatype Erased<V> = Erased(tag: TypeTag, payload: V)

  /**
   * How a mutating operation ends: normally, or with the type-mismatch panic,
   * which names the type the operation expected.
   */
  datatype Outcome = Done | Panicked(expected: TypeTag)

  /** The erased value after an operation, and how the operation ended. */
  datatype Step<V> = Step(state: Erased<V>, outcome: Outcome)

  /** `downcast_ref::<T>()` on a `&dyn Any`: the payload, if the runtime type is `t`. */
  function DowncastRef<V>(a: Erased<V>, t: TypeTag): (r: Option<V>)
    ensures r.Some? <==> a.tag == t
    ensures r.Some? ==> r.value == a.payload
  {
    if a.tag == t then Some(a.payload) else None
  }

  /**
   * `set_val::<T>(v)`: a mutable downcast to `t`; on success the payload is
   * overwritten with `v`, otherwise the call panics naming `t` and assigns nothing.
   */
  function SetValStep<V>(e: Erased<V>, t: TypeTag, v: V): (r: Step<V>)
    ensures r.state.tag == e.tag
    ensures r.outcome.Done? <==> e.tag == t
    ensures r.outcome.Done? ==> DowncastRef(r.state, t) == Some(v)
    ensures r.outcome.Panicked? ==> r.state == e && r.outcome.expected == t
  {
    if e.tag == t then Step(Erased(e.tag, v), Done) else Step(e, Panicked(t))
  }

  /**
   * The generated `set(other)` on the receiver `target`: downcast `other` to
   * `Self`; on success `target` becomes a clone of `other`'s value (a leaf clone
   * is an equal value), otherwise the call panics naming `Self` and `target` is
   * untouched.
   */
  function SetStep<V>(target: Erased<V>, other: Erased<V>): (r: Step<V>)
    ensures r.state.tag == target.tag
    ensures r.outcome.Done? <==> other.tag == target.tag
    ensures r.outcome.Done? ==> r.state == other
    ensures r.outcome.Panicked? ==> r.state == target && r.outcome.expected == target.tag
  {
    match DowncastRef(other, target.tag)
    case Some(prop) => Step(Erased(target.tag, prop), Done)
    case None => Step(target, Panicked(target.tag))
  }

  /** The generated `apply(other)` delegates to `set(other)`. */
  function ApplyStep<V>(target: Erased<V>, other: Erased<V>): (r: Step<V>)
    ensures r.state.tag == target.tag
    ensures r.outcome.Done? <==> other.tag == target.tag
    ensures r.outcome.Done? ==> r.state == other
    ensures r.outcome.Panicked? ==> r.state == target && r.outcome.expected == target.tag
  {
    SetStep(target, other)
  }

  /** The value carried by the box that `clone_prop` returns. */
  function ClonePropValue<V>(e: Erased<V>): (r: Erased<V>)
    ensures r.tag == e.tag
    ensures forall t :: DowncastRef(r, t) == DowncastRef(e, t)
  {
    Erased(e.tag, e.payload)
  }

  /** Typed read after a successful `set_val::<T>(v)` yields `v`, at `T` only. */
  lemma SetValThenVal<V>(e: Erased<V>, t: TypeTag, v: V, u: TypeTag)
    requires e.tag == t
    ensures DowncastRef(SetValStep(e, t, v).state, u) == if u == t then Some(v) else None
  {
  }

  /** `apply` has exactly the effect and the failure condition of `set`. */
  lemma ApplyIsSet<V>(target: Erased<V>, other: Erased<V>)
    ensures ApplyStep(target, other) == SetStep(target, other)
    ensures ApplyStep(target, other).outcome.Done? <==> target.tag == other.tag
  {
  }

  /** Setting a value from its own clone changes nothing and does not panic. */
  lemma SetFromClone<V>(e: Erased<V>)
    ensures SetStep(e, ClonePropValue(e)) == Step(e, Done)
  {
  }

  /** A second identical `set_val` or `set` changes nothing further. */
  lemma SetIdempotent<V>(e: Erased<V>, t: TypeTag, v: V, other: Erased<V>)
    ensures SetValStep(SetValStep(e, t, v).state, t, v) == SetValStep(e, t, v)
    ensures SetStep(SetStep(e, other).state, other) == SetStep(e, other)
  {
  }

  // A sequence of mutating calls on one handle. A panic ends the sequence.

  datatype Op<V> = SetValOp(t: TypeTag, v: V) | SetOp(other: Erased<V>) | ApplyOp(other: Erased<V>)

  /** The type an operation demands of the handle it is applied to. */
  function TagRequired<V>(op: Op<V>): TypeTag
  {
    match op
    case SetValOp(t, _) => t
    case SetOp(other) => other.tag
    case ApplyOp(other) => other.tag
  }

  /** The payload an operation writes when it succeeds. */
  function WrittenPayload<V>(op: Op<V>): V
  {
    match op
    case SetValOp(_, v) => v
    case SetOp(other) => other.payload
    case ApplyOp(other) => other.payload
  }

  function Exec<V>(e: Erased<V>, op: Op<V>): Step<V>
  {
    match op
    case SetValOp(t, v) => SetValStep(e, t, v)
    case SetOp(other) => SetStep(e, other)
    case ApplyOp(other) => ApplyStep(e, other)
  }

  /** Runs `ops` in order, stopping at the first panic. */
  function Run<V>(e: Erased<V>, ops: seq<Op<V>>): Step<V>
    decreases |ops|
  {
    if ops == [] then Step(e, Done)
    else
      var s := Exec(e, ops[0]);
      if s.outcome.Panicked? then s else Run(s.state, ops[1..])
  }

  /** The concrete type behind a handle never changes, whatever is done to it. */
  lemma {:induction false} RunKeepsTag<V>(e: Erased<V>, ops: seq<Op<V>>)
    ensures Run(e, ops).state.tag == e.tag
    decreases |ops|
  {
    if ops != [] {
      var s := Exec(e, ops[0]);
      if s.outcome.Done? {
        RunKeepsTag(s.state, ops[1..]);
      }
    }
  }

  /** Every panic is a type mismatch: a run completes exactly when every call matches. */
  lemma {:induction false} RunCompletesIffAllMatch<V>(e: Erased<V>, ops: seq<Op<V>>)
    ensures Run(e, ops).outcome.Done? <==> forall i :: 0 <= i < |ops| ==> TagRequired(ops[i]) == e.tag
    decreases |ops|
  {
    if ops != [] {
      var s := Exec(e, ops[0]);
      if s.outcome.Done? {
        RunCompletesIffAllMatch(s.state, ops[1..]);
        assert forall i :: 1 <= i < |ops| ==> ops[i] == ops[1..][i - 1];
      }
    }
  }

  /**
   * A run that panics stops at the first mismatching call `k`: the value is the
   * one the calls before `k` left, and the panic is the one call `k` raises.
   */
  lemma {:induction false} RunPanicStopsAtFirstMismatch<V>(e: Erased<V>, ops: seq<Op<V>>)
    requires Run(e, ops).outcome.Panicked?
    ensures exists k ::
              && 0 <= k < |ops| && TagRequired(ops[k]) != e.tag
              && (forall i :: 0 <= i < k ==> TagRequired(ops[i]) == e.tag)
              && Run(e, ops) == Step(Run(e, ops[..k]).state, Exec(Run(e, ops[..k]).state, ops[k]).outcome)
    decreases |ops|
  {
    var s := Exec(e, ops[0]);
    if s.outcome.Panicked? {
      assert ops[..0] == [];
      assert TagRequired(ops[0]) != e.tag;
    } else {
      RunPanicStopsAtFirstMismatch(s.state, ops[1..]);
      var k :| 0 <= k < |ops[1..]| && TagRequired(ops[1..][k]) != s.state.tag
        && (forall i :: 0 <= i < k ==> TagRequired(ops[1..][i]) == s.state.tag)
        && Run(s.state, ops[1..]) == Step(Run(s.state, ops[1..][..k]).state, Exec(Run(s.state, ops[1..][..k]).state, ops[1..][k]).outcome);
      assert ops[..k + 1][0] == ops[0];
      assert ops[..k + 1][1..] == ops[1..][..k];
      assert ops[k + 1] == ops[1..][k];
      assert forall i :: 1 <= i < k + 1 ==> ops[i] == ops[1..][i - 1];
    }
  }

  /** Last write wins: a run in which every call matches leaves the last payload written. */
  lemma {:induction false} RunLastWriteWins<V>(e: Erased<V>, ops: seq<Op<V>>)
    requires forall i :: 0 <= i < |ops| ==> TagRequired(ops[i]) == e.tag
    ensures Run(e, ops) == Step(Erased(e.tag, if ops == [] then e.payload else WrittenPayload(ops[|ops| - 1])), Done)
    decreases |ops|
  {
    if ops != [] {
      var s := Exec(e, ops[0]);
      assert TagRequired(ops[0]) == e.tag;
      assert ops[1..] != [] ==> ops[1..][|ops[1..]| - 1] == ops[|ops| - 1];
      RunLastWriteWins(s.state, ops[1..]);
    }
  }
}
