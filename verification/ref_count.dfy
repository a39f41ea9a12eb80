/** The dummy input object handed to factories that want a signal: an
    IUnknown with an unsigned 32-bit reference count that starts at 1 and
    deletes itself when a Release brings the count to 0. */
module RefCount {
  import opened Platform

  const CountModulus: nat := 0x1_0000_0000

  /** The object's state. `destroyed` records that `delete this` ran; every
      operation requires a live object, since calling one after the delete
      is a use after free. */
  datatype Dummy = Dummy(count: u32, destroyed: bool)

  /** An operation's new state and the ULONG it returns. */
  datatype Counted = Counted(obj: Dummy, returned: u32)

  /** What QueryInterface wrote through its out-pointer. */
  datatype OutSlot = NotWritten | WroteNull | WroteSelf

  datatype Queried = Queried(obj: Dummy, hr: HResult, out: OutSlot)

  /** A freshly constructed object: one reference, held by its creator. */
  function New(): (d: Dummy)
    ensures d.count == 1 && !d.destroyed
  {
    Dummy(1, false)
  }

  /** AddRef: the count goes up by one (wrapping like a ULONG) and the new
      count is returned. */
  function AddRef(d: Dummy): (r: Counted)
    requires !d.destroyed
    ensures !r.obj.destroyed
    ensures r.returned == r.obj.count
    ensures (r.obj.count - d.count - 1) % CountModulus == 0
  {
    var count := (d.count + 1) % CountModulus;
    Counted(Dummy(count, false), count)
  }

  /** Release: the count goes down by one (wrapping like a ULONG), the new
      count is returned, and the object deletes itself exactly when that
      count is 0. */
  function Release(d: Dummy): (r: Counted)
    requires !d.destroyed
    ensures r.returned == r.obj.count
    ensures (r.obj.count + 1) % CountModulus == d.count
    ensures r.obj.destroyed <==> r.returned == 0
  {
    var count := (d.count - 1) % CountModulus;
    Counted(Dummy(count, count == 0), count)
  }

  /** QueryInterface: a null out-pointer gives E_POINTER; IUnknown gives
      S_OK with the object itself and one more reference; any other IID
      writes null and gives E_NOINTERFACE. */
  function QueryInterface(d: Dummy, outIsNull: bool, iid: Guid): (r: Queried)
    requires !d.destroyed
    ensures !r.obj.destroyed
    ensures !Failed(r.hr) <==> r.out == WroteSelf
    ensures r.out == WroteSelf <==> !outIsNull && iid == IID_IUnknown
    ensures r.out == NotWritten <==> outIsNull
    ensures r.hr == S_OK || r.hr == E_POINTER || r.hr == E_NOINTERFACE
    ensures r.hr == E_POINTER <==> outIsNull
    ensures r.out == WroteSelf ==> r.obj == AddRef(d).obj
    ensures r.out != WroteSelf ==> r.obj == d
  {
    if outIsNull then Queried(d, E_POINTER, NotWritten)
    else if iid == IID_IUnknown then Queried(AddRef(d).obj, S_OK, WroteSelf)
    else Queried(d, E_NOINTERFACE, WroteNull)
  }

  /** A reference-count operation performed on the object by foreign code. */
  datatype Op = AddRefOp | ReleaseOp

  /** Runs operations in order; None when one of them touches the object
      after it was deleted. */
  function Run(d: Dummy, ops: seq<Op>): (r: Option<Dummy>)
    decreases |ops|
  {
    if ops == [] then Some(d)
    else if d.destroyed then None
    else
      var next := if ops[0] == AddRefOp then AddRef(d).obj else Release(d).obj;
      Run(next, ops[1..])
  }

  /** Net number of references the operations keep. */
  function Net(ops: seq<Op>): int
  {
    if ops == [] then 0 else (if ops[0] == AddRefOp then 1 else -1) + Net(ops[1..])
  }

  /** Starting from `count` references, every prefix of the operations
      leaves at least one reference and never overflows the ULONG. */
  predicate Nested(count: int, ops: seq<Op>)
    decreases |ops|
  {
    ops == [] ||
    var next := if ops[0] == AddRefOp then count + 1 else count - 1;
    1 <= next < CountModulus && Nested(next, ops[1..])
  }

  /** Foreign AddRef/Release pairs that never drop the count to zero leave
      the object alive, holding its original references plus the net ones. */
  lemma {:induction false} NestedOpsKeepObjectAlive(d: Dummy, ops: seq<Op>)
    requires !d.destroyed && d.count >= 1
    requires Nested(d.count, ops)
    ensures Run(d, ops).Some? && !Run(d, ops).value.destroyed
    ensures Run(d, ops).value.count == d.count + Net(ops)
    decreases |ops|
  {
    if ops != [] {
      var next := if ops[0] == AddRefOp then AddRef(d).obj else Release(d).obj;
      NestedOpsKeepObjectAlive(next, ops[1..]);
    }
  }

  /** The harness's contract with the dummy: after balanced foreign use, the
      creator's single Release destroys it, and without that Release it
      would still be alive. */
  lemma BalancedUseThenReleaseDestroys(ops: seq<Op>)
    requires Nested(1, ops) && Net(ops) == 0
    ensures Run(New(), ops) == Some(New())
    ensures Release(New()).obj.destroyed
    ensures Run(New(), ops + [ReleaseOp]) == Some(Dummy(0, true))
  {
    NestedOpsKeepObjectAlive(New(), ops);
    RunAppend(New(), ops, [ReleaseOp]);
  }

  lemma {:induction false} RunAppend(d: Dummy, a: seq<Op>, b: seq<Op>)
    requires Run(d, a).Some?
    ensures Run(d, a + b) == Run(Run(d, a).value, b)
    decreases |a|
  {
    if a == [] {
      assert a + b == b;
    } else {
      assert !d.destroyed;
      assert (a + b)[0] == a[0] && (a + b)[1..] == a[1..] + b;
      var next := if a[0] == AddRefOp then AddRef(d).obj else Release(d).obj;
      assert Run(d, a) == Run(next, a[1..]);
      RunAppend(next, a[1..], b);
      assert Run(d, a + b) == Run(next, (a + b)[1..]);
    }
  }

  /** `k` foreign AddRef calls in a row. */
  function AddRefs(k: nat): (ops: seq<Op>)
    ensures |ops| == k && Net(ops) == k
    ensures forall j :: 0 <= j < k ==> ops[j] == AddRefOp
  {
    if k == 0 then [] else [AddRefOp] + AddRefs(k - 1)
  }

  /** AddRef calls on a live object only raise its count, wrapping like a
      ULONG; none of them deletes it. */
  lemma {:induction false} AddRefsRaise(count: u32, k: nat)
    ensures Run(Dummy(count, false), AddRefs(k)) == Some(Dummy((count + k) % CountModulus, false))
    decreases k
  {
    if k > 0 {
      var next := AddRef(Dummy(count, false)).obj;
      assert AddRefs(k)[0] == AddRefOp && AddRefs(k)[1..] == AddRefs(k - 1);
      AddRefsRaise(next.count, k - 1);
      assert (next.count + (k - 1)) % CountModulus == (count + k) % CountModulus;
    }
  }

  /** A foreign module that keeps `retained` references of its own: the
      object is what `retained` AddRef calls on a new object leave, alive
      with `1 + retained` references (modulo the ULONG). */
  function Retain(retained: u32): (d: Dummy)
    ensures Run(New(), AddRefs(retained)) == Some(d)
    ensures !d.destroyed
    ensures (d.count - 1 - retained) % CountModulus == 0
    ensures Release(d).obj.destroyed <==> retained == 0
    ensures Release(d).returned == retained
  {
    AddRefsRaise(1, retained);
    Dummy((1 + retained) % CountModulus, false)
  }
}
