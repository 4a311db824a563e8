/** System calls as they travel through a ring slot, and the register image
    `indirect_call` hands to the kernel's system-call table. */
module Calls {

  const MAX_ARGS := 6

  datatype Status = Empty | Busy

  /** One table entry; `sysret` and `pid` are never read by the source and are left out. */
  datatype Slot = Slot(sysnum: nat, nargs: int, args: seq<int>, status: Status)

  /** A call as its wrapper issues it. */
  datatype Call = Call(sysnum: nat, args: seq<int>)

  /** An executed call: the table index and the six argument registers, in order. */
  datatype Event = Event(sysnum: nat, regs: seq<int>)

  predicate ValidCall(call: Call) {
    |call.args| <= MAX_ARGS
  }

  predicate ValidSlot(slot: Slot) {
    |slot.args| == MAX_ARGS
  }

  /** What a call must look like to the kernel: its arguments, then zeros. */
  function Image(call: Call): Event
    requires ValidCall(call)
  {
    Event(call.sysnum, call.args + seq(MAX_ARGS - |call.args|, _ => 0))
  }

  function Registers(argc: int, a: seq<int>): seq<int>
    requires |a| == MAX_ARGS
  {
    seq(MAX_ARGS, k requires 0 <= k < MAX_ARGS => if argc <= MAX_ARGS && k < argc then a[k] else 0)
  }

  /** What the worker runs when it reaches a slot. */
  function Dispatch(slot: Slot): Event
    requires ValidSlot(slot)
  {
    Event(slot.sysnum, Registers(slot.nargs, slot.args))
  }

  /** The fall-through switch of `indirect_call` over a zeroed register block. An argument count
      with no case label leaves every register zero. */
  method IndirectCall(argc: int, a: seq<int>) returns (regs: seq<int>)
    requires |a| == MAX_ARGS
    ensures regs == Registers(argc, a)
    ensures 0 <= argc <= MAX_ARGS ==> regs == a[..argc] + seq(MAX_ARGS - argc, _ => 0)
    ensures argc < 0 || argc > MAX_ARGS ==> regs == [0, 0, 0, 0, 0, 0]
  {
    var di, si, dx, r10, r8, r9 := 0, 0, 0, 0, 0, 0;
    if argc == 6 { r9 := a[5]; }
    if 5 <= argc <= 6 { r8 := a[4]; }
    if 4 <= argc <= 6 { r10 := a[3]; }
    if 3 <= argc <= 6 { dx := a[2]; }
    if 2 <= argc <= 6 { si := a[1]; }
    if 1 <= argc <= 6 { di := a[0]; }
    regs := [di, si, dx, r10, r8, r9];
  }

  /** The wrapper's stores, in program order: sysnum, nargs, then the arguments. */
  function WriteField(slot: Slot, call: Call, field: nat): Slot
    requires ValidSlot(slot) && ValidCall(call) && field < 2 + |call.args|
  {
    if field == 0 then slot.(sysnum := call.sysnum)
    else if field == 1 then slot.(nargs := |call.args|)
    else slot.(args := slot.args[field - 2 := call.args[field - 2]])
  }

  /** The first `done` stores of `call` have reached the slot. */
  predicate Filled(slot: Slot, call: Call, done: nat)
    requires ValidCall(call) && done <= 2 + |call.args|
  {
    && ValidSlot(slot)
    && (done >= 1 ==> slot.sysnum == call.sysnum)
    && (done >= 2 ==> slot.nargs == |call.args|)
    && (forall m :: 0 <= m < done - 2 ==> slot.args[m] == call.args[m])
  }

  /** The slot holds the whole call, whatever its unused arguments and its status are. */
  predicate Holds(slot: Slot, call: Call)
    requires ValidCall(call)
  {
    Filled(slot, call, 2 + |call.args|)
  }

  lemma {:induction false} FillOne(slot: Slot, call: Call, done: nat)
    requires ValidCall(call) && done < 2 + |call.args| && Filled(slot, call, done)
    ensures Filled(WriteField(slot, call, done), call, done + 1)
    ensures WriteField(slot, call, done).status == slot.status
  {
  }

  /** A slot holding a call dispatches exactly the call's image: arguments that an earlier,
      wider call left in the slot never reach the registers. */
  lemma {:induction false} HeldCallDispatchesItsImage(slot: Slot, call: Call)
    requires ValidCall(call) && Holds(slot, call)
    ensures Dispatch(slot) == Image(call)
  {
    var got, want := Registers(slot.nargs, slot.args), Image(call).regs;
    assert |got| == |want|;
    forall k | 0 <= k < MAX_ARGS ensures got[k] == want[k] {
    }
  }
}
