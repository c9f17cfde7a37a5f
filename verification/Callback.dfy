/** Callback slots: numbers, 32-byte code stubs in memory, and interrupt vectors that point at them. */
module Callback {
  import opened Bytes

  const CB_MAX := 128
  const CB_SIZE := 32
  const CB_SEG := 0xF000
  const CB_SOFFSET := 0x1000

  /** An entry of the handler table; `Illegal` marks a free slot. */
  datatype Handler = Illegal | Null | Fn(id: nat)

  function RealPointer(cb: nat): nat {
    CB_SEG * 0x1_0000 + CB_SOFFSET + cb * CB_SIZE
  }

  function PhysPointer(cb: nat): nat {
    CB_SEG * 16 + CB_SOFFSET + cb * CB_SIZE
  }

  /** The two are the same address, as a segment with an offset and as a number. */
  lemma PointersAgree(cb: nat)
    requires cb < CB_MAX
    ensures RealPointer(cb) / 0x1_0000 * 16 + RealPointer(cb) % 0x1_0000 == PhysPointer(cb)
  {
    assert RealPointer(cb) % 0x1_0000 == CB_SOFFSET + cb * CB_SIZE;
  }

  // ---- stubs ----------------------------------------------------------------

  datatype Kind =
    | RETN | RETF | RETF8 | RETF_STI | RETF_CLI | IRET | IRETD | IRET_STI | IRET_EOI_PIC1
    | IRQ0 | IRQ1 | IRQ9 | IRQ12 | IRQ12_RET | IRQ6_PCJR | MOUSE | INT29 | INT16 | HOOKABLE
    | TDE_IRET | IPXESR | IPXESR_RET | INT21 | INT13 | VESA_WAIT | VESA_PM

  /** The extra callback instruction with its 16-bit immediate. */
  function Call(cb: Byte): seq<Byte> {
    [0xfe, 0x38, cb, 0]
  }

  /** The combinations of type and handler on which the emulator gives up. */
  predicate Refused(kind: Kind, useCb: bool) {
    kind.IPXESR? || kind.IPXESR_RET? || (kind.IRQ12? && !useCb) || (kind.VESA_WAIT? && useCb)
  }

  /** Where the main part of a stub starts: the mouse stub leaves a gap of seven bytes. */
  function BodyOffset(kind: Kind): nat {
    if kind.MOUSE? then 9 else 0
  }

  /** Bytes written before `BodyOffset`. */
  function Lead(kind: Kind): (s: seq<Byte>)
    ensures |s| <= BodyOffset(kind)
  {
    if kind.MOUSE? then [0xeb, 0x07] else []
  }

  /** Code in front of the callback instruction. */
  function Head(kind: Kind, useCb: bool): seq<Byte> {
    match kind
    case RETF_STI => [0xfb]
    case RETF_CLI => [0xfa]
    case IRET_STI => [0xfb]
    case IRQ0 => [0xfb]
    case IRQ1 => [0x50, 0xe4, 0x60, 0xb4, 0x4f, 0xf9, 0xcd, 0x15] + (if useCb then [0x73, 0x04] else [])
    case IRQ12 => [0xfb, 0x1e, 0x06, 0x66, 0x60]
    case IRQ12_RET => [0xfa, 0xb0, 0x20, 0xe6, 0xa0, 0xe6, 0x20]
    case IRQ6_PCJR => [0x50, 0xe4, 0x60, 0x3c, 0xe0, 0x74, if useCb then 0x0b else 0x07]
    case INT16 => [0xfb]
    case HOOKABLE => [0xeb, 0x03, 0x90, 0x90, 0x90]
    case INT21 => [0xfb]
    case INT13 => [0xfb]
    case _ => []
  }

  /** Code behind it. */
  function Tail(kind: Kind, useCb: bool): seq<Byte> {
    match kind
    case RETN => [0xc3]
    case RETF => [0xcb]
    case RETF8 => [0xca, 0x08, 0x00]
    case RETF_STI => [0xcb]
    case RETF_CLI => [0xcb]
    case IRET => [0xcf]
    case IRETD => [0x66, 0xcf]
    case IRET_STI => [0xcf]
    case IRET_EOI_PIC1 => [0x50, 0xb0, 0x20, 0xe6, 0x20, 0x58, 0xcf]
    case IRQ0 => [0x1e, 0x50, 0x52, 0xcd, 0x1c, 0xfa, 0xb0, 0x20, 0xe6, 0x20, 0x5a, 0x58, 0x1f, 0xcf]
    case IRQ1 =>
      [0xfa, 0xb0, 0x20, 0xe6, 0x20, 0x58, 0xcf, 0xfa, 0xb0, 0x20, 0xe6, 0x20, 0x55, 0xcd, 0x05, 0x5d, 0x58, 0xcf]
    case IRQ9 => [0x50, 0xb0, 0x61, 0xe6, 0xa0, 0xcd, 0x0a, 0xfa, 0x58, 0xcf]
    case IRQ12 => [0x50, 0xb0, 0x20, 0xe6, 0xa0, 0xe6, 0x20, 0x58, 0xfc, 0xcb]
    case IRQ12_RET => [0x66, 0x61, 0x07, 0x1f, 0xcf]
    case IRQ6_PCJR => [0x1e, 0x6a, 0x40, 0x1f, 0xcd, 0x09, 0x1f, 0xfa, 0xb0, 0x20, 0xe6, 0x20, 0x58, 0xcf]
    case MOUSE => [0xcf]
    case INT29 => [0x50, 0x53, 0xb4, 0x0e, 0xbb, 0x07, 0x00, 0xcd, 0x10, 0x5b, 0x58, 0xcf]
    case INT16 =>
      [0xcf, 0x90, 0x90, 0x90, 0x90, 0x90, 0x90, 0x90, 0x90, 0x90, 0x90, 0x90, 0x90, 0xeb, 0xed]
    case HOOKABLE => [0xcb]
    case TDE_IRET => [0x50, 0xb8, 0xfb, 0x91, 0xcd, 0x15, 0xfa, 0xb0, 0x20, 0xe6, 0x20, 0x58, 0xcf]
    case INT21 => [0xcf, 0xcb, 0x51, 0xb9, 0x40, 0x01, 0xe2, 0xfe, 0x59, 0xcf]
    case INT13 => [0xcf, 0xcd, 0x0e, 0xcf]
    case VESA_WAIT =>
      [0xfb, 0x50, 0x52, 0xba, 0xda, 0x03, 0xec, 0xa8, 0x08, 0x75, 0xfb, 0xec, 0xa8, 0x08, 0x74, 0xfb, 0x5a, 0x58, 0xcb]
    case VESA_PM =>
      [0xf6, 0xc3, 0x80, 0x74, 0x16, 0x66, 0x50, 0x66, 0x52, 0x66, 0xba, 0xda, 0x03, 0xec, 0xa8, 0x08, 0x75,
       0xfb, 0xec, 0xa8, 0x08, 0x74, 0xfb, 0x66, 0x5a, 0x66, 0x58] + (if useCb then [0xc3] else [])
    case IPXESR => []
    case IPXESR_RET => []
  }

  /** A stub before its number is filled in: `lead` at the start of the slot, and from `offset` on the
      code around the callback instruction. */
  datatype Stub = Stub(lead: seq<Byte>, offset: nat, head: seq<Byte>, call: bool, tail: seq<Byte>)

  function Extent(stub: Stub): nat {
    stub.offset + |stub.head| + (if stub.call then 4 else 0) + |stub.tail|
  }

  predicate StubOk(stub: Stub) {
    |stub.lead| <= stub.offset && Extent(stub) <= CB_SIZE
  }

  function Code(stub: Stub, cb: Byte): (s: seq<Byte>)
    ensures stub.offset + |s| == Extent(stub)
    ensures stub.call ==> s[|stub.head|..][..4] == Call(cb)
  {
    stub.head + (if stub.call then Call(cb) else []) + stub.tail
  }

  /** The size the setup function returns. */
  function ReportedSize(kind: Kind, useCb: bool): nat
  {
    var call := if useCb then 4 else 0;
    match kind
    case RETN => call + 1
    case RETF => call + 1
    case RETF8 => call + 3
    case RETF_STI => call + 2
    case RETF_CLI => call + 2
    case IRET => call + 1
    case IRETD => call + 2
    case IRET_STI => call + 2
    case IRET_EOI_PIC1 => call + 0x07
    case IRQ0 => call + 0x0f
    case IRQ1 => if useCb then 0x20 else 0x1a
    case IRQ9 => call + 0x0a
    case IRQ12 => 0x13
    case IRQ12_RET => call + 0x0c
    case IRQ6_PCJR => call + 0x15
    case MOUSE => call + 0x0a
    case INT29 => call + 0x0c
    case INT16 => call + 0x0c
    case HOOKABLE => call + 0x06
    case TDE_IRET => call + 0x0d
    case INT21 => call + 11
    case INT13 => call + 5
    case VESA_WAIT => 19
    case VESA_PM => if useCb then 32 else 27
    case IPXESR => 0
    case IPXESR_RET => 0
  }

  /** The stub of a type; every one fits its slot. The reported size is the number of bytes from the
      start of the slot to the end of the stub for every type but one, whose stub is four bytes longer. */
  function StubFor(kind: Kind, useCb: bool): (stub: Stub)
    requires !Refused(kind, useCb)
    ensures StubOk(stub) && stub.call == useCb
    ensures Extent(stub) == ReportedSize(kind, useCb) + (if kind.INT16? then 4 else 0)
  {
    PartSizes(kind, useCb);
    Stub(Lead(kind), BodyOffset(kind), Head(kind, useCb), useCb, Tail(kind, useCb))
  }

  lemma PartSizes(kind: Kind, useCb: bool)
    requires !Refused(kind, useCb)
    ensures BodyOffset(kind) + |Head(kind, useCb)| + (if useCb then 4 else 0) + |Tail(kind, useCb)|
            == ReportedSize(kind, useCb) + (if kind.INT16? then 4 else 0) <= CB_SIZE
  {
    if OnInterrupt(kind) {
      InterruptPartSizes(kind, useCb);
    } else {
      PlainPartSizes(kind, useCb);
    }
  }

  /** The types made for one particular interrupt. */
  predicate OnInterrupt(kind: Kind) {
    || kind.IRQ0? || kind.IRQ1? || kind.IRQ9? || kind.IRQ12? || kind.IRQ12_RET? || kind.IRQ6_PCJR?
    || kind.INT29? || kind.INT16? || kind.INT21? || kind.INT13?
  }

  lemma InterruptPartSizes(kind: Kind, useCb: bool)
    requires !Refused(kind, useCb) && OnInterrupt(kind)
    ensures BodyOffset(kind) + |Head(kind, useCb)| + (if useCb then 4 else 0) + |Tail(kind, useCb)|
            == ReportedSize(kind, useCb) + (if kind.INT16? then 4 else 0) <= CB_SIZE
  {
    match kind
    case IRQ0 => case IRQ1 => case IRQ9 => case IRQ12 => case IRQ12_RET => case IRQ6_PCJR =>
    case INT29 => case INT16 => case INT21 => case INT13 =>
  }

  lemma PlainPartSizes(kind: Kind, useCb: bool)
    requires !Refused(kind, useCb) && !OnInterrupt(kind)
    ensures BodyOffset(kind) + |Head(kind, useCb)| + (if useCb then 4 else 0) + |Tail(kind, useCb)|
            == ReportedSize(kind, useCb) + (if kind.INT16? then 4 else 0) <= CB_SIZE
  {
    match kind
    case RETN => case RETF => case RETF8 => case RETF_STI => case RETF_CLI => case IRET => case IRETD =>
    case IRET_STI => case IRET_EOI_PIC1 => case MOUSE => case HOOKABLE => case TDE_IRET =>
    case VESA_WAIT => case VESA_PM =>
  }

  // ---- memory ---------------------------------------------------------------

  /** Memory with a block of bytes written at an address. */
  function Store(mem: Memory, at: nat, bytes: seq<Byte>): (r: Memory)
    ensures forall a: nat :: r(a) == if at <= a < at + |bytes| then bytes[a - at] else mem(a)
  {
    (a: nat) => if at <= a < at + |bytes| then bytes[a - at] else mem(a)
  }

  /** The code of a stub is in its slot. */
  ghost predicate Stands(mem: Memory, stub: Stub, cb: Byte) {
    && (forall i: nat :: i < |stub.lead| ==> mem(PhysPointer(cb) + i) == stub.lead[i])
    && (forall i: nat :: i < |Code(stub, cb)| ==> mem(PhysPointer(cb) + stub.offset + i) == Code(stub, cb)[i])
  }

  /** The memory after a stub has been written into its slot: the code stands there, and nothing outside
      the slot changes. */
  function WithStub(mem: Memory, stub: Stub, cb: Byte): (r: Memory)
    requires StubOk(stub)
    ensures forall a: nat :: !InSlot(a, cb) ==> r(a) == mem(a)
    ensures Stands(r, stub, cb)
  {
    Store(Store(mem, PhysPointer(cb), stub.lead), PhysPointer(cb) + stub.offset, Code(stub, cb))
  }

  predicate InSlot(a: nat, cb: nat) {
    PhysPointer(cb) <= a < PhysPointer(cb) + CB_SIZE
  }

  /** Address of the stub that runs interrupt `n`, behind the last slot. */
  function IntStub(n: nat): nat {
    CB_SEG * 16 + CB_SOFFSET + CB_MAX * CB_SIZE + n * 6
  }

  function IntBytes(n: Byte, stop: Byte): (s: seq<Byte>)
    ensures |s| == 6
  {
    [0xcd, n, 0xfe, 0x38, stop, 0]
  }

  /** All 256 interrupt stubs are in place and return through the stop callback. */
  ghost predicate IntStubs(mem: Memory, stop: Byte) {
    forall n: nat, i: nat {:trigger IntBytes(n, stop)[i]} :: n < 256 && i < 6 ==>
      mem(IntStub(n) + i) == IntBytes(n, stop)[i]
  }

  /** Slots are disjoint from one another and from the interrupt stubs. */
  lemma SlotsDisjoint(a: nat, cb: nat, other: nat)
    requires InSlot(a, cb) && cb < CB_MAX
    ensures InSlot(a, other) ==> other == cb
    ensures forall n: nat :: a < IntStub(n)
  {
  }

  function Cleared(mem: Memory, cb: nat): (r: Memory)
    ensures forall a: nat :: r(a) == if InSlot(a, cb) then 0 else mem(a)
  {
    (a: nat) => if InSlot(a, cb) then 0 else mem(a)
  }

  // ---- the system and its handler objects -----------------------------------

  /** Handler table, memory, and the 256 interrupt vectors. */
  datatype Sys = Sys(handlers: seq<Handler>, mem: Memory, vectors: seq<nat>)

  predicate SysOk(s: Sys) {
    |s.handlers| == CB_MAX && |s.vectors| == 256
  }

  /** A CALLBACK_HandlerObject. Uninstalling leaves `hooked`, `vec` and `oldVec` as they are. */
  datatype Obj = Obj(installed: bool, setup: bool, cb: nat, hooked: bool, vec: nat, oldVec: nat)

  const NEW_OBJECT := Obj(false, false, 0, false, 0, 0)

  /** Operations that may end the emulator. */
  datatype Outcome = Exit | Done(s: Sys, o: Obj)

  /** The first free slot from `i` on, or the table size. */
  function FirstFree(h: seq<Handler>, i: nat): (r: nat)
    requires i <= |h|
    ensures i <= r <= |h| && (r < |h| ==> h[r] == Illegal)
    ensures forall k :: i <= k < r ==> h[k] != Illegal
    decreases |h| - i
  {
    if i == |h| || h[i] == Illegal then i else FirstFree(h, i + 1)
  }

  lemma FirstFreeIs(h: seq<Handler>, r: nat)
    requires 1 <= r < |h| && h[r] == Illegal && forall k :: 1 <= k < r ==> h[k] != Illegal
    ensures FirstFree(h, 1) == r
  {
    assert FirstFree(h, 1) <= r;
  }

  /** `CALLBACK_HandlerObject::Install` with the stub of its type; a null handler gets no callback
      instruction. */
  function Install(s: Sys, o: Obj, f: Handler, stub: Stub): Outcome
    requires SysOk(s) && StubOk(stub)
  {
    var cb := FirstFree(s.handlers, 1);
    if o.installed || cb == CB_MAX then Exit
    else Done(s.(handlers := s.handlers[cb := f], mem := WithStub(s.mem, stub, cb)),
              o.(installed := true, setup := true, cb := cb))
  }

  /** Only a number, no stub. */
  function AllocateOnly(s: Sys, o: Obj, f: Handler): Outcome
    requires SysOk(s)
  {
    var cb := FirstFree(s.handlers, 1);
    if o.installed || cb == CB_MAX then Exit
    else Done(s.(handlers := s.handlers[cb := f]), o.(installed := true, setup := false, cb := cb))
  }

  function SetRealVec(s: Sys, o: Obj, vec: Byte): Outcome
    requires SysOk(s)
  {
    if o.hooked then Exit
    else Done(s.(vectors := s.vectors[vec := RealPointer(o.cb)]),
              o.(hooked := true, vec := vec, oldVec := s.vectors[vec]))
  }

  /** The vector is put back only if it still points at this object's stub. */
  function Unhooked(vectors: seq<nat>, o: Obj): (r: seq<nat>)
    ensures |r| == |vectors|
  {
    if o.setup && o.hooked && o.vec < |vectors| && vectors[o.vec] == RealPointer(o.cb)
    then vectors[o.vec := o.oldVec] else vectors
  }

  function Uninstall(s: Sys, o: Obj): (Sys, Obj)
    requires SysOk(s) && (o.installed ==> o.cb < CB_MAX)
  {
    if !o.installed then (s, o)
    else (Sys(s.handlers[o.cb := Illegal], if o.setup then Cleared(s.mem, o.cb) else s.mem, Unhooked(s.vectors, o)),
          o.(installed := false))
  }

  // ---- exclusive slots over whole runs --------------------------------------

  /** `raw` are the numbers taken without an object, such as those of `CALLBACK_Init`; `code` is the stub
      that was set up for a number. */
  datatype World = World(s: Sys, objs: seq<Obj>, raw: set<nat>, code: map<nat, Stub>)

  ghost predicate Holds(w: World, k: nat, cb: nat) {
    k < |w.objs| && w.objs[k].installed && w.objs[k].cb == cb
  }

  ghost predicate Taken(w: World, cb: nat) {
    cb in w.raw || exists k: nat :: Holds(w, k, cb)
  }

  /** A slot is free exactly if nobody holds it; holders are exclusive; the interrupt stubs stand. */
  ghost predicate Inv(w: World, stop: Byte) {
    && SysOk(w.s) && IntStubs(w.s.mem, stop)
    && (forall cb: nat :: 1 <= cb < CB_MAX ==> (w.s.handlers[cb] == Illegal <==> !Taken(w, cb)))
    && (forall k: nat :: k < |w.objs| && w.objs[k].installed ==>
                           1 <= w.objs[k].cb < CB_MAX && w.objs[k].cb !in w.raw)
    && (forall k: nat, l: nat, cb: nat :: Holds(w, k, cb) && Holds(w, l, cb) ==> k == l)
  }

  /** The stub of every live callback stands in its slot. */
  ghost predicate CodeStands(w: World) {
    && AllStand(w.s.mem, w.code)
    && (forall k: nat :: k < |w.objs| && w.objs[k].installed && w.objs[k].setup ==> w.objs[k].cb in w.code)
  }

  datatype Event =
    | DoInstall(k: nat, f: Handler, stub: Stub)
    | DoAllocate(k: nat, f: Handler)
    | DoHook(k: nat, vec: Byte)
    | DoUninstall(k: nat)
    | TakeRaw(f: Handler)
    | SetupRaw(cb: nat, f: Handler, stub: Stub)
    | FreeRaw(cb: nat)
    | GuestVector(vec: Byte, value: nat)

  /** The result of an event; `Stopped` where the emulator exits or the event cannot occur. */
  datatype Next = Stopped | Next(w: World)

  predicate WorldOk(w: World) {
    SysOk(w.s) && forall k: nat :: k < |w.objs| && w.objs[k].installed ==> w.objs[k].cb < CB_MAX
  }

  function Put(w: World, k: nat, r: Outcome, code: map<nat, Stub>): Next
    requires k < |w.objs|
  {
    match r
    case Exit => Stopped
    case Done(s, o) => Next(World(s, w.objs[k := o], w.raw, code))
  }

  function Apply(w: World, e: Event): (r: Next)
    requires WorldOk(w)
    ensures r.Next? ==> WorldOk(r.w)
  {
    match e
    case DoInstall(k, f, stub) =>
      if k < |w.objs| && f != Illegal && StubOk(stub)
      then Put(w, k, Install(w.s, w.objs[k], f, stub), w.code[FirstFree(w.s.handlers, 1) := stub])
      else Stopped
    case DoAllocate(k, f) =>
      if k < |w.objs| && f != Illegal then Put(w, k, AllocateOnly(w.s, w.objs[k], f), w.code) else Stopped
    case DoHook(k, vec) => if k < |w.objs| then Put(w, k, SetRealVec(w.s, w.objs[k], vec), w.code) else Stopped
    case DoUninstall(k) =>
      if k < |w.objs| then
        var (s, o) := Uninstall(w.s, w.objs[k]);
        Next(World(s, w.objs[k := o], w.raw, if w.objs[k].installed then w.code - {w.objs[k].cb} else w.code))
      else Stopped
    case TakeRaw(f) =>
      var cb := FirstFree(w.s.handlers, 1);
      if cb < CB_MAX && f != Illegal then Next(w.(s := w.s.(handlers := w.s.handlers[cb := f]), raw := w.raw + {cb}))
      else Stopped
    case FreeRaw(cb) =>
      if cb in w.raw && cb < CB_MAX
      then Next(w.(s := w.s.(handlers := w.s.handlers[cb := Illegal]), raw := w.raw - {cb}, code := w.code - {cb}))
      else Stopped
    case SetupRaw(cb, f, stub) =>
      if cb in w.raw && cb < CB_MAX && f != Illegal && StubOk(stub)
      then Next(w.(s := w.s.(handlers := w.s.handlers[cb := f], mem := WithStub(w.s.mem, stub, cb)),
                   code := w.code[cb := stub]))
      else Stopped
    case GuestVector(vec, value) => Next(w.(s := w.s.(vectors := w.s.vectors[vec := value])))
  }

  lemma TakenAfterGain(w: World, w': World, k: nat, cb: nat)
    requires k < |w.objs| && !w.objs[k].installed && |w'.objs| == |w.objs| && w'.raw == w.raw
    requires forall j: nat :: j < |w.objs| && j != k ==> w'.objs[j] == w.objs[j]
    requires w'.objs[k].installed && w'.objs[k].cb == cb
    ensures forall c: nat :: Taken(w', c) <==> Taken(w, c) || c == cb
  {
    forall c: nat ensures Taken(w', c) <==> Taken(w, c) || c == cb {
      assert Holds(w', k, cb);
      if j: nat :| Holds(w, j, c) { assert Holds(w', j, c); }
      if j: nat :| Holds(w', j, c) { assert j == k || Holds(w, j, c); }
    }
  }

  lemma TakenAfterLoss(w: World, w': World, k: nat, cb: nat)
    requires k < |w.objs| && Holds(w, k, cb) && |w'.objs| == |w.objs| && w'.raw == w.raw && cb !in w.raw
    requires forall j: nat :: j < |w.objs| && j != k ==> w'.objs[j] == w.objs[j]
    requires !w'.objs[k].installed
    requires forall i: nat, l: nat, c: nat :: Holds(w, i, c) && Holds(w, l, c) ==> i == l
    ensures forall c: nat :: Taken(w', c) <==> Taken(w, c) && c != cb
  {
    forall c: nat ensures Taken(w', c) <==> Taken(w, c) && c != cb {
      if j: nat :| Holds(w, j, c) { assert j == k || Holds(w', j, c); }
      if j: nat :| Holds(w', j, c) { assert Holds(w, j, c); }
    }
  }

  lemma GainKeepsInv(w: World, stop: Byte, k: nat, r: Outcome, f: Handler, code: map<nat, Stub>)
    requires f != Illegal && Inv(w, stop) && k < |w.objs| && !w.objs[k].installed
    requires var cb := FirstFree(w.s.handlers, 1);
             && cb < CB_MAX && r.Done? && r.o.installed && r.o.cb == cb
             && r.s.handlers == w.s.handlers[cb := f]
             && |r.s.vectors| == 256
             && forall a: nat :: !InSlot(a, cb) ==> r.s.mem(a) == w.s.mem(a)
    ensures Inv(Put(w, k, r, code).w, stop)
  {
    var w', cb := Put(w, k, r, code).w, FirstFree(w.s.handlers, 1);
    assert w.s.handlers[cb] == Illegal && !Taken(w, cb);
    TakenAfterGain(w, w', k, cb);
    StubsSurvive(w.s.mem, r.s.mem, stop, cb);
    forall j: nat, l: nat, c: nat | Holds(w', j, c) && Holds(w', l, c) ensures j == l {
      assert j != k ==> Holds(w, j, c);
      assert l != k ==> Holds(w, l, c);
    }
  }

  lemma StubsSurvive(mem: Memory, mem': Memory, stop: Byte, cb: nat)
    requires IntStubs(mem, stop) && cb < CB_MAX && forall a: nat :: !InSlot(a, cb) ==> mem'(a) == mem(a)
    ensures IntStubs(mem', stop)
  {
    forall n: nat, i: nat | n < 256 && i < 6 ensures mem'(IntStub(n) + i) == IntBytes(n, stop)[i] {
      assert !InSlot(IntStub(n) + i, cb);
    }
  }

  lemma LossKeepsInv(w: World, stop: Byte, k: nat)
    requires Inv(w, stop) && k < |w.objs| && w.objs[k].installed
    ensures Inv(Apply(w, DoUninstall(k)).w, stop)
  {
    var w', cb := Apply(w, DoUninstall(k)).w, w.objs[k].cb;
    assert Holds(w, k, cb);
    TakenAfterLoss(w, w', k, cb);
    StubsSurvive(w.s.mem, w'.s.mem, stop, cb);
    forall j: nat, l: nat, c: nat | Holds(w', j, c) && Holds(w', l, c) ensures j == l {
      assert Holds(w, j, c) && Holds(w, l, c);
    }
  }

  lemma SameHolders(w: World, w': World)
    requires |w'.objs| == |w.objs| && w'.raw == w.raw
    requires forall j: nat :: j < |w.objs| ==>
      w'.objs[j].installed == w.objs[j].installed && w'.objs[j].cb == w.objs[j].cb
    ensures forall c: nat :: Taken(w', c) <==> Taken(w, c)
    ensures forall k: nat, c: nat :: Holds(w', k, c) <==> Holds(w, k, c)
  {
    forall c: nat ensures Taken(w', c) <==> Taken(w, c) {
      if j: nat :| Holds(w, j, c) { assert Holds(w', j, c); }
      if j: nat :| Holds(w', j, c) { assert Holds(w, j, c); }
    }
  }

  lemma RawKeepsInv(w: World, stop: Byte, e: Event)
    requires Inv(w, stop) && (e.TakeRaw? || e.FreeRaw?) && Apply(w, e).Next?
    ensures Inv(Apply(w, e).w, stop)
  {
    var w' := Apply(w, e).w;
    assert forall k: nat, c: nat :: Holds(w', k, c) <==> Holds(w, k, c);
    var cb := if e.TakeRaw? then FirstFree(w.s.handlers, 1) else e.cb;
    if e.TakeRaw? {
      assert w.s.handlers[cb] == Illegal && (cb >= 1 ==> !Taken(w, cb));
      assert forall k: nat :: k < |w.objs| && w.objs[k].installed ==> Holds(w, k, w.objs[k].cb);
    }
    assert e.FreeRaw? ==> forall k: nat :: !Holds(w, k, cb);
    forall c: nat | 1 <= c < CB_MAX ensures w'.s.handlers[c] == Illegal <==> !Taken(w', c) {
      if c != cb {
        assert Taken(w', c) <==> Taken(w, c);
      }
    }
  }

  lemma SetupRawKeepsInv(w: World, stop: Byte, cb: nat, f: Handler, stub: Stub)
    requires Inv(w, stop) && Apply(w, SetupRaw(cb, f, stub)).Next?
    ensures Inv(Apply(w, SetupRaw(cb, f, stub)).w, stop)
  {
    var w' := Apply(w, SetupRaw(cb, f, stub)).w;
    SameHolders(w, w');
    StubsSurvive(w.s.mem, w'.s.mem, stop, cb);
    assert Taken(w, cb);
  }

  /** Over any run of installing, allocating, hooking, uninstalling and foreign vector writes. */
  lemma StepKeepsInv(w: World, stop: Byte, e: Event)
    requires Inv(w, stop) && Apply(w, e).Next?
    ensures Inv(Apply(w, e).w, stop)
  {
    match e
    case DoInstall(k, f, stub) =>
      GainKeepsInv(w, stop, k, Install(w.s, w.objs[k], f, stub), f, w.code[FirstFree(w.s.handlers, 1) := stub]);
    case DoAllocate(k, f) => GainKeepsInv(w, stop, k, AllocateOnly(w.s, w.objs[k], f), f, w.code);
    case SetupRaw(cb, f, stub) => SetupRawKeepsInv(w, stop, cb, f, stub);
    case DoHook(k, vec) => SameHolders(w, Apply(w, e).w);
    case DoUninstall(k) =>
      if w.objs[k].installed { LossKeepsInv(w, stop, k); } else { SameHolders(w, Apply(w, e).w); }
    case TakeRaw(_) => RawKeepsInv(w, stop, e);
    case FreeRaw(_) => RawKeepsInv(w, stop, e);
    case GuestVector(vec, value) => SameHolders(w, Apply(w, e).w);
  }

  /** The world after a run, as long as no event ends the emulator. */
  function RunEvents(w: World, es: seq<Event>): (r: Next)
    requires WorldOk(w)
    ensures r.Next? ==> WorldOk(r.w)
    decreases |es|
  {
    if es == [] then Next(w)
    else
      match Apply(w, es[0])
      case Stopped => Stopped
      case Next(w') => RunEvents(w', es[1..])
  }

  ghost predicate AllStand(mem: Memory, code: map<nat, Stub>) {
    forall cb :: cb in code ==> cb < CB_MAX && StubOk(code[cb]) && Stands(mem, code[cb], cb)
  }

  lemma AllStandBelow(mem: Memory, mem': Memory, code: map<nat, Stub>)
    requires AllStand(mem, code) && forall a: nat :: a < IntStub(0) ==> mem'(a) == mem(a)
    ensures AllStand(mem', code)
  {
    forall cb | cb in code ensures Stands(mem', code[cb], cb) {
      assert Stands(mem, code[cb], cb) && Extent(code[cb]) <= CB_SIZE;
    }
  }

  lemma StandsWithStub(mem: Memory, mem': Memory, stub: Stub, cb: Byte)
    requires StubOk(stub) && forall a: nat :: mem'(a) == WithStub(mem, stub, cb)(a)
    ensures Stands(mem', stub, cb)
  {
    assert Stands(WithStub(mem, stub, cb), stub, cb);
  }

  lemma StandsSurvives(mem: Memory, mem': Memory, stub: Stub, cb: Byte, other: nat)
    requires StubOk(stub) && Stands(mem, stub, cb) && cb < CB_MAX && other != cb
    requires forall a: nat :: !InSlot(a, other) ==> mem'(a) == mem(a)
    ensures Stands(mem', stub, cb)
  {
  }

  /** Memory changed only inside slot `cb`. */
  lemma OthersStand(mem: Memory, mem': Memory, code: map<nat, Stub>, cb: nat)
    requires AllStand(mem, code) && forall a: nat :: !InSlot(a, cb) ==> mem'(a) == mem(a)
    ensures AllStand(mem', code - {cb})
  {
    forall c | c in code - {cb} ensures Stands(mem', code[c], c) {
      StandsSurvives(mem, mem', code[c], c, cb);
    }
  }

  /** A stub was written into slot `cb`. */
  lemma NewStands(mem: Memory, code: map<nat, Stub>, stub: Stub, cb: Byte)
    requires AllStand(mem, code) && StubOk(stub) && cb < CB_MAX
    ensures AllStand(WithStub(mem, stub, cb), code[cb := stub])
  {
    var mem' := WithStub(mem, stub, cb);
    forall c | c in code && c != cb ensures Stands(mem', code[c], c) {
      StandsSurvives(mem, mem', code[c], c, cb);
    }
  }

  lemma InstallKeepsCode(w: World, k: nat, f: Handler, stub: Stub)
    requires WorldOk(w) && CodeStands(w) && Apply(w, DoInstall(k, f, stub)).Next?
    ensures CodeStands(Apply(w, DoInstall(k, f, stub)).w)
  {
    NewStands(w.s.mem, w.code, stub, FirstFree(w.s.handlers, 1));
  }

  /** Every step keeps the code of every live callback in place. */
  lemma StepKeepsCode(w: World, stop: Byte, e: Event)
    requires Inv(w, stop) && CodeStands(w) && Apply(w, e).Next?
    ensures CodeStands(Apply(w, e).w)
  {
    match e
    case DoInstall(k, f, stub) => InstallKeepsCode(w, k, f, stub);
    case DoAllocate(k, f) =>
    case DoHook(k, vec) =>
    case DoUninstall(k) => UninstallKeepsCode(w, stop, k);
    case TakeRaw(_) =>
    case FreeRaw(_) =>
    case SetupRaw(cb, f, stub) => NewStands(w.s.mem, w.code, stub, cb);
    case GuestVector(_, _) =>
  }

  lemma UninstallKeepsCode(w: World, stop: Byte, k: nat)
    requires Inv(w, stop) && CodeStands(w) && k < |w.objs|
    ensures CodeStands(Apply(w, DoUninstall(k)).w)
  {
    var w', cb := Apply(w, DoUninstall(k)).w, w.objs[k].cb;
    if w.objs[k].installed {
      OthersStand(w.s.mem, w'.s.mem, w.code, cb);
      forall j: nat | j < |w.objs| && j != k && w.objs[j].installed ensures w.objs[j].cb != cb {
        assert Holds(w, k, cb) && Holds(w, j, w.objs[j].cb);
      }
    }
  }

  /** From any world that meets them, in particular that of `CALLBACK_Init`, both hold for ever. */
  lemma {:induction false} SlotsExclusive(w: World, stop: Byte, es: seq<Event>)
    requires Inv(w, stop) && CodeStands(w) && RunEvents(w, es).Next?
    ensures Inv(RunEvents(w, es).w, stop) && CodeStands(RunEvents(w, es).w)
    decreases |es|
  {
    if es != [] {
      StepKeepsInv(w, stop, es[0]);
      StepKeepsCode(w, stop, es[0]);
      SlotsExclusive(Apply(w, es[0]).w, stop, es[1..]);
    }
  }

  // ---- vector chains --------------------------------------------------------

  /** A properly nested history: install an object and hook a vector, run `inner`, uninstall it, and
      go on with `after`. Any depth, on the same or on different vectors. */
  datatype Nest = Empty | Bracket(f: Handler, stub: Stub, vec: Byte, inner: Nest, after: Nest)

  datatype Ended = Aborted | Ended(s: Sys)

  function RunNest(s: Sys, n: Nest): (r: Ended)
    requires SysOk(s)
    ensures r.Ended? ==> SysOk(r.s)
    decreases n
  {
    match n
    case Empty => Ended(s)
    case Bracket(f, stub, vec, inner, after) =>
      if !StubOk(stub) then Aborted else
      match Install(s, NEW_OBJECT, f, stub)
      case Exit => Aborted
      case Done(s1, o1) =>
        match SetRealVec(s1, o1, vec)
        case Exit => Aborted
        case Done(s2, o2) =>
          match RunNest(s2, inner)
          case Aborted => Aborted
          case Ended(s3) => RunNest(Uninstall(s3, o2).0, after)
  }

  /** Uninstalling in reverse order puts every interrupt vector and every slot back. */
  lemma {:induction false} ChainsUnwind(s: Sys, n: Nest)
    requires SysOk(s) && RunNest(s, n).Ended?
    ensures RunNest(s, n).s.vectors == s.vectors && RunNest(s, n).s.handlers == s.handlers
    decreases n
  {
    if n.Bracket? {
      var r1 := Install(s, NEW_OBJECT, n.f, n.stub);
      var r2 := SetRealVec(r1.s, r1.o, n.vec);
      ChainsUnwind(r2.s, n.inner);
      var s3 := RunNest(r2.s, n.inner).s;
      var s4 := Uninstall(s3, r2.o).0;
      assert s4.vectors == s.vectors;
      assert s4.handlers == s.handlers;
      ChainsUnwind(s4, n.after);
    }
  }

  // ---- uninstalling in any order --------------------------------------------

  /** A vector points at the stub of a live object. */
  predicate PointsAt(vector: nat, o: Obj) {
    o.installed && vector == RealPointer(o.cb)
  }

  /** In every reachable world, uninstalling an object changes at most the vector it hooked, and that one
      only if it still points at the object's stub; a vector that points at the stub of any other live
      object stays as it is. */
  lemma UninstallTouchesOwnVector(w: World, stop: Byte, es: seq<Event>, k: nat)
    requires Inv(w, stop) && CodeStands(w) && RunEvents(w, es).Next? && k < |RunEvents(w, es).w.objs|
    ensures var w1 := RunEvents(w, es).w;
            var o, before, after := w1.objs[k], w1.s.vectors, Apply(w1, DoUninstall(k)).w.s.vectors;
            && |before| == |after| == 256
            && (forall v :: 0 <= v < 256 && after[v] != before[v] ==>
                  o.installed && o.setup && o.hooked && v == o.vec && before[v] == RealPointer(o.cb))
            && (forall j: nat, v: nat :: j < |w1.objs| && j != k && v < 256 && PointsAt(before[v], w1.objs[j]) ==>
                  after[v] == before[v])
  {
    SlotsExclusive(w, stop, es);
    var w1 := RunEvents(w, es).w;
    forall j: nat | j < |w1.objs| && j != k && w1.objs[j].installed && w1.objs[k].installed
      ensures w1.objs[j].cb != w1.objs[k].cb
    {
      assert Holds(w1, j, w1.objs[j].cb) && Holds(w1, k, w1.objs[k].cb);
    }
  }

  predicate Mentions(e: Event, k: nat) {
    match e
    case DoInstall(j, _, _) => j == k
    case DoAllocate(j, _) => j == k
    case DoHook(j, _) => j == k
    case DoUninstall(j) => j == k
    case _ => false
  }

  lemma {:induction false} ObjectKept(w: World, es: seq<Event>, k: nat)
    requires WorldOk(w) && k < |w.objs| && RunEvents(w, es).Next?
    requires forall i :: 0 <= i < |es| ==> !Mentions(es[i], k)
    ensures k < |RunEvents(w, es).w.objs| && RunEvents(w, es).w.objs[k] == w.objs[k]
    decreases |es|
  {
    if es != [] {
      ObjectKept(Apply(w, es[0]).w, es[1..], k);
    }
  }

  /** An object hooks a vector, anything else happens, the object is uninstalled: the vector has its value
      of before the hook if and only if it still pointed at the object's stub, or somebody else had already
      put that value back. */
  lemma RestoredIff(w: World, k: nat, v: Byte, es: seq<Event>)
    requires WorldOk(w) && k < |w.objs| && w.objs[k].installed && w.objs[k].setup
    requires Apply(w, DoHook(k, v)).Next? && RunEvents(Apply(w, DoHook(k, v)).w, es).Next?
    requires forall i :: 0 <= i < |es| ==> !Mentions(es[i], k)
    ensures var w1 := RunEvents(Apply(w, DoHook(k, v)).w, es).w;
            && k < |w1.objs|
            && var now := w1.s.vectors[v];
               Apply(w1, DoUninstall(k)).w.s.vectors[v] == w.s.vectors[v]
               <==> now == RealPointer(w.objs[k].cb) || now == w.s.vectors[v]
  {
    ObjectKept(Apply(w, DoHook(k, v)).w, es, k);
  }

  /** What the vector of a chain of callbacks points at with the first `c` of them in effect. */
  function Pointer(cbs: seq<nat>, orig: nat, c: nat): nat
    requires c <= |cbs|
  {
    if c == 0 then orig else RealPointer(cbs[c - 1])
  }

  predicate Distinct(s: seq<nat>) {
    forall i, j :: 0 <= i < j < |s| ==> s[i] != s[j]
  }

  /** Object `id` has number `cb` and saw `found` when it hooked vector `v`. */
  predicate Link(w: World, v: nat, id: nat, cb: nat, found: nat) {
    && id < |w.objs| && w.objs[id].cb == cb && w.objs[id].setup
    && w.objs[id].hooked && w.objs[id].vec == v && w.objs[id].oldVec == found
  }

  /** Different objects with different numbers; the original vector is none of their stubs. */
  ghost predicate Apart(ids: seq<nat>, cbs: seq<nat>, orig: nat) {
    && |cbs| == |ids| && Distinct(ids) && Distinct(cbs)
    && forall i :: 0 <= i < |cbs| ==> cbs[i] < CB_MAX && RealPointer(cbs[i]) != orig
  }

  /** Objects `ids` with numbers `cbs` hooked vector `v` one after the other, each finding the stub of the
      one before it, the first finding `orig`. */
  ghost predicate Links(w: World, v: nat, ids: seq<nat>, cbs: seq<nat>, orig: nat)
    requires |cbs| == |ids|
  {
    forall i :: 0 <= i < |ids| ==> Link(w, v, ids[i], cbs[i], Pointer(cbs, orig, i))
  }

  /** The vector of such a chain points at the stub of its member number `c - 1`, or at `orig` for 0. */
  ghost predicate Chain(w: World, v: nat, ids: seq<nat>, cbs: seq<nat>, orig: nat, c: nat) {
    && WorldOk(w) && Apart(ids, cbs, orig) && Links(w, v, ids, cbs, orig)
    && v < 256 && c <= |ids| && w.s.vectors[v] == Pointer(cbs, orig, c)
  }

  ghost predicate AllInstalled(w: World, ids: seq<nat>) {
    forall i :: 0 <= i < |ids| ==> ids[i] < |w.objs| && w.objs[ids[i]].installed
  }

  lemma PointerPrefix(cbs: seq<nat>, cb: nat, orig: nat, c: nat)
    requires c <= |cbs|
    ensures Pointer(cbs + [cb], orig, c) == Pointer(cbs, orig, c)
  {
  }

  lemma NewIsApart(w: World, stop: Byte, ids: seq<nat>, cbs: seq<nat>, orig: nat, k: nat)
    requires Inv(w, stop) && Apart(ids, cbs, orig) && AllInstalled(w, ids) && k !in ids
    requires forall i :: 0 <= i < |ids| ==> w.objs[ids[i]].cb == cbs[i]
    requires FirstFree(w.s.handlers, 1) < CB_MAX && orig != RealPointer(FirstFree(w.s.handlers, 1))
    ensures Apart(ids + [k], cbs + [FirstFree(w.s.handlers, 1)], orig)
  {
    var cb := FirstFree(w.s.handlers, 1);
    assert w.s.handlers[cb] == Illegal && !Taken(w, cb);
    forall i | 0 <= i < |ids| ensures cbs[i] != cb {
      assert Holds(w, ids[i], cbs[i]);
    }
  }

  lemma LinkKept(w: World, w': World, v: nat, ids: seq<nat>, cbs: seq<nat>, orig: nat, k: nat, cb: nat)
    requires |cbs| == |ids| && Links(w, v, ids, cbs, orig) && |w'.objs| == |w.objs|
    requires forall i :: 0 <= i < |ids| ==> w'.objs[ids[i]] == w.objs[ids[i]]
    requires Link(w', v, k, cb, Pointer(cbs, orig, |cbs|))
    ensures Links(w', v, ids + [k], cbs + [cb], orig)
  {
    forall i | 0 <= i < |ids| + 1
      ensures Link(w', v, (ids + [k])[i], (cbs + [cb])[i], Pointer(cbs + [cb], orig, i))
    {
      PointerPrefix(cbs, cb, orig, i);
      assert i < |ids| ==> Link(w, v, ids[i], cbs[i], Pointer(cbs, orig, i));
    }
  }

  /** The world after an object is installed and hooked. */
  function Hooking(w: World, k: nat, f: Handler, stub: Stub, v: Byte): Next
    requires WorldOk(w)
  {
    RunEvents(w, [DoInstall(k, f, stub), DoHook(k, v)])
  }

  lemma HookingEffect(w: World, k: nat, f: Handler, stub: Stub, v: Byte)
    requires WorldOk(w) && Hooking(w, k, f, stub, v).Next?
    ensures var w', cb := Hooking(w, k, f, stub, v).w, FirstFree(w.s.handlers, 1);
            && k < |w.objs| && cb < CB_MAX && !w.objs[k].installed && |w'.objs| == |w.objs|
            && (forall j: nat :: j < |w.objs| && j != k ==> w'.objs[j] == w.objs[j])
            && Link(w', v, k, cb, w.s.vectors[v]) && w'.objs[k].installed
            && w'.s.vectors == w.s.vectors[v := RealPointer(cb)]
  {
    var es := [DoInstall(k, f, stub), DoHook(k, v)];
    var w1 := Apply(w, es[0]).w;
    assert es[1..] == [DoHook(k, v)] && es[1..][1..] == [];
    assert RunEvents(w, es) == RunEvents(w1, es[1..]);
    assert RunEvents(w1, es[1..]) == Apply(w1, DoHook(k, v));
  }

  /** A chain of any depth comes about by installing and hooking one object after the other. */
  lemma ChainGrows(w: World, stop: Byte, v: Byte, ids: seq<nat>, cbs: seq<nat>, orig: nat,
                   k: nat, f: Handler, stub: Stub)
    requires Inv(w, stop) && Chain(w, v, ids, cbs, orig, |ids|) && AllInstalled(w, ids)
    requires k !in ids && orig != RealPointer(FirstFree(w.s.handlers, 1)) && Hooking(w, k, f, stub, v).Next?
    ensures var w' := Hooking(w, k, f, stub, v).w;
            && Chain(w', v, ids + [k], cbs + [FirstFree(w.s.handlers, 1)], orig, |ids| + 1)
            && AllInstalled(w', ids + [k])
  {
    var w', cb := Hooking(w, k, f, stub, v).w, FirstFree(w.s.handlers, 1);
    HookingEffect(w, k, f, stub, v);
    forall i | 0 <= i < |ids| ensures w.objs[ids[i]].cb == cbs[i] && w'.objs[ids[i]] == w.objs[ids[i]] {
      assert Link(w, v, ids[i], cbs[i], Pointer(cbs, orig, i));
    }
    NewIsApart(w, stop, ids, cbs, orig, k);
    LinkKept(w, w', v, ids, cbs, orig, k, cb);
  }

  /** Uninstall the objects of a chain in the given order. */
  function Unwound(w: World, ids: seq<nat>, order: seq<nat>): (r: World)
    requires WorldOk(w) && forall i :: 0 <= i < |order| ==> order[i] < |ids|
    ensures WorldOk(r)
    decreases |order|
  {
    if order == [] then w
    else
      match Apply(w, DoUninstall(ids[order[0]]))
      case Stopped => w
      case Next(w') => Unwound(w', ids, order[1..])
  }

  /** How many objects are in effect afterwards, by the order alone. */
  function Level(c: nat, order: seq<nat>): (r: nat)
    ensures r <= c
  {
    if order == [] then c else Level(LevelStep(c, order[0]), order[1..])
  }

  function LevelStep(c: nat, i: nat): (r: nat)
    ensures r <= c
  {
    if i + 1 == c then i else c
  }

  /** Last hooked, first uninstalled. */
  function Reverse(n: nat): seq<nat> {
    if n == 0 then [] else [n - 1] + Reverse(n - 1)
  }

  lemma SamePointer(ids: seq<nat>, cbs: seq<nat>, orig: nat, c: nat, i: nat)
    requires Apart(ids, cbs, orig) && c <= |cbs| && i < |cbs|
    ensures Pointer(cbs, orig, c) == RealPointer(cbs[i]) <==> i + 1 == c
  {
  }

  lemma UninstallOne(w: World, v: nat, ids: seq<nat>, cbs: seq<nat>, orig: nat, c: nat, i: nat)
    requires Chain(w, v, ids, cbs, orig, c) && i < |ids| && ids[i] < |w.objs| && w.objs[ids[i]].installed
    ensures var w' := Apply(w, DoUninstall(ids[i])).w;
            && Chain(w', v, ids, cbs, orig, LevelStep(c, i))
            && w'.objs == w.objs[ids[i] := w.objs[ids[i]].(installed := false)]
            && w'.s.handlers == w.s.handlers[cbs[i] := Illegal]
  {
    var w' := Apply(w, DoUninstall(ids[i])).w;
    assert Link(w, v, ids[i], cbs[i], Pointer(cbs, orig, i));
    SamePointer(ids, cbs, orig, c, i);
    forall j | 0 <= j < |ids| ensures Link(w', v, ids[j], cbs[j], Pointer(cbs, orig, j)) {
      assert Link(w, v, ids[j], cbs[j], Pointer(cbs, orig, j));
    }
  }

  /** The order names only objects of the chain that are still installed. */
  ghost predicate OrderOk(w: World, ids: seq<nat>, order: seq<nat>) {
    && Distinct(order)
    && forall i :: 0 <= i < |order| ==>
         order[i] < |ids| && ids[order[i]] < |w.objs| && w.objs[ids[order[i]]].installed
  }

  lemma OrderTail(w: World, w': World, ids: seq<nat>, order: seq<nat>)
    requires OrderOk(w, ids, order) && order != [] && Distinct(ids)
    requires w'.objs == w.objs[ids[order[0]] := w.objs[ids[order[0]]].(installed := false)]
    ensures OrderOk(w', ids, order[1..])
  {
    var rest := order[1..];
    forall i | 0 <= i < |rest| ensures rest[i] < |ids| && ids[rest[i]] != ids[order[0]] {
      assert rest[i] == order[i + 1];
    }
  }

  lemma UnwindOne(w: World, v: nat, ids: seq<nat>, cbs: seq<nat>, orig: nat, c: nat, order: seq<nat>)
    returns (w': World)
    requires Chain(w, v, ids, cbs, orig, c) && OrderOk(w, ids, order) && order != []
    ensures Chain(w', v, ids, cbs, orig, LevelStep(c, order[0])) && OrderOk(w', ids, order[1..])
    ensures Unwound(w, ids, order) == Unwound(w', ids, order[1..])
    ensures cbs[order[0]] < CB_MAX && w'.s.handlers[cbs[order[0]]] == Illegal
  {
    UninstallOne(w, v, ids, cbs, orig, c, order[0]);
    w' := Apply(w, DoUninstall(ids[order[0]])).w;
    OrderTail(w, w', ids, order);
  }

  lemma {:induction false} UnwoundLevel(w: World, v: nat, ids: seq<nat>, cbs: seq<nat>, orig: nat, c: nat,
                                        order: seq<nat>)
    requires Chain(w, v, ids, cbs, orig, c) && OrderOk(w, ids, order)
    ensures Chain(Unwound(w, ids, order), v, ids, cbs, orig, Level(c, order))
    decreases |order|
  {
    if order != [] {
      var w' := UnwindOne(w, v, ids, cbs, orig, c, order);
      UnwoundLevel(w', v, ids, cbs, orig, LevelStep(c, order[0]), order[1..]);
    }
  }

  lemma {:induction false} FreedStays(w: World, ids: seq<nat>, order: seq<nat>, cb: nat)
    requires WorldOk(w) && cb < CB_MAX && w.s.handlers[cb] == Illegal
    requires forall i :: 0 <= i < |order| ==> order[i] < |ids|
    ensures Unwound(w, ids, order).s.handlers[cb] == Illegal
    decreases |order|
  {
    if order != [] && ids[order[0]] < |w.objs| {
      FreedStays(Apply(w, DoUninstall(ids[order[0]])).w, ids, order[1..], cb);
    }
  }

  lemma {:induction false} UnwoundFrees(w: World, v: nat, ids: seq<nat>, cbs: seq<nat>, orig: nat, c: nat,
                                        order: seq<nat>, m: nat)
    requires Chain(w, v, ids, cbs, orig, c) && OrderOk(w, ids, order) && m < |order|
    ensures cbs[order[m]] < CB_MAX && Unwound(w, ids, order).s.handlers[cbs[order[m]]] == Illegal
    decreases |order|
  {
    var w' := UnwindOne(w, v, ids, cbs, orig, c, order);
    if m == 0 {
      FreedStays(w', ids, order[1..], cbs[order[0]]);
    } else {
      UnwoundFrees(w', v, ids, cbs, orig, LevelStep(c, order[0]), order[1..], m - 1);
    }
  }

  /** Once passed over, an object is never taken out. */
  lemma {:induction false} Stuck(c: nat, order: seq<nat>, x: nat)
    requires x < c && x !in order
    ensures x < Level(c, order)
    decreases |order|
  {
    if order != [] {
      Stuck(LevelStep(c, order[0]), order[1..], x);
    }
  }

  lemma {:induction false} LevelZeroIff(c: nat, order: seq<nat>)
    requires Distinct(order) && forall i :: 0 <= i < |order| ==> order[i] < c
    ensures Level(c, order) == 0 <==> order == Reverse(c)
    decreases |order|
  {
    if order != [] {
      var rest := order[1..];
      assert order == [order[0]] + rest;
      if order[0] == c - 1 {
        LevelZeroIff(c - 1, rest);
      } else {
        Stuck(c, rest, order[0]);
        assert Reverse(c)[0] == c - 1;
      }
    }
  }

  lemma ChainEnd(w: World, v: nat, ids: seq<nat>, cbs: seq<nat>, orig: nat, c: nat)
    requires Chain(w, v, ids, cbs, orig, c)
    ensures w.s.vectors[v] == orig <==> c == 0
    ensures c > 0 ==> w.s.vectors[v] == RealPointer(cbs[c - 1])
  {
  }

  /** The vector is left at the stub of callback `c - 1` of the chain, and if that was uninstalled, at a
      slot that is free. */
  ghost predicate LeftAt(w: World, v: nat, cbs: seq<nat>, order: seq<nat>, c: nat)
    requires WorldOk(w) && v < 256
  {
    && 0 < c <= |cbs| && w.s.vectors[v] == RealPointer(cbs[c - 1])
    && (c - 1 in order ==> cbs[c - 1] < CB_MAX && w.s.handlers[cbs[c - 1]] == Illegal)
  }

  /** The exact condition for a chain to unwind: uninstalling objects of a chain, each at most once and in
      any order, puts the vector back if and only if all are uninstalled in reverse. Otherwise the vector
      is left at the stub of an object of the chain. */
  lemma RestoredIffReverse(w: World, v: nat, ids: seq<nat>, cbs: seq<nat>, orig: nat, order: seq<nat>, r: World)
    requires Chain(w, v, ids, cbs, orig, |ids|) && OrderOk(w, ids, order) && r == Unwound(w, ids, order)
    ensures r.s.vectors[v] == orig <==> order == Reverse(|ids|)
    ensures order != Reverse(|ids|) ==> LeftAt(r, v, cbs, order, Level(|ids|, order))
  {
    UnwoundLevel(w, v, ids, cbs, orig, |ids|, order);
    forall i: nat | i < |cbs| && i in order ensures IsFreed(r, cbs, i) {
      LastIsFree(w, v, ids, cbs, orig, order, i);
    }
    LevelZeroIff(|ids|, order);
    LevelDecides(r, v, ids, cbs, orig, order, Level(|ids|, order));
  }

  ghost predicate IsFreed(w: World, cbs: seq<nat>, i: nat)
    requires WorldOk(w) && i < |cbs|
  {
    cbs[i] < CB_MAX && w.s.handlers[cbs[i]] == Illegal
  }

  lemma LevelDecides(r: World, v: nat, ids: seq<nat>, cbs: seq<nat>, orig: nat, order: seq<nat>, c: nat)
    requires Chain(r, v, ids, cbs, orig, c)
    requires forall i: nat :: i < |cbs| && i in order ==> IsFreed(r, cbs, i)
    ensures r.s.vectors[v] == orig <==> c == 0
    ensures c != 0 ==> LeftAt(r, v, cbs, order, c)
  {
    ChainEnd(r, v, ids, cbs, orig, c);
    if c > 0 && c - 1 in order {
      assert IsFreed(r, cbs, c - 1);
    }
  }

  lemma LastIsFree(w: World, v: nat, ids: seq<nat>, cbs: seq<nat>, orig: nat, order: seq<nat>, i: nat)
    requires Chain(w, v, ids, cbs, orig, |ids|) && OrderOk(w, ids, order) && i in order && i < |cbs|
    ensures IsFreed(Unwound(w, ids, order), cbs, i)
  {
    var m: nat :| m < |order| && order[m] == i;
    UnwoundFrees(w, v, ids, cbs, orig, |ids|, order, m);
  }

  /** In particular, of two objects on one vector the older must not go first: the vector then ends at the
      freed slot of the older one. */
  lemma OlderFirstDangles(w: World, v: nat, ids: seq<nat>, cbs: seq<nat>, orig: nat)
    requires |ids| == 2 && Chain(w, v, ids, cbs, orig, 2) && OrderOk(w, ids, [0, 1])
    ensures var r := Unwound(w, ids, [0, 1]);
            cbs[0] < CB_MAX && r.s.vectors[v] == RealPointer(cbs[0]) && r.s.handlers[cbs[0]] == Illegal
  {
    var order := [0, 1];
    assert order[1..] == [1] && order[1..][1..] == [];
    assert Level(2, order) == Level(2, [1]) == Level(1, []) == 1;
    assert order[0] == 0;
    RestoredIffReverse(w, v, ids, cbs, orig, order, Unwound(w, ids, order));
    assert Reverse(2)[0] == 1;
  }

  // ---- the world that CALLBACK_Init leaves ----------------------------------

  /** The stubs that `CALLBACK_Init` writes: stop, idle, default, and the accessors for privileged I/O. */
  const STOP_STUB := Stub([], 0, [], true, [])
  const IDLE_STUB :=
    Stub([], 0, [0x90, 0x90, 0x90, 0x90, 0x90, 0x90, 0x90, 0x90, 0x90, 0x90, 0x90, 0x90], true, [])
  const PRIV_IO_STUB :=
    Stub([0xec, 0xcb, 0xed, 0xcb, 0x66, 0xed, 0xcb], 8, [0xee, 0xcb, 0xef, 0xcb, 0x66, 0xef, 0xcb], false, [])

  function InitialCode(): (code: map<nat, Stub>)
    ensures forall cb :: cb in code ==> cb < CB_MAX && StubOk(code[cb])
  {
    map[1 := STOP_STUB, 2 := IDLE_STUB, 3 := StubFor(IRET, true), 4 := PRIV_IO_STUB]
  }

  /** The world after `CALLBACK_Init`, with any number of handler objects still to be used. */
  function InitialWorld(s: Sys, n: nat): World {
    World(s, seq(n, _ => NEW_OBJECT), {1, 2, 3, 4}, InitialCode())
  }

  lemma FreshWorld(s: Sys, n: nat)
    requires SysOk(s) && IntStubs(s.mem, 1)
    requires forall i :: 0 <= i < CB_MAX ==> s.handlers[i] == InitialHandler(i)
    requires AllStand(s.mem, InitialCode())
    ensures Inv(InitialWorld(s, n), 1) && CodeStands(InitialWorld(s, n))
  {
    var w := InitialWorld(s, n);
    assert forall k: nat, c: nat :: !Holds(w, k, c);
  }

  // ---- the machine ----------------------------------------------------------

  class Machine {
    const handlers: array<Handler>
    const vectors: array<nat>
    var mem: Memory

    ghost predicate Valid()
      reads this
    {
      handlers.Length == CB_MAX && vectors.Length == 256
    }

    ghost function View(): Sys
      requires Valid()
      reads this, handlers, vectors
    {
      Sys(handlers[..], mem, vectors[..])
    }

    constructor (memory: Memory)
      ensures Valid() && fresh(handlers) && fresh(vectors) && mem == memory
    {
      handlers := new Handler[CB_MAX](_ => Illegal);
      vectors := new nat[256](_ => 0);
      mem := memory;
    }

    /** The linear search of `CALLBACK_Allocate`; a full table ends the emulator. */
    method Allocate() returns (ok: bool, cb: nat)
      requires Valid()
      modifies handlers
      ensures ok == (FirstFree(old(handlers[..]), 1) < CB_MAX)
      ensures ok ==> cb == FirstFree(old(handlers[..]), 1) && handlers[..] == old(handlers[..])[cb := Null]
      ensures !ok ==> handlers[..] == old(handlers[..])
    {
      ghost var h := handlers[..];
      for i := 1 to CB_MAX
        invariant handlers[..] == h && FirstFree(h, 1) == FirstFree(h, i)
      {
        if handlers[i] == Illegal {
          handlers[i] := Null;
          return true, i;
        }
      }
      return false, 0;
    }

    method PhysWrite(at: nat, bytes: seq<Byte>)
      modifies `mem
      ensures forall a: nat :: mem(a) == Store(old(mem), at, bytes)(a)
    {
      for i := 0 to |bytes|
        invariant forall a: nat :: mem(a) == if at <= a < at + i then bytes[a - at] else old(mem)(a)
      {
        var before := mem;
        mem := (a: nat) => if a == at + i then bytes[i] else before(a);
      }
    }

    method PhysWriteTwo(at: nat, bytes: seq<Byte>, at': nat, bytes': seq<Byte>)
      modifies `mem
      ensures forall a: nat :: mem(a) == Store(Store(old(mem), at, bytes), at', bytes')(a)
    {
      PhysWrite(at, bytes);
      PhysWrite(at', bytes');
    }

    method Setup(cb: Byte, stub: Stub)
      requires StubOk(stub)
      modifies `mem
      ensures forall a: nat :: mem(a) == WithStub(old(mem), stub, cb)(a)
    {
      PhysWriteTwo(PhysPointer(cb), stub.lead, PhysPointer(cb) + stub.offset, Code(stub, cb));
    }

    /** `CALLBACK_RemoveSetup` */
    method RemoveSetup(cb: nat)
      modifies `mem
      ensures forall a: nat :: mem(a) == Cleared(old(mem), cb)(a)
    {
      for i := 0 to CB_SIZE
        invariant forall a: nat :: mem(a) == if PhysPointer(cb) <= a < PhysPointer(cb) + i then 0 else old(mem)(a)
      {
        var before := mem;
        mem := (a: nat) => if a == PhysPointer(cb) + i then 0 else before(a);
      }
    }

    method InitHandlers()
      requires Valid()
      modifies handlers
      ensures forall i :: 0 <= i < CB_MAX ==> handlers[i] == InitialHandler(i)
    {
      for i := 0 to CB_MAX
        invariant forall k :: 0 <= k < i ==> handlers[k] == Illegal
      {
        handlers[i] := Illegal;
      }
      FirstFreeIs(handlers[..], 1);
      var ok, stop := Allocate();
      handlers[stop] := STOP_HANDLER;
      FirstFreeIs(handlers[..], 2);
      var idle;
      ok, idle := Allocate();
      handlers[idle] := STOP_HANDLER;
      FirstFreeIs(handlers[..], 3);
      var default;
      ok, default := Allocate();
      handlers[default] := DEFAULT_HANDLER;
      FirstFreeIs(handlers[..], 4);
      var privIo;
      ok, privIo := Allocate();
    }

    method InitVectors(cga: bool)
      requires Valid()
      modifies vectors
      ensures forall v :: 0 <= v < 256 ==> vectors[v] == InitialVector(v, cga, old(vectors[v]))
    {
      for v := 0 to 0x60
        invariant forall k :: 0 <= k < 256 ==> vectors[k] == if k < v then RealPointer(3) else old(vectors[k])
      {
        vectors[v] := RealPointer(3);
      }
      for v := 0x68 to 0x70
        invariant forall k :: 0 <= k < 256 ==>
                    vectors[k] == if k < 0x60 || 0x68 <= k < v then RealPointer(3) else old(vectors[k])
      {
        vectors[v] := RealPointer(3);
      }
      vectors[0x66] := RealPointer(3);
      vectors[0x67] := RealPointer(3);
      if cga {
        vectors[0x68] := 0;
      }
      vectors[0x5c] := RealPointer(3);
    }

    /** `CALLBACK_Init` establishes what every later step keeps, for any number of handler objects. */
    method Init(cga: bool)
      requires Valid()
      modifies this, handlers, vectors
      ensures Valid() && forall n: nat :: Inv(InitialWorld(View(), n), 1) && CodeStands(InitialWorld(View(), n))
      ensures forall v :: 0 <= v < 256 ==> vectors[v] == InitialVector(v, cga, old(vectors[v]))
    {
      InitHandlers();
      InitVectors(cga);
      InitMemory();
      forall n: nat ensures Inv(InitialWorld(View(), n), 1) && CodeStands(InitialWorld(View(), n)) {
        FreshWorld(View(), n);
      }
    }

    method InitMemory()
      modifies `mem
      ensures IntStubs(mem, 1) && AllStand(mem, InitialCode())
    {
      SetupBeside(1, STOP_STUB, map[]);
      SetupBeside(2, IDLE_STUB, map[1 := STOP_STUB]);
      ghost var three := map[1 := STOP_STUB, 2 := IDLE_STUB];
      var default := StubFor(IRET, true);
      SetupBeside(3, default, three);
      three := three[3 := default];
      ghost var before := mem;
      WriteIntStubs(1);
      AllStandBelow(before, mem, three);
      SetupBeside(4, PRIV_IO_STUB, three);
      assert three[4 := PRIV_IO_STUB] == InitialCode();
    }

    /** A further stub leaves those already set up alone. */
    method SetupBeside(cb: Byte, stub: Stub, ghost code: map<nat, Stub>)
      requires StubOk(stub) && cb < CB_MAX && cb !in code && AllStand(mem, code)
      modifies `mem
      ensures AllStand(mem, code[cb := stub])
      ensures IntStubs(old(mem), 1) ==> IntStubs(mem, 1)
    {
      Setup(cb, stub);
      StandsWithStub(old(mem), mem, stub, cb);
      OthersStand(old(mem), mem, code, cb);
      if IntStubs(old(mem), 1) {
        StubsSurvive(old(mem), mem, 1, cb);
      }
    }

    /** The block of interrupt stubs written by `CALLBACK_Init`; `CALLBACK_RunRealInt(n)` starts at the
        address of stub `n`. */
    method WriteIntStubs(stop: Byte)
      modifies `mem
      ensures IntStubs(mem, stop)
      ensures forall a: nat :: a < IntStub(0) ==> mem(a) == old(mem)(a)
    {
      for n := 0 to 256
        invariant forall m: nat, i: nat {:trigger IntBytes(m, stop)[i]} ::
                    m < n && i < 6 ==> mem(IntStub(m) + i) == IntBytes(m, stop)[i]
        invariant forall a: nat :: a < IntStub(0) ==> mem(a) == old(mem)(a)
      {
        PhysWrite(IntStub(n), IntBytes(n, stop));
      }
    }
  }

  /** The table and vectors that `CALLBACK_Init` leaves: slots 1 to 4 are taken for stop, idle, default
      and privileged I/O, every other slot is free. */
  const STOP_HANDLER := Fn(0)
  const DEFAULT_HANDLER := Fn(1)

  function InitialHandler(i: nat): Handler {
    if i == 1 || i == 2 then STOP_HANDLER else if i == 3 then DEFAULT_HANDLER else if i == 4 then Null else Illegal
  }

  function InitialVector(v: nat, cga: bool, before: nat): nat {
    if v == 0x68 && cga then 0
    else if v < 0x60 || 0x66 <= v < 0x70 then RealPointer(3) else before
  }

  class HandlerObject {
    var installed: bool
    var setup: bool
    var cb: nat
    var hooked: bool
    var vec: nat
    var oldVec: nat

    ghost function View(): Obj
      reads this
    {
      Obj(installed, setup, cb, hooked, vec, oldVec)
    }

    constructor ()
      ensures View() == NEW_OBJECT
    {
      installed, setup, cb, hooked, vec, oldVec := false, false, 0, false, 0, 0;
    }

    method InstallOn(m: Machine, f: Handler, stub: Stub) returns (ok: bool)
      requires m.Valid() && !installed && StubOk(stub)
      modifies this, m`mem, m.handlers
      ensures ok == Install(old(m.View()), old(View()), f, stub).Done?
      ensures ok ==>
                var r := Install(old(m.View()), old(View()), f, stub);
                && View() == r.o && m.handlers[..] == r.s.handlers && m.vectors[..] == r.s.vectors
                && forall a: nat :: m.mem(a) == r.s.mem(a)
    {
      ghost var h := m.handlers[..];
      var number;
      ok, number := m.Allocate();
      if ok {
        installed, setup, cb := true, true, number;
        m.Setup(cb, stub);
        m.handlers[cb] := f;
        assert m.handlers[..] == h[cb := f];
      }
    }

    method HookOn(m: Machine, v: Byte)
      requires m.Valid() && !hooked
      modifies `hooked, `vec, `oldVec, m.vectors
      ensures var r := SetRealVec(old(m.View()), old(View()), v);
              r.Done? && View() == r.o && m.View() == r.s
    {
      hooked, vec := true, v;
      oldVec := m.vectors[v];
      m.vectors[v] := RealPointer(cb);
    }

    method UninstallFrom(m: Machine)
      requires m.Valid() && (installed ==> cb < CB_MAX) && vec < 256
      modifies this, m`mem, m.handlers, m.vectors
      ensures var (s, o) := Uninstall(old(m.View()), old(View()));
              && View() == o && m.handlers[..] == s.handlers && m.vectors[..] == s.vectors
              && forall a: nat :: m.mem(a) == s.mem(a)
    {
      if !installed {
        return;
      }
      if setup {
        if hooked {
          if m.vectors[vec] == RealPointer(cb) {
            m.vectors[vec] := oldVec;
          }
        }
        m.RemoveSetup(cb);
      }
      m.handlers[cb] := Illegal;
      installed := false;
    }
  }
}
