/** What the code of the callback stubs does, in assembly language: each stub against a listing of its
    instructions, in which jumps name the code they pass over. */
module CallbackCode {
  import opened Bytes
  import opened Callback

  // ---- instructions ---------------------------------------------------------

  const STI: seq<Byte> := [0xfb]
  const CLI: seq<Byte> := [0xfa]
  const CLD: seq<Byte> := [0xfc]
  const STC: seq<Byte> := [0xf9]
  const NOP: seq<Byte> := [0x90]
  const RET_NEAR: seq<Byte> := [0xc3]
  const RET_FAR: seq<Byte> := [0xcb]
  const IRET_WORD: seq<Byte> := [0xcf]
  const PUSH_DS: seq<Byte> := [0x1e]
  const POP_DS: seq<Byte> := [0x1f]
  const PUSH_ES: seq<Byte> := [0x06]
  const POP_ES: seq<Byte> := [0x07]
  const PUSHA: seq<Byte> := [0x60]
  const POPA: seq<Byte> := [0x61]
  const IN_AL_DX: seq<Byte> := [0xec]

  datatype Word = AX | CX | DX | BX | SP | BP

  /** The number of a register in an instruction. */
  function Num(r: Word): (n: nat)
    ensures n < 6
  {
    match r
    case AX => 0 case CX => 1 case DX => 2 case BX => 3 case SP => 4 case BP => 5
  }

  function Push(r: Word): seq<Byte> { [0x50 + Num(r)] }

  function Pop(r: Word): seq<Byte> { [0x58 + Num(r)] }

  function MovAl(n: Byte): seq<Byte> { [0xb0, n] }

  function MovAh(n: Byte): seq<Byte> { [0xb4, n] }

  function Mov(r: Word, high: Byte, low: Byte): seq<Byte> { [0xb8 + Num(r), low, high] }

  function InAl(port: Byte): seq<Byte> { [0xe4, port] }

  function OutAl(port: Byte): seq<Byte> { [0xe6, port] }

  function CmpAl(n: Byte): seq<Byte> { [0x3c, n] }

  function TestAl(n: Byte): seq<Byte> { [0xa8, n] }

  function TestBl(n: Byte): seq<Byte> { [0xf6, 0xc3, n] }

  function Int(n: Byte): seq<Byte> { [0xcd, n] }

  function PushByte(n: Byte): seq<Byte> { [0x6a, n] }

  function RetFarPop(n: Byte): seq<Byte> { [0xca, n, 0] }

  /** The operand size prefix. */
  function OtherSize(insn: seq<Byte>): seq<Byte> { [0x66] + insn }

  datatype Jump = Always | IfCarryClear | IfEqual | IfNotEqual | Loop

  function JumpCode(j: Jump): Byte {
    match j
    case Always => 0xeb case IfCarryClear => 0x73 case IfEqual => 0x74 case IfNotEqual => 0x75 case Loop => 0xe2
  }

  /** A jump over `body`, to the first instruction behind it. */
  function Skip(j: Jump, body: seq<Byte>): seq<Byte>
    requires |body| < 128
  {
    [JumpCode(j), |body|] + body
  }

  /** A jump back to the first instruction of `body`. */
  function Again(j: Jump, body: seq<Byte>): seq<Byte>
    requires |body| < 126
  {
    body + [JumpCode(j), 256 - (|body| + 2)]
  }

  /** The end of interrupt for the first controller, and for both. */
  const EOI: seq<Byte> := MovAl(0x20) + OutAl(0x20)
  const EOI_BOTH: seq<Byte> := MovAl(0x20) + OutAl(0xa0) + OutAl(0x20)

  /** Wait until bit 3 of the input status register is set, or clear. */
  function WaitWhile(j: Jump): seq<Byte> {
    Again(j, IN_AL_DX + TestAl(8))
  }

  /** With data segment 0x40. */
  function RaiseInt9(): (s: seq<Byte>)
    ensures |s| == 7
  {
    PUSH_DS + PushByte(0x40) + POP_DS + Int(0x09) + POP_DS
  }

  /** In 32-bit code. */
  function WaitForRetrace(): (s: seq<Byte>)
    ensures |s| == 22
  {
    OtherSize(Push(AX)) + OtherSize(Push(DX)) + OtherSize(Mov(DX, 0x03, 0xda)) + WaitWhile(IfNotEqual)
    + WaitWhile(IfEqual) + OtherSize(Pop(DX)) + OtherSize(Pop(AX))
  }

  const NOPS12: seq<Byte> := NOP + NOP + NOP + NOP + NOP + NOP + NOP + NOP + NOP + NOP + NOP + NOP

  // ---- listings -------------------------------------------------------------

  /** The code of a stub from its main part on; `call` is the callback instruction, or nothing. */
  function Listing(kind: Kind, call: seq<Byte>): seq<Byte>
    requires |call| <= 4
  {
    match kind
    case RETN => call + RET_NEAR
    case RETF => call + RET_FAR
    case RETF8 => call + RetFarPop(8)
    case RETF_STI => STI + call + RET_FAR
    case RETF_CLI => CLI + call + RET_FAR
    case IRET => call + IRET_WORD
    case IRETD => call + OtherSize(IRET_WORD)
    case IRET_STI => STI + call + IRET_WORD
    case IRET_EOI_PIC1 => call + Push(AX) + EOI + Pop(AX) + IRET_WORD
    case IRQ0 =>
      STI + call + PUSH_DS + Push(AX) + Push(DX) + Int(0x1c) + CLI + EOI + Pop(DX) + Pop(AX) + POP_DS + IRET_WORD
    case IRQ1 =>
      Push(AX) + InAl(0x60) + MovAh(0x4f) + STC + Int(0x15) + (if call == [] then [] else Skip(IfCarryClear, call))
      + CLI + EOI + Pop(AX) + IRET_WORD + CLI + EOI + Push(BP) + Int(0x05) + Pop(BP) + Pop(AX) + IRET_WORD
    case IRQ9 => call + Push(AX) + MovAl(0x61) + OutAl(0xa0) + Int(0x0a) + CLI + Pop(AX) + IRET_WORD
    case IRQ12 => STI + PUSH_DS + PUSH_ES + OtherSize(PUSHA) + call + Push(AX) + EOI_BOTH + Pop(AX) + CLD + RET_FAR
    case IRQ12_RET => CLI + EOI_BOTH + call + OtherSize(POPA) + POP_ES + POP_DS + IRET_WORD
    case IRQ6_PCJR =>
      Push(AX) + InAl(0x60) + CmpAl(0xe0) + Skip(IfEqual, call + RaiseInt9()) + (CLI + EOI + Pop(AX) + IRET_WORD)
    case MOUSE => call + IRET_WORD
    case INT29 => call + Push(AX) + Push(BX) + MovAh(0x0e) + Mov(BX, 0, 7) + Int(0x10) + Pop(BX) + Pop(AX) + IRET_WORD
    case INT16 => STI + Again(Always, call + IRET_WORD + NOPS12)
    case HOOKABLE => Skip(Always, NOP + NOP + NOP) + call + RET_FAR
    case TDE_IRET => call + Push(AX) + Mov(AX, 0x91, 0xfb) + Int(0x15) + CLI + EOI + Pop(AX) + IRET_WORD
    case INT21 =>
      STI + call + IRET_WORD + RET_FAR + Push(CX) + Mov(CX, 0x01, 0x40) + Again(Loop, []) + Pop(CX) + IRET_WORD
    case INT13 => STI + call + IRET_WORD + Int(0x0e) + IRET_WORD
    case VESA_WAIT =>
      STI + Push(AX) + Push(DX) + Mov(DX, 0x03, 0xda) + WaitWhile(IfNotEqual) + WaitWhile(IfEqual)
      + Pop(DX) + Pop(AX) + RET_FAR
    case VESA_PM =>
      call + (TestBl(0x80) + Skip(IfEqual, WaitForRetrace()) + (if call == [] then [] else RET_NEAR))
    case IPXESR => []
    case IPXESR_RET => []
  }

  // ---- the stubs are their listings -----------------------------------------

  predicate Agrees(kind: Kind, useCb: bool, call: seq<Byte>)
    requires |call| <= 4
  {
    Head(kind, useCb) + call + Tail(kind, useCb) == Listing(kind, call)
  }

  predicate IsReturn(kind: Kind) {
    || kind.RETN? || kind.RETF? || kind.RETF8? || kind.RETF_STI? || kind.RETF_CLI? || kind.IRET? || kind.IRETD?
    || kind.IRET_STI? || kind.MOUSE?
  }

  lemma ReturnAgrees(kind: Kind, useCb: bool, call: seq<Byte>)
    requires |call| <= 4 && IsReturn(kind)
    ensures Agrees(kind, useCb, call)
  {
    match kind
    case RETN => case RETF => case RETF8 => case RETF_STI => case RETF_CLI => case IRET => case IRETD =>
    case IRET_STI => case MOUSE =>
  }

  lemma ControllerAgrees(useCb: bool, call: seq<Byte>)
    requires |call| <= 4
    ensures Agrees(IRET_EOI_PIC1, useCb, call)
  {
  }

  lemma DiskAgrees(useCb: bool, call: seq<Byte>)
    requires |call| <= 4
    ensures Agrees(HOOKABLE, useCb, call) && Agrees(INT13, useCb, call)
  {
  }

  lemma CascadeAgrees(useCb: bool, call: seq<Byte>)
    requires |call| <= 4
    ensures Agrees(IRQ9, useCb, call) && Agrees(IRQ12_RET, useCb, call)
  {
  }

  lemma TransferAgrees(useCb: bool, call: seq<Byte>)
    requires |call| <= 4
    ensures Agrees(TDE_IRET, useCb, call)
  {
  }

  lemma TimerAgrees(useCb: bool, call: seq<Byte>)
    requires |call| <= 4
    ensures Agrees(IRQ0, useCb, call)
  {
  }

  lemma MouseAgrees(useCb: bool, call: seq<Byte>)
    requires |call| <= 4
    ensures Agrees(IRQ12, useCb, call)
  {
  }

  lemma ConsoleAgrees(useCb: bool, call: seq<Byte>)
    requires |call| <= 4
    ensures Agrees(INT29, useCb, call)
  {
  }

  lemma DosAgrees(useCb: bool, call: seq<Byte>)
    requires |call| <= 4
    ensures Agrees(INT21, useCb, call)
  {
  }

  /** The jump back of the keyboard service stub has a fixed distance, which fits the code only if the callback
      instruction is there. */
  lemma ServiceAgreesIff(useCb: bool, call: seq<Byte>)
    requires |call| == if useCb then 4 else 0
    ensures Agrees(INT16, useCb, call) <==> useCb
  {
    var code := Head(INT16, useCb) + call + Tail(INT16, useCb);
    assert code[|code| - 1] == 0xed;
    assert Listing(INT16, call)[|Listing(INT16, call)| - 1] == 256 - (|call| + 15);
  }

  lemma KeyboardAgrees(useCb: bool, call: seq<Byte>)
    requires |call| == if useCb then 4 else 0
    ensures Agrees(IRQ1, useCb, call)
  {
    KeyboardTail(useCb);
    KeyboardHead(useCb, call);
    var tail := Tail(IRQ1, useCb);
    var skip := if call == [] then [] else Skip(IfCarryClear, call);
    var front := Push(AX) + InAl(0x60) + MovAh(0x4f) + STC + Int(0x15) + skip;
    Assoc(front, CLI + EOI + Pop(AX) + IRET_WORD, CLI + EOI + Push(BP) + Int(0x05) + Pop(BP) + Pop(AX) + IRET_WORD);
    Flatten(front, CLI, EOI, Pop(AX), IRET_WORD);
    Flatten(front + CLI + EOI + Pop(AX) + IRET_WORD, CLI, EOI, Push(BP),
            Int(0x05) + Pop(BP) + Pop(AX) + IRET_WORD);
    Flatten(front + CLI + EOI + Pop(AX) + IRET_WORD + CLI + EOI + Push(BP), Int(0x05), Pop(BP), Pop(AX), IRET_WORD);
  }

  lemma Flatten(x: seq<Byte>, a: seq<Byte>, b: seq<Byte>, c: seq<Byte>, d: seq<Byte>)
    ensures x + (a + b + c + d) == x + a + b + c + d
  {
  }

  lemma KeyboardTail(useCb: bool)
    ensures Tail(IRQ1, useCb)
            == CLI + EOI + Pop(AX) + IRET_WORD
               + (CLI + EOI + Push(BP) + Int(0x05) + Pop(BP) + Pop(AX) + IRET_WORD)
  {
  }

  lemma KeyboardHead(useCb: bool, call: seq<Byte>)
    requires |call| == if useCb then 4 else 0
    ensures Head(IRQ1, useCb) + call
            == Push(AX) + InAl(0x60) + MovAh(0x4f) + STC + Int(0x15)
               + (if call == [] then [] else Skip(IfCarryClear, call))
  {
  }

  lemma JuniorAgrees(useCb: bool, call: seq<Byte>)
    requires |call| == if useCb then 4 else 0
    ensures Agrees(IRQ6_PCJR, useCb, call)
  {
    var front, jump := Push(AX) + InAl(0x60) + CmpAl(0xe0), [JumpCode(IfEqual), |call| + 7];
    var rest := CLI + EOI + Pop(AX) + IRET_WORD;
    JuniorParts(useCb);
    Join(front, jump, call, RaiseInt9(), rest);
  }

  lemma Join(a: seq<Byte>, b: seq<Byte>, c: seq<Byte>, d: seq<Byte>, e: seq<Byte>)
    ensures a + b + c + (d + e) == a + (b + (c + d)) + e
  {
  }

  lemma JuniorParts(useCb: bool)
    ensures Head(IRQ6_PCJR, useCb)
            == Push(AX) + InAl(0x60) + CmpAl(0xe0) + [JumpCode(IfEqual), if useCb then 11 else 7]
    ensures Tail(IRQ6_PCJR, useCb) == RaiseInt9() + (CLI + EOI + Pop(AX) + IRET_WORD)
  {
  }

  lemma WaitLoops()
    ensures WaitWhile(IfNotEqual) == [0xec, 0xa8, 0x08, 0x75, 0xfb]
    ensures WaitWhile(IfEqual) == [0xec, 0xa8, 0x08, 0x74, 0xfb]
  {
  }

  lemma RetraceAgrees(useCb: bool)
    ensures Agrees(VESA_WAIT, useCb, [])
  {
    WaitLoops();
  }

  lemma ProtectedBody()
    ensures WaitForRetrace()
            == [0x66, 0x50, 0x66, 0x52, 0x66, 0xba, 0xda, 0x03, 0xec, 0xa8, 0x08, 0x75, 0xfb,
                0xec, 0xa8, 0x08, 0x74, 0xfb, 0x66, 0x5a, 0x66, 0x58]
  {
    WaitLoops();
  }

  lemma ProtectedCode(body: seq<Byte>)
    requires body == [0x66, 0x50, 0x66, 0x52, 0x66, 0xba, 0xda, 0x03, 0xec, 0xa8, 0x08, 0x75, 0xfb,
                      0xec, 0xa8, 0x08, 0x74, 0xfb, 0x66, 0x5a, 0x66, 0x58]
    ensures TestBl(0x80) + Skip(IfEqual, body) == Tail(VESA_PM, false)
  {
    var tail := Tail(VESA_PM, false);
    assert |tail| == 27;
    assert tail[5..] == body;
    assert tail[..5] == [0xf6, 0xc3, 0x80, 0x74, 0x16] == TestBl(0x80) + [JumpCode(IfEqual), |body|];
    assert tail == tail[..5] + tail[5..];
    Assoc(TestBl(0x80), [JumpCode(IfEqual), |body|], body);
  }

  lemma ProtectedTail(useCb: bool)
    ensures Tail(VESA_PM, useCb) == Tail(VESA_PM, false) + (if useCb then RET_NEAR else [])
  {
  }

  lemma ProtectedAgrees(useCb: bool, call: seq<Byte>)
    requires |call| == if useCb then 4 else 0
    ensures Agrees(VESA_PM, useCb, call)
  {
    ProtectedBody();
    ProtectedCode(WaitForRetrace());
    ProtectedTail(useCb);
    NoHead(call, Tail(VESA_PM, useCb));
  }

  lemma NoHead(call: seq<Byte>, tail: seq<Byte>)
    ensures [] + call + tail == call + tail
  {
  }

  /** Every stub consists of the instructions of its listing, jumps included, in all but one case: the stub
      of INT 16 without a handler, whose jump back leaves the stub. */
  lemma StubIsListingIff(kind: Kind, useCb: bool, cb: Byte)
    requires !Refused(kind, useCb)
    ensures var call := if useCb then Call(cb) else [];
            Code(StubFor(kind, useCb), cb) == Listing(kind, call) <==> !(kind.INT16? && !useCb)
  {
    var call := if useCb then Call(cb) else [];
    assert Code(StubFor(kind, useCb), cb) == Head(kind, useCb) + call + Tail(kind, useCb);
    if IsReturn(kind) {
      ReturnAgrees(kind, useCb, call);
    } else {
      match kind
      case IRET_EOI_PIC1 => ControllerAgrees(useCb, call);
      case HOOKABLE => DiskAgrees(useCb, call);
      case INT13 => DiskAgrees(useCb, call);
      case IRQ9 => CascadeAgrees(useCb, call);
      case IRQ12_RET => CascadeAgrees(useCb, call);
      case TDE_IRET => TransferAgrees(useCb, call);
      case IRQ0 => TimerAgrees(useCb, call);
      case IRQ12 => MouseAgrees(useCb, call);
      case INT29 => ConsoleAgrees(useCb, call);
      case INT21 => DosAgrees(useCb, call);
      case INT16 => ServiceAgreesIff(useCb, call);
      case IRQ1 => KeyboardAgrees(useCb, call);
      case IRQ6_PCJR => JuniorAgrees(useCb, call);
      case VESA_WAIT => RetraceAgrees(useCb);
      case VESA_PM => ProtectedAgrees(useCb, call);
    }
  }

  /** The jump that starts the mouse stub leads over the gap to its main part. */
  lemma MouseJump(gap: seq<Byte>)
    requires |gap| == 7
    ensures Lead(MOUSE) + gap == Skip(Always, gap) && |Lead(MOUSE) + gap| == BodyOffset(MOUSE)
  {
  }

  /** An interrupt stub raises its interrupt and then calls the stop callback. */
  lemma IntStubIsListing(n: Byte, stop: Byte)
    ensures IntBytes(n, stop) == Int(n) + Call(stop)
  {
  }

  /** Without a handler the jump of the INT 16 stub leads three bytes in front of its slot. */
  lemma ServiceJumpLeaves(cb: Byte)
    ensures var code := Code(StubFor(INT16, false), cb);
            && |code| == 16 && code[14..] == [JumpCode(Always), 0xed] && |code| + 0xed - 256 == -3
  {
    assert Code(StubFor(INT16, false), cb) == Head(INT16, false) + Tail(INT16, false);
  }
}
