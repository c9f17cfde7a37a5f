/** The floating-point state that the dynamic and the normal CPU core hand to each other. Up to three
    copies exist: the host FPU, the saved image of the dynamic core, and the normal core's own. */
module Fpu {

  // ---- words ----------------------------------------------------------------

  type Word = x: int | 0 <= x < 0x1_0000

  /** `word | 0x3f`: all exceptions masked. */
  function Masked(cw: Word): (r: Word)
    ensures r % 64 == 63 && r / 64 == cw / 64
  {
    cw / 64 * 64 + 63
  }

  lemma MaskedTwice(cw: Word)
    ensures Masked(Masked(cw)) == Masked(cw)
  {
  }

  /** Bits 11 to 13 of the status word. */
  function GetTop(sw: Word): (top: nat)
    ensures top < 8 && sw == sw / 0x4000 * 0x4000 + top * 2048 + sw % 2048
  {
    sw / 2048 % 8
  }

  function SetTop(sw: Word, top: nat): (r: Word)
    requires top < 8
    ensures GetTop(r) == top
    ensures r % 2048 == sw % 2048 && r / 0x4000 == sw / 0x4000
  {
    var high, low := sw / 0x4000, sw % 2048;
    TopParts(high, top, low);
    high * 0x4000 + top * 2048 + low
  }

  lemma TopParts(high: int, top: int, low: int)
    requires 0 <= high < 4 && 0 <= top < 8 && 0 <= low < 2048
    ensures var r := high * 0x4000 + top * 2048 + low;
            0 <= r < 0x1_0000 && r / 2048 % 8 == top && r % 2048 == low && r / 0x4000 == high
  {
    var r := high * 0x4000 + top * 2048 + low;
    assert r == (high * 8 + top) * 2048 + low;
    assert r / 2048 == high * 8 + top;
  }

  /** Writing the field that is already there changes nothing. */
  lemma SetTopIdempotent(sw: Word, top: nat)
    requires top < 8
    ensures SetTop(SetTop(sw, top), top) == SetTop(sw, top)
    ensures SetTop(sw, GetTop(sw)) == sw
  {
  }

  // ---- tags -----------------------------------------------------------------

  predicate TagsOk(tags: seq<nat>) {
    forall i :: 0 <= i < |tags| ==> tags[i] < 4
  }

  function Pow4(k: nat): (p: nat)
    ensures p > 0
  {
    if k == 0 then 1 else 4 * Pow4(k - 1)
  }

  /** Two bits per register, register 0 lowest. */
  function Pack(tags: seq<nat>): nat {
    if tags == [] then 0 else tags[0] + 4 * Pack(tags[1..])
  }

  function Unpack(tag: nat, n: nat): (tags: seq<nat>)
    ensures |tags| == n && TagsOk(tags)
    decreases n, tag
  {
    if n == 0 then [] else [tag % 4] + Unpack(tag / 4, n - 1)
  }

  /** The tag of register `i` has weight `4^i`: changing it changes the word by that much. */
  lemma {:induction false} PackWeight(tags: seq<nat>, i: nat, x: nat)
    requires i < |tags|
    ensures Pack(tags[i := x]) - Pack(tags) == Pow4(i) * (x - tags[i])
    decreases i
  {
    if i > 0 {
      PackWeight(tags[1..], i - 1, x);
      assert tags[i := x][1..] == tags[1..][i - 1 := x];
      assert Pow4(i) * (x - tags[i]) == 4 * (Pow4(i - 1) * (x - tags[i]));
    } else {
      assert tags[0 := x][1..] == tags[1..];
    }
  }

  lemma UnpackCons(tag: nat, n: nat)
    requires n > 0
    ensures Unpack(tag, n)[0] == tag % 4 && Unpack(tag, n)[1..] == Unpack(tag / 4, n - 1)
  {
  }

  lemma {:induction false} UnpackPack(tags: seq<nat>)
    requires TagsOk(tags)
    ensures Pack(tags) < Pow4(|tags|) && Unpack(Pack(tags), |tags|) == tags
    decreases |tags|
  {
    if tags != [] {
      UnpackPack(tags[1..]);
      assert Pack(tags) % 4 == tags[0] && Pack(tags) / 4 == Pack(tags[1..]);
    }
  }

  lemma {:induction false} PackUnpack(tag: nat, n: nat)
    requires tag < Pow4(n)
    ensures Pack(Unpack(tag, n)) == tag
    decreases n
  {
    if n > 0 {
      PackUnpack(tag / 4, n - 1);
      assert Unpack(tag, n)[1..] == Unpack(tag / 4, n - 1);
    }
  }

  lemma Pow4Of8()
    ensures Pow4(8) == 0x1_0000
  {
    assert Pow4(2) == 16 && Pow4(4) == 256 && Pow4(6) == 4096;
  }

  // ---- registers ------------------------------------------------------------

  /** An 80-bit register value. */
  type Reg = nat

  /** `STV(i)`: `(top + i) & 7` */
  function Slot(top: nat, i: nat): (r: nat)
    requires top < 8 && i < 8
    ensures r < 8
  {
    if top + i < 8 then top + i else top + i - 8
  }

  /** How far register `j` is from the top. */
  function Depth(top: nat, j: nat): (r: nat)
    requires top < 8 && j < 8
    ensures r < 8 && Slot(top, r) == j
  {
    if top <= j then j - top else j + 8 - top
  }

  /** Stack order from physical order: entry `i` is register `(top + i) & 7`. */
  function Stack(regs: seq<Reg>, top: nat): (st: seq<Reg>)
    requires |regs| == 8 && top < 8
    ensures |st| == 8 && forall i :: 0 <= i < 8 ==> st[i] == regs[Slot(top, i)]
  {
    seq(8, i requires 0 <= i < 8 => regs[Slot(top, i)])
  }

  /** Physical order from stack order. */
  function Physical(st: seq<Reg>, top: nat): (regs: seq<Reg>)
    requires |st| == 8 && top < 8
    ensures |regs| == 8 && forall i :: 0 <= i < 8 ==> regs[i] == st[Depth(top, i)]
  {
    seq(8, i requires 0 <= i < 8 => st[Depth(top, i)])
  }

  /** Entry `i` of the stack is `i` registers up from the top, modulo 8; the stack of top 0 is the register
      file itself. */
  lemma StackAt(regs: seq<Reg>, top: nat, i: nat)
    requires |regs| == 8 && top < 8 && i < 8
    ensures Stack(regs, top)[i] == regs[(top + i) % 8]
    ensures Stack(regs, 0) == regs
  {
  }

  /** Pushing moves the top one register down: what was entry `i` is entry `i + 1`. */
  lemma PushLaw(regs: seq<Reg>, top: nat)
    requires |regs| == 8 && top < 8
    ensures var pushed := (top + 7) % 8;
            && Stack(regs, pushed)[0] == regs[pushed]
            && forall i :: 0 <= i < 7 ==> Stack(regs, pushed)[i + 1] == Stack(regs, top)[i]
  {
    StackAt(regs, (top + 7) % 8, 0);
  }

  /** Entry `i` of an image goes into the register `i` up from the top, modulo 8. */
  lemma PhysicalAt(st: seq<Reg>, top: nat, i: nat)
    requires |st| == 8 && top < 8 && i < 8
    ensures Physical(st, top)[(top + i) % 8] == st[i]
  {
    assert Depth(top, (top + i) % 8) == i;
  }

  lemma StackPhysical(st: seq<Reg>, top: nat)
    requires |st| == 8 && top < 8
    ensures Stack(Physical(st, top), top) == st
  {
    forall i | 0 <= i < 8 ensures Stack(Physical(st, top), top)[i] == st[i] {
      assert Depth(top, Slot(top, i)) == i;
    }
  }

  lemma PhysicalStack(regs: seq<Reg>, top: nat)
    requires |regs| == 8 && top < 8
    ensures Physical(Stack(regs, top), top) == regs
  {
  }

  // ---- the three copies and the one FPU -------------------------------------

  /** What a program sees: control word, status word with the stack top in it, tag word, and the
      registers from the top of the stack. */
  datatype Logical = Logical(cw: Word, sw: Word, tag: Word, st: seq<Reg>)

  predicate LogicalOk(l: Logical) {
    |l.st| == 8
  }

  /** The normal core keeps the stack top apart; the field in its status word may be out of date. */
  datatype Normal = Normal(cw: Word, sw: Word, top: nat, tags: seq<nat>, regs: seq<Reg>)

  predicate NormalOk(n: Normal) {
    n.top < 8 && |n.tags| == 8 && TagsOk(n.tags) && |n.regs| == 8
  }

  function FromNormal(n: Normal): (l: Logical)
    requires NormalOk(n)
    ensures LogicalOk(l)
  {
    UnpackPack(n.tags);
    Pow4Of8();
    Logical(n.cw, SetTop(n.sw, n.top), Pack(n.tags), Stack(n.regs, n.top))
  }

  /** The steps of `sync_dh_fpu_and_run_normal_core` that fill the normal FPU from an image. */
  function ToNormal(l: Logical): (n: Normal)
    requires LogicalOk(l)
    ensures NormalOk(n)
  {
    Normal(l.cw, l.sw, GetTop(l.sw), Unpack(l.tag, 8), Physical(l.st, GetTop(l.sw)))
  }

  /** Where the normal core finds the operands of an image: its register `(top + i) & 7` is ST(i). */
  lemma NormalOperands(l: Logical, i: nat)
    requires LogicalOk(l) && i < 8
    ensures ToNormal(l).top == GetTop(l.sw) && ToNormal(l).regs[(GetTop(l.sw) + i) % 8] == l.st[i]
  {
    PhysicalAt(l.st, GetTop(l.sw), i);
  }

  lemma NormalRoundTrip(l: Logical)
    requires LogicalOk(l)
    ensures FromNormal(ToNormal(l)) == l
  {
    SetTopIdempotent(l.sw, GetTop(l.sw));
    Pow4Of8();
    PackUnpack(l.tag, 8);
    StackPhysical(l.st, GetTop(l.sw));
  }

  datatype CoreType = Dynamic | NormalCore

  /** `host` counts only while `used` is set, `dh` is the saved image, `guestCw` the control word that
      the dynamic core reports to the program. */
  datatype World = World(core: CoreType, used: bool, host: Logical, dh: Logical, norm: Normal, guestCw: Word)

  predicate Inv(w: World) {
    && LogicalOk(w.host) && LogicalOk(w.dh) && NormalOk(w.norm)
    && (w.core.NormalCore? ==> !w.used)
  }

  /** The one FPU that the copies stand for. */
  function Current(w: World): (l: Logical)
    requires Inv(w)
    ensures LogicalOk(l)
  {
    if w.core.NormalCore? then FromNormal(w.norm) else if w.used then w.host else w.dh
  }

  /** `maybe_sync_host_fpu_to_dh`: saving masks all exceptions in the saved control word. */
  function Save(w: World): (r: World)
    requires Inv(w)
    ensures Inv(r) && !r.used
  {
    if w.used then w.(used := false, dh := w.host.(cw := Masked(w.host.cw))) else w
  }

  function EnterDynamic(w: World): (r: World)
    requires Inv(w)
    ensures Inv(r) && r.core.Dynamic?
  {
    if w.core.NormalCore?
    then w.(core := Dynamic, norm := w.norm.(sw := SetTop(w.norm.sw, w.norm.top)), dh := FromNormal(w.norm))
    else w
  }

  /** On entry to the normal core the host FPU is never in use. */
  function EnterNormal(w: World): (r: World)
    requires Inv(w)
    ensures Inv(r) && r.core.NormalCore? && !r.used
  {
    if w.core.Dynamic? then Save(w).(core := NormalCore, norm := ToNormal(Save(w).dh)) else w
  }

  /** The logical state with all exceptions masked. */
  function M(l: Logical): Logical {
    l.(cw := Masked(l.cw))
  }

  lemma EnterDynamicKeeps(w: World)
    requires Inv(w)
    ensures Current(EnterDynamic(w)) == Current(w)
  {
  }

  lemma SaveKeeps(w: World)
    requires Inv(w)
    ensures M(Current(Save(w))) == M(Current(w))
    ensures Current(Save(w)) == Current(w) <==> !w.used || w.host.cw % 64 == 63
  {
    MaskedTwice(w.host.cw);
  }

  /** The normal core starts from what the last core left; the control word comes over unchanged exactly
      when the host FPU was not in use or ran with all exceptions masked. */
  lemma EnterNormalKeeps(w: World)
    requires Inv(w)
    ensures M(Current(EnterNormal(w))) == M(Current(w))
    ensures Current(EnterNormal(w)) == Current(w) <==> !w.used || w.host.cw % 64 == 63
  {
    if w.core.Dynamic? {
      SaveKeeps(w);
      NormalRoundTrip(Save(w).dh);
    }
  }

  // ---- the cores ------------------------------------------------------------

  class Cores {
    var lastCore: CoreType
    var stateUsed: bool
    var host: Logical
    var dh: Logical
    var guestCw: Word
    const tags: array<nat>
    const regs: array<Reg>
    var cw: Word
    var cwMaskAll: Word
    var sw: Word
    var top: nat
    var round: nat

    ghost predicate Valid()
      reads this, tags, regs
    {
      tags.Length == 8 && regs.Length == 8 && tags != regs && Inv(View())
    }

    ghost function View(): World
      reads this, tags, regs
    {
      World(lastCore, stateUsed, host, dh, Normal(cw, sw, top, tags[..], regs[..]), guestCw)
    }

    /** `FPU_SetTag` */
    method SetTag(tag: Word)
      requires tags.Length == 8
      modifies tags
      ensures tags[..] == Unpack(tag, 8)
    {
      var rest: nat := tag;
      ghost var want := Unpack(tag, 8);
      for i := 0 to 8
        invariant tags[..i] == want[..i] && Unpack(rest, 8 - i) == want[i..]
      {
        UnpackCons(rest, 8 - i);
        tags[i] := rest % 4;
        assert want[i..][1..] == want[i + 1..];
        assert want[..i + 1] == want[..i] + [want[i]] && tags[..i + 1] == tags[..i] + [rest % 4];
        rest := rest / 4;
      }
      assert tags[..] == tags[..8] && want == want[..8];
    }

    /** `FPU_GetTag` */
    method GetTag() returns (tag: nat)
      requires tags.Length == 8 && TagsOk(tags[..])
      ensures tag == Pack(tags[..])
    {
      tag := 0;
      var i := 8;
      while i > 0
        invariant 0 <= i <= 8 && tag == Pack(tags[i..])
      {
        i := i - 1;
        assert tags[i..][1..] == tags[i + 1..];
        tag := tags[i] + 4 * tag;
      }
      assert tags[0..] == tags[..];
    }

    /** `FPU_SetCW` also derives the masked word and the rounding mode. */
    method SetCW(word: Word)
      modifies `cw, `cwMaskAll, `round
      ensures cw == word && cwMaskAll == Masked(word) && round == word / 1024 % 4
    {
      cw, cwMaskAll, round := word, Masked(word), word / 1024 % 4;
    }

    /** `FPU_SetPRegsFrom`: in stack order, into the registers counted from the top. */
    method SetPRegsFrom(st: seq<Reg>)
      requires regs.Length == 8 && |st| == 8 && top < 8
      modifies regs
      ensures regs[..] == Physical(st, top)
    {
      for i := 0 to 8
        invariant forall k :: 0 <= k < i ==> regs[Slot(top, k)] == st[k]
      {
        assert (top + i) % 8 == Slot(top, i);
        regs[(top + i) % 8] := st[i];
      }
      forall j | 0 <= j < 8 ensures regs[j] == st[Depth(top, j)] {
        assert Slot(top, Depth(top, j)) == j;
      }
    }

    /** `FPU_GetPRegsTo` */
    method GetPRegsTo() returns (st: seq<Reg>)
      requires regs.Length == 8 && top < 8
      ensures st == Stack(regs[..], top)
    {
      st := [];
      for i := 0 to 8
        invariant |st| == i && forall k :: 0 <= k < i ==> st[k] == regs[Slot(top, k)]
      {
        assert (top + i) % 8 == Slot(top, i);
        st := st + [regs[(top + i) % 8]];
      }
    }

    method MaybeSyncHost()
      requires Valid()
      modifies `stateUsed, `dh
      ensures Valid() && View() == Save(old(View()))
    {
      if stateUsed {
        dh := host;
        stateUsed := false;
        dh := dh.(cw := Masked(dh.cw));
      }
    }

    method SyncNormalToDynamic()
      requires Valid()
      modifies `sw, `dh, `lastCore
      ensures Valid() && View() == EnterDynamic(old(View()))
    {
      if lastCore == NormalCore {
        sw := SetTop(sw, top);
        var tag := GetTag();
        UnpackPack(tags[..]);
        Pow4Of8();
        var st := GetPRegsTo();
        dh := Logical(cw, sw, tag, st);
        lastCore := Dynamic;
      }
    }

    /** The state-not-in-use assertion of the source is the last postcondition. */
    method SyncDynamicToNormal()
      requires Valid()
      modifies this, tags, regs
      ensures Valid() && View() == EnterNormal(old(View())) && !stateUsed
    {
      if lastCore == Dynamic {
        MaybeSyncHost();
        ghost var saved := View();
        SetTag(dh.tag);
        SetCW(dh.cw);
        sw := dh.sw;
        top := GetTop(sw);
        SetPRegsFrom(dh.st);
        lastCore := NormalCore;
      }
    }
  }
}
