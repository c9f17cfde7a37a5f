/** Whole runs of the two cores: the three copies of the FPU against a machine that has only one. */
module FpuRuns {
  import opened Fpu

  /** What the cores do between hand-offs. A dynamic block that uses the FPU computes `f` on the host FPU,
      loaded from the image first if necessary; a run of the normal core computes `g` on its own FPU. */
  datatype Event =
    | RunDynamic                                       // a block without floating-point instructions
    | RunDynamicFpu(f: Logical -> Logical, guestCw: Word)
    | RunNormal(g: Normal -> Normal)
    | LeaveDynamic                                     // the copier at the end of the dynamic core

  /** The normal FPU with the field in its status word brought up to date. */
  function Synced(n: Normal): (r: Normal)
    requires NormalOk(n)
    ensures NormalOk(r)
  {
    n.(sw := SetTop(n.sw, n.top))
  }

  /** Computations keep the state well formed, and the normal core never looks at the field of its status
      word that may be out of date. */
  ghost predicate EventOk(e: Event) {
    match e
    case RunDynamicFpu(f, _) => forall l {:trigger f(l)} :: LogicalOk(l) ==> LogicalOk(f(l))
    case RunNormal(g) =>
      && (forall n {:trigger g(n)} :: NormalOk(n) ==> NormalOk(g(n)))
      && (forall n, m {:trigger g(n), g(m)} :: NormalOk(n) && NormalOk(m) && Synced(n) == Synced(m) ==>
            FromNormal(g(n)) == FromNormal(g(m)))
    case _ => true
  }

  /** The hand-off with which a core starts. */
  function Start(w: World, e: Event): (r: World)
    requires Inv(w)
    ensures Inv(r)
  {
    match e
    case RunDynamic => EnterDynamic(w)
    case RunDynamicFpu(_, _) => EnterDynamic(w)
    case RunNormal(_) => EnterNormal(w)
    case LeaveDynamic => Save(w)
  }

  function Step(w: World, e: Event): (r: World)
    requires Inv(w) && EventOk(e)
    ensures Inv(r)
  {
    var s := Start(w, e);
    match e
    case RunDynamicFpu(f, cw) => s.(used := true, host := f(Current(s)), guestCw := cw)
    case RunNormal(g) => s.(norm := g(s.norm))
    case _ => s
  }

  // ---- whole runs -----------------------------------------------------------

  ghost predicate RunOk(es: seq<Event>) {
    forall i :: 0 <= i < |es| ==> EventOk(es[i])
  }

  /** The three copies before event `k`. */
  function At(w: World, es: seq<Event>, k: nat): (r: World)
    requires Inv(w) && RunOk(es) && k <= |es|
    ensures Inv(r)
  {
    if k == 0 then w else Step(At(w, es, k - 1), es[k - 1])
  }

  /** The reference: a machine with one FPU, on which every core computes in turn. */
  function Compute(l: Logical, e: Event): (r: Logical)
    requires LogicalOk(l) && EventOk(e)
    ensures LogicalOk(r)
  {
    match e
    case RunDynamicFpu(f, _) => f(l)
    case RunNormal(g) => FromNormal(g(ToNormal(l)))
    case _ => l
  }

  function Single(l: Logical, es: seq<Event>, k: nat): (r: Logical)
    requires LogicalOk(l) && RunOk(es) && k <= |es|
    ensures LogicalOk(r)
  {
    if k == 0 then l else Compute(Single(l, es, k - 1), es[k - 1])
  }

  /** Reading the normal FPU out and putting it back only refreshes its status word. */
  lemma NormalReload(n: Normal)
    requires NormalOk(n)
    ensures ToNormal(FromNormal(n)) == Synced(n)
  {
    UnpackPack(n.tags);
    PhysicalStack(n.regs, n.top);
  }

  /** The copies compute what the one FPU computes, from the state the hand-off left. */
  lemma StepComputes(w: World, e: Event)
    requires Inv(w) && EventOk(e)
    ensures Current(Step(w, e)) == Compute(Current(Start(w, e)), e)
  {
    if e.RunNormal? {
      var n := Start(w, e).norm;
      NormalReload(n);
      SetTopIdempotent(n.sw, n.top);
    }
  }

  /** Hand-offs that save the host FPU. */
  predicate Saves(e: Event) {
    e.RunNormal? || e.LeaveDynamic?
  }

  /** Whether the host FPU is in use before event `k`, from the order of events alone. */
  function HostInUse(used: bool, es: seq<Event>, k: nat): bool
    requires k <= |es|
  {
    if k == 0 then used
    else es[k - 1].RunDynamicFpu? || (!Saves(es[k - 1]) && HostInUse(used, es, k - 1))
  }

  lemma StepUses(w: World, e: Event)
    requires Inv(w) && EventOk(e)
    ensures Step(w, e).used == (e.RunDynamicFpu? || (!Saves(e) && w.used))
  {
  }

  lemma {:induction false} HostInUseIs(w: World, es: seq<Event>, k: nat)
    requires Inv(w) && RunOk(es) && k <= |es|
    ensures At(w, es, k).used == HostInUse(w.used, es, k)
  {
    if k > 0 {
      HostInUseIs(w, es, k - 1);
      StepUses(At(w, es, k - 1), es[k - 1]);
    }
  }

  lemma StartKeeps(w: World, e: Event)
    requires Inv(w)
    ensures M(Current(Start(w, e))) == M(Current(w))
    ensures Current(Start(w, e)) == Current(w) <==> (Saves(e) && w.used ==> Current(w).cw % 64 == 63)
  {
    EnterDynamicKeeps(w);
    EnterNormalKeeps(w);
    SaveKeeps(w);
  }

  /** The core that runs event `k` starts from exactly the state of the one FPU. */
  ghost predicate Seamless(w: World, es: seq<Event>, k: nat)
    requires Inv(w) && RunOk(es) && k < |es|
  {
    Current(Start(At(w, es, k), es[k])) == Single(Current(w), es, k)
  }

  lemma {:induction false} SeamlessSoFar(w: World, es: seq<Event>, k: nat)
    requires Inv(w) && RunOk(es) && k <= |es|
    requires forall j: nat :: j < k ==> Seamless(w, es, j)
    ensures Current(At(w, es, k)) == Single(Current(w), es, k)
  {
    if k > 0 {
      assert Seamless(w, es, k - 1);
      StepComputes(At(w, es, k - 1), es[k - 1]);
    }
  }

  /** A save before event `k` leaves the control word alone. */
  ghost predicate SaveHarmless(w: World, es: seq<Event>, k: nat)
    requires Inv(w) && RunOk(es) && k < |es|
  {
    Saves(es[k]) && HostInUse(w.used, es, k) ==> Single(Current(w), es, k).cw % 64 == 63
  }

  lemma SeamlessHere(w: World, es: seq<Event>, k: nat)
    requires Inv(w) && RunOk(es) && k < |es|
    requires forall j: nat :: j < k ==> Seamless(w, es, j)
    ensures Seamless(w, es, k) <==> SaveHarmless(w, es, k)
  {
    SeamlessSoFar(w, es, k);
    HostInUseIs(w, es, k);
    StartKeeps(At(w, es, k), es[k]);
  }

  lemma {:induction false} HarmlessIsSeamless(w: World, es: seq<Event>, k: nat)
    requires Inv(w) && RunOk(es) && k <= |es|
    requires forall j: nat :: j < k ==> SaveHarmless(w, es, j)
    ensures forall j: nat :: j < k ==> Seamless(w, es, j)
  {
    if k > 0 {
      HarmlessIsSeamless(w, es, k - 1);
      SeamlessHere(w, es, k - 1);
    }
  }

  /** One logical FPU, exactly: over any alternation of the cores, every core starts from the control word,
      status word, stack top, tags and registers that a machine with a single FPU would have there, if and
      only if that machine has all exceptions masked whenever the host FPU is saved. */
  lemma OneFpuIff(w: World, es: seq<Event>)
    requires Inv(w) && RunOk(es)
    ensures (forall k: nat :: k < |es| ==> Seamless(w, es, k))
            <==> (forall k: nat :: k < |es| ==> SaveHarmless(w, es, k))
    ensures (forall k: nat :: k < |es| ==> SaveHarmless(w, es, k)) ==>
              Current(At(w, es, |es|)) == Single(Current(w), es, |es|)
  {
    if forall k: nat :: k < |es| ==> SaveHarmless(w, es, k) {
      HarmlessIsSeamless(w, es, |es|);
      SeamlessSoFar(w, es, |es|);
    }
    if forall k: nat :: k < |es| ==> Seamless(w, es, k) {
      forall k: nat | k < |es| ensures SaveHarmless(w, es, k) {
        SeamlessHere(w, es, k);
      }
    }
  }

  /** The first save that is not harmless shows. */
  lemma HarmfulSaveShows(w: World, es: seq<Event>, k: nat)
    requires Inv(w) && RunOk(es) && k < |es| && !SaveHarmless(w, es, k)
    ensures exists j: nat :: j <= k && !Seamless(w, es, j)
  {
    if forall j: nat :: j < k ==> Seamless(w, es, j) {
      SeamlessHere(w, es, k);
    }
  }

  /** An unmasked control word that the normal core loads does not survive the next save of the host FPU:
      exceptions that the program enabled are off again. */
  lemma UnmaskedWordLost(w: World, load: Event, block: Event)
    requires Inv(w) && EventOk(load) && load.RunNormal? && EventOk(block) && block.RunDynamicFpu?
    requires forall n {:trigger load.g(n)} :: NormalOk(n) ==> load.g(n).cw == 0x340
    requires forall l {:trigger block.f(l)} :: LogicalOk(l) ==> block.f(l) == l
    ensures RunOk([load, block, LeaveDynamic]) && !Seamless(w, [load, block, LeaveDynamic], 2)
  {
    var es := [load, block, LeaveDynamic];
    var l := Current(w);
    assert es[0] == load && es[1] == block && es[2] == LeaveDynamic;
    assert Single(l, es, 1) == Compute(l, load) && Single(l, es, 2) == Compute(Single(l, es, 1), block);
    assert Single(l, es, 2).cw == 0x340;
    assert HostInUse(w.used, es, 2);
    assert !SaveHarmless(w, es, 2);
    HarmfulSaveShows(w, es, 2);
  }

  /** A computation whose result depends on the exception masks only in the exception masks. */
  ghost predicate MaskBlind(e: Event)
    requires EventOk(e)
  {
    forall l, l' {:trigger Compute(l, e), Compute(l', e)} ::
      LogicalOk(l) && LogicalOk(l') && M(l) == M(l') ==> M(Compute(l, e)) == M(Compute(l', e))
  }

  lemma StepUpToMasks(w: World, e: Event, l: Logical)
    requires Inv(w) && EventOk(e) && MaskBlind(e) && LogicalOk(l) && M(Current(w)) == M(l)
    ensures M(Current(Start(w, e))) == M(l) && M(Current(Step(w, e))) == M(Compute(l, e))
  {
    StartKeeps(w, e);
    StepComputes(w, e);
  }

  /** One logical FPU, up to the exception masks: whatever the masks, if no computation depends on them,
      then every core starts from the state of the single FPU but for the masks. */
  lemma {:induction false} OneLogicalFpu(w: World, es: seq<Event>, k: nat)
    requires Inv(w) && RunOk(es) && k <= |es|
    requires forall i :: 0 <= i < |es| ==> MaskBlind(es[i])
    ensures M(Current(At(w, es, k))) == M(Single(Current(w), es, k))
    ensures k < |es| ==> M(Current(Start(At(w, es, k), es[k]))) == M(Single(Current(w), es, k))
  {
    if k > 0 {
      OneLogicalFpu(w, es, k - 1);
      StepUpToMasks(At(w, es, k - 1), es[k - 1], Single(Current(w), es, k - 1));
    }
    if k < |es| {
      StepUpToMasks(At(w, es, k), es[k], Single(Current(w), es, k));
    }
  }

  /** The control word that the dynamic core reports agrees with the FPU up to the exception masks. */
  predicate GuestAgrees(w: World)
    requires Inv(w)
  {
    Masked(w.guestCw) == Masked(Current(w).cw)
  }

  /** Hand-offs and dynamic runs keep that agreement; a run of the normal core keeps it exactly if the
      control word it leaves is, but for the masks, the one the dynamic core last saw. */
  lemma GuestAgreesIff(w: World, e: Event)
    requires Inv(w) && EventOk(e) && GuestAgrees(w)
    requires e.RunDynamicFpu? ==> Masked(e.guestCw) == Masked(e.f(Current(EnterDynamic(w))).cw)
    ensures GuestAgrees(Step(w, e))
            <==> (e.RunNormal? ==> Masked(e.g(EnterNormal(w).norm).cw) == Masked(w.guestCw))
  {
    EnterDynamicKeeps(w);
    SaveKeeps(w);
  }

  /** The event after the last dynamic block with floating-point instructions before `k`, or 0. */
  function SinceDynamic(es: seq<Event>, k: nat): (j: nat)
    requires k <= |es|
    ensures j <= k && (j > 0 ==> es[j - 1].RunDynamicFpu?)
  {
    if k == 0 then 0 else if es[k - 1].RunDynamicFpu? then k else SinceDynamic(es, k - 1)
  }

  /** A dynamic block reports the control word that it leaves. */
  ghost predicate ReportsOk(l: Logical, es: seq<Event>)
    requires LogicalOk(l) && RunOk(es)
  {
    forall i: nat :: i < |es| && es[i].RunDynamicFpu? ==> Masked(es[i].guestCw) == Masked(Single(l, es, i + 1).cw)
  }

  lemma StepReports(w: World, e: Event)
    requires Inv(w) && EventOk(e)
    ensures Step(w, e).guestCw == if e.RunDynamicFpu? then e.guestCw else w.guestCw
  {
  }

  lemma {:induction false} ReportedIs(w: World, es: seq<Event>, k: nat)
    requires Inv(w) && RunOk(es) && k <= |es|
    ensures At(w, es, k).guestCw
            == if SinceDynamic(es, k) == 0 then w.guestCw else es[SinceDynamic(es, k) - 1].guestCw
  {
    if k > 0 {
      ReportedIs(w, es, k - 1);
      StepReports(At(w, es, k - 1), es[k - 1]);
    }
  }

  /** Over whole runs: the control word that the dynamic core reports is, but for the masks, that of the one
      FPU, if and only if the one FPU has, but for the masks, still the control word that the last dynamic
      block left. */
  lemma ReportedIff(w: World, es: seq<Event>, k: nat)
    requires Inv(w) && RunOk(es) && k <= |es| && GuestAgrees(w) && ReportsOk(Current(w), es)
    requires forall i :: 0 <= i < |es| ==> MaskBlind(es[i])
    ensures GuestAgrees(At(w, es, k))
            <==> Masked(Single(Current(w), es, k).cw) == Masked(Single(Current(w), es, SinceDynamic(es, k)).cw)
  {
    OneLogicalFpu(w, es, k);
    ReportedIs(w, es, k);
    var j := SinceDynamic(es, k);
    if j > 0 {
      assert Masked(es[j - 1].guestCw) == Masked(Single(Current(w), es, j - 1 + 1).cw);
    }
  }

  /** A control word loaded by the normal core is not the one the dynamic core then reports. */
  lemma ReportedControlWordStale(w: World, load: Event, cw: Word)
    requires Inv(w) && EventOk(load) && load.RunNormal?
    requires forall n {:trigger load.g(n)} :: NormalOk(n) ==> load.g(n).cw == cw
    ensures var after := Step(Step(w, load), RunDynamic);
            after.core.Dynamic? && after.guestCw == w.guestCw && Current(after).cw == cw
  {
    EnterDynamicKeeps(Step(w, load));
  }
}
