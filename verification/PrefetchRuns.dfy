/** Whole runs of the prefetch core: fetches, jumps, memory writes and flushes in any order. */
module PrefetchRuns {
  import opened Bytes
  import opened Prefetch

  datatype Event =
    | Fetch(n: nat)
    | Jump(target: nat)
    | Write(addr: nat, val: Byte)
    | Flush

  datatype State = State(q: Queue, mem: Memory, at: nat)

  predicate EventOk(e: Event) {
    e.Fetch? ==> IsWidth(e.n)
  }

  ghost predicate RunOk(s: State, es: seq<Event>) {
    SizeOk(|s.q.bytes|) && forall k :: 0 <= k < |es| ==> EventOk(es[k])
  }

  function Poke(mem: Memory, addr: nat, val: Byte): Memory {
    (a: nat) => if a == addr then val else mem(a)
  }

  function Step(s: State, e: Event): (r: State)
    requires SizeOk(|s.q.bytes|) && EventOk(e)
    ensures |r.q.bytes| == |s.q.bytes|
  {
    match e
    case Fetch(n) => State(AfterFetch(s.q, s.mem, s.at, n), s.mem, s.at + n)
    case Jump(target) => s.(at := target)
    case Write(addr, val) => s.(mem := Poke(s.mem, addr, val))
    case Flush => s.(q := s.q.(valid := false))
  }

  /** The state after the first `k` events of a run. */
  function At(s: State, es: seq<Event>, k: nat): (r: State)
    requires RunOk(s, es) && k <= |es|
    ensures |r.q.bytes| == |s.q.bytes|
  {
    if k == 0 then s else Step(At(s, es, k - 1), es[k - 1])
  }

  ghost predicate InWindow(q: Queue, a: nat) {
    q.valid && q.start <= a < q.start + |q.bytes|
  }

  /** Event `e` reads address `a` from memory into the window: on a miss the whole window is read, on a
      hit only what the shift brings in. */
  ghost predicate Loads(s: State, e: Event, a: nat)
    requires SizeOk(|s.q.bytes|) && EventOk(e)
  {
    e.Fetch? && InWindow(Step(s, e).q, a) && !(Hit(s.q, s.at, e.n) && InWindow(s.q, a))
  }

  /** Address `a` sat in the window in every state after event `t` up to time `k`; in
      particular no flush fell between them. */
  ghost predicate HeldSince(s: State, es: seq<Event>, t: nat, k: nat, a: nat)
    requires RunOk(s, es) && k <= |es|
  {
    forall j: nat {:trigger InWindowAt(s, es, j, a)} :: t < j <= k ==> InWindowAt(s, es, j, a)
  }

  ghost predicate InWindowAt(s: State, es: seq<Event>, j: nat, a: nat)
    requires RunOk(s, es) && j <= |es|
  {
    InWindow(At(s, es, j).q, a)
  }

  ghost predicate LoadsAt(s: State, es: seq<Event>, j: nat, a: nat)
    requires RunOk(s, es) && j < |es|
  {
    Loads(At(s, es, j), es[j], a)
  }

  /** It was not read again in between. */
  ghost predicate NotReloaded(s: State, es: seq<Event>, t: nat, k: nat, a: nat)
    requires RunOk(s, es) && k <= |es|
  {
    forall j: nat {:trigger LoadsAt(s, es, j, a)} :: t < j < k ==> !LoadsAt(s, es, j, a)
  }

  /** The fetch that is event `t` loaded `value` for address `a`, and the queue kept it until `k`. */
  ghost predicate LoadedBy(s: State, es: seq<Event>, t: nat, k: nat, a: nat, value: Byte)
    requires RunOk(s, es) && t <= k <= |es|
  {
    && t < |es| && Loads(At(s, es, t), es[t], a) && value == At(s, es, t).mem(a)
    && HeldSince(s, es, t, k, a) && NotReloaded(s, es, t, k, a)
  }

  /** Byte `i` of the fetch that is event `k` was loaded by event `t`, an earlier fetch or that one. */
  ghost predicate SuppliedBy(s: State, es: seq<Event>, t: nat, k: nat, i: nat)
    requires RunOk(s, es) && t <= k < |es| && es[k].Fetch? && i < es[k].n
  {
    var now := At(s, es, k);
    && LoadedBy(s, es, t, k, now.at + i, Delivered(now.q, now.mem, now.at, es[k].n)[i])
    && (t < k ==> !Loads(now, es[k], now.at + i))
  }

  /** There is only one such event. */
  lemma SupplierUnique(s: State, es: seq<Event>, t: nat, u: nat, k: nat, i: nat)
    requires RunOk(s, es) && t <= k < |es| && u <= k && es[k].Fetch? && i < es[k].n
    requires SuppliedBy(s, es, t, k, i) && SuppliedBy(s, es, u, k, i)
    ensures t == u
  {
    var a := At(s, es, k).at + i;
    assert LoadsAt(s, es, t, a) && LoadsAt(s, es, u, a);
  }

  /** The byte the queue holds for an address of its window. */
  ghost function Held(q: Queue, a: nat): Byte
    requires InWindow(q, a)
  {
    q.bytes[a - q.start]
  }

  /** After any step, a byte in the window was just loaded by a fetch or was there before. */
  lemma KeptOrLoaded(s: State, e: Event, a: nat)
    requires SizeOk(|s.q.bytes|) && EventOk(e) && InWindow(Step(s, e).q, a)
    ensures Loads(s, e, a) ==> Held(Step(s, e).q, a) == s.mem(a)
    ensures !Loads(s, e, a) ==> InWindow(s.q, a) && Held(Step(s, e).q, a) == Held(s.q, a)
  {
  }

  lemma JustLoaded(s: State, es: seq<Event>, k: nat, a: nat)
    requires RunOk(s, es) && k < |es| && Loads(At(s, es, k), es[k], a)
    ensures LoadedBy(s, es, k, k + 1, a, At(s, es, k).mem(a))
  {
    assert At(s, es, k + 1) == Step(At(s, es, k), es[k]);
  }

  lemma StillHeld(s: State, es: seq<Event>, t: nat, k: nat, a: nat, value: Byte)
    requires RunOk(s, es) && t < k < |es| && LoadedBy(s, es, t, k, a, value)
    requires !Loads(At(s, es, k), es[k], a) && InWindow(At(s, es, k + 1).q, a)
    ensures LoadedBy(s, es, t, k + 1, a, value)
  {
    HeldOnce(s, es, t, k, a);
  }

  lemma HeldOnce(s: State, es: seq<Event>, t: nat, k: nat, a: nat)
    requires RunOk(s, es) && k < |es| && HeldSince(s, es, t, k, a) && NotReloaded(s, es, t, k, a)
    requires !Loads(At(s, es, k), es[k], a) && InWindow(At(s, es, k + 1).q, a)
    ensures HeldSince(s, es, t, k + 1, a) && NotReloaded(s, es, t, k + 1, a)
  {
    assert InWindowAt(s, es, k + 1, a) && !LoadsAt(s, es, k, a);
  }

  /** Every byte of the window has a loading event, from an initially invalid queue. */
  lemma {:induction false} WindowProvenance(s: State, es: seq<Event>, k: nat, a: nat) returns (t: nat)
    requires RunOk(s, es) && !s.q.valid && k <= |es|
    requires InWindow(At(s, es, k).q, a)
    ensures t < k
    ensures LoadedBy(s, es, t, k, a, Held(At(s, es, k).q, a))
  {
    var before, e := At(s, es, k - 1), es[k - 1];
    KeptOrLoaded(before, e, a);
    if Loads(before, e, a) {
      t := k - 1;
      JustLoaded(s, es, k - 1, a);
    } else {
      t := WindowProvenance(s, es, k - 1, a);
      StillHeld(s, es, t, k - 1, a, Held(before.q, a));
    }
  }

  /** A hit delivers what the window holds; a miss loads from memory what it delivers. */
  lemma DeliveredByte(s: State, n: nat, i: nat)
    requires SizeOk(|s.q.bytes|) && IsWidth(n) && i < n
    ensures var b := Delivered(s.q, s.mem, s.at, n)[i];
            if Hit(s.q, s.at, n)
            then InWindow(s.q, s.at + i) && b == Held(s.q, s.at + i) && !Loads(s, Fetch(n), s.at + i)
            else b == s.mem(s.at + i) && Loads(s, Fetch(n), s.at + i)
  {
  }

  /** Each fetched byte is the value its address held when its slot was loaded, and that load
      came after the last flush: the address stayed in the window ever since. The fetch itself does the
      load exactly when it misses the window. */
  lemma FetchProvenance(s: State, es: seq<Event>, k: nat, i: nat) returns (t: nat)
    requires RunOk(s, es) && !s.q.valid && k < |es| && es[k].Fetch? && i < es[k].n
    ensures t <= k && SuppliedBy(s, es, t, k, i)
    ensures t == k <==> !Hit(At(s, es, k).q, At(s, es, k).at, es[k].n)
  {
    var now := At(s, es, k);
    DeliveredByte(now, es[k].n, i);
    if Hit(now.q, now.at, es[k].n) {
      t := WindowProvenance(s, es, k, now.at + i);
    } else {
      t := k;
    }
  }

  /** No flush since the load. */
  lemma {:induction false} NoFlushWhileHeld(s: State, es: seq<Event>, t: nat, k: nat, a: nat, j: nat)
    requires RunOk(s, es) && k <= |es| && HeldSince(s, es, t, k, a) && t <= j < k
    ensures !es[j].Flush?
  {
    assert InWindowAt(s, es, j + 1, a);
  }

  /** The load behind a fetched byte, as far as staleness needs it. */
  lemma HeldFrom(s: State, es: seq<Event>, k: nat, i: nat) returns (t: nat)
    requires RunOk(s, es) && !s.q.valid && k < |es| && es[k].Fetch? && i < es[k].n
    ensures t <= k && es[t].Fetch?
    ensures var now := At(s, es, k);
            && Delivered(now.q, now.mem, now.at, es[k].n)[i] == At(s, es, t).mem(now.at + i)
            && HeldSince(s, es, t, k, now.at + i)
  {
    t := FetchProvenance(s, es, k, i);
  }

  /** If memory changed at `a` between two times, some event in between wrote there. */
  lemma {:induction false} ChangeHasWriter(s: State, es: seq<Event>, t: nat, k: nat, a: nat) returns (w: nat)
    requires RunOk(s, es) && t <= k <= |es|
    requires At(s, es, t).mem(a) != At(s, es, k).mem(a)
    ensures t <= w < k && es[w].Write? && es[w].addr == a
    decreases k
  {
    if At(s, es, k - 1).mem(a) != At(s, es, k).mem(a) {
      w := k - 1;
    } else {
      w := ChangeHasWriter(s, es, t, k - 1, a);
    }
  }

  /** Byte `i` of a fetch in state `s` is what memory holds. */
  ghost predicate FetchesFresh(s: State, n: nat, i: nat)
    requires SizeOk(|s.q.bytes|) && IsWidth(n) && i < n
  {
    Delivered(s.q, s.mem, s.at, n)[i] == s.mem(s.at + i)
  }

  lemma FreshIsWindow(s: State, n: nat)
    requires SizeOk(|s.q.bytes|) && IsWidth(n) && forall i: nat :: i < n ==> FetchesFresh(s, n, i)
    ensures Delivered(s.q, s.mem, s.at, n) == Window(s.mem, s.at, n)
  {
    forall i: nat | i < n ensures Delivered(s.q, s.mem, s.at, n)[i] == s.mem(s.at + i) {
      assert FetchesFresh(s, n, i);
    }
  }

  /** Bounded staleness: a fetched byte differs from memory only if a write went to that very
      address while it was inside the window, with no flush from then on. */
  lemma StaleOnlyThroughWindow(s: State, es: seq<Event>, k: nat, i: nat) returns (w: nat)
    requires RunOk(s, es) && !s.q.valid && k < |es| && es[k].Fetch? && i < es[k].n
    requires !FetchesFresh(At(s, es, k), es[k].n, i)
    ensures w < k && es[w].Write? && es[w].addr == At(s, es, k).at + i
    ensures InWindow(At(s, es, w).q, At(s, es, k).at + i)
    ensures forall j: nat :: w <= j < k ==> !es[j].Flush?
  {
    var a := At(s, es, k).at + i;
    var t := HeldFrom(s, es, k, i);
    w := ChangeHasWriter(s, es, t, k, a);
    assert t < w && InWindowAt(s, es, w, a);
    forall j: nat | w <= j < k ensures !es[j].Flush? {
      NoFlushWhileHeld(s, es, t, k, a, j);
    }
  }

  // ---- the plain core -------------------------------------------------------

  /** The plain core has no queue: it reads memory at the instruction pointer. */
  datatype Plain = Plain(mem: Memory, at: nat)

  function PlainStep(p: Plain, e: Event): Plain {
    match e
    case Fetch(n) => p.(at := p.at + n)
    case Jump(target) => p.(at := target)
    case Write(addr, val) => p.(mem := Poke(p.mem, addr, val))
    case Flush => p
  }

  function PlainAt(p: Plain, es: seq<Event>, k: nat): Plain
    requires k <= |es|
  {
    if k == 0 then p else PlainStep(PlainAt(p, es, k - 1), es[k - 1])
  }

  lemma {:induction false} SamePointerAndMemory(s: State, es: seq<Event>, k: nat)
    requires RunOk(s, es) && k <= |es|
    ensures PlainAt(Plain(s.mem, s.at), es, k) == Plain(At(s, es, k).mem, At(s, es, k).at)
  {
    if k > 0 {
      SamePointerAndMemory(s, es, k - 1);
    }
  }

  /** No write of the run hits the window that is current when it happens. */
  ghost predicate WritesOutsideWindow(s: State, es: seq<Event>)
    requires RunOk(s, es)
  {
    forall w: nat :: w < |es| && es[w].Write? ==> !InWindow(At(s, es, w).q, es[w].addr)
  }

  lemma NeverStale(s: State, es: seq<Event>, k: nat, i: nat)
    requires RunOk(s, es) && !s.q.valid && WritesOutsideWindow(s, es)
    requires k < |es| && es[k].Fetch? && i < es[k].n
    ensures FetchesFresh(At(s, es, k), es[k].n, i)
  {
    if !FetchesFresh(At(s, es, k), es[k].n, i) {
      var w := StaleOnlyThroughWindow(s, es, k, i);
      assert false;
    }
  }

  /** The queue refines plain fetch: over any run whose writes stay outside the window, every
      fetch gives the value the plain core reads, at the same instruction pointer. A run that
      leaves memory alone is the special case without writes. */
  lemma PrefetchRefinesPlain(s: State, es: seq<Event>, k: nat)
    requires RunOk(s, es) && !s.q.valid && WritesOutsideWindow(s, es)
    requires k < |es| && es[k].Fetch?
    ensures var now, plain := At(s, es, k), PlainAt(Plain(s.mem, s.at), es, k);
            && now.at == plain.at
            && FromLE(Delivered(now.q, now.mem, now.at, es[k].n))
               == FromLE(Window(plain.mem, plain.at, es[k].n))
  {
    SamePointerAndMemory(s, es, k);
    forall i: nat | i < es[k].n ensures FetchesFresh(At(s, es, k), es[k].n, i) {
      NeverStale(s, es, k, i);
    }
    FreshIsWindow(At(s, es, k), es[k].n);
  }

  // ---- slices and the local flush request -----------------------------------

  /** One decoded instruction: where it starts, the opcode that was fetched, whether the two-byte opcode
      map was active, whether it ended as an illegal opcode, and the fetches and writes it performs. */
  datatype Instr = Instr(eip: nat, twoByte: bool, opcode: Byte, illegal: bool, body: seq<Event>)

  /** The instructions after which `CPU_Core_Prefetch_Run` asks for a flush. */
  predicate Invalidates(i: Instr) {
    i.illegal || i.twoByte || 0x70 <= i.opcode <= 0x7f || i.opcode == 0x9a || i.opcode == 0xc2 || i.opcode == 0xc3
    || 0xc8 <= i.opcode <= 0xcf || 0xe0 <= i.opcode <= 0xe3 || 0xe8 <= i.opcode <= 0xeb || i.opcode == 0xff
  }

  /** The one-byte opcodes that change the flow of control: conditional jumps, calls, returns, frames,
      interrupts, loops, jumps, and group 5. */
  const FLOW_OPCODES: set<Byte> :=
    {0x70, 0x71, 0x72, 0x73, 0x74, 0x75, 0x76, 0x77, 0x78, 0x79, 0x7a, 0x7b, 0x7c, 0x7d, 0x7e, 0x7f, 0x9a,
     0xc2, 0xc3, 0xc8, 0xc9, 0xca, 0xcb, 0xcc, 0xcd, 0xce, 0xcf, 0xe0, 0xe1, 0xe2, 0xe3, 0xe8, 0xe9, 0xea, 0xeb, 0xff}

  lemma InvalidatesIff(i: Instr)
    ensures Invalidates(i) <==> i.illegal || i.twoByte || i.opcode in FLOW_OPCODES
  {
  }

  /** The events of one call of `CPU_Core_Prefetch_Run`; `pending` is the local `invalidate_pq`. */
  function SliceEvents(instrs: seq<Instr>, pending: bool): seq<Event> {
    if instrs == [] then [] else InstrEvents(instrs[0], pending) + SliceEvents(instrs[1..], Invalidates(instrs[0]))
  }

  function InstrEvents(i: Instr, pending: bool): (es: seq<Event>)
    ensures pending ==> |es| == 2 + |i.body| && es[0] == Flush && es[2..] == i.body
  {
    (if pending then [Flush] else []) + [Jump(i.eip)] + i.body
  }

  lemma {:induction false} SliceSplit(instrs: seq<Instr>, m: nat, pending: bool)
    requires 0 < m <= |instrs|
    ensures SliceEvents(instrs, pending)
            == SliceEvents(instrs[..m], pending) + SliceEvents(instrs[m..], Invalidates(instrs[m - 1]))
  {
    var first, next := InstrEvents(instrs[0], pending), Invalidates(instrs[0]);
    assert instrs[..m][1..] == instrs[1..][..m - 1];
    if m == 1 {
      assert SliceEvents(instrs[..m], pending) == first + SliceEvents([], next) == first;
    } else {
      SliceSplit(instrs[1..], m - 1, next);
      assert instrs[1..][m - 1..] == instrs[m..];
      Assoc(first, SliceEvents(instrs[1..][..m - 1], next), SliceEvents(instrs[m..], Invalidates(instrs[m - 1])));
    }
  }

  /** Where in a run the flush before instruction `m` of a slice falls. */
  function FlushAt(past: seq<Event>, instrs: seq<Instr>, m: nat): nat
    requires m <= |instrs|
  {
    |past| + |SliceEvents(instrs[..m], false)|
  }

  lemma BranchPositions(past: seq<Event>, instrs: seq<Instr>, m: nat, k: nat)
    requires 0 < m < |instrs| && Invalidates(instrs[m - 1]) && k < |instrs[m].body|
    ensures var es, f := past + SliceEvents(instrs, false), FlushAt(past, instrs, m);
            f + 2 + k < |es| && es[f] == Flush && es[f + 2 + k] == instrs[m].body[k]
  {
    SliceSplit(instrs, m, false);
    var head, rest := SliceEvents(instrs[..m], false), SliceEvents(instrs[m..], true);
    assert rest[0] == Flush && rest[2 + k] == instrs[m].body[k];
    assert past + SliceEvents(instrs, false) == (past + head) + rest;
  }

  /** Within a slice a flow-changing instruction makes its successor read fresh code: whatever ran
      before (`past`), every byte that instruction `m` fetches was loaded after the flush that
      instruction `m - 1` asked for, so no earlier write can be missed. */
  lemma FreshAfterBranch(s: State, past: seq<Event>, instrs: seq<Instr>, m: nat, k: nat, i: nat)
    returns (t: nat)
    requires RunOk(s, past + SliceEvents(instrs, false)) && !s.q.valid
    requires 0 < m < |instrs| && Invalidates(instrs[m - 1])
    requires k < |instrs[m].body| && instrs[m].body[k].Fetch? && i < instrs[m].body[k].n
    ensures var es, p := past + SliceEvents(instrs, false), FlushAt(past, instrs, m) + 2 + k;
            && p < |es| && es[p] == instrs[m].body[k] && FlushAt(past, instrs, m) < t <= p
            && SuppliedBy(s, es, t, p, i)
  {
    BranchPositions(past, instrs, m, k);
    t := LoadedAfterFlush(s, past + SliceEvents(instrs, false), FlushAt(past, instrs, m),
                          FlushAt(past, instrs, m) + 2 + k, i);
  }

  lemma LoadedAfterFlush(s: State, es: seq<Event>, flush: nat, p: nat, i: nat) returns (t: nat)
    requires RunOk(s, es) && !s.q.valid && flush < p < |es| && es[flush] == Flush
    requires es[p].Fetch? && i < es[p].n
    ensures flush < t <= p && SuppliedBy(s, es, t, p, i)
  {
    t := FetchProvenance(s, es, p, i);
    if t <= flush {
      NoFlushWhileHeld(s, es, t, p, At(s, es, p).at + i, flush);
    }
  }

  /** The request is a local variable, so one raised by the last instruction of a slice is lost: no matter
      whether `first` ends with such an instruction, the first fetch of the next slice is loaded after the
      end of `first` if and only if it misses the window left behind. On a hit its byte was loaded before. */
  lemma LostFlushIff(s: State, before: seq<Event>, past: seq<Event>, first: seq<Instr>, second: seq<Instr>, i: nat)
    returns (t: nat)
    requires before == past + SliceEvents(first, false)
    requires RunOk(s, before + SliceEvents(second, false)) && !s.q.valid
    requires second != [] && second[0].body != [] && second[0].body[0].Fetch? && i < second[0].body[0].n
    ensures var es, end, fetch := before + SliceEvents(second, false), |before|, second[0].body[0];
            && end + 1 < |es| && es[end + 1] == fetch && t <= end + 1 && SuppliedBy(s, es, t, end + 1, i)
            && (end <= t <==> !Hit(At(s, es, end).q, second[0].eip, fetch.n))
  {
    t := FirstFetchAfter(s, before + SliceEvents(second, false), before, second, i);
  }

  lemma FirstFetchAfter(s: State, es: seq<Event>, before: seq<Event>, second: seq<Instr>, i: nat) returns (t: nat)
    requires RunOk(s, es) && !s.q.valid && es == before + SliceEvents(second, false)
    requires second != [] && second[0].body != [] && second[0].body[0].Fetch? && i < second[0].body[0].n
    ensures var end, fetch := |before|, second[0].body[0];
            && end + 1 < |es| && es[end + 1] == fetch && t <= end + 1 && SuppliedBy(s, es, t, end + 1, i)
            && (end <= t <==> !Hit(At(s, es, end).q, second[0].eip, fetch.n))
  {
    BoundaryPositions(before, second);
    t := FirstFetchOfSlice(s, es, |before|, i);
  }

  lemma BoundaryPositions(before: seq<Event>, second: seq<Instr>)
    requires second != [] && second[0].body != []
    ensures var es, end := before + SliceEvents(second, false), |before|;
            end + 1 < |es| && es[end] == Jump(second[0].eip) && es[end + 1] == second[0].body[0]
  {
    var rest := SliceEvents(second, false);
    assert rest[0] == Jump(second[0].eip) && rest[1] == second[0].body[0];
  }

  lemma FirstFetchOfSlice(s: State, es: seq<Event>, end: nat, i: nat) returns (t: nat)
    requires RunOk(s, es) && !s.q.valid && end + 1 < |es| && es[end].Jump? && es[end + 1].Fetch? && i < es[end + 1].n
    ensures t <= end + 1 && SuppliedBy(s, es, t, end + 1, i)
    ensures end <= t <==> !Hit(At(s, es, end).q, es[end].target, es[end + 1].n)
  {
    t := FetchProvenance(s, es, end + 1, i);
    assert At(s, es, end + 1) == At(s, es, end).(at := es[end].target);
    assert es[t].Fetch?;
  }

  /** INC word [4] from `ff 06 04 00`; opcode 0xff asks for a flush. The word it increments is the next
      instruction: 0x90, a NOP, becomes 0x91, an XCHG. */
  const INC := Instr(0, false, 0xff, false, INC_BODY)
  const NOP := Instr(4, false, 0x90, false, [Fetch(1)])
  const XCHG := Instr(4, false, 0x91, false, [Fetch(1)])
  const INC_BODY: seq<Event> := [Fetch(1), Fetch(1), Fetch(2), Write(4, 0x91), Write(5, 0)]
  const APART: seq<Event> := [Jump(0)] + INC_BODY + [Jump(4), Fetch(1)]
  const TOGETHER: seq<Event> := [Jump(0)] + INC_BODY + [Flush, Jump(4), Fetch(1)]

  predicate Program(mem: Memory) {
    mem(0) == 0xff && mem(1) == 0x06 && mem(2) == 0x04 && mem(3) == 0 && mem(4) == 0x90 && mem(5) == 0
  }

  lemma ExampleSlices()
    ensures SliceEvents([INC], false) + SliceEvents([NOP], false) == APART
    ensures SliceEvents([INC, XCHG], false) == TOGETHER
  {
    assert SliceEvents([NOP][1..], Invalidates(NOP)) == [] && SliceEvents([INC][1..], true) == [];
    assert [INC, XCHG][1..] == [XCHG] && [XCHG][1..] == [];
    assert SliceEvents([XCHG], true) == [Flush, Jump(4), Fetch(1)];
  }

  /** The window agrees with memory, and reaches beyond `next`. */
  ghost predicate Covers(s: State, next: nat) {
    && s.at == next && InWindow(s.q, next)
    && forall a: nat :: InWindow(s.q, a) ==> Held(s.q, a) == s.mem(a)
  }

  lemma FetchCovers(s: State, n: nat)
    requires (n == 1 || n == 2) && SizeOk(|s.q.bytes|)
    requires s.q.valid ==> Covers(s, s.at) && s.at + n < s.q.start + |s.q.bytes|
    ensures var r := Step(s, Fetch(n));
            && Covers(r, s.at + n) && r.mem == s.mem
            && (s.q.valid ==> s.at + n + 5 <= r.q.start + |r.q.bytes| || r.q.start == s.at + n)
  {
    var r := Step(s, Fetch(n));
    forall a: nat | InWindow(r.q, a) ensures Held(r.q, a) == s.mem(a) {
      KeptOrLoaded(s, Fetch(n), a);
    }
  }

  /** Up to its writes the example reads its own code, and the window then holds the next instruction. */
  lemma ExampleFetches(s: State, es: seq<Event>)
    requires RunOk(s, es) && |es| >= 6 && es[..6] == [Jump(0)] + INC_BODY && !s.q.valid && Program(s.mem)
    ensures At(s, es, 1).at == 0 && At(s, es, 1).mem == s.mem && !At(s, es, 1).q.valid
    ensures Covers(At(s, es, 4), 4) && At(s, es, 4).mem == s.mem
  {
    assert es[..6][0] == Jump(0) && es[..6][1] == Fetch(1) && es[..6][2] == Fetch(1) && es[..6][3] == Fetch(2);
    assert At(s, es, 0) == s && At(s, es, 1) == Step(s, Jump(0));
    FetchCovers(At(s, es, 1), 1);
    assert At(s, es, 2) == Step(At(s, es, 1), Fetch(1));
    FetchCovers(At(s, es, 2), 1);
    assert At(s, es, 3) == Step(At(s, es, 2), Fetch(1));
    FetchCovers(At(s, es, 3), 2);
    assert At(s, es, 4) == Step(At(s, es, 3), Fetch(2));
  }

  /** After its writes memory holds the new instruction, the window still the old one. */
  lemma ExampleWrites(s: State, es: seq<Event>)
    requires RunOk(s, es) && |es| >= 6 && es[..6] == [Jump(0)] + INC_BODY && !s.q.valid && Program(s.mem)
    ensures At(s, es, 6).mem(4) == 0x91
    ensures InWindow(At(s, es, 6).q, 4) && Held(At(s, es, 6).q, 4) == 0x90
  {
    ExampleFetches(s, es);
    assert es[..6][4] == Write(4, 0x91) && es[..6][5] == Write(5, 0);
    assert At(s, es, 5) == Step(At(s, es, 4), Write(4, 0x91));
    assert At(s, es, 6) == Step(At(s, es, 5), Write(5, 0));
  }

  /** The lost request on a real program and every queue size. The increment reads its opcode from memory
      and rewrites the instruction behind it; the next slice still fetches the old instruction... */
  lemma FlushLostAtSliceEnd(s: State)
    requires SizeOk(|s.q.bytes|) && !s.q.valid && Program(s.mem)
    ensures APART == SliceEvents([INC], false) + SliceEvents([NOP], false) && Invalidates(INC) && RunOk(s, APART)
    ensures var now := At(s, APART, 1); Delivered(now.q, now.mem, now.at, 1) == [INC.opcode]
    ensures var now := At(s, APART, 7); now.mem(4) == 0x91 && Delivered(now.q, now.mem, now.at, 1) == [NOP.opcode]
  {
    ExampleSlices();
    ExampleFetches(s, APART);
    ExampleWrites(s, APART);
    assert At(s, APART, 7) == Step(At(s, APART, 6), APART[6]);
    DeliveredByte(At(s, APART, 1), 1, 0);
    DeliveredByte(At(s, APART, 7), 1, 0);
  }

  /** ...while within the slice the new one is fetched. */
  lemma FlushKeptInSlice(s: State)
    requires SizeOk(|s.q.bytes|) && !s.q.valid && Program(s.mem)
    ensures TOGETHER == SliceEvents([INC, XCHG], false) && RunOk(s, TOGETHER)
    ensures var now := At(s, TOGETHER, 1); Delivered(now.q, now.mem, now.at, 1) == [INC.opcode]
    ensures var now := At(s, TOGETHER, 8); Delivered(now.q, now.mem, now.at, 1) == [XCHG.opcode]
  {
    ExampleSlices();
    ExampleFetches(s, TOGETHER);
    ExampleWrites(s, TOGETHER);
    assert At(s, TOGETHER, 7) == Step(At(s, TOGETHER, 6), TOGETHER[6]);
    assert At(s, TOGETHER, 8) == Step(At(s, TOGETHER, 7), TOGETHER[7]);
    DeliveredByte(At(s, TOGETHER, 1), 1, 0);
    DeliveredByte(At(s, TOGETHER, 8), 1, 0);
  }
}
