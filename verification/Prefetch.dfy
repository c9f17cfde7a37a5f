/** The prefetch queue of the 386/486 "prefetch" cores: an address-tagged window over code
    memory that is shifted in place and partly refilled, and the plain fetch it stands for. */
module Prefetch {
  import opened Bytes

  const MAX_PQ_SIZE := 32

  /** The window of the queue as a value: `bytes[i]` is held for address `start + i`. */
  datatype Queue = Queue(valid: bool, start: nat, bytes: seq<Byte>)

  predicate SizeOk(size: nat) {
    4 <= size <= MAX_PQ_SIZE
  }

  predicate IsWidth(n: nat) {
    n == 1 || n == 2 || n == 4
  }

  /** What `LoadMb` reads over `len` consecutive addresses. */
  function Window(mem: Memory, start: nat, len: nat): (w: seq<Byte>)
    ensures |w| == len
    ensures forall i :: 0 <= i < len ==> w[i] == mem(start + i)
  {
    seq(len, i requires 0 <= i => mem(start + i))
  }

  /** The byte fetch accepts the last slot of the window; the wider ones stop short of it. */
  predicate Hit(q: Queue, at: nat, n: nat) {
    q.valid && q.start <= at &&
    if n == 1 then at < q.start + |q.bytes| else at + n < q.start + |q.bytes|
  }

  /** Whether a hit leaves fewer than five bytes, but at least one, and so moves the window. */
  predicate RunsLow(q: Queue, next: nat) {
    q.start + |q.bytes| <= next + 4 && next < q.start + |q.bytes|
  }

  /** The queue a fetch of `n` bytes at `at` leaves behind. */
  function AfterFetch(q: Queue, mem: Memory, at: nat, n: nat): (r: Queue)
    requires IsWidth(n) && SizeOk(|q.bytes|)
    ensures |r.bytes| == |q.bytes|
  {
    if !Hit(q, at, n) then Queue(true, at, Window(mem, at, |q.bytes|))
    else if RunsLow(q, at + n) then
      var gone := at + n - q.start;
      Queue(true, at + n, q.bytes[gone..] + Window(mem, q.start + |q.bytes|, gone))
    else q
  }

  /** The bytes such a fetch delivers, lowest address first. */
  function Delivered(q: Queue, mem: Memory, at: nat, n: nat): (r: seq<Byte>)
    requires IsWidth(n) && SizeOk(|q.bytes|)
    ensures |r| == n
  {
    if Hit(q, at, n) then q.bytes[at - q.start..][..n] else Window(mem, at, n)
  }

  lemma MissDelivers(q: Queue, mem: Memory, at: nat, n: nat, b: Byte)
    requires IsWidth(n) && SizeOk(|q.bytes|) && !Hit(q, at, n) && mem(at) == b
    ensures Delivered(q, mem, at, n)[0] == b
  {
    var w := Window(mem, at, n);
    assert w[0] == mem(at + 0);
  }

  /** What a fetch gives depends on the queue alone if and only if its bytes are in the window and, but for a
      single byte, do not reach the last slot. */
  lemma ServedFromQueueIff(q: Queue, at: nat, n: nat)
    requires IsWidth(n) && SizeOk(|q.bytes|)
    ensures (forall m, m' :: Delivered(q, m, at, n) == Delivered(q, m', at, n))
            <==> q.valid && q.start <= at
                 && (at + n < q.start + |q.bytes| || (n == 1 && at + n == q.start + |q.bytes|))
  {
    if !Hit(q, at, n) {
      var zeros: Memory, ones: Memory := (a: nat) => 0, (a: nat) => 1;
      MissDelivers(q, zeros, at, n, 0);
      MissDelivers(q, ones, at, n, 1);
    }
  }

  class Core {
    const queueSize: nat
    const buffer: array<Byte>
    var pqValid: bool
    var pqStart: nat
    var cseip: nat
    var memory: Memory

    ghost predicate Valid()
      reads this
    {
      SizeOk(queueSize) && buffer.Length == MAX_PQ_SIZE
    }

    ghost function View(): Queue
      requires Valid()
      reads this, buffer
    {
      Queue(pqValid, pqStart, buffer[..queueSize])
    }

    constructor (size: nat, mem: Memory)
      requires SizeOk(size)
      ensures Valid() && queueSize == size && memory == mem && !pqValid && fresh(buffer)
    {
      queueSize := size;
      buffer := new Byte[MAX_PQ_SIZE](_ => 0);
      pqValid, pqStart, cseip, memory := false, 0, 0, mem;
    }

    /** The two loops that move the window up to `next` and load the rest from memory. */
    method Shift(next: nat)
      requires Valid() && pqStart <= next < pqStart + queueSize
      modifies buffer, `pqStart, `pqValid
      ensures View() == Queue(true, next,
                              old(buffer[..queueSize])[next - old(pqStart)..]
                              + Window(memory, old(pqStart) + queueSize, next - old(pqStart)))
    {
      var remaining := pqStart + queueSize - next;
      var gone := next - pqStart;
      for i := 0 to remaining
        invariant forall k :: 0 <= k < i ==> buffer[k] == old(buffer[gone + k])
        invariant forall k :: i <= k < MAX_PQ_SIZE ==> buffer[k] == old(buffer[k])
      {
        buffer[i] := buffer[gone + i];
      }
      for i := remaining to queueSize
        invariant forall k :: 0 <= k < remaining ==> buffer[k] == old(buffer[gone + k])
        invariant forall k :: remaining <= k < i ==> buffer[k] == memory(next + k)
      {
        buffer[i] := memory(next + i);
      }
      pqStart, pqValid := next, true;
    }

    /** The miss branch: load the whole window at the instruction pointer. */
    method Refill()
      requires Valid()
      modifies buffer, `pqStart, `pqValid
      ensures View() == Queue(true, cseip, Window(memory, cseip, queueSize))
    {
      for i := 0 to queueSize
        invariant forall k :: 0 <= k < i ==> buffer[k] == memory(cseip + k)
      {
        buffer[i] := memory(cseip + i);
      }
      pqStart, pqValid := cseip, true;
    }

    method FetchB() returns (value: nat)
      requires Valid()
      modifies buffer, `pqStart, `pqValid, `cseip
      ensures value < 256 && value == FromLE(Delivered(old(View()), memory, old(cseip), 1))
      ensures View() == AfterFetch(old(View()), memory, old(cseip), 1)
      ensures cseip == old(cseip) + 1
    {
      ghost var sent := Delivered(View(), memory, cseip, 1);
      if pqValid && pqStart <= cseip < pqStart + queueSize {
        value := buffer[cseip - pqStart];
        assert sent == [value];
        FromLE1(value);
        if pqStart + queueSize - 4 <= cseip + 1 < pqStart + queueSize {
          Shift(cseip + 1);
        }
      } else {
        Refill();
        value := buffer[0];
        assert buffer[0] == View().bytes[0];
        assert sent == [value];
        FromLE1(value);
      }
      cseip := cseip + 1;
    }

    method FetchW() returns (value: nat)
      requires Valid()
      modifies buffer, `pqStart, `pqValid, `cseip
      ensures value == FromLE(Delivered(old(View()), memory, old(cseip), 2))
      ensures View() == AfterFetch(old(View()), memory, old(cseip), 2)
      ensures cseip == old(cseip) + 2
    {
      ghost var sent := Delivered(View(), memory, cseip, 2);
      if pqValid && pqStart <= cseip && cseip + 2 < pqStart + queueSize {
        var k := cseip - pqStart;
        value := Pack2(buffer[k], buffer[k + 1]);
        assert sent == [buffer[k], buffer[k + 1]];
        if pqStart + queueSize - 4 <= cseip + 2 < pqStart + queueSize {
          Shift(cseip + 2);
        }
      } else {
        Refill();
        value := Pack2(buffer[0], buffer[1]);
        assert buffer[0] == View().bytes[0] && buffer[1] == View().bytes[1];
        assert sent == [buffer[0], buffer[1]];
      }
      cseip := cseip + 2;
    }

    method FetchD() returns (value: nat)
      requires Valid()
      modifies buffer, `pqStart, `pqValid, `cseip
      ensures value == FromLE(Delivered(old(View()), memory, old(cseip), 4))
      ensures View() == AfterFetch(old(View()), memory, old(cseip), 4)
      ensures cseip == old(cseip) + 4
    {
      ghost var sent := Delivered(View(), memory, cseip, 4);
      if pqValid && pqStart <= cseip && cseip + 4 < pqStart + queueSize {
        var k := cseip - pqStart;
        value := Pack4(buffer[k], buffer[k + 1], buffer[k + 2], buffer[k + 3]);
        assert sent == [buffer[k], buffer[k + 1], buffer[k + 2], buffer[k + 3]];
        if pqStart + queueSize - 4 <= cseip + 4 < pqStart + queueSize {
          Shift(cseip + 4);
        }
      } else {
        Refill();
        value := Pack4(buffer[0], buffer[1], buffer[2], buffer[3]);
        assert forall j :: 0 <= j < 4 ==> buffer[j] == View().bytes[j];
        assert sent == [buffer[0], buffer[1], buffer[2], buffer[3]];
      }
      cseip := cseip + 4;
    }
  }

  lemma FromLE1(b: Byte)
    ensures FromLE([b]) == b
  {
    assert [b][1..] == [];
  }

  /** `b0 | b1 << 8` */
  function Pack2(b0: Byte, b1: Byte): (n: nat)
    ensures n == FromLE([b0, b1])
  {
    assert [b0, b1][1..] == [b1] && [b1][1..] == [];
    assert FromLE([b1]) == b1;
    b0 + 0x100 * (b1 as nat)
  }

  /** `b0 | b1 << 8 | b2 << 16 | b3 << 24` */
  function Pack4(b0: Byte, b1: Byte, b2: Byte, b3: Byte): (n: nat)
    ensures n == FromLE([b0, b1, b2, b3])
  {
    FromLE4([b0, b1, b2, b3]);
    b0 + 0x100 * (b1 as nat) + 0x1_0000 * (b2 as nat) + 0x100_0000 * (b3 as nat)
  }
}
