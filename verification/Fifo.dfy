/** The serial port FIFO: a ring buffer that overwrites its newest byte when full and repeats its last
    delivered byte when empty. */
module Fifo {
  import opened Bytes

  const MAX_FIFO_SIZE := 256

  // ---- the abstract queue ---------------------------------------------------

  /** `rest` is the byte at the front, or what a read of the empty queue gives. */
  datatype Queue = Queue(size: nat, contents: seq<Byte>, rest: Byte)

  predicate Ok(q: Queue) {
    |q.contents| <= q.size && (q.contents != [] ==> q.rest == q.contents[0])
  }

  function Add(q: Queue, v: Byte): (r: Queue)
    requires Ok(q) && q.size > 0
    ensures Ok(r)
  {
    if |q.contents| < q.size then
      Queue(q.size, q.contents + [v], if q.contents == [] then v else q.rest)
    else
      var kept := q.contents[..|q.contents| - 1] + [v];
      Queue(q.size, kept, kept[0])
  }

  function Get(q: Queue): (r: Queue)
    requires Ok(q)
    ensures Ok(r)
  {
    if q.contents == [] then q
    else if |q.contents| == 1 then q.(contents := [])
    else Queue(q.size, q.contents[1..], q.contents[1])
  }

  /** An emptied queue of some size; `seen` is what the first slot then holds. */
  function Emptied(size: nat, seen: Byte): (r: Queue)
    ensures Ok(r)
  {
    Queue(size, [], seen)
  }

  // ---- whole runs -----------------------------------------------------------

  datatype Op = DoAdd(v: Byte) | DoGet | DoClear | DoResize(n: nat, seen: Byte)

  predicate IsReset(op: Op) {
    op.DoClear? || op.DoResize?
  }

  /** A run starts with a nonzero size and never sets the size to zero. */
  ghost predicate RunOk(q: Queue, ops: seq<Op>) {
    Ok(q) && q.size > 0 && forall i :: 0 <= i < |ops| && ops[i].DoResize? ==> ops[i].n > 0
  }

  function Apply(q: Queue, op: Op): (r: Queue)
    requires Ok(q) && q.size > 0 && (op.DoResize? ==> op.n > 0)
    ensures Ok(r) && r.size > 0
  {
    match op
    case DoAdd(v) => Add(q, v)
    case DoGet => Get(q)
    case DoClear => Emptied(q.size, 0)
    case DoResize(n, seen) => Emptied(n, seen)
  }

  /** The state after a run. */
  function Run(q: Queue, ops: seq<Op>): (r: Queue)
    requires RunOk(q, ops)
    ensures Ok(r) && r.size > 0
    decreases |ops|
  {
    if ops == [] then q else Apply(Run(q, ops[..|ops| - 1]), ops[|ops| - 1])
  }

  /** What a step delivers: a read of the nonempty queue gives its front byte. */
  function Output(q: Queue, op: Op): seq<Byte> {
    if op.DoGet? && q.contents != [] then [q.contents[0]] else []
  }

  /** The bytes that reads of the nonempty queue delivered. */
  function Delivered(q: Queue, ops: seq<Op>): seq<Byte>
    requires RunOk(q, ops)
    decreases |ops|
  {
    if ops == [] then []
    else Delivered(q, ops[..|ops| - 1]) + Output(Run(q, ops[..|ops| - 1]), ops[|ops| - 1])
  }

  /** The bytes put in: an add that found the queue full replaces the byte before it, and a clear or resize
      takes back the bytes not yet read. */
  function Accepted(q: Queue, ops: seq<Op>): seq<Byte>
    requires RunOk(q, ops)
    decreases |ops|
  {
    if ops == [] then q.contents
    else
      var before := Run(q, ops[..|ops| - 1]);
      var so := Accepted(q, ops[..|ops| - 1]);
      match ops[|ops| - 1]
      case DoGet => so
      case DoAdd(v) => if |before.contents| < before.size then so + [v] else Shorter(so, 1) + [v]
      case _ => Shorter(so, |before.contents|)
  }

  function Shorter(s: seq<Byte>, n: nat): seq<Byte> {
    if n <= |s| then s[..|s| - n] else []
  }

  /** Nothing is lost, doubled or reordered: what was delivered and what is still queued are together
      what was put in. */
  lemma {:induction false} DeliversInOrder(q: Queue, ops: seq<Op>)
    requires RunOk(q, ops)
    ensures Delivered(q, ops) + Run(q, ops).contents == Accepted(q, ops)
    decreases |ops|
  {
    if ops != [] {
      var init, op := ops[..|ops| - 1], ops[|ops| - 1];
      DeliversInOrder(q, init);
      StepInOrder(Delivered(q, init), Run(q, init), op);
    }
  }

  /** One step, with `d` delivered so far. */
  lemma StepInOrder(d: seq<Byte>, q: Queue, op: Op)
    requires Ok(q) && q.size > 0 && (op.DoResize? ==> op.n > 0)
    ensures op.DoGet? ==> d + Output(q, op) + Apply(q, op).contents == d + q.contents
    ensures op.DoAdd? && |q.contents| < q.size ==> d + Apply(q, op).contents == d + q.contents + [op.v]
    ensures op.DoAdd? && |q.contents| >= q.size ==>
              d + Apply(q, op).contents == Shorter(d + q.contents, 1) + [op.v]
    ensures IsReset(op) ==> d + Apply(q, op).contents == Shorter(d + q.contents, |q.contents|)
  {
    var c := q.contents;
    if c != [] {
      assert c == [c[0]] + c[1..];
      assert (d + c)[..|d + c| - 1] == d + c[..|c| - 1];
    }
  }

  /** The bytes of the add operations, in order. */
  function Inputs(ops: seq<Op>): seq<Byte>
    decreases |ops|
  {
    if ops == [] then []
    else Inputs(ops[..|ops| - 1]) + if ops[|ops| - 1].DoAdd? then [ops[|ops| - 1].v] else []
  }

  /** No add of the run met a full queue, and no clear or resize found bytes to throw away. */
  ghost predicate NoneRejected(q: Queue, ops: seq<Op>)
    requires RunOk(q, ops)
    decreases |ops|
  {
    ops == [] ||
    (NoneRejected(q, ops[..|ops| - 1]) &&
     var before := Run(q, ops[..|ops| - 1]);
     && (ops[|ops| - 1].DoAdd? ==> |before.contents| < before.size)
     && (IsReset(ops[|ops| - 1]) ==> before.contents == []))
  }

  lemma {:induction false} InputsKept(q: Queue, ops: seq<Op>)
    requires RunOk(q, ops)
    ensures |Accepted(q, ops)| <= |q.contents| + |Inputs(ops)|
    ensures NoneRejected(q, ops) ==> Accepted(q, ops) == q.contents + Inputs(ops)
    ensures !NoneRejected(q, ops) ==> |Accepted(q, ops)| < |q.contents| + |Inputs(ops)|
    decreases |ops|
  {
    if ops != [] {
      InputsKept(q, ops[..|ops| - 1]);
      DeliversInOrder(q, ops[..|ops| - 1]);
    }
  }

  /** All inputs come out, or still wait, in order, if and only if no add met a full queue and no byte was
      thrown away by a clear or resize. */
  lemma AllDeliveredIff(q: Queue, ops: seq<Op>)
    requires RunOk(q, ops)
    ensures Delivered(q, ops) + Run(q, ops).contents == q.contents + Inputs(ops) <==> NoneRejected(q, ops)
  {
    DeliversInOrder(q, ops);
    InputsKept(q, ops);
  }

  /** What was delivered since the last clear or resize. */
  function SinceReset(q: Queue, ops: seq<Op>): seq<Byte>
    requires RunOk(q, ops)
    decreases |ops|
  {
    if ops == [] || IsReset(ops[|ops| - 1]) then []
    else SinceReset(q, ops[..|ops| - 1]) + Output(Run(q, ops[..|ops| - 1]), ops[|ops| - 1])
  }

  /** After any run that leaves the queue drained, `rest` is the byte delivered last. */
  lemma {:induction false} DrainKeepsLast(q: Queue, ops: seq<Op>)
    requires RunOk(q, ops) && Run(q, ops).contents == [] && SinceReset(q, ops) != []
    ensures Run(q, ops).rest == SinceReset(q, ops)[|SinceReset(q, ops)| - 1]
    decreases |ops|
  {
    var init, op := ops[..|ops| - 1], ops[|ops| - 1];
    if op.DoGet? && Run(q, init).contents == [] {
      DrainKeepsLast(q, init);
    }
  }

  /** Reads of a drained queue repeat the byte delivered last, any number of times. */
  lemma {:induction false} EmptyRepeats(q: Queue, ops: seq<Op>, gets: seq<Op>)
    requires RunOk(q, ops) && Run(q, ops).contents == [] && SinceReset(q, ops) != []
    requires forall i :: 0 <= i < |gets| ==> gets[i].DoGet?
    ensures Run(q, ops + gets) == Run(q, ops)
    ensures Run(q, ops + gets).rest == SinceReset(q, ops)[|SinceReset(q, ops)| - 1]
    decreases |gets|
  {
    if gets == [] {
      assert ops + gets == ops;
      DrainKeepsLast(q, ops);
    } else {
      EmptyRepeats(q, ops, gets[..|gets| - 1]);
      assert (ops + gets)[..|ops + gets| - 1] == ops + gets[..|gets| - 1];
    }
  }

  // ---- the ring buffer ------------------------------------------------------

  /** Slot `i` places after `pos`. */
  function Wrap(where: nat, size: nat): nat {
    if where >= size then where - size else where
  }

  /** `used` bytes of a ring, starting at `pos`. */
  function Ring(d: seq<Byte>, pos: nat, used: nat): (s: seq<Byte>)
    requires used <= |d| && (|d| > 0 ==> pos < |d|)
    ensures |s| == used && forall i :: 0 <= i < used ==> s[i] == d[Wrap(pos + i, |d|)]
  {
    seq(used, i requires 0 <= i < used => d[Wrap(pos + i, |d|)])
  }

  /** Taking the front byte of a ring. */
  lemma NextRing(d: seq<Byte>, pos: nat, used: nat)
    requires 0 < used <= |d| && pos < |d|
    ensures Ring(d, pos, used)[0] == d[pos] && Ring(d, pos, 0) == []
    ensures used > 1 ==> Ring(d, Wrap(pos + 1, |d|), used - 1) == Ring(d, pos, used)[1..]
  {
  }

  class MyFifo {
    var data: array<Byte>
    var size: nat
    var pos: nat
    var used: nat

    ghost predicate Valid()
      reads this
    {
      data.Length == size && used <= size && (size > 0 ==> pos < size)
    }

    ghost function Contents(): (s: seq<Byte>)
      requires Valid()
      reads this, data
      ensures |s| == used
    {
      Ring(data[..], pos, used)
    }

    ghost function View(): Queue
      requires Valid() && size > 0
      reads this, data
    {
      Queue(size, Contents(), data[pos])
    }

    constructor (n: nat)
      requires n <= MAX_FIFO_SIZE
      ensures Valid() && fresh(data) && size == n && (n > 0 ==> View() == Queue(n, [], 0))
    {
      data := new Byte[n](_ => 0);
      size, pos, used := n, 0, 0;
    }

    method GetUsage() returns (n: nat, free: nat, empty: bool, full: bool)
      requires Valid()
      ensures n == |Contents()| && free == size - |Contents()|
      ensures empty == (Contents() == []) && full == (|Contents()| == size)
    {
      n, free, empty, full := used, size - used, used == 0, size - used == 0;
    }

    /** `vector::resize` keeps the old bytes that fit, so a read of the emptied queue gives the first. */
    method SetSize(n: nat)
      requires Valid() && n <= MAX_FIFO_SIZE
      modifies this
      ensures Valid() && fresh(data) && size == n
      ensures n > 0 && old(size) > 0 ==> View() == Apply(old(View()), DoResize(n, old(data[0])))
      ensures n > 0 && old(size) == 0 ==> View() == Emptied(n, 0)
    {
      var copy := new Byte[n](_ => 0);
      forall i | 0 <= i < n && i < size {
        copy[i] := data[i];
      }
      data, size, pos, used := copy, n, 0, 0;
    }

    method Clear()
      requires Valid()
      modifies `pos, `used, data
      ensures Valid() && (size > 0 ==> View() == Apply(old(View()), DoClear))
    {
      pos, used := 0, 0;
      forall i | 0 <= i < data.Length {
        data[i] := 0;
      }
    }

    method AddB(val: Byte) returns (ok: bool)
      requires Valid() && size > 0
      modifies `used, data
      ensures Valid() && View() == Apply(old(View()), DoAdd(val))
      ensures ok == (|old(Contents())| < size)
    {
      ghost var before := Contents();
      var where := pos + used;
      if where >= size {
        where := where - size;
      }
      if used >= size {
        if where == 0 {
          where := size - 1;
        } else {
          where := where - 1;
        }
        data[where] := val;
        assert Contents() == before[..used - 1] + [val];
        return false;
      }
      data[where] := val;
      used := used + 1;
      assert Contents() == before + [val];
      return true;
    }

    method GetB() returns (val: Byte)
      requires Valid() && size > 0
      modifies `pos, `used
      ensures Valid() && View() == Apply(old(View()), DoGet)
      ensures val == old(View()).rest
    {
      if used == 0 {
        return data[pos];
      }
      NextRing(data[..], pos, used);
      var where := pos;
      used := used - 1;
      if used > 0 {
        pos := pos + 1;
      }
      if pos >= size {
        pos := pos - size;
      }
      return data[where];
    }

    /** The newest byte if the queue is full; otherwise whatever the next free slot still holds. */
    method GetTop() returns (val: Byte)
      requires Valid() && size > 0
      ensures |Contents()| == size ==> val == Contents()[size - 1]
      ensures |Contents()| < size ==> val == data[Wrap(pos + used, size)]
    {
      var where := pos + used;
      if where >= size {
        where := where - size;
      }
      if used >= size {
        if where == 0 {
          where := size - 1;
        } else {
          where := where - 1;
        }
      }
      val := data[where];
    }

    method ProbeByte() returns (val: Byte)
      requires Valid() && size > 0
      ensures val == View().rest
    {
      val := data[pos];
    }
  }
}
