/** RIFF chunks: a four-byte tag, a little-endian size, and the data padded to an even length. */
module Riff {
  import opened Bytes

  const T_RIFF: seq<Byte> := [0x52, 0x49, 0x46, 0x46]

  /** A chunk as it stands in a file; `data` includes the padding byte of an odd `size`. */
  datatype Chunk = Chunk(tag: seq<Byte>, size: nat, data: seq<Byte>)

  /** `(size + 1) & ~1` */
  function Even(size: nat): (r: nat)
    ensures size <= r <= size + 1 && r % 2 == 0
  {
    2 * ((size + 1) / 2)
  }

  predicate ChunkOk(c: Chunk) {
    |c.tag| == 4 && c.size < TWO32 && |c.data| == Even(c.size)
  }

  lemma EvenOfDouble(k: nat)
    ensures Even(2 * k) == 2 * k
  {
  }

  /** A stream of padded chunks has even length. */
  lemma {:induction false} StreamEven(cs: seq<Chunk>) returns (half: nat)
    requires forall i :: 0 <= i < |cs| ==> ChunkOk(cs[i])
    ensures |Stream(cs)| == 2 * half
    decreases |cs|
  {
    if cs == [] {
      half := 0;
    } else {
      var rest := StreamEven(cs[1..]);
      half := rest + 4 + (cs[0].size + 1) / 2;
    }
  }

  function ChunkBytes(c: Chunk): (s: seq<Byte>) {
    c.tag + LE(c.size, 4) + c.data
  }

  /** Chunks one after the other. */
  function Stream(cs: seq<Chunk>): (s: seq<Byte>) {
    if cs == [] then [] else ChunkBytes(cs[0]) + Stream(cs[1..])
  }

  datatype Walked = Broken | Walked(chunks: seq<Chunk>)

  /** The reader: from chunk to chunk by the declared, even-padded sizes, to the exact end. */
  function Walk(s: seq<Byte>): (w: Walked)
    decreases |s|
  {
    if s == [] then Walked([])
    else if |s| < 8 then Broken
    else
      var size := FromLE(s[4..8]);
      if |s| < 8 + Even(size) then Broken
      else
        match Walk(s[8 + Even(size)..])
        case Broken => Broken
        case Walked(rest) => Walked([Chunk(s[..4], size, s[8..8 + Even(size)])] + rest)
  }

  lemma WalkOne(c: Chunk, rest: seq<Byte>)
    requires ChunkOk(c)
    ensures var s := ChunkBytes(c) + rest;
            && |s| == 8 + |c.data| + |rest| && s[..4] == c.tag && FromLE(s[4..8]) == c.size
            && s[8..8 + |c.data|] == c.data && s[8 + |c.data|..] == rest
  {
    var s := ChunkBytes(c) + rest;
    assert s[4..8] == LE(c.size, 4);
    Pow256Of4();
    LERoundTrip(c.size, 4);
  }

  /** The sizes tile the stream: walking it gives back every chunk and ends where it ends. */
  lemma {:induction false} WalkStream(cs: seq<Chunk>)
    requires forall i :: 0 <= i < |cs| ==> ChunkOk(cs[i])
    ensures Walk(Stream(cs)) == Walked(cs)
    decreases |cs|
  {
    if cs != [] {
      WalkStream(cs[1..]);
      WalkOne(cs[0], Stream(cs[1..]));
      assert cs == [cs[0]] + cs[1..];
    }
  }

  lemma {:induction false} StreamConcat(a: seq<Chunk>, b: seq<Chunk>)
    ensures Stream(a + b) == Stream(a) + Stream(b)
    decreases |a|
  {
    if a == [] {
      assert a + b == b;
    } else {
      StreamConcat(a[1..], b);
      assert (a + b)[1..] == a[1..] + b;
      Assoc(ChunkBytes(a[0]), Stream(a[1..]), Stream(b));
    }
  }

  lemma StreamAppend(cs: seq<Chunk>, c: Chunk)
    ensures Stream(cs + [c]) == Stream(cs) + ChunkBytes(c)
  {
    StreamConcat(cs, [c]);
    assert [c][1..] == [];
    assert Stream([c]) == ChunkBytes(c) + [];
  }

  /** Chunk `k` starts where the chunks before it end. */
  lemma ChunkAt(cs: seq<Chunk>, k: nat)
    requires k < |cs|
    ensures Stream(cs) == Stream(cs[..k]) + ChunkBytes(cs[k]) + Stream(cs[k + 1..])
  {
    assert cs == cs[..k] + cs[k..];
    StreamConcat(cs[..k], cs[k..]);
    assert cs[k..][1..] == cs[k + 1..];
  }
}
