/** `Memcpy` (aeron/util/bits.go:81-109) on one flat memory, so that source and destination may overlap. */
module Memory {
  import opened Bits

  /** Memory with n bytes of another one in it: the rest is as it was. */
  function Spliced(mem: seq<byte>, dest: nat, from: seq<byte>, src: nat, n: nat): (r: seq<byte>)
    requires dest + n <= |mem| && src + n <= |from|
    ensures |r| == |mem|
  {
    mem[..dest] + from[src..src + n] + mem[dest + n..]
  }

  /** One store of `width` bytes, which move together. */
  function Moved(mem: seq<byte>, dest: nat, src: nat, i: nat, width: nat): (r: seq<byte>)
    requires dest + i + width <= |mem| && src + i + width <= |mem|
    ensures |r| == |mem|
  {
    Spliced(mem, dest + i, mem, src + i, width)
  }

  /** Where one of the three loops leaves its index. */
  function LoopEnd(from: nat, bound: int, width: nat): (i: nat)
    requires width > 0
    ensures bound <= i && from <= i && (i == from || (from < bound && i < bound + width))
    decreases bound - from
  {
    if from < bound then LoopEnd(from + width, bound, width) else from
  }

  predicate Inside(mem: seq<byte>, dest: nat, src: nat, n: int) {
    dest <= |mem| && src <= |mem| && dest + n <= |mem| && src + n <= |mem|
  }

  /** One of the three loops: batches of `width` bytes while the index is below `bound`. */
  function Batches(mem: seq<byte>, dest: nat, src: nat, from: nat, bound: int, width: nat): (r: seq<byte>)
    requires width > 0 && (from < bound ==> Inside(mem, dest, src, bound + width - 1))
    ensures |r| == |mem|
    decreases bound - from
  {
    if from < bound then Batches(Moved(mem, dest, src, from, width), dest, src, from + width, bound, width) else mem
  }

  /** Where the 8-byte loop and the 4-byte loop stop: their bounds, i < length/8 and then i < (length-i)/4, are
      early. */
  function After8(length: int): (i: nat)
    ensures i == 0 || i <= length
  {
    LoopEnd(0, length / 8, 8)
  }

  function After4(length: int): (i: nat)
    ensures i == 0 || i <= length
  {
    LoopEnd(After8(length), (length - After8(length)) / 4, 4)
  }

  /** The three loops. */
  function Memcopied(mem: seq<byte>, dest: nat, src: nat, length: int): (r: seq<byte>)
    requires Inside(mem, dest, src, length)
    ensures |r| == |mem|
  {
    var m8 := Batches(mem, dest, src, 0, length / 8, 8);
    var m4 := Batches(m8, dest, src, After8(length), (length - After8(length)) / 4, 4);
    Batches(m4, dest, src, After4(length), length, 1)
  }

  method CopyBatches(mem: array<byte>, dest: nat, src: nat, from: nat, bound: int, width: nat) returns (i: nat)
    requires width > 0 && (from < bound ==> Inside(mem[..], dest, src, bound + width - 1))
    modifies mem
    ensures i == LoopEnd(from, bound, width) && mem[..] == Batches(old(mem[..]), dest, src, from, bound, width)
  {
    hide Spliced;
    i := from;
    while i < bound
      invariant from <= i && LoopEnd(i, bound, width) == LoopEnd(from, bound, width)
      invariant i < bound ==> Inside(mem[..], dest, src, bound + width - 1)
      invariant Batches(mem[..], dest, src, i, bound, width) == Batches(old(mem[..]), dest, src, from, bound, width)
    {
      CopyWord(mem, dest, src, i, width);
      i := i + width;
    }
  }

  method CopyWord(mem: array<byte>, dest: nat, src: nat, i: nat, width: nat)
    requires dest + i + width <= mem.Length && src + i + width <= mem.Length
    modifies mem
    ensures mem[..] == Moved(old(mem[..]), dest, src, i, width)
  {
    ghost var was := mem[..];
    var word := mem[src + i..src + i + width];
    forall j | 0 <= j < width { mem[dest + i + j] := word[j]; }
    forall k | 0 <= k < mem.Length
      ensures mem[..][k] == Moved(was, dest, src, i, width)[k]
    {
      if dest + i <= k < dest + i + width {
        var j := k - dest - i;
        assert mem[dest + i + j] == word[j];
      }
    }
  }

  /** `Memcpy`. A negative length moves nothing. */
  method Memcpy(mem: array<byte>, dest: nat, src: nat, length: int)
    requires Inside(mem[..], dest, src, length)
    modifies mem
    ensures mem[..] == Memcopied(old(mem[..]), dest, src, length)
  {
    hide Batches;
    var i := CopyBatches(mem, dest, src, 0, length / 8, 8);
    i := CopyBatches(mem, dest, src, i, (length - i) / 4, 4);
    i := CopyBatches(mem, dest, src, i, length, 1);
  }

  // ---------------------------------------------------------------------------------------------
  // Exactly when it copies
  // ---------------------------------------------------------------------------------------------

  /** What a copy should leave behind: exactly [0, length) of the source, as it was, and no other byte. */
  function Copied(mem: seq<byte>, dest: nat, src: nat, length: int): (r: seq<byte>)
    requires Inside(mem, dest, src, length)
  {
    Spliced(mem, dest, mem, src, if length < 0 then 0 else length)
  }

  predicate Apart(dest: nat, src: nat, length: int) {
    dest <= src || src + length <= dest
  }

  /** A loop extends what has been copied, when no store reaches a source byte still to be read. */
  lemma {:induction false} BatchesCopy(mem: seq<byte>, dest: nat, src: nat, length: int, i: nat, bound: int, width: nat)
    requires width > 0 && Inside(mem, dest, src, length) && Apart(dest, src, length)
    requires (i == 0 || i <= length) && (i < bound ==> bound + width - 1 <= length)
    ensures LoopEnd(i, bound, width) <= length || LoopEnd(i, bound, width) == 0
    ensures Batches(Spliced(mem, dest, mem, src, i), dest, src, i, bound, width)
         == Spliced(mem, dest, mem, src, LoopEnd(i, bound, width))
    decreases bound - i
  {
    hide Spliced, Moved;
    if i < bound {
      OneMoreWord(mem, dest, src, length, i, width);
      BatchesCopy(mem, dest, src, length, i + width, bound, width);
    }
  }

  lemma OneMoreWord(mem: seq<byte>, dest: nat, src: nat, length: int, i: nat, width: nat)
    requires Inside(mem, dest, src, length) && Apart(dest, src, length) && i + width <= length
    ensures Moved(Spliced(mem, dest, mem, src, i), dest, src, i, width) == Spliced(mem, dest, mem, src, i + width)
  {
    hide Spliced;
    var m := Spliced(mem, dest, mem, src, i);
    var a, b := Moved(m, dest, src, i, width), Spliced(mem, dest, mem, src, i + width);
    forall k | 0 <= k < |mem|
      ensures a[k] == b[k]
    {
      SplicedAt(m, dest + i, m, src + i, width, k);
      SplicedAt(mem, dest, mem, src, i, k);
      SplicedAt(mem, dest, mem, src, i + width, k);
      if dest + i <= k < dest + i + width {
        SplicedAt(mem, dest, mem, src, i, src + (k - dest));
      }
    }
  }

  lemma SplicedAt(mem: seq<byte>, dest: nat, from: seq<byte>, src: nat, n: nat, k: nat)
    requires dest + n <= |mem| && src + n <= |from| && k < |mem|
    ensures Spliced(mem, dest, from, src, n)[k] == if dest <= k < dest + n then from[src + (k - dest)] else mem[k]
  {
  }

  lemma ApartCopies(mem: seq<byte>, dest: nat, src: nat, length: int)
    requires Inside(mem, dest, src, length) && Apart(dest, src, length)
    ensures Memcopied(mem, dest, src, length) == Copied(mem, dest, src, length)
  {
    hide Spliced, Batches;
    NothingSpliced(mem, dest, src);
    BatchesCopy(mem, dest, src, length, 0, length / 8, 8);
    BatchesCopy(mem, dest, src, length, After8(length), (length - After8(length)) / 4, 4);
    BatchesCopy(mem, dest, src, length, After4(length), length, 1);
  }

  lemma NothingSpliced(mem: seq<byte>, dest: nat, src: nat)
    requires dest <= |mem| && src <= |mem|
    ensures Spliced(mem, dest, mem, src, 0) == mem
  {
  }

  /** One store does the whole copy, so overlap does not matter. */
  lemma SingleWordCopies(mem: seq<byte>, dest: nat, src: nat, length: int)
    requires Inside(mem, dest, src, length) && (length == 4 || length == 8)
    ensures Memcopied(mem, dest, src, length) == Copied(mem, dest, src, length)
  {
    hide Spliced;
    assert After8(length) == if length == 8 then 8 else 0;
    assert After4(length) == length;
  }

  predicate AllZero(mem: seq<byte>) {
    forall k | 0 <= k < |mem| :: mem[k] == 0
  }

  lemma {:induction false} ZeroStays(mem: seq<byte>, dest: nat, src: nat, from: nat, bound: int, width: nat)
    requires AllZero(mem) && width > 0 && (from < bound ==> Inside(mem, dest, src, bound + width - 1))
    ensures AllZero(Batches(mem, dest, src, from, bound, width))
    decreases bound - from
  {
    if from < bound {
      hide Spliced;
      forall k: nat | k < |mem|
        ensures Moved(mem, dest, src, from, width)[k] == 0
      {
        SplicedAt(mem, dest + from, mem, src + from, width, k);
      }
      ZeroStays(Moved(mem, dest, src, from, width), dest, src, from + width, bound, width);
    }
  }

  /** The first store's width. */
  function FirstWidth(length: int): (w: int) {
    if length >= 8 then 8 else if length >= 4 then 4 else 1
  }

  /** A single 1 that the first store overwrites before it is read: it is lost. */
  lemma OverlapLoses(size: nat, dest: nat, src: nat, length: int) returns (mem: seq<byte>)
    requires dest + length <= size && src < dest < src + length && length != 4 && length != 8
    ensures |mem| == size && Memcopied(mem, dest, src, length) != Copied(mem, dest, src, length)
  {
    var w: nat := FirstWidth(length);
    var x := if dest >= src + w then dest else src + w;
    mem := seq(size, k => if k == x then 1 else 0);
    var first := Moved(mem, dest, src, 0, w);
    hide Spliced, Memcopied;
    forall k: nat | k < size
      ensures first[k] == 0
    {
      SplicedAt(mem, dest, mem, src, w, k);
    }
    LostFromThere(mem, dest, src, length, first);
    SplicedAt(mem, dest, mem, src, length, dest + (x - src));
  }

  lemma LostFromThere(mem: seq<byte>, dest: nat, src: nat, length: int, first: seq<byte>)
    requires Inside(mem, dest, src, length) && length >= 2 && length != 4 && length != 8
    requires first == Moved(mem, dest, src, 0, FirstWidth(length)) && AllZero(first)
    ensures AllZero(Memcopied(mem, dest, src, length))
  {
    hide Moved, AllZero;
    var m8 := Batches(mem, dest, src, 0, length / 8, 8);
    var m4 := Batches(m8, dest, src, After8(length), (length - After8(length)) / 4, 4);
    if length >= 8 {
      ZeroStays(first, dest, src, 8, length / 8, 8);
      ZeroStays(m8, dest, src, After8(length), (length - After8(length)) / 4, 4);
    } else {
      assert m8 == mem && After8(length) == 0;
      if length >= 4 {
        ZeroStays(first, dest, src, 4, length / 4, 4);
      } else {
        assert m4 == mem && After4(length) == 0;
        ZeroStays(first, dest, src, 1, length, 1);
      }
    }
    if length >= 4 {
      ZeroStays(m4, dest, src, After4(length), length, 1);
    }
  }

  /** `Memcpy` copies, whatever is in memory, if and only if the destination does not start inside the source, or the
      length is that of a single word. */
  lemma MemcpyCopiesIff(size: nat, dest: nat, src: nat, length: int)
    requires dest <= size && src <= size && dest + length <= size && src + length <= size
    ensures (forall mem: seq<byte> | |mem| == size ::
               Memcopied(mem, dest, src, length) == Copied(mem, dest, src, length))
       <==> Apart(dest, src, length) || length == 4 || length == 8
  {
    hide Memcopied, Copied;
    if Apart(dest, src, length) || length == 4 || length == 8 {
      forall mem: seq<byte> | |mem| == size
        ensures Memcopied(mem, dest, src, length) == Copied(mem, dest, src, length)
      {
        if Apart(dest, src, length) {
          ApartCopies(mem, dest, src, length);
        } else {
          SingleWordCopies(mem, dest, src, length);
        }
      }
    } else {
      var mem := OverlapLoses(size, dest, src, length);
    }
  }
}
