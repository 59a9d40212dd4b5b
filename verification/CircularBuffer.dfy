/** Memory of a circular message buffer, seen as 8-byte words, and the record layout of
    aeron/ringbuffer/recorddesc.go. Both the ring buffer and the broadcast buffer use it. */
module CircularBuffer {
  import opened Bits

  const HEADER_LENGTH: int := 8
  const PADDING_TYPE: int := -1

  datatype Message = Message(typ: int, payload: seq<byte>)

  /** An aligned 8-byte word: a record header (length word, type word) or up to eight payload bytes. */
  datatype Word = Header(length: int, typ: int) | Data(bytes: seq<byte>)

  /** Words by byte index; a missing index is a zeroed word. */
  type Memory = map<int, Word>

  function RecordLength(m: Message): (n: int) {
    |m.payload| + HEADER_LENGTH
  }

  /** Bytes a record occupies once aligned. */
  function Required(m: Message): (n: int) {
    AlignInt32(RecordLength(m), 8)
  }

  function ChunkCount(payload: seq<byte>): (n: nat) {
    (|payload| + 7) / 8
  }

  function Chunk(payload: seq<byte>, k: nat): (r: seq<byte>)
    requires k < ChunkCount(payload)
  {
    if 8 * k + 8 <= |payload| then payload[8 * k..8 * k + 8] else payload[8 * k..]
  }

  /** A record's words end exactly where the aligned length says. */
  lemma RequiredIsHeaderPlusChunks(m: Message)
    requires |m.payload| < 0x4000_0000
    ensures Required(m) == HEADER_LENGTH + 8 * ChunkCount(m.payload)
    ensures Required(m) % 8 == 0 && Required(m) >= RecordLength(m)
  {
  }

  // ---------------------------------------------------------------------------------------------
  // Positions and indices
  // ---------------------------------------------------------------------------------------------

  /** `position & mask` for a power-of-two capacity. */
  function Index(position: int, capacity: int): (i: int)
    requires capacity > 0
    ensures 0 <= i < capacity
  {
    position % capacity
  }

  lemma IndexDecompose(position: int, capacity: int) returns (lap: int)
    requires capacity > 0
    ensures position == lap * capacity + Index(position, capacity)
  {
    lap := position / capacity;
    assert position == capacity * (position / capacity) + position % capacity;
  }

  lemma IndexUnique(position: int, capacity: int, lap: int, i: int)
    requires capacity > 0 && 0 <= i < capacity && position == lap * capacity + i
    ensures Index(position, capacity) == i
  {
    var q := IndexDecompose(position, capacity);
    assert (lap - q) * capacity == Index(position, capacity) - i;
    SmallMultiple(lap - q, capacity);
  }

  /** Two positions less than a capacity apart never share an index. */
  lemma IndexInjective(x: int, y: int, capacity: int)
    requires capacity > 0 && -capacity < x - y < capacity
    ensures Index(x, capacity) == Index(y, capacity) ==> x == y
  {
    var a := IndexDecompose(x, capacity);
    var b := IndexDecompose(y, capacity);
    assert x - y == (a - b) * capacity + (Index(x, capacity) - Index(y, capacity));
    if Index(x, capacity) == Index(y, capacity) {
      SmallMultiple(a - b, capacity);
    }
  }

  lemma IndexAdvance(x: int, d: int, capacity: int)
    requires capacity > 0 && 0 <= d && Index(x, capacity) + d < capacity
    ensures Index(x + d, capacity) == Index(x, capacity) + d
  {
    var a := IndexDecompose(x, capacity);
    IndexUnique(x + d, capacity, a, Index(x, capacity) + d);
  }

  lemma IndexWrap(x: int, capacity: int)
    requires capacity > 0
    ensures Index(x + (capacity - Index(x, capacity)), capacity) == 0
  {
    var a := IndexDecompose(x, capacity);
    assert x + (capacity - Index(x, capacity)) == (a + 1) * capacity + 0;
    IndexUnique(x + (capacity - Index(x, capacity)), capacity, a + 1, 0);
  }

  lemma IndexLap(x: int, capacity: int)
    requires capacity > 0
    ensures Index(x - capacity, capacity) == Index(x, capacity)
  {
    var a := IndexDecompose(x, capacity);
    IndexUnique(x - capacity, capacity, a - 1, Index(x, capacity));
  }

  lemma IndexAligned(x: int, capacity: int)
    requires capacity > 0 && capacity % 8 == 0 && x % 8 == 0
    ensures Index(x, capacity) % 8 == 0
  {
    var a := IndexDecompose(x, capacity);
    var c, y := capacity / 8, x / 8;
    assert a * capacity == 8 * (a * c) by { assert capacity == 8 * c; }
    assert Index(x, capacity) == 8 * (y - a * c);
  }

  // ---------------------------------------------------------------------------------------------
  // Reading a payload back
  // ---------------------------------------------------------------------------------------------

  /** The first k bytes of the word at an index; anything that is not payload reads as zeroes. */
  function ReadWord(mem: Memory, at: int, k: nat): (r: seq<byte>)
    ensures |r| == k
  {
    seq(k, i requires 0 <= i < k => if at in mem && mem[at].Data? && i < |mem[at].bytes| then mem[at].bytes[i] else 0)
  }

  /** n bytes starting at an index, word by word. */
  function ReadPayload(mem: Memory, at: int, n: int): (r: seq<byte>)
    ensures |r| == if n <= 0 then 0 else n
    decreases n
  {
    if n <= 0 then []
    else if n <= 8 then ReadWord(mem, at, n)
    else ReadWord(mem, at, 8) + ReadPayload(mem, at + 8, n - 8)
  }

  /** The first `chunks` payload words after a record header are in place. */
  ghost predicate ChunksInPlace(mem: Memory, at: int, payload: seq<byte>, chunks: nat) {
    && chunks <= ChunkCount(payload)
    && forall j | 0 <= j < chunks :: at + 8 * j in mem && mem[at + 8 * j] == Data(Chunk(payload, j))
  }

  lemma {:induction false} ReadBackFrom(mem: Memory, at: int, payload: seq<byte>, k: nat)
    requires ChunksInPlace(mem, at, payload, ChunkCount(payload))
    requires 8 * k <= |payload|
    ensures ReadPayload(mem, at + 8 * k, |payload| - 8 * k) == payload[8 * k..]
    decreases |payload| - 8 * k
  {
    var n := |payload| - 8 * k;
    if n > 0 {
      assert mem[at + 8 * k] == Data(Chunk(payload, k));
      if n > 8 {
        ReadBackFrom(mem, at, payload, k + 1);
        assert at + 8 * k + 8 == at + 8 * (k + 1);
      }
    }
  }

  /** Once every chunk is in place, the reader gets the payload back byte for byte. */
  lemma ReadBack(mem: Memory, at: int, payload: seq<byte>)
    requires ChunksInPlace(mem, at, payload, ChunkCount(payload))
    ensures ReadPayload(mem, at, |payload|) == payload
  {
    ReadBackFrom(mem, at, payload, 0);
  }
}
