/** The PTY reader thread (`tty_reader`): it reads the PTY master in pieces of
    at most 256 bytes and pushes each positive read onto the event queue as a
    chunk of its own, until a read returns zero (end of file) or less (error). */
module Reader {
  import opened Types
  import opened Events

  /** The size of the reader's stack buffer, `char buf[256]`. */
  const BufSize: nat := 256

  /** One result of `read(tty_fd, buf, sizeof(buf))`: the returned count and,
      when it is positive, the bytes the call stored at the front of `buf`. */
  datatype ReadResult = ReadResult(n: int, bytes: seq<byte>)

  /** What `read(2)` guarantees: never more than the requested 256 bytes, and
      exactly `n` bytes delivered when `n` is positive. */
  predicate ValidRead(r: ReadResult) {
    r.n <= BufSize && (if r.n > 0 then |r.bytes| == r.n else r.bytes == [])
  }

  predicate ValidReads(results: seq<ReadResult>) {
    forall i :: 0 <= i < |results| ==> ValidRead(results[i])
  }

  /** How many reads deliver data before the first one that returns zero or
      less: the position of that read, or all of them when there is none. */
  function DataReads(results: seq<ReadResult>): (k: nat)
    ensures k <= |results|
    ensures forall i :: 0 <= i < k ==> results[i].n > 0
    ensures k < |results| ==> results[k].n <= 0
  {
    if results == [] || results[0].n <= 0 then 0 else 1 + DataReads(results[1..])
  }

  /** The chunk built for a read: `chunk->len = n` and a copy of the bytes.
      For a valid positive read it holds between 1 and 256 bytes, exactly as
      many as its `len` says, and they are the bytes read. */
  function ChunkOf(r: ReadResult): (c: Chunk)
    ensures ValidRead(r) && r.n > 0 ==>
              1 <= c.len <= BufSize && c.len == |c.data| && c.data == r.bytes
  {
    Chunk(r.n, r.bytes)
  }

  /** The chunks the reader pushes, in push order: one per read, stopping at
      the first read that returns zero or less, which pushes nothing. */
  function Chunks(results: seq<ReadResult>): (cs: seq<Chunk>)
    ensures |cs| == DataReads(results)
    ensures forall i :: 0 <= i < |cs| ==> cs[i] == ChunkOf(results[i])
  {
    if results == [] || results[0].n <= 0 then []
    else [ChunkOf(results[0])] + Chunks(results[1..])
  }

  /** The events the reader pushes: one PTY event per read that returned
      data. The chunks they carry are the reader's chunks, and their bytes,
      joined in queue order, are the bytes of every read before the first one
      returning zero or less. */
  function Pushed(results: seq<ReadResult>): (es: seq<Event>)
    ensures |es| == DataReads(results)
    ensures PtyChunks(es) == Chunks(results)
    ensures Flatten(ChunkData(PtyChunks(es))) == Flatten(ReadBytes(results[..DataReads(results)]))
  {
    var cs := Chunks(results);
    var es := seq(|cs|, i requires 0 <= i < |cs| => PtyData(cs[i]));
    PtyChunksOfPtyEvents(es);
    assert PtyChunks(es) == cs;
    ReaderStream(results);
    es
  }

  /** The data of each chunk, in order. */
  function ChunkData(cs: seq<Chunk>): seq<seq<byte>> {
    seq(|cs|, i requires 0 <= i < |cs| => cs[i].data)
  }

  /** The bytes of each read, in order. */
  function ReadBytes(results: seq<ReadResult>): seq<seq<byte>> {
    seq(|results|, i requires 0 <= i < |results| => results[i].bytes)
  }

  /** Every pushed chunk holds between 1 and 256 bytes, its `len` is the count
      its read returned, and its data are exactly the bytes of that read. */
  lemma ChunkContents(results: seq<ReadResult>, i: nat)
    requires ValidReads(results)
    requires i < |Chunks(results)|
    ensures 1 <= Chunks(results)[i].len <= BufSize
    ensures Chunks(results)[i].len == |Chunks(results)[i].data| == results[i].n
    ensures Chunks(results)[i].data == results[i].bytes
  {
    assert ValidRead(results[i]);
  }

  /** No byte is lost, duplicated or reordered: the pushed chunks, joined in
      push order, are the bytes of all reads before the first one returning
      zero or less. */
  lemma ReaderStream(results: seq<ReadResult>)
    ensures Flatten(ChunkData(Chunks(results))) == Flatten(ReadBytes(results[..DataReads(results)]))
  {
    assert ChunkData(Chunks(results)) == ReadBytes(results[..DataReads(results)]);
  }

  /** Two reads of 100 and 50 bytes followed by end of file give two chunks of
      100 and 50 bytes, in that order, and the end of file gives none. */
  lemma TwoReadsThenEof(a: seq<byte>, b: seq<byte>)
    requires |a| == 100 && |b| == 50
    ensures Chunks([ReadResult(100, a), ReadResult(50, b), ReadResult(0, [])])
            == [Chunk(100, a), Chunk(50, b)]
  {
    var results := [ReadResult(100, a), ReadResult(50, b), ReadResult(0, [])];
    assert DataReads(results) == 2;
  }

  /** `tty_reader`, run over the results its successive reads return. It
      returns whether it met a read returning zero or less (and so ended);
      otherwise it is still blocked in its next read. */
  method TtyReader(results: seq<ReadResult>, q: EventQueue) returns (ended: bool)
    requires ValidReads(results)
    modifies q
    ensures q.events == old(q.events) + Pushed(results)
    ensures ended <==> DataReads(results) < |results|
  {
    ghost var start := q.events;
    var buf := new byte[BufSize];
    var i := 0;
    ended := false;
    while i < |results|
      invariant 0 <= i <= DataReads(results)
      invariant |q.events| == |start| + i && q.events[..|start|] == start
      invariant forall j :: 0 <= j < i ==> q.events[|start| + j] == PtyData(ChunkOf(results[j]))
    {
      // n = read(tty_fd, buf, sizeof(buf)), which fills the front of buf
      var r := results[i];
      var n := r.n;
      assert ValidRead(r);
      if n <= 0 {
        ended := true;
        break;
      }
      forall k | 0 <= k < n {
        buf[k] := r.bytes[k];
      }
      // malloc, chunk->len = n, memcpy(&chunk->data, buf, n)
      var chunk := Chunk(n, buf[..n]);
      assert chunk == ChunkOf(r);
      q.Push(PtyData(chunk));
      i := i + 1;
    }
    assert q.events == start + Pushed(results);
  }
}
