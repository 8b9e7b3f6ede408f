/** What the serial read loop collects from the port: the specification that
    the loop in Bridge.State.ReadFromSerial is proved against, and its
    properties. */
module Serial {
  import opened Messages

  /** Size of the scratch buffer each read fills at most. */
  const ChunkSize := 8

  /** The loop gives up once its read counter exceeds 15, so after 16 reads. */
  const MaxReads := 16

  /** The outcome of one Read call on the port: the bytes it delivered, or an
      error (for which nothing is delivered). */
  datatype ReadResult = Chunk(data: seq<byte>) | ReadError

  /** The result of the port's `i`-th read call. The port is given as the
      sequence of its read results; calls past its end fail (end of stream). */
  function ReadAt(port: seq<ReadResult>, i: nat): ReadResult {
    if i < |port| then port[i] else ReadError
  }

  /** The Read contract of the port: a read never delivers more bytes than
      the buffer it is given. */
  predicate ReaderContract(port: seq<ReadResult>) {
    forall i :: 0 <= i < |port| && port[i].Chunk? ==> |port[i].data| <= ChunkSize
  }

  /** The bytes a read delivered (none for an error). */
  function Delivered(r: ReadResult): seq<byte> {
    if r.Chunk? then r.data else []
  }

  /** All bytes delivered by a sequence of reads, in order. */
  function Flatten(rs: seq<ReadResult>): seq<byte> {
    if rs == [] then [] else Flatten(rs[..|rs| - 1]) + Delivered(rs[|rs| - 1])
  }

  lemma FlattenSnoc(rs: seq<ReadResult>, r: ReadResult)
    ensures Flatten(rs + [r]) == Flatten(rs) + Delivered(r)
  {
    assert (rs + [r])[..|rs|] == rs;
  }

  /** Number of successful reads the loop performs when it has already done
      `i` of them without meeting a newline. */
  function ScanFrom(port: seq<ReadResult>, i: nat): (k: nat)
    requires i < MaxReads
    ensures i <= k <= MaxReads
    ensures i <= |port| ==> k <= |port|
    decreases MaxReads - i
  {
    match ReadAt(port, i)
    case ReadError => i
    case Chunk(data) =>
      if Newline in data || i + 1 > MaxReads - 1 then i + 1
      else ScanFrom(port, i + 1)
  }

  /** Number of successful reads the loop performs on `port`. */
  function ReadCount(port: seq<ReadResult>): (k: nat)
    ensures k <= MaxReads && k <= |port|
  {
    ScanFrom(port, 0)
  }

  /** The buffer the read loop returns when it starts from `initial`. */
  function ReadSerial(initial: seq<byte>, port: seq<ReadResult>): seq<byte> {
    initial + Flatten(port[..ReadCount(port)])
  }

  /** The loop can stop after exactly `k` successful reads: all of them
      delivered bytes, none but possibly the last delivered a newline, and
      then either the next read fails, or the last chunk held a newline, or
      the 16-read limit is reached. The newline test looks at the latest chunk
      only, never at the bytes accumulated before it. */
  ghost predicate StopsAt(port: seq<ReadResult>, k: nat) {
    && k <= MaxReads
    && (forall i :: 0 <= i < k ==> ReadAt(port, i).Chunk?)
    && (forall i :: 0 <= i < k - 1 ==> Newline !in ReadAt(port, i).data)
    && (|| ReadAt(port, k).ReadError?
        || (k > 0 && Newline in ReadAt(port, k - 1).data)
        || k == MaxReads)
  }

  lemma {:induction false} ScanFromStops(port: seq<ReadResult>, i: nat)
    requires i < MaxReads
    requires forall j :: 0 <= j < i ==> ReadAt(port, j).Chunk? && Newline !in ReadAt(port, j).data
    ensures StopsAt(port, ScanFrom(port, i))
    decreases MaxReads - i
  {
    match ReadAt(port, i)
    case ReadError =>
    case Chunk(data) =>
      if !(Newline in data || i + 1 > MaxReads - 1) {
        ScanFromStops(port, i + 1);
      }
  }

  /** No two read counts both satisfy StopsAt: the earlier one would have
      stopped the loop. */
  lemma StopsAtUnique(port: seq<ReadResult>, k1: nat, k2: nat)
    requires StopsAt(port, k1) && StopsAt(port, k2)
    ensures k1 == k2
  {
  }

  /** ReadCount is exactly the point where the loop's stopping rules first
      apply. */
  lemma ReadCountIsFirstStop(port: seq<ReadResult>, k: nat)
    ensures StopsAt(port, k) <==> k == ReadCount(port)
  {
    ScanFromStops(port, 0);
    if StopsAt(port, k) {
      StopsAtUnique(port, k, ReadCount(port));
    }
  }

  /** The returned buffer starts with the initial buffer and ends with the
      last chunk read; every counted read delivered bytes, a failed read adds
      nothing, and the loop reads at most 16 chunks. */
  lemma ReadSerialContents(initial: seq<byte>, port: seq<ReadResult>)
    ensures ReadCount(port) <= MaxReads
    ensures forall i :: 0 <= i < ReadCount(port) ==> port[i].Chunk?
    ensures initial <= ReadSerial(initial, port)
    ensures ReadCount(port) > 0 ==>
      var last := port[ReadCount(port) - 1].data;
      |last| <= |ReadSerial(initial, port)|
      && ReadSerial(initial, port)[|ReadSerial(initial, port)| - |last|..] == last
    ensures ReadCount(port) < |port| && ReadCount(port) < MaxReads
            && (ReadCount(port) == 0 || Newline !in port[ReadCount(port) - 1].data)
            ==> port[ReadCount(port)].ReadError?
  {
    ReadCountIsFirstStop(port, ReadCount(port));
    var k := ReadCount(port);
    forall i | 0 <= i < k ensures port[i].Chunk? {
      assert ReadAt(port, i).Chunk?;
    }
    if k > 0 {
      assert port[..k][..k - 1] == port[..k - 1];
    }
  }

  lemma {:induction false} FlattenBound(rs: seq<ReadResult>)
    requires forall i :: 0 <= i < |rs| && rs[i].Chunk? ==> |rs[i].data| <= ChunkSize
    ensures |Flatten(rs)| <= ChunkSize * |rs|
  {
    if rs != [] {
      var front := rs[..|rs| - 1];
      assert forall i :: 0 <= i < |front| ==> front[i] == rs[i];
      FlattenBound(front);
    }
  }

  /** With a port that keeps the Read contract, one run of the loop adds at
      most 16 * 8 bytes to the buffer. */
  lemma ReadSerialGrowthBounded(initial: seq<byte>, port: seq<ReadResult>)
    requires ReaderContract(port)
    ensures |ReadSerial(initial, port)| <= |initial| + ChunkSize * MaxReads
  {
    var read := port[..ReadCount(port)];
    assert forall i :: 0 <= i < |read| ==> read[i] == port[i];
    FlattenBound(read);
  }

  /** A reply split over two reads, with the terminator only in the second,
      is still assembled whole; the bytes already in the buffer (newlines
      included) do not end the loop early. */
  lemma SplitFrameAssembled(initial: seq<byte>, first: seq<byte>, second: seq<byte>, rest: seq<ReadResult>)
    requires Newline !in first
    ensures ReadSerial(initial, [Chunk(first), Chunk(second + [Newline])] + rest)
         == initial + first + second + [Newline]
  {
    var port := [Chunk(first), Chunk(second + [Newline])] + rest;
    assert StopsAt(port, 2) by {
      assert ReadAt(port, 1).data == second + [Newline];
      assert Newline in ReadAt(port, 1).data by {
        assert (second + [Newline])[|second|] == Newline;
      }
    }
    ReadCountIsFirstStop(port, 2);
    assert port[..2] == [Chunk(first)] + [Chunk(second + [Newline])];
    FlattenSnoc([Chunk(first)], Chunk(second + [Newline]));
    FlattenSnoc([], Chunk(first));
    assert [] + [Chunk(first)] == [Chunk(first)];
  }

  /** A port that only ever fails leaves the buffer as it was. */
  lemma FailedReadAddsNothing(initial: seq<byte>, port: seq<ReadResult>)
    requires port == [] || port[0].ReadError?
    ensures ReadSerial(initial, port) == initial
  {
    assert port[..0] == [];
  }
}
