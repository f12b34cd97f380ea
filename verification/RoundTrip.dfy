/** From the parts of a finalized upload back to the bytes: any range a client may ask for reads the parts' concatenation. */
module RoundTrip {
  import opened ChunkLayout
  import opened RangeReader
  import opened Wrappers
  import ByteRange

  /** A stored part: its size and where its chunk lies. */
  datatype PartRow = PartRow(size: nat, location: Location)

  /** An upload session's numbers and its part rows. */
  datatype Upload = Upload(parts: nat, chunk: int, size: nat, rows: map<int, PartRow>)

  function Sizes(u: Upload): Rows {
    map i | i in u.rows :: u.rows[i].size
  }

  /** Every stored part has its bytes in the blob store. */
  ghost predicate Stored(u: Upload, blobs: Blobs) {
    forall i :: i in u.rows ==> PartHeld(u, blobs, i)
  }

  predicate PartHeld(u: Upload, blobs: Blobs, i: int)
    requires i in u.rows
  {
    u.rows[i].location in blobs && |blobs[u.rows[i].location]| == u.rows[i].size
  }

  /** What finalization accepts: session numbers as created, and stored parts that pass validation. */
  ghost predicate Finalizable(u: Upload, blobs: Blobs) {
    Cut(u.parts, u.chunk, u.size) && Complete(u.parts, u.chunk, u.size, Sizes(u)) && Stored(u, blobs)
  }

  /** The file rows a finalization writes: the part rows copied, their chunks marked ready. */
  function Filed(u: Upload): Layout {
    Layout(u.chunk, u.size, map i | i in u.rows :: Chunk(u.rows[i].size, u.rows[i].location, true))
  }

  lemma FiledIsWellLaid(u: Upload, blobs: Blobs)
    requires Finalizable(u, blobs)
    ensures WellLaid(Filed(u), blobs) && Parts(Filed(u)) == u.parts
    ensures forall i :: 0 <= i < u.parts ==> i in u.rows && PartHeld(u, blobs, i)
  {
    CompleteIff(u.parts, u.chunk, u.size, Sizes(u));
    forall i | 0 <= i < u.parts
      ensures i in u.rows && PartHeld(u, blobs, i) && PartStored(Filed(u), blobs, i)
    {
      assert i in Sizes(u).Keys;
    }
  }

  /** The bytes of part `i` as uploaded. */
  ghost function PartBytes(u: Upload, blobs: Blobs, i: int): seq<byte>
    requires i in u.rows && u.rows[i].location in blobs
  {
    blobs[u.rows[i].location]
  }

  /** The first `n` parts, one after the other. */
  ghost function Joined(u: Upload, blobs: Blobs, n: nat): seq<byte>
    requires forall i :: 0 <= i < n ==> i in u.rows && PartHeld(u, blobs, i)
  {
    if n == 0 then []
    else
      assert PartHeld(u, blobs, n - 1);
      Joined(u, blobs, n - 1) + PartBytes(u, blobs, n - 1)
  }

  /** The file's content is the parts joined in order. */
  lemma {:induction false} ContentIsJoined(u: Upload, blobs: Blobs, n: nat)
    requires Finalizable(u, blobs) && n <= u.parts && WellLaid(Filed(u), blobs) && Parts(Filed(u)) == u.parts
    requires forall i :: 0 <= i < u.parts ==> i in u.rows && PartHeld(u, blobs, i)
    ensures var end := if n < u.parts then n * u.chunk else u.size;
      0 <= end <= u.size && Joined(u, blobs, n) == Ahead(Filed(u), blobs, 0, end)
    decreases n
  {
    var file := Filed(u);
    if n == 0 {
      assert u.parts == 0 ==> u.size == 0 by {
        if u.size > 0 {
          CeilDivBounds(u.size, u.chunk);
        }
      }
    } else {
      ContentIsJoined(u, blobs, n - 1);
      var start := (n - 1) * u.chunk;
      var size := file.chunks[n - 1].size;
      assert PartStored(file, blobs, n - 1);
      PartsTile(u.parts, u.chunk, u.size, n - 1);
      PartIsSlice(file, blobs, n - 1, start, 0, size);
      SpansJoin(file, blobs, start, size);
      assert blobs[file.chunks[n - 1].location][0..size] == PartBytes(u, blobs, n - 1);
    }
  }

  lemma SpansJoin(file: Layout, blobs: Blobs, start: int, length: int)
    requires WellLaid(file, blobs) && 0 <= start && 0 <= length && start + length <= file.size
    ensures Ahead(file, blobs, 0, start) + Ahead(file, blobs, start, length) == Ahead(file, blobs, 0, start + length)
  {
  }

  /** The whole content is all parts joined. */
  lemma FileIsItsParts(u: Upload, blobs: Blobs)
    requires Finalizable(u, blobs)
    ensures WellLaid(Filed(u), blobs)
    ensures forall i :: 0 <= i < u.parts ==> i in u.rows && PartHeld(u, blobs, i)
    ensures Content(Filed(u), blobs) == Joined(u, blobs, u.parts)
  {
    FiledIsWellLaid(u, blobs);
    ContentIsJoined(u, blobs, u.parts);
  }

  datatype Answer = Whole(body: seq<byte>) | Partial(range: ByteRange.Range, body: seq<byte>) | Rejected | Interrupted

  /**
   * A client asks for a finalized file, with or without a range: unless the connection to the blob store breaks,
   * it gets exactly that span of the uploaded parts.
   */
  method Download(u: Upload, blobs: Blobs, header: string, plan: seq<Opening>, bufferSize: nat -> nat) returns (answer: Answer)
    requires Finalizable(u, blobs) && forall i :: bufferSize(i) > 0
    ensures forall i :: 0 <= i < u.parts ==> i in u.rows && PartHeld(u, blobs, i)
    ensures |Joined(u, blobs, u.parts)| == u.size
    ensures answer.Whole? ==>
      ByteRange.ParseRange(header, u.size) == Success(None) && answer.body == Joined(u, blobs, u.parts)
    ensures answer.Partial? ==>
      && ByteRange.ParseRange(header, u.size) == Success(Some(answer.range))
      && 0 <= answer.range.start <= answer.range.end < u.size
      && answer.body == Joined(u, blobs, u.parts)[answer.range.start..answer.range.end + 1]
    ensures Reliable(plan) ==> !answer.Interrupted?
    ensures answer.Rejected? <==> ByteRange.ParseRange(header, u.size).Failure?
  {
    FileIsItsParts(u, blobs);
    var file := Filed(u);
    var parsed := ByteRange.ParseRange(header, u.size);
    if parsed.Failure? {
      return Rejected;
    }
    ByteRange.AcceptedIsInside(header, u.size);
    var start, length := 0, u.size;
    if parsed.value.Some? {
      start, length := parsed.value.value.start, parsed.value.value.Length();
    }
    var body, complete := Fetch(file, blobs, plan, start, length, bufferSize);
    if !complete {
      return Interrupted;
    }
    answer := if parsed.value.Some? then Partial(parsed.value.value, body) else Whole(body);
  }

  method Fetch(file: Layout, blobs: Blobs, plan: seq<Opening>, start: int, length: int, bufferSize: nat -> nat)
    returns (body: seq<byte>, complete: bool)
    requires WellLaid(file, blobs) && 0 <= start && 0 <= length && start + length <= file.size
    requires forall i :: bufferSize(i) > 0
    ensures Reliable(plan) ==> complete
    ensures complete ==> body == Ahead(file, blobs, start, length)
  {
    var reader, fault := OpenFile(file, blobs, plan, start, length);
    if reader.None? {
      return [], false;
    }
    var stopped;
    body, stopped := ReadAll(reader.value, bufferSize);
    complete := stopped == EndOfFile;
  }
}
