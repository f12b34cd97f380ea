/** Reading a byte range of a chunked file through short reads and a sliding window of chunk metadata. */
module RangeReader {
  import opened Arithmetic
  import opened ChunkLayout
  import opened Wrappers

  newtype byte = x: int | 0 <= x < 256

  type Location = nat

  const WINDOW: int := 16

  // ----- The stored file -----

  datatype Chunk = Chunk(size: int, location: Location, ready: bool)

  datatype Layout = Layout(chunkSize: int, size: nat, chunks: map<int, Chunk>)

  type Blobs = map<Location, seq<byte>>

  /** A file as a finalization leaves it: parts 0 to n - 1 of their expected sizes, ready, their blobs complete. */
  ghost predicate WellLaid(file: Layout, blobs: Blobs) {
    && file.chunkSize > 0
    && PartCount(file.size, file.chunkSize).Success?
    && forall i :: 0 <= i < Parts(file) ==> PartStored(file, blobs, i)
  }

  function Parts(file: Layout): nat
    requires file.chunkSize > 0 && PartCount(file.size, file.chunkSize).Success?
  {
    PartCount(file.size, file.chunkSize).value
  }

  predicate PartStored(file: Layout, blobs: Blobs, i: int)
    requires file.chunkSize > 0 && PartCount(file.size, file.chunkSize).Success?
  {
    && i in file.chunks && file.chunks[i].ready
    && PartSize(Parts(file), file.chunkSize, file.size, i) == Some(file.chunks[i].size)
    && file.chunks[i].location in blobs && |blobs[file.chunks[i].location]| == file.chunks[i].size
  }

  /** Where byte `k` of a well-laid file is stored. */
  lemma BytePlace(file: Layout, blobs: Blobs, k: int)
    requires WellLaid(file, blobs) && 0 <= k < file.size
    ensures 0 <= k / file.chunkSize < Parts(file) && PartStored(file, blobs, k / file.chunkSize)
    ensures 0 <= k % file.chunkSize < file.chunks[k / file.chunkSize].size
    ensures k / file.chunkSize * file.chunkSize + file.chunks[k / file.chunkSize].size <= file.size
  {
    var n, c := Parts(file), file.chunkSize;
    var q, r := k / c, k % c;
    assert k == q * c + r;
    CeilDivBounds(file.size, c);
    assert n == CeilDiv(file.size, c);
    if q < 0 {
      MultipleBound(q, c);
      assert false;
    }
    if q >= n {
      MultiplyMonotone(n, q, c);
      assert false;
    }
    PartsTile(n, c, file.size, q);
    assert PartStored(file, blobs, q);
    if q < n - 1 {
    } else {
      assert q * c + file.chunks[q].size == file.size;
    }
  }

  ghost function ByteAt(file: Layout, blobs: Blobs, k: int): byte
    requires WellLaid(file, blobs) && 0 <= k < file.size
  {
    BytePlace(file, blobs, k);
    blobs[file.chunks[k / file.chunkSize].location][k % file.chunkSize]
  }

  /** The whole file: byte `k` comes from part `k / chunkSize` at offset `k % chunkSize`. */
  ghost function Content(file: Layout, blobs: Blobs): (c: seq<byte>)
    requires WellLaid(file, blobs)
    ensures |c| == file.size && forall k :: 0 <= k < file.size ==> c[k] == ByteAt(file, blobs, k)
  {
    seq(file.size, k requires 0 <= k < file.size => ByteAt(file, blobs, k))
  }

  /** `length` bytes of the file from `start` on. */
  ghost function Ahead(file: Layout, blobs: Blobs, start: int, length: int): seq<byte>
    requires WellLaid(file, blobs) && 0 <= start && 0 <= length && start + length <= file.size
  {
    Content(file, blobs)[start..start + length]
  }

  lemma SliceOfSlice<T>(s: seq<T>, from: int, to: int, n: int)
    requires 0 <= from <= to <= |s| && 0 <= n <= to - from
    ensures s[from..to][..n] == s[from..from + n] && s[from..to][n..] == s[from + n..to]
  {
  }

  /** Taking `n` bytes off the front of the open chunk takes them off the front of everything ahead. */
  lemma Advance(file: Layout, blobs: Blobs, start: int, open: int, length: int, n: int)
    requires WellLaid(file, blobs) && 0 <= start && 0 <= n <= open <= length && start + length <= file.size
    ensures Ahead(file, blobs, start, open)[..n] == Ahead(file, blobs, start, length)[..n]
    ensures Ahead(file, blobs, start, open)[n..] == Ahead(file, blobs, start + n, open - n)
    ensures Ahead(file, blobs, start, length)[n..] == Ahead(file, blobs, start + n, length - n)
  {
    var content := Content(file, blobs);
    SliceOfSlice(content, start, start + open, n);
    SliceOfSlice(content, start, start + length, n);
  }

  lemma PartByte(file: Layout, blobs: Blobs, i: int, start: int, offset: int)
    requires WellLaid(file, blobs) && 0 <= i < Parts(file) && PartStored(file, blobs, i)
    requires start == i * file.chunkSize && 0 <= offset < file.chunks[i].size
    ensures 0 <= start && start + offset < file.size
    ensures Content(file, blobs)[start + offset] == blobs[file.chunks[i].location][offset]
  {
    PartsTile(Parts(file), file.chunkSize, file.size, i);
    MultiplyMonotone(0, i, file.chunkSize);
    DivModUnique(start + offset, file.chunkSize, i, offset);
    assert Content(file, blobs)[start + offset] == ByteAt(file, blobs, start + offset);
  }

  /** Within one part the content is the blob, shifted. */
  lemma PartIsSlice(file: Layout, blobs: Blobs, i: int, start: int, from: int, to: int)
    requires WellLaid(file, blobs) && 0 <= i < Parts(file) && PartStored(file, blobs, i)
    requires start == i * file.chunkSize && 0 <= from <= to <= file.chunks[i].size
    ensures 0 <= start && start + to <= file.size
    ensures Ahead(file, blobs, start + from, to - from) == blobs[file.chunks[i].location][from..to]
  {
    var content, blob := Content(file, blobs), blobs[file.chunks[i].location];
    PartsTile(Parts(file), file.chunkSize, file.size, i);
    MultiplyMonotone(0, i, file.chunkSize);
    assert start + to <= file.size;
    var part := content[start + from..start + to];
    forall k | 0 <= k < to - from
      ensures part[k] == blob[from..to][k]
    {
      PartByte(file, blobs, i, start, from + k);
    }
  }

  lemma DivisionMonotone(x: int, y: int, d: int)
    requires x <= y && d > 0
    ensures x / d <= y / d
  {
    var excess := x / d - y / d;
    assert x == x / d * d + x % d && y == y / d * d + y % d;
    assert x / d * d == y / d * d + excess * d;
    MultipleBound(excess, d);
  }

  // ----- Blob streams -----

  /** One call on a stream: at most `cap` bytes come, the end may be told early, the connection may break. */
  datatype Step = Step(cap: nat, eager: bool, breaks: bool)

  datatype Stream = Stream(data: seq<byte>, script: seq<Step>)

  datatype Signal = More | End | Broken

  /** The connection does not break. */
  predicate Unbroken(script: seq<Step>) {
    forall i :: 0 <= i < |script| ==> !script[i].breaks
  }

  /** How much a read of at most `limit` bytes yields, and what is said with it. */
  function Pull(s: Stream, limit: nat): (r: (nat, Signal, Stream))
    ensures r.0 <= limit && r.0 <= |s.data| && r.2.data == s.data[r.0..]
    ensures r.1 == End ==> r.0 == |s.data|
    ensures |r.2.script| <= |s.script|
    ensures r.0 == 0 && r.1 == More && limit > 0 ==> |r.2.script| < |s.script|
    ensures Unbroken(s.script) ==> r.1 != Broken && Unbroken(r.2.script)
  {
    var bound := if limit < |s.data| then limit else |s.data|;
    if s.script == [] then
      (bound, if s.data == [] then End else More, Stream(s.data[bound..], []))
    else
      var step := s.script[0];
      var n := if step.cap < bound then step.cap else bound;
      var signal := if step.breaks then Broken
                    else if n == |s.data| && (step.eager || n == 0) then End
                    else More;
      (n, signal, Stream(s.data[n..], s.script[1..]))
  }

  /** What opening a chunk does: fail, or deliver a stream with some behaviour. */
  datatype Opening = Fails | Opens(script: seq<Step>)

  /** Every opening succeeds and none of the streams breaks. */
  predicate Reliable(plan: seq<Opening>) {
    forall i :: 0 <= i < |plan| ==> plan[i].Opens? && Unbroken(plan[i].script)
  }

  datatype Fault = EndOfFile | StorageInvariant | Transport | InvalidSpan

  /** The window holds the chunk rows from `start` on. */
  ghost predicate Mirrors(file: Layout, start: int, window: seq<Chunk>) {
    forall i :: start <= i < start + |window| ==> i in file.chunks && window[i - start] == file.chunks[i]
  }

  // ----- The reader -----

  class Reader {
    const file: Layout
    const blobs: Blobs
    var plan: seq<Opening>
    var position: int
    var remaining: int
    var current: Option<Stream>
    var currentRemaining: int
    var windowStart: int
    var window: seq<Chunk>

    /** The reader's own bookkeeping. */
    ghost predicate Valid()
      reads this
    {
      && 0 <= position && 0 <= remaining
      && (current.Some? ==> 0 < currentRemaining <= remaining)
      && (WellLaid(file, blobs) ==> Aligned())
    }

    /** On a well-laid file: the window mirrors the chunk rows and the open stream is the content ahead. */
    ghost predicate Aligned()
      requires WellLaid(file, blobs)
      reads this
    {
      && 0 <= position && 0 <= remaining && position + remaining <= file.size
      && Mirrors(file, windowStart, window)
      && (current.Some? ==>
            && 0 < currentRemaining <= remaining
            && current.value.data == Ahead(file, blobs, position, currentRemaining))
    }

    /** The blob store will not fail this reader. */
    ghost predicate Dependable()
      reads this
    {
      Reliable(plan) && (current.Some? ==> Unbroken(current.value.script))
    }

    /** The bytes still to be delivered. */
    ghost function Rest(): seq<byte>
      requires WellLaid(file, blobs) && Valid()
      reads this
    {
      Ahead(file, blobs, position, remaining)
    }

    /** `newRangeReader` after the span check of `openFile`. */
    constructor (file: Layout, blobs: Blobs, plan: seq<Opening>, start: int, length: int)
      requires 0 <= start && 0 <= length && start + length <= file.size
      ensures Valid() && this.file == file && this.blobs == blobs && position == start && remaining == length
      ensures this.plan == plan && current.None?
    {
      this.file, this.blobs, this.plan := file, blobs, plan;
      position, remaining := start, length;
      current, currentRemaining := None, 0;
      windowStart, window := 0, [];
    }

    /** The metadata query: rows `start` to `end - 1`, all present and ready. */
    method ChunkWindow(start: int, end: int) returns (result: Option<seq<Chunk>>)
      ensures result.Some? ==> start < end && |result.value| == end - start
      ensures result.Some? ==> Mirrors(file, start, result.value)
      ensures WellLaid(file, blobs) && 0 <= start < end <= Parts(file) ==> result.Some?
    {
      if start < 0 || end <= start {
        return None;
      }
      var chunks: seq<Chunk> := [];
      var i := start;
      while i < end
        invariant start <= i <= end && |chunks| == i - start && Mirrors(file, start, chunks)
      {
        if i !in file.chunks || !file.chunks[i].ready {
          assert WellLaid(file, blobs) && i < Parts(file) ==> PartStored(file, blobs, i);
          return None;
        }
        chunks := chunks + [file.chunks[i]];
        i := i + 1;
      }
      result := Some(chunks);
    }

    method ChunkFor(partIndex: int) returns (result: Option<Chunk>)
      requires Valid() && file.chunkSize > 0 && remaining > 0 && current.None? && partIndex == position / file.chunkSize
      modifies this`windowStart, this`window
      ensures Valid()
      ensures WellLaid(file, blobs) ==>
        result.Some? && partIndex in file.chunks && result.value == file.chunks[partIndex]
    {
      if |window| > 0 && windowStart <= partIndex < windowStart + |window| {
        return Some(window[partIndex - windowStart]);
      }
      var last := (position + remaining - 1) / file.chunkSize;
      var end := partIndex + WINDOW;
      if end > last + 1 {
        end := last + 1;
      }
      DivisionMonotone(position, position + remaining - 1, file.chunkSize);
      if WellLaid(file, blobs) {
        BytePlace(file, blobs, position);
        BytePlace(file, blobs, position + remaining - 1);
      }
      var chunks := ChunkWindow(partIndex, end);
      if chunks.None? {
        return None;
      }
      windowStart, window := partIndex, chunks.value;
      result := Some(window[0]);
    }

    /** `openCurrent`: find the chunk at the position and open what is wanted of it. */
    method OpenCurrent() returns (fault: Option<Fault>)
      requires Valid() && remaining > 0 && current.None?
      modifies this
      ensures Valid() && position == old(position) && remaining == old(remaining)
      ensures Effort() <= old(Effort())
      ensures fault.None? ==> current.Some?
      ensures fault.Some? ==> current.None? && fault != Some(EndOfFile) && fault != Some(InvalidSpan)
      ensures WellLaid(file, blobs) ==> fault != Some(StorageInvariant)
      ensures WellLaid(file, blobs) && old(Dependable()) ==> fault.None? && Dependable()
    {
      if file.chunkSize <= 0 {
        return Some(StorageInvariant);
      }
      var partIndex := position / file.chunkSize;
      var part := ChunkFor(partIndex);
      if part.None? {
        return Some(StorageInvariant);
      }
      var offset := position - partIndex * file.chunkSize;
      if WellLaid(file, blobs) {
        BytePlace(file, blobs, position);
        assert offset == position % file.chunkSize;
      }
      if offset < 0 || offset >= part.value.size {
        return Some(StorageInvariant);
      }
      fault := OpenPart(part.value, partIndex, offset);
    }

    method OpenPart(part: Chunk, ghost partIndex: int, offset: nat) returns (fault: Option<Fault>)
      requires Valid() && remaining > 0 && current.None? && offset < part.size
      requires WellLaid(file, blobs) ==>
        && 0 <= partIndex < Parts(file) && PartStored(file, blobs, partIndex) && part == file.chunks[partIndex]
        && position == partIndex * file.chunkSize + offset
      modifies this
      ensures Valid() && position == old(position) && remaining == old(remaining)
      ensures Effort() <= old(Effort())
      ensures fault.None? ==> current.Some?
      ensures fault.Some? ==> current.None? && fault == Some(Transport)
      ensures WellLaid(file, blobs) && old(Dependable()) ==> fault.None? && Dependable()
    {
      var length := part.size - offset;
      if length > remaining {
        length := remaining;
      }
      var blobLength := if offset == 0 && length == part.size then 0 else length;
      var chunkStream := OpenChunk(part.location, offset, blobLength);
      if chunkStream.None? {
        return Some(Transport);
      }
      if WellLaid(file, blobs) {
        PartIsSlice(file, blobs, partIndex, partIndex * file.chunkSize, offset, offset + length);
      }
      current, currentRemaining := chunkStream, length;
      fault := None;
    }

    /** `OpenChunk`: length zero asks for everything from the offset on. */
    method OpenChunk(location: Location, offset: nat, length: nat) returns (stream: Option<Stream>)
      modifies this`plan
      ensures PlanEffort(plan) <= PlanEffort(old(plan))
      ensures stream.Some? ==> location in blobs && PlanEffort(plan) + |stream.value.script| <= PlanEffort(old(plan))
      ensures location in blobs && Reliable(old(plan)) ==> stream.Some? && Unbroken(stream.value.script) && Reliable(plan)
      ensures stream.Some? && length == 0 && offset <= |blobs[location]| ==> stream.value.data == blobs[location][offset..]
      ensures stream.Some? && length > 0 && offset + length <= |blobs[location]| ==>
        stream.value.data == blobs[location][offset..offset + length]
    {
      if location !in blobs {
        return None;
      }
      var script: seq<Step> := [];
      if plan != [] {
        var opening := plan[0];
        plan := plan[1..];
        if opening.Fails? {
          return None;
        }
        script := opening.script;
      }
      var blob := blobs[location];
      var from := if offset < |blob| then offset else |blob|;
      var to := if length == 0 || offset + length > |blob| then |blob| else offset + length;
      stream := Some(Stream(blob[from..to], script));
    }

    /** Calls the environment may still make yield nothing. */
    ghost function Effort(): nat
      reads this
    {
      PlanEffort(plan) + if current.Some? then |current.value.script| else 0
    }

    /** One read of at most `limit` bytes from the open chunk, with the bookkeeping that follows it. */
    method Take(limit: nat) returns (data: seq<byte>, signal: Signal)
      requires Valid() && current.Some? && 0 < limit <= currentRemaining
      modifies this
      ensures Valid() && |data| <= limit
      ensures position == old(position) + |data| && remaining == old(remaining) - |data|
      ensures WellLaid(file, blobs) ==> data == old(Rest())[..|data|] && Rest() == old(Rest())[|data|..]
      ensures WellLaid(file, blobs) && signal == End ==> current.None?
      ensures Effort() <= old(Effort())
      ensures data == [] ==> current.Some? && (signal == More ==> Effort() < old(Effort()))
      ensures old(Dependable()) ==> Dependable() && signal != Broken
    {
      var pulled := Pull(current.value, limit);
      var n := pulled.0;
      data, signal := current.value.data[..n], pulled.1;
      if WellLaid(file, blobs) {
        Advance(file, blobs, position, currentRemaining, remaining, n);
      }
      position, remaining, currentRemaining := position + n, remaining - n, currentRemaining - n;
      current := if currentRemaining == 0 then None else Some(pulled.2);
    }

    /** One turn of the read loop: open if needed, read once, copy, and say whether nothing came. */
    method ReadOnce(p: array<byte>) returns (n: nat, fault: Option<Fault>)
      requires Valid() && p.Length > 0 && remaining > 0
      modifies this, p
      ensures Valid() && n <= p.Length && n <= old(remaining) && p[n..] == old(p[n..])
      ensures position == old(position) + n && remaining == old(remaining) - n
      ensures WellLaid(file, blobs) ==> p[..n] == old(Rest())[..n] && Rest() == old(Rest())[n..]
      ensures WellLaid(file, blobs) ==> fault != Some(StorageInvariant)
      ensures fault != Some(EndOfFile) && Effort() <= old(Effort())
      ensures n == 0 && fault.None? ==> Effort() < old(Effort())
      ensures WellLaid(file, blobs) && old(Dependable()) ==> Dependable() && fault.None?
    {
      if current.None? {
        fault := OpenCurrent();
        if fault.Some? {
          return 0, fault;
        }
      }
      var limit := p.Length;
      if limit > remaining {
        limit := remaining;
      }
      if limit > currentRemaining {
        limit := currentRemaining;
      }
      var data, signal := Take(limit);
      CopyInto(p, data);
      n := |data|;
      if signal == End && current.Some? {
        fault := Some(StorageInvariant);
      } else if signal == Broken {
        fault := Some(Transport);
      } else {
        fault := None;
      }
    }

    /** `Read`: fill some of the buffer from the content ahead, or say why not. */
    method Read(p: array<byte>) returns (n: nat, fault: Option<Fault>)
      requires Valid()
      modifies this, p
      ensures Valid() && n <= p.Length && n <= old(remaining) && p[n..] == old(p[n..])
      ensures position == old(position) + n && remaining == old(remaining) - n
      ensures WellLaid(file, blobs) ==> p[..n] == old(Rest())[..n] && Rest() == old(Rest())[n..]
      ensures WellLaid(file, blobs) ==> fault != Some(StorageInvariant)
      ensures fault == Some(EndOfFile) <==> p.Length > 0 && old(remaining) == 0
      ensures fault.None? && p.Length > 0 ==> n > 0
      ensures Effort() <= old(Effort())
      ensures WellLaid(file, blobs) && old(Dependable()) ==> Dependable() && (fault.None? || fault == Some(EndOfFile))
    {
      if p.Length == 0 {
        return 0, None;
      }
      if remaining == 0 {
        return 0, Some(EndOfFile);
      }
      n, fault := ReadOnce(p);
      while n == 0 && fault.None?
        invariant Valid() && n <= p.Length && n <= old(remaining) && p[n..] == old(p[n..])
        invariant position == old(position) + n && remaining == old(remaining) - n
        invariant WellLaid(file, blobs) ==> p[..n] == old(Rest())[..n] && Rest() == old(Rest())[n..]
        invariant WellLaid(file, blobs) ==> fault != Some(StorageInvariant)
        invariant fault != Some(EndOfFile) && Effort() <= old(Effort())
        invariant WellLaid(file, blobs) && old(Dependable()) ==> Dependable() && fault.None?
        decreases n == 0 && fault.None?, Effort()
      {
        n, fault := ReadOnce(p);
      }
    }
  }

  method CopyInto(p: array<byte>, data: seq<byte>)
    requires |data| <= p.Length
    modifies p
    ensures p[..|data|] == data && p[|data|..] == old(p[|data|..])
  {
    var i := 0;
    while i < |data|
      invariant 0 <= i <= |data|
      invariant p[..i] == data[..i] && p[i..] == old(p[i..])
    {
      p[i] := data[i];
      i := i + 1;
    }
  }

  /** `openFile`: the span is checked, and unless it is empty its first chunk is opened at once. */
  method OpenFile(file: Layout, blobs: Blobs, plan: seq<Opening>, start: int, length: int)
    returns (reader: Option<Reader>, fault: Option<Fault>)
    ensures reader.Some? <==> fault.None?
    ensures reader.Some? ==> fresh(reader.value) && reader.value.Valid()
    ensures reader.Some? ==> reader.value.file == file && reader.value.blobs == blobs
    ensures reader.Some? ==> reader.value.position == start && reader.value.remaining == length
    ensures fault == Some(InvalidSpan) <==> !(0 <= start && 0 <= length && start + length <= file.size)
    ensures WellLaid(file, blobs) && fault.Some? ==> fault.value == InvalidSpan || fault.value == Transport
    ensures WellLaid(file, blobs) && Reliable(plan) ==> fault != Some(Transport)
    ensures WellLaid(file, blobs) && Reliable(plan) && reader.Some? ==> reader.value.Dependable()
  {
    if start < 0 || length < 0 || start > file.size || length > file.size - start {
      return None, Some(InvalidSpan);
    }
    var r := new Reader(file, blobs, plan, start, length);
    if length > 0 {
      fault := r.OpenCurrent();
      if fault.Some? {
        return None, fault;
      }
    }
    return Some(r), None;
  }

  /** One read into a buffer of the given size. */
  method ReadSome(reader: Reader, size: nat) returns (data: seq<byte>, fault: Option<Fault>)
    requires reader.Valid() && size > 0
    modifies reader
    ensures reader.Valid()
    ensures WellLaid(reader.file, reader.blobs) ==> old(reader.Rest()) == data + reader.Rest()
    ensures WellLaid(reader.file, reader.blobs) ==> fault != Some(StorageInvariant)
    ensures fault == Some(EndOfFile) ==> reader.remaining == 0
    ensures fault.None? ==> reader.remaining < old(reader.remaining)
    ensures WellLaid(reader.file, reader.blobs) && old(reader.Dependable()) ==>
      reader.Dependable() && (fault.None? || fault == Some(EndOfFile))
  {
    var p := new byte[size];
    var n;
    n, fault := reader.Read(p);
    data := p[..n];
  }

  /**
   * A caller that reads to the end with buffers of whatever sizes gets exactly the bytes ahead, then the end,
   * unless the blob store fails.
   */
  method ReadAll(reader: Reader, bufferSize: nat -> nat) returns (data: seq<byte>, fault: Fault)
    requires reader.Valid() && forall i :: bufferSize(i) > 0
    modifies reader
    ensures reader.Valid()
    ensures WellLaid(reader.file, reader.blobs) ==> old(reader.Rest()) == data + reader.Rest()
    ensures WellLaid(reader.file, reader.blobs) ==> fault != StorageInvariant
    ensures fault == EndOfFile ==> reader.remaining == 0
    ensures WellLaid(reader.file, reader.blobs) && old(reader.Dependable()) ==> fault == EndOfFile
  {
    data := [];
    var i := 0;
    while true
      invariant reader.Valid()
      invariant WellLaid(reader.file, reader.blobs) ==> old(reader.Rest()) == data + reader.Rest()
      invariant WellLaid(reader.file, reader.blobs) && old(reader.Dependable()) ==> reader.Dependable()
      decreases reader.remaining
    {
      var chunk, stopped := ReadSome(reader, bufferSize(i));
      if WellLaid(reader.file, reader.blobs) {
        assert data + (chunk + reader.Rest()) == data + chunk + reader.Rest();
      }
      data := data + chunk;
      if stopped.Some? {
        return data, stopped.value;
      }
      i := i + 1;
    }
  }

  ghost function PlanEffort(plan: seq<Opening>): nat {
    if plan == [] then 0
    else (match plan[0] case Fails => 0 case Opens(script) => |script|) + PlanEffort(plan[1..])
  }
}
