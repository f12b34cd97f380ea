/** How an upload is cut into chunks: the planned chunk size, the parts it yields and when stored parts are complete. */
module ChunkLayout {
  import opened Arithmetic
  import opened Sums
  import opened Wrappers

  const MAX_INT32: int := 0x7fff_ffff
  const PARTS_PER_SLOT: int := 2

  // ----- Planning -----

  /** Integer division rounding up; zero where it would make no sense. */
  function CeilDiv(value: int, divisor: int): int {
    if value <= 0 || divisor <= 0 then 0
    else value / divisor + if value % divisor != 0 then 1 else 0
  }

  function ClampedMinimum(minimum: int, standard: int): int {
    var m := if minimum <= 0 then standard else minimum;
    if standard > 0 && m > standard then standard else m
  }

  function TargetParts(capacity: int): int {
    if capacity <= 1 then 1
    else if capacity > MAX_INT32 / PARTS_PER_SLOT then MAX_INT32
    else capacity * PARTS_PER_SLOT
  }

  /** `chunkPlanner.Plan`; no capacity provider is `None`. */
  function Plan(standard: int, minimum: int, capacity: Option<int>, size: int): int {
    if standard <= 0 || size <= 0 || capacity.None? then standard
    else if capacity.value <= 1 then standard
    else
      var target := TargetParts(capacity.value);
      if CeilDiv(size, standard) >= target then standard
      else
        var desired := CeilDiv(size, target);
        var least := ClampedMinimum(minimum, standard);
        if desired < least then least
        else if desired > standard then standard
        else desired
  }

  lemma CeilDivBounds(value: int, divisor: int)
    requires value > 0 && divisor > 0
    ensures CeilDiv(value, divisor) >= 1
    ensures (CeilDiv(value, divisor) - 1) * divisor < value <= CeilDiv(value, divisor) * divisor
  {
    var q, r := value / divisor, value % divisor;
    assert value == q * divisor + r;
    if q < 0 {
      MultipleBound(q, divisor);
      assert false;
    }
    assert (q + 1) * divisor == q * divisor + divisor;
    assert (q - 1) * divisor == q * divisor - divisor;
  }

  lemma CeilDivAtMost(value: int, divisor: int, bound: int)
    requires value > 0 && divisor > 0 && value <= bound * divisor
    ensures CeilDiv(value, divisor) <= bound
  {
    CeilDivBounds(value, divisor);
    var excess := CeilDiv(value, divisor) - bound;
    assert (CeilDiv(value, divisor) - 1) * divisor == bound * divisor + excess * divisor - divisor;
    MultipleBound(excess, divisor);
  }

  lemma MultiplyMonotone(a: int, b: int, c: int)
    requires a <= b && c >= 0
    ensures a * c <= b * c
  {
    assert (b - a) * c >= 0;
  }

  /** The adaptive size never exceeds the default one: the branch that cuts it down to the default is dead. */
  lemma DesiredNeverExceedsDefault(size: int, standard: int, target: int)
    requires size > 0 && standard > 0 && target > 0 && CeilDiv(size, standard) < target
    ensures CeilDiv(size, target) <= standard
  {
    CeilDivBounds(size, standard);
    MultiplyMonotone(CeilDiv(size, standard), target, standard);
    assert target * standard == standard * target;
    CeilDivAtMost(size, target, standard);
  }

  /**
   * The planned chunk lies between the clamped minimum and the default, and cuts the file into no more parts
   * than the default size would or than there are slots to fill, whichever is more.
   */
  lemma PlanWithinBounds(standard: int, minimum: int, capacity: Option<int>, size: int)
    requires standard > 0 && size > 0
    ensures 0 < ClampedMinimum(minimum, standard) <= Plan(standard, minimum, capacity, size) <= standard
    ensures var chunk := Plan(standard, minimum, capacity, size);
      var slots := if capacity.Some? then TargetParts(capacity.value) else 1;
      CeilDiv(size, chunk) <= CeilDiv(size, standard) || CeilDiv(size, chunk) <= slots
  {
    if capacity.Some? && capacity.value > 1 {
      var target := TargetParts(capacity.value);
      if CeilDiv(size, standard) < target {
        var chunk := Plan(standard, minimum, capacity, size);
        DesiredNeverExceedsDefault(size, standard, target);
        CeilDivBounds(size, target);
        MultiplyMonotone(CeilDiv(size, target), chunk, target);
        assert chunk * target == target * chunk;
        CeilDivAtMost(size, chunk, target);
      }
    }
  }

  lemma CeilDivIsLeast(value: int, divisor: int, q: int)
    requires value > 0 && divisor > 0
    ensures q * divisor >= value <==> q >= CeilDiv(value, divisor)
  {
    CeilDivBounds(value, divisor);
    if q >= CeilDiv(value, divisor) {
      MultiplyMonotone(CeilDiv(value, divisor), q, divisor);
    } else {
      MultiplyMonotone(q, CeilDiv(value, divisor) - 1, divisor);
    }
  }

  /** As many parts as are wanted in flight: two for each slot, within an int32. */
  function WantedParts(capacity: int): int {
    if 2 * capacity > MAX_INT32 then MAX_INT32 else 2 * capacity
  }

  /** A size that the plan may choose: no less than the minimum, which is never above the default. */
  predicate Allowed(standard: int, minimum: int, chunk: int) {
    chunk == standard || (0 < minimum <= chunk <= standard)
  }

  lemma WantedIsTarget(capacity: int)
    requires capacity > 1
    ensures WantedParts(capacity) == TargetParts(capacity) > 1
  {
  }

  /** The larger of the least size that makes no more than `target` parts and of the minimum. */
  function Adapted(standard: int, minimum: int, target: int, size: int): int {
    var desired, least := CeilDiv(size, target), ClampedMinimum(minimum, standard);
    if desired < least then least else desired
  }

  lemma AdaptedIsSmallest(standard: int, minimum: int, target: int, size: int, other: int)
    requires standard > 0 && size > 0 && target > 0 && CeilDiv(size, target) <= standard
    ensures var chunk := Adapted(standard, minimum, target, size);
      && Allowed(standard, minimum, chunk) && size <= chunk * target
      && (Allowed(standard, minimum, other) && other < chunk ==> other * target < size)
  {
    CeilDivIsLeast(size, target, Adapted(standard, minimum, target, size));
    CeilDivIsLeast(size, target, other);
  }

  /**
   * With more than one slot, and a file that the default size cuts into fewer parts than wanted, the plan is the
   * smallest allowed size that makes no more parts than wanted; in all other cases it is the default.
   */
  lemma PlanIsSmallest(standard: int, minimum: int, capacity: Option<int>, size: int, other: int)
    ensures var chunk := Plan(standard, minimum, capacity, size);
      if standard > 0 && size > 0 && capacity.Some? && capacity.value > 1 && size <= (WantedParts(capacity.value) - 1) * standard
      then
        && Allowed(standard, minimum, chunk) && size <= chunk * WantedParts(capacity.value)
        && (Allowed(standard, minimum, other) && other < chunk ==> other * WantedParts(capacity.value) < size)
      else chunk == standard
  {
    if standard > 0 && size > 0 && capacity.Some? && capacity.value > 1 {
      var target := WantedParts(capacity.value);
      WantedIsTarget(capacity.value);
      CeilDivIsLeast(size, standard, target - 1);
      if CeilDiv(size, standard) < target {
        DesiredNeverExceedsDefault(size, standard, target);
        AdaptedIsSmallest(standard, minimum, target, size, other);
      }
    }
  }

  /** The file is cut into as many chunks as are needed and no more, if an int32 can count them. */
  lemma PartCountIsLeast(size: nat, chunk: int, count: nat)
    requires chunk > 0
    ensures PartCount(size, chunk).Success? <==> size <= MAX_INT32 * chunk
    ensures PartCount(size, chunk).Success? ==> (size <= count * chunk <==> PartCount(size, chunk).value <= count)
  {
    if size > 0 {
      CeilDivIsLeast(size, chunk, MAX_INT32);
      CeilDivIsLeast(size, chunk, count);
    }
  }

  // ----- Parts -----

  function PartCount(size: nat, chunk: int): Result<nat, ()>
    requires chunk > 0
  {
    if size == 0 then Success(0)
    else
      var count := size / chunk + if size % chunk != 0 then 1 else 0;
      if count > MAX_INT32 then Failure(()) else Success(count)
  }

  /** `expectedPartSize` for a session of `parts` parts. */
  function PartSize(parts: nat, chunk: int, size: nat, index: int): Option<int> {
    if index < 0 || index >= parts then None
    else if index < parts - 1 then Some(chunk)
    else Some(size - index * chunk)
  }

  /** A session's numbers as its creation leaves them. */
  predicate Cut(parts: nat, chunk: int, size: nat) {
    chunk > 0 && PartCount(size, chunk) == Success(parts)
  }

  /** Every part is non-empty and no larger than a chunk; part `i` ends where part `i + 1` starts, the last at the end. */
  lemma PartsTile(parts: nat, chunk: int, size: nat, index: int)
    requires Cut(parts, chunk, size) && 0 <= index < parts
    ensures PartSize(parts, chunk, size, index).Some?
    ensures 0 < PartSize(parts, chunk, size, index).value <= chunk
    ensures index * chunk + PartSize(parts, chunk, size, index).value == if index < parts - 1 then (index + 1) * chunk else size
    ensures index * chunk + PartSize(parts, chunk, size, index).value <= size
  {
    assert size > 0 && parts == CeilDiv(size, chunk);
    CeilDivBounds(size, chunk);
    assert (index + 1) * chunk == index * chunk + chunk;
    assert (parts - 1) * chunk == parts * chunk - chunk;
    if index < parts - 1 {
      MultiplyMonotone(index + 1, parts - 1, chunk);
    }
  }

  // ----- Completeness of the stored parts -----

  /** Stored part rows of one upload, at most one an index. */
  type Rows = map<int, nat>

  predicate RowValid(parts: nat, chunk: int, size: nat, index: int, bytes: nat) {
    0 <= index < parts && bytes == if index < parts - 1 then chunk else size - index * chunk
  }

  /** `validatePartsQuery`: number of rows, their sum, and a check on each. */
  ghost predicate Complete(parts: nat, chunk: int, size: nat, rows: Rows) {
    && |rows| == parts
    && Sum(rows, rows.Keys) == size
    && forall i :: i in rows ==> RowValid(parts, chunk, size, i, rows[i])
  }

  /** The query as one pass over the rows. */
  method ValidateParts(parts: nat, chunk: int, size: nat, rows: Rows) returns (complete: bool)
    ensures complete <==> Complete(parts, chunk, size, rows)
  {
    var valid := true;
    var count, total := 0, 0;
    var rest := rows.Keys;
    while rest != {}
      invariant rest <= rows.Keys
      invariant count + |rest| == |rows.Keys|
      invariant total + Sum(rows, rest) == Sum(rows, rows.Keys)
      invariant valid <==> forall i :: i in rows && i !in rest ==> RowValid(parts, chunk, size, i, rows[i])
      decreases rest
    {
      assert (forall i :: i !in rest) ==> rest == {};
      var i :| i in rest;
      SumTake(rows, rest, i);
      count, total := count + 1, total + rows[i];
      valid := valid && RowValid(parts, chunk, size, i, rows[i]);
      rest := rest - {i};
    }
    assert |rows.Keys| == |rows|;
    complete := count == parts && total == size && valid;
  }

  function Indices(n: nat): (s: set<int>)
    ensures |s| == n && forall i :: i in s <==> 0 <= i < n
  {
    if n == 0 then {} else Indices(n - 1) + {n - 1}
  }

  /** The sizes of the first `n` parts add up to where part `n` starts. */
  lemma {:induction false} LeadingSum(parts: nat, chunk: int, size: nat, rows: Rows, n: nat, leading: set<int>)
    requires Cut(parts, chunk, size) && n <= parts && forall i :: i in leading <==> 0 <= i < n
    requires forall i :: i in leading ==> i in rows && RowValid(parts, chunk, size, i, rows[i])
    ensures Sum(rows, leading) == if n < parts then n * chunk else size
    decreases n
  {
    if n == 0 {
      assert leading == {};
      if size > 0 {
        CeilDivBounds(size, chunk);
      }
    } else {
      LeadingSum(parts, chunk, size, rows, n - 1, leading - {n - 1});
      SumTake(rows, leading, n - 1);
      PartsTile(parts, chunk, size, n - 1);
    }
  }

  /**
   * The three aggregate checks accept exactly the rows 0 to parts - 1, each of its expected size:
   * distinct indices below `parts` that are `parts` many leave no gap.
   */
  lemma CompleteIff(parts: nat, chunk: int, size: nat, rows: Rows)
    requires Cut(parts, chunk, size)
    ensures Complete(parts, chunk, size, rows) <==>
      rows.Keys == Indices(parts) &&
      forall i :: 0 <= i < parts ==> PartSize(parts, chunk, size, i) == Some(rows[i])
  {
    assert |rows| == |rows.Keys|;
    if Complete(parts, chunk, size, rows) {
      assert rows.Keys <= Indices(parts);
      SubsetSize(rows.Keys, Indices(parts));
    }
    if rows.Keys == Indices(parts) && forall i :: 0 <= i < parts ==> PartSize(parts, chunk, size, i) == Some(rows[i]) {
      LeadingSum(parts, chunk, size, rows, parts, rows.Keys);
    }
  }
}
