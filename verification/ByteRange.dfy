/** Parsing the Range header into an inclusive span of a file (byte ranges, section 14.1.2 of RFC 9110). */
module ByteRange {
  import opened Text
  import opened Wrappers

  const MAX_INT64: int := 0x7fff_ffff_ffff_ffff

  datatype Range = Range(start: int, end: int) {
    function Length(): int {
      end - start + 1
    }
  }

  datatype Error = InvalidRange | UnsatisfiableRange

  // ----- Numbers -----

  /** Equality with "bytes" under case folding; the long s folds to s. */
  predicate FoldsToBytes(s: string) {
    |s| == 5 && s[0] in "bB" && s[1] in "yY" && s[2] in "tT" && s[3] in "eE" && s[4] in "sS\U{17F}"
  }

  predicate IsDigit(c: char) {
    '0' <= c <= '9'
  }

  predicate AllDigits(s: string) {
    forall c :: c in s ==> IsDigit(c)
  }

  function DigitsValue(s: string): nat
    requires AllDigits(s)
  {
    if s == [] then 0
    else
      assert IsDigit(s[|s| - 1]);
      DigitsValue(s[..|s| - 1]) * 10 + (s[|s| - 1] as int - '0' as int)
  }

  /** A signed decimal number that fits 64 bits. */
  function ParseInt(s: string): Option<int> {
    var signed := s != [] && s[0] in "+-";
    var digits := if signed then s[1..] else s;
    if digits == [] || !AllDigits(digits) then None
    else
      var magnitude: int := DigitsValue(digits);
      var value := if signed && s[0] == '-' then -magnitude else magnitude;
      if -MAX_INT64 - 1 <= value <= MAX_INT64 then Some(value) else None
  }

  // ----- The parser -----

  function ParseSuffix(text: string, size: int): Result<Option<Range>, Error> {
    match ParseInt(text)
    case None => Failure(InvalidRange)
    case Some(suffix) =>
      if suffix <= 0 then Failure(InvalidRange)
      else if size == 0 then Failure(UnsatisfiableRange)
      else Success(Some(Range(size - if suffix > size then size else suffix, size - 1)))
  }

  function ParseFrom(startText: string, endText: string, size: int): Result<Option<Range>, Error> {
    match ParseInt(startText)
    case None => Failure(InvalidRange)
    case Some(start) =>
      if start < 0 then Failure(InvalidRange)
      else if size == 0 || start >= size then Failure(UnsatisfiableRange)
      else if endText == "" then Success(Some(Range(start, size - 1)))
      else
        match ParseInt(endText)
        case None => Failure(InvalidRange)
        case Some(end) =>
          if end < start then Failure(InvalidRange)
          else Success(Some(Range(start, if end >= size then size - 1 else end)))
  }

  function ParseRange(header: string, size: int): Result<Option<Range>, Error> {
    var trimmed := TrimSpace(header);
    if trimmed == "" then Success(None)
    else if size < 0 then Failure(InvalidRange)
    else
      match Cut(trimmed, '=')
      case None => Failure(InvalidRange)
      case Some((unit, spec)) =>
        if !FoldsToBytes(TrimSpace(unit)) || spec == "" || ',' in spec then Failure(InvalidRange)
        else
          match Cut(spec, '-')
          case None => Failure(InvalidRange)
          case Some((startText, endText)) =>
            if startText == "" then ParseSuffix(endText, size) else ParseFrom(startText, endText, size)
  }

  /** An accepted range is a non-empty span inside the file, which opening the file accepts. */
  lemma AcceptedIsInside(header: string, size: int)
    ensures match ParseRange(header, size)
      case Success(Some(r)) => 0 <= r.start <= r.end < size && 1 <= r.Length() && r.Length() <= size - r.start
      case _ => true
  {
  }

  // ----- Rendered ranges parse to what they say -----

  function Decimal(n: nat): string {
    if n < 10 then [('0' as int + n) as char]
    else Decimal(n / 10) + [('0' as int + n % 10) as char]
  }

  lemma {:induction false} DecimalParses(n: nat)
    ensures Decimal(n) != [] && AllDigits(Decimal(n)) && DigitsValue(Decimal(n)) == n
  {
    if n >= 10 {
      DecimalParses(n / 10);
      var leading := Decimal(n / 10);
      assert Decimal(n)[..|Decimal(n)| - 1] == leading;
      assert forall c :: c in Decimal(n) ==> c in leading || c == ('0' as int + n % 10) as char;
    } else {
      var s := Decimal(n);
      assert s[..|s| - 1] == [];
    }
  }

  lemma DecimalIsInt(n: nat)
    requires n <= MAX_INT64
    ensures ParseInt(Decimal(n)) == Some(n)
  {
    DecimalParses(n);
    assert Decimal(n)[0] in Decimal(n);
  }

  lemma SpecSplits(startText: string, endText: string)
    requires AllDigits(startText) && AllDigits(endText)
    ensures Cut(startText + "-" + endText, '-') == Some((startText, endText)) && ',' !in startText + "-" + endText
  {
    assert '-' !in startText;
    CutAt(startText, '-', endText);
    assert startText + "-" + endText == startText + ['-'] + endText;
  }

  lemma HeaderTrimmed(spec: string)
    requires spec != "" && (IsDigit(spec[|spec| - 1]) || spec[|spec| - 1] == '-')
    ensures TrimSpace("bytes=" + spec) == "bytes=" + spec
  {
    var header := "bytes=" + spec;
    assert header[0] == 'b' && header[|header| - 1] == spec[|spec| - 1];
    NothingToTrim(header);
  }

  lemma HeaderCut(spec: string)
    ensures Cut("bytes=" + spec, '=') == Some(("bytes", spec))
  {
    assert "bytes=" + spec == "bytes" + ['='] + spec;
    CutAt("bytes", '=', spec);
  }

  lemma UnitFolds()
    ensures FoldsToBytes(TrimSpace("bytes"))
  {
    NothingToTrim("bytes");
  }

  /** A header of the plain form is parsed by its two numbers. */
  lemma HeaderParses(startText: string, endText: string, size: int)
    requires AllDigits(startText) && AllDigits(endText) && size >= 0
    ensures ParseRange("bytes=" + (startText + "-" + endText), size) ==
      if startText == "" then ParseSuffix(endText, size) else ParseFrom(startText, endText, size)
  {
    var spec := startText + "-" + endText;
    SpecSplits(startText, endText);
    if endText == "" {
      assert spec[|spec| - 1] == '-';
    } else {
      assert spec[|spec| - 1] == endText[|endText| - 1] && endText[|endText| - 1] in endText;
    }
    HeaderTrimmed(spec);
    HeaderCut(spec);
    UnitFolds();
  }

  /** First and last position: the span is cut at the end of the file; beyond the end nothing can be served. */
  lemma BetweenParses(start: nat, end: nat, size: int)
    requires start <= end <= MAX_INT64 && 0 <= size
    ensures ParseRange("bytes=" + (Decimal(start) + "-" + Decimal(end)), size) ==
      if start < size then Success(Some(Range(start, if end < size then end else size - 1)))
      else Failure(UnsatisfiableRange)
  {
    DecimalParses(start);
    DecimalParses(end);
    DecimalIsInt(start);
    DecimalIsInt(end);
    HeaderParses(Decimal(start), Decimal(end), size);
  }

  /** A first position alone runs to the end of the file. */
  lemma FromParses(start: nat, size: int)
    requires start <= MAX_INT64 && 0 <= size
    ensures ParseRange("bytes=" + (Decimal(start) + "-" + ""), size) ==
      if start < size then Success(Some(Range(start, size - 1))) else Failure(UnsatisfiableRange)
  {
    DecimalParses(start);
    DecimalIsInt(start);
    HeaderParses(Decimal(start), "", size);
  }

  lemma SuffixValue(suffix: nat, size: int)
    requires 0 < suffix <= MAX_INT64 && 0 <= size
    ensures ParseSuffix(Decimal(suffix), size) ==
      if size == 0 then Failure(UnsatisfiableRange)
      else Success(Some(Range(if suffix < size then size - suffix else 0, size - 1)))
  {
    DecimalIsInt(suffix);
  }

  /** A suffix length names the last bytes, all of them if there are fewer. */
  lemma SuffixParses(suffix: nat, size: int)
    requires 0 < suffix <= MAX_INT64 && 0 <= size
    ensures ParseRange("bytes=" + ("" + "-" + Decimal(suffix)), size) ==
      if size == 0 then Failure(UnsatisfiableRange)
      else Success(Some(Range(if suffix < size then size - suffix else 0, size - 1)))
  {
    SuffixValue(suffix, size);
    DecimalParses(suffix);
    HeaderParses("", Decimal(suffix), size);
  }

  /** A range that ends before it starts is no range at all, unless its start is already beyond the file. */
  lemma BackwardsIsRefused(start: nat, end: nat, size: int)
    requires end < start <= MAX_INT64 && 0 <= size
    ensures ParseRange("bytes=" + (Decimal(start) + "-" + Decimal(end)), size) ==
      Failure(if start < size then InvalidRange else UnsatisfiableRange)
  {
    DecimalParses(start);
    DecimalParses(end);
    DecimalIsInt(start);
    DecimalIsInt(end);
    HeaderParses(Decimal(start), Decimal(end), size);
  }

  // ----- Nothing else is accepted -----

  /** The letters of "bytes" in either case; the long s counts as an s. */
  predicate IsBytes(unit: string) {
    && |unit| == 5 && (unit[0] == 'b' || unit[0] == 'B') && (unit[1] == 'y' || unit[1] == 'Y')
    && (unit[2] == 't' || unit[2] == 'T') && (unit[3] == 'e' || unit[3] == 'E')
    && (unit[4] == 's' || unit[4] == 'S' || unit[4] == '\U{17F}')
  }

  /** The header is one range: a unit of bytes, a first part without dash and a last part, and no comma. */
  predicate HasForm(header: string, unit: string, first: string, last: string) {
    && TrimSpace(header) == unit + "=" + (first + "-" + last)
    && '=' !in unit && IsBytes(TrimSpace(unit)) && '-' !in first && ',' !in first && ',' !in last
  }

  lemma HasFormSplits(header: string, unit: string, first: string, last: string)
    requires HasForm(header, unit, first, last)
    ensures Cut(TrimSpace(header), '=') == Some((unit, first + "-" + last))
    ensures Cut(first + "-" + last, '-') == Some((first, last)) && ',' !in first + "-" + last
  {
    CutAt(unit, '=', first + "-" + last);
    assert unit + "=" + (first + "-" + last) == unit + ['='] + (first + "-" + last);
    CutAt(first, '-', last);
    assert first + "-" + last == first + ['-'] + last;
  }

  /** A header of that form is read by its parts. */
  lemma FormParses(header: string, unit: string, first: string, last: string, size: int)
    requires HasForm(header, unit, first, last) && size >= 0
    ensures ParseRange(header, size) == if first == "" then ParseSuffix(last, size) else ParseFrom(first, last, size)
  {
    HasFormSplits(header, unit, first, last);
  }

  /** A blank header asks for everything, and every other header that is not of that form is invalid. */
  lemma OtherwiseInvalid(header: string, size: int) returns (unit: string, first: string, last: string)
    ensures TrimSpace(header) == "" ==> ParseRange(header, size) == Success(None)
    ensures TrimSpace(header) != "" && size >= 0 ==>
      HasForm(header, unit, first, last) || ParseRange(header, size) == Failure(InvalidRange)
  {
    unit, first, last := "", "", "";
    var trimmed := TrimSpace(header);
    CutMeans(trimmed, '=');
    match Cut(trimmed, '=')
    case None =>
    case Some((u, spec)) =>
      CutMeans(spec, '-');
      match Cut(spec, '-')
      case None =>
      case Some((a, b)) =>
        unit, first, last := u, a, b;
        if ',' !in spec && FoldsToBytes(TrimSpace(u)) {
          assert forall x :: x in a || x in b ==> x in spec;
          assert spec == a + "-" + b && trimmed == u + "=" + spec;
        }
  }

  /** Only an optional sign and digits make a number, and it is what they say, within 64 bits. */
  lemma NumbersOnly(s: string)
    requires ParseInt(s).Some?
    ensures s != "" && (IsDigit(s[0]) || (|s| > 1 && (s[0] == '+' || s[0] == '-'))) && AllDigits(s[1..])
    ensures -MAX_INT64 - 1 <= ParseInt(s).value <= MAX_INT64
    ensures s[0] == '-' ==> ParseInt(s).value == -(DigitsValue(s[1..]) as int)
    ensures s[0] == '+' ==> ParseInt(s).value == DigitsValue(s[1..])
    ensures IsDigit(s[0]) ==> AllDigits(s) && ParseInt(s).value == DigitsValue(s)
  {
    if s != "" {
      assert s[0] in s;
      assert forall c :: c in s[1..] ==> c in s;
    }
  }

  /** Digits, with a sign or without, are such a number as long as 64 bits hold it. */
  lemma NumbersRead(digits: string)
    requires digits != "" && AllDigits(digits)
    ensures DigitsValue(digits) <= MAX_INT64 ==>
      ParseInt(digits) == ParseInt("+" + digits) == Some(DigitsValue(digits))
    ensures DigitsValue(digits) <= MAX_INT64 + 1 ==> ParseInt("-" + digits) == Some(-(DigitsValue(digits) as int))
  {
    assert digits[0] in digits;
    assert ("+" + digits)[1..] == digits && ("-" + digits)[1..] == digits;
  }

  /** The last position is the end of the file, or a number no smaller than the first, cut at the end of the file. */
  predicate EndsAt(last: string, start: int, size: int, end: int) {
    if last == "" then end == size - 1
    else ParseInt(last).Some? && ParseInt(last).value >= start && end == if ParseInt(last).value < size then ParseInt(last).value else size - 1
  }

  lemma FromMeans(first: string, last: string, size: int, r: Range)
    requires size >= 0
    ensures ParseFrom(first, last, size) == Success(Some(r)) <==>
      ParseInt(first) == Some(r.start) && 0 <= r.start < size && EndsAt(last, r.start, size, r.end)
  {
  }

  /** The header `chunkRange` puts on requests for part of an attachment. */
  function ChunkRange(offset: nat, length: nat): string {
    if offset == 0 && length == 0 then ""
    else if length == 0 then "bytes=" + (Decimal(offset) + "-" + "")
    else "bytes=" + (Decimal(offset) + "-" + Decimal(offset + length - 1))
  }

  /** What the storage client asks for is what a server reading it by the same rules would send. */
  lemma ChunkRangeMeans(offset: nat, length: nat, size: nat)
    requires offset < size && offset + length <= MAX_INT64
    ensures ParseRange(ChunkRange(offset, length), size) ==
      if offset == 0 && length == 0 then Success(None)
      else Success(Some(Range(offset, if length == 0 || offset + length > size then size - 1 else offset + length - 1)))
  {
    if length > 0 {
      BetweenParses(offset, offset + length - 1, size);
    } else if offset > 0 {
      FromParses(offset, size);
    }
  }
}
