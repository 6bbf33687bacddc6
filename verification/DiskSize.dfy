/** Disk sizes as text (util/util.go ParseDiskSize): decimal digits and at most one suffix,
    multiplied out in uint64 arithmetic. */
module DiskSize {
  import opened Wrappers
  import opened Decimal

  const SMALLEST: int := 512
  const LARGEST: int := 0x8000_0000_0000   // 128 TiB

  datatype Error = NotANumber | InvalidSize

  function Multiplier(suffix: char): Option<nat> {
    match suffix
    case 'b' => Some(1)
    case 'B' => Some(1)
    case 'k' => Some(0x400)
    case 'K' => Some(0x400)
    case 'm' => Some(0x10_0000)
    case 'M' => Some(0x10_0000)
    case 'g' => Some(0x4000_0000)
    case 'G' => Some(0x4000_0000)
    case 't' => Some(0x100_0000_0000)
    case 'T' => Some(0x100_0000_0000)
    case _ => None
  }

  /** The letters: bytes, and then each 1024 times the one before, in either case. */
  lemma SuffixesMean()
    ensures Multiplier('b') == Some(1)
    ensures Multiplier('k') == Some(1024) && Multiplier('m') == Some(1024 * 1024)
    ensures Multiplier('g') == Some(1024 * 1024 * 1024) && Multiplier('t') == Some(1024 * 1024 * 1024 * 1024)
    ensures Multiplier('B') == Multiplier('b') && Multiplier('K') == Multiplier('k')
    ensures Multiplier('M') == Multiplier('m') && Multiplier('G') == Multiplier('g')
    ensures Multiplier('T') == Multiplier('t')
    ensures forall c :: Multiplier(c).Some? <==> c in "bBkKmMgGtT"
  {
  }

  /** parseDiskSizeSuffix: at most one suffix letter comes off. */
  function SplitSuffix(text: string): (string, nat) {
    if text == "" then (text, 1)
    else
      match Multiplier(text[|text| - 1])
      case Some(m) => (text[..|text| - 1], m)
      case None => (text, 1)
  }

  /** The product of two uint64 values as the machine computes it. */
  function Product64(x: nat, y: nat): nat {
    (x * y) % POW64
  }

  function MultiplyWillOverflow(x: nat, y: nat): bool
    requires x < POW64 && y < POW64
  {
    if x <= 1 || y <= 1 then false
    else Product64(x, y) / y != x
  }

  /** The division test is exact: it answers true just when the product does not fit. */
  lemma OverflowTestExact(x: nat, y: nat)
    requires x < POW64 && y < POW64
    ensures MultiplyWillOverflow(x, y) <==> x * y >= POW64
  {
    if x <= 1 {
      assert x * y <= y;
    } else if y <= 1 {
      assert x * y <= x;
    } else if x * y < POW64 {
      DivideBack(x, y);
    } else {
      var d := Product64(x, y);
      assert (d / y) * y <= d < POW64 <= x * y;
    }
  }

  lemma DivideBack(x: nat, y: nat)
    requires y > 0 && x * y < POW64
    ensures Product64(x, y) == x * y && (x * y) / y == x
  {
    var q, r := (x * y) / y, (x * y) % y;
    assert x * y == q * y + r && 0 <= r < y;
    assert q < x ==> (x - q - 1) * y >= 0;
    assert q > x ==> (q - x - 1) * y >= 0;
  }

  /** ParseDiskSize. */
  function ParseDiskSize(text: string): Result<nat, Error> {
    var (digits, multiplier) := SplitSuffix(text);
    match ParseUint(digits, POW64)
    case None => Err(NotANumber)
    case Some(n) =>
      if MultiplyWillOverflow(n, multiplier) then Err(InvalidSize)
      else
        var size := Product64(n, multiplier);
        if size < SMALLEST || size > LARGEST then Err(InvalidSize) else Ok(size)
  }

  /** What the text says without any machine arithmetic: digits, then nothing or one suffix. */
  ghost predicate Denotes(text: string, size: int) {
    exists digits: string, suffix: string ::
      && text == digits + suffix && digits != "" && AllDigits(digits)
      && (suffix == "" || (|suffix| == 1 && Multiplier(suffix[0]).Some?))
      && size == Value(digits) * (if suffix == "" then 1 else Multiplier(suffix[0]).value)
  }

  lemma SplitOfDenoted(digits: string, suffix: string)
    requires digits != "" && AllDigits(digits)
    requires suffix == "" || (|suffix| == 1 && Multiplier(suffix[0]).Some?)
    ensures SplitSuffix(digits + suffix) == (digits, if suffix == "" then 1 else Multiplier(suffix[0]).value)
  {
    if suffix == "" {
      assert digits + suffix == digits;
      assert IsDigit(digits[|digits| - 1]);
    } else {
      assert (digits + suffix)[..|digits|] == digits;
    }
  }

  /** Parsing once the text has been split. */
  lemma ParsedValue(text: string, size: int)
    requires var (digits, multiplier) := SplitSuffix(text);
             digits != "" && AllDigits(digits) && size == Value(digits) * multiplier
    ensures ParseDiskSize(text) ==
            if SMALLEST <= size <= LARGEST then Ok(size)
            else Err(if Value(SplitSuffix(text).0) >= POW64 then NotANumber else InvalidSize)
  {
    var (digits, multiplier) := SplitSuffix(text);
    var n := Value(digits);
    assert 1 <= multiplier < POW64;
    if n < POW64 {
      OverflowTestExact(n, multiplier);
      if n * multiplier < POW64 {
        DivideBack(n, multiplier);
      }
    } else {
      assert n * multiplier >= n;
    }
  }

  /** Exactly the texts that denote a size between 512 bytes and 128 TiB are accepted, with
      that size; overflowing ones are among those refused. */
  lemma AcceptsExactly(text: string, size: nat)
    ensures ParseDiskSize(text) == Ok(size) <==>
            Denotes(text, size) && 512 <= size <= 128 * 1024 * 1024 * 1024 * 1024
  {
    var (digits, multiplier) := SplitSuffix(text);
    if ParseDiskSize(text).Ok? {
      ParsedValue(text, Value(digits) * multiplier);
      var suffix := text[|digits|..];
      assert text == digits + suffix;
      assert Denotes(text, Value(digits) * multiplier);
    }
    if Denotes(text, size) {
      var d, s :| text == d + s && d != "" && AllDigits(d)
        && (s == "" || (|s| == 1 && Multiplier(s[0]).Some?))
        && size == Value(d) * (if s == "" then 1 else Multiplier(s[0]).value);
      SplitOfDenoted(d, s);
      ParsedValue(text, size);
    }
  }

  /** Printing a number with a suffix and parsing it back multiplies it out. */
  lemma PrintThenParse(n: nat, suffix: char)
    requires Multiplier(suffix).Some?
    requires SMALLEST <= n * Multiplier(suffix).value <= LARGEST
    ensures ParseDiskSize(Format(n) + [suffix]) == Ok(n * Multiplier(suffix).value)
  {
    ValueOfFormat(n);
    SplitOfDenoted(Format(n), [suffix]);
    ParsedValue(Format(n) + [suffix], n * Multiplier(suffix).value);
  }
}
