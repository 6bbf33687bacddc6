/** Growing a ZFS volume (disk/zfs.go SetSize): sizes are uint64, and the round-up to the
    block size may wrap. */
module VolumeSize {
  import opened Wrappers
  import opened Decimal

  newtype Size = n: int | 0 <= n < 0x1_0000_0000_0000_0000

  datatype Error = SizeUnknown | BlockSizeUnknown | Shrinkage | ApplyFailed

  /** uint64 addition. */
  function Plus(a: Size, b: Size): Size {
    ((a as int + b as int) % POW64) as Size
  }

  function Times(k: nat, block: int): int {
    k * block
  }

  ghost predicate IsMultiple(n: int, block: int) {
    exists k: nat :: n == Times(k, block)
  }

  /** The least multiple of the block size that is at or above n. */
  ghost predicate IsRoundUp(r: int, n: int, block: int) {
    n <= r < n + block && IsMultiple(r, block)
  }

  /** The least multiple of the block size at or above n does not fit in 64 bits. */
  ghost predicate Wraps(n: int, block: int) {
    exists r :: IsRoundUp(r, n, block) && r >= POW64
  }

  /** The least multiple of the block size at or above n is below the current size. */
  ghost predicate TooSmall(current: int, n: int, block: int) {
    exists r :: IsRoundUp(r, n, block) && r < current
  }

  ghost predicate Aligned(n: int, block: int) {
    n > 0 && IsMultiple(n, block)
  }

  class Volume {
    var size: Size
    var touched: bool        // a new size has been applied
    const blockSize: Size

    constructor (size: Size, blockSize: Size)
      ensures this.size == size && this.blockSize == blockSize && !touched
    {
      this.size, this.blockSize, touched := size, blockSize, false;
    }

    /** The three booleans are the outcomes of the two queries and of the zfs command. A
        zero block size never gets past its query. An applied size is the least multiple at
        or above the request and never a shrinkage; only on a volume that is not itself a
        positive multiple of its block size can a wrapped round-up get through. */
    method SetSize(volSize: Size, sizeKnown: bool, blockKnown: bool, applies: bool) returns (err: Option<Error>)
      requires !touched && (blockKnown ==> blockSize != 0)
      modifies this
      ensures touched <==> err.None? && volSize != old(size)
      ensures touched ==> sizeKnown && blockKnown && applies && size >= old(size)
      ensures !touched ==> size == old(size)
      ensures touched ==> IsRoundUp(size as int, volSize as int, blockSize as int) ||
                          (Wraps(volSize as int, blockSize as int) && size < blockSize)
      ensures touched && Aligned(old(size) as int, blockSize as int) ==>
                IsRoundUp(size as int, volSize as int, blockSize as int)
      ensures err == Some(SizeUnknown) <==> !sizeKnown
      ensures err == Some(BlockSizeUnknown) <==> sizeKnown && volSize != old(size) && !blockKnown
      ensures blockKnown && Aligned(old(size) as int, blockSize as int) ==>
                (err == Some(Shrinkage) <==>
                 sizeKnown && volSize != old(size) &&
                 (Wraps(volSize as int, blockSize as int) ||
                  TooSmall(old(size) as int, volSize as int, blockSize as int)))
      ensures err == Some(ApplyFailed) ==> !applies
    {
      var newSize := volSize;
      if !sizeKnown {
        return Some(SizeUnknown);
      }
      var currentSize := size;
      if newSize == currentSize {
        return None;
      }
      if !blockKnown {
        return Some(BlockSizeUnknown);
      }
      RoundedIs(volSize, blockSize);
      var mod := newSize % blockSize;
      if mod > 0 {
        var ads := blockSize - mod;
        newSize := Plus(newSize, ads);
      }
      if Aligned(currentSize as int, blockSize as int) {
        ShrinksExactly(currentSize, volSize, blockSize);
      }
      if newSize < currentSize {
        return Some(Shrinkage);
      }
      if !applies {
        return Some(ApplyFailed);
      }
      size, touched := newSize, true;
      return None;
    }
  }

  /** What the code compares with the current size. */
  function Rounded(n: Size, block: Size): Size
    requires block > 0
  {
    if n % block > 0 then Plus(n, block - n % block) else n
  }

  lemma OneRoundUp(r: int, t: int, n: int, block: int)
    requires IsRoundUp(r, n, block) && IsRoundUp(t, n, block)
    ensures r == t
  {
    var j: nat :| r == Times(j, block);
    var k: nat :| t == Times(k, block);
    if j < k {
      NextMultiple(j, k, block);
    } else if k < j {
      NextMultiple(k, j, block);
    }
  }

  lemma NextMultiple(j: nat, k: nat, block: int)
    requires j < k && block > 0
    ensures Times(j, block) + block <= Times(k, block)
  {
    assert (k - j - 1) * block >= 0;
    assert k * block == j * block + block + (k - j - 1) * block;
  }

  /** The code's value is the true round-up, or its round-up wraps and it is below one block. */
  lemma RoundedIs(n: Size, block: Size)
    requires block > 0
    ensures if Wraps(n as int, block as int) then Rounded(n, block) < block
            else IsRoundUp(Rounded(n, block) as int, n as int, block as int)
  {
    var want, unit: int := n as int, block as int;
    var up := if want % unit > 0 then want + (unit - want % unit) else want;
    RoundUpIsMultiple(want, unit);
    assert IsRoundUp(up, want, unit);
    if up >= POW64 {
      assert up % POW64 == up - POW64;
    } else {
      forall r | IsRoundUp(r, want, unit)
        ensures r < POW64
      {
        OneRoundUp(r, up, want, unit);
      }
    }
  }

  /** The test for shrinkage sees both a request that is too small and one that wraps: a
      wrapped value is below one block, an aligned size is not. */
  lemma ShrinksExactly(current: Size, request: Size, block: Size)
    requires block > 0 && Aligned(current as int, block as int)
    ensures Rounded(request, block) < current <==>
            Wraps(request as int, block as int) || TooSmall(current as int, request as int, block as int)
  {
    RoundedIs(request, block);
    MultipleIsAtLeastBlock(current as int, block as int);
    if !Wraps(request as int, block as int) {
      var want, unit: int := request as int, block as int;
      forall r | IsRoundUp(r, want, unit)
        ensures r == Rounded(request, block) as int
      {
        OneRoundUp(r, Rounded(request, block) as int, want, unit);
      }
    }
  }

  lemma RoundUpIsMultiple(n: int, block: int)
    requires n >= 0 && block > 0
    ensures n % block == 0 ==> IsMultiple(n, block)
    ensures IsMultiple(n + (block - n % block), block)
  {
    var q := n / block;
    assert n == q * block + n % block;
    assert n % block == 0 ==> n == Times(q, block);
    assert n + (block - n % block) == Times(q + 1, block);
  }

  lemma MultipleIsAtLeastBlock(n: int, block: int)
    requires n > 0 && block > 0 && IsMultiple(n, block)
    ensures n >= block
  {
    var k: nat :| n == Times(k, block);
    assert k >= 1;
    assert (k - 1) * block >= 0;
  }

}
