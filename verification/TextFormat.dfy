/** `odbk_sfmt`: formatting into a buffer that grows until the text fits. */
module TextFormat {
  const INITIAL := 256

  /** The two behaviours of `vsnprintf` on a buffer that is too small: the standard
      one answers the needed length (ISO C99 section 7.19.6.12), the legacy one -1. */
  datatype Platform = Standard | Legacy

  /** `buffer` are the writable characters; the byte behind them takes the NUL. What
      a call that does not fit leaves in the buffer is only known on the standard
      platform. */
  method VsnPrintf(platform: Platform, text: string, buffer: string) returns (n: int, after: string)
    ensures |after| == |buffer|
    ensures |text| <= |buffer| ==> n == |text| && after[..n] == text
    ensures |text| > |buffer| && platform.Standard? ==> n == |text| && after == text[..|buffer|]
    ensures |text| > |buffer| && platform.Legacy? ==> n == -1
  {
    if |text| <= |buffer| {
      n, after := |text|, text + buffer[|text|..];
    } else {
      n, after := if platform.Standard? then |text| else -1, text[..|buffer|];
    }
  }

  /** `std::string::resize` */
  function Resize(buffer: string, length: nat): string {
    if length <= |buffer| then buffer[..length] else buffer + seq(length - |buffer|, _ => '\0')
  }

  /** The growth step in a `size_t` of the given range. */
  function Grow(length: nat, sizeRange: nat): nat
    requires sizeRange > 0
  {
    length * 3 % sizeRange / 2
  }

  /** Without overflow the step grows by half, rounded down. */
  lemma GrowthStep(length: nat, sizeRange: nat)
    requires 3 * length < sizeRange && length >= 2
    ensures length < Grow(length, sizeRange) && 2 * Grow(length, sizeRange) <= 3 * length < 2 * Grow(length, sizeRange) + 2
  {
    assert length * 3 % sizeRange == length * 3;
  }

  /** The sizes the buffer goes through: each half again as large, rounded down. */
  function SizeAt(k: nat): nat {
    if k == 0 then 256 else 3 * SizeAt(k - 1) / 2
  }

  /** The first of these sizes that is large enough. */
  ghost predicate IsFirstFit(size: nat, needed: nat) {
    exists k: nat :: size == SizeAt(k + 1) && SizeAt(k) < needed <= size
  }

  /** The loop for the legacy platform: every size it grows to is less than half
      above a size that was too small, so it stops at the first that is large enough. */
  method GrowUntilItFits(text: string, small: string, sizeRange: nat) returns (buffer: string, nret: int)
    requires 256 == |small| < |text| && 3 * (|text| - 1) < sizeRange
    ensures nret == |text| <= |buffer| && buffer[..nret] == text
    ensures IsFirstFit(|buffer|, |text|) && 2 * |buffer| <= 3 * (|text| - 1)
  {
    ghost var k: nat := 0;
    GrowthStep(|small|, sizeRange);
    buffer := Resize(small, Grow(|small|, sizeRange));
    nret, buffer := VsnPrintf(Legacy, text, buffer);
    while nret < 0
      invariant 256 <= |buffer| == SizeAt(k + 1) && SizeAt(k) < |text| && 2 * |buffer| <= 3 * (|text| - 1)
      invariant if nret < 0 then |buffer| < |text| else nret == |text| <= |buffer| && buffer[..nret] == text
      decreases |text| - |buffer|, nret < 0
    {
      k := k + 1;
      GrowthStep(|buffer|, sizeRange);
      buffer := Resize(buffer, Grow(|buffer|, sizeRange));
      nret, buffer := VsnPrintf(Legacy, text, buffer);
    }
  }

  /** The result is the whole text on both platforms; `peak` is the largest buffer. */
  method Sfmt(platform: Platform, text: string, sizeRange: nat) returns (buffer: string, peak: nat)
    requires platform.Legacy? && |text| > 256 ==> 3 * (|text| - 1) < sizeRange
    ensures buffer == text
    ensures |text| <= 256 ==> peak == 256
    ensures |text| > 256 && platform.Standard? ==> peak == |text|
    ensures |text| > 256 && platform.Legacy? ==> IsFirstFit(peak, |text|) && 2 * peak <= 3 * (|text| - 1)
  {
    buffer := seq(INITIAL, _ => '\0');
    peak := INITIAL;
    var nret: int;
    nret, buffer := VsnPrintf(platform, text, buffer);
    if nret >= 0 {
      if nret < |buffer| {
        buffer := Resize(buffer, nret);
      } else if nret > |buffer| {
        buffer := Resize(buffer, nret);
        peak := nret;
        nret, buffer := VsnPrintf(platform, text, buffer);
      }
    } else {
      buffer, nret := GrowUntilItFits(text, buffer, sizeRange);
      peak := |buffer|;
      buffer := Resize(buffer, nret);
    }
  }
}
