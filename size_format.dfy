/** `FileTypeIdentifier.format_size`: a byte count scaled into B, KB, MB, GB
    or TB, each unit 1024 times the previous one. */
module SizeFormat {

  datatype Unit = B | KB | MB | GB | TB {

    /** The unit's symbol as printed after the number. */
    function Symbol(): string
    {
      match this
      case B => "B"
      case KB => "KB"
      case MB => "MB"
      case GB => "GB"
      case TB => "TB"
    }
  }

  /** The units the loop tries in turn; TB is the fallback after them. */
  const Units: seq<Unit> := [B, KB, MB, GB]

  /** The unit with index `k`: `Units[k]` for k < 4, otherwise TB. */
  function UnitAt(k: nat): Unit
  {
    if k < |Units| then Units[k] else TB
  }

  /** A formatted size: the scaled value, exact, and its unit. */
  datatype Size = Size(value: real, unit: Unit)

  /** 1024 to the power k. */
  function Pow1024(k: nat): (p: nat)
    ensures p >= 1
  {
    if k == 0 then 1 else 1024 * Pow1024(k - 1)
  }

  /** The least k in `lo`..3 with n < 1024^(k+1), or 4 when there is none. */
  function UnitIndexFrom(n: nat, lo: nat): (k: nat)
    requires lo <= 4
    decreases 4 - lo
    ensures lo <= k <= 4
    ensures k < 4 ==> n < Pow1024(k + 1)
    ensures forall j :: lo < j <= k ==> Pow1024(j) <= n
  {
    if lo == 4 then 4
    else if n < Pow1024(lo + 1) then lo
    else UnitIndexFrom(n, lo + 1)
  }

  /** The index of the unit `format_size` reports for `n` bytes: the least
      k <= 3 with n < 1024^(k+1), otherwise 4 (TB). */
  function UnitIndex(n: nat): (k: nat)
    ensures k <= 4
    ensures k < 4 ==> n < Pow1024(k + 1)
    ensures forall j :: 0 < j <= k ==> Pow1024(j) <= n
  {
    UnitIndexFrom(n, 0)
  }

  /** What `format_size(n)` denotes before its number is rendered: n divided
      by 1024 once per step up from B, together with the unit reached. */
  function Formatted(n: nat): Size
  {
    var k := UnitIndex(n);
    Size(n as real / Pow1024(k) as real, UnitAt(k))
  }

  /** The five scale factors, written out. */
  lemma PowersOf1024()
    ensures Pow1024(1) == 1024 && Pow1024(2) == 1048576 && Pow1024(3) == 1073741824
    ensures Pow1024(4) == 1099511627776
  {
  }

  /** At step k, the scaled value is below 1024 exactly when n < 1024^(k+1). */
  lemma ScaledBelow(n: nat, k: nat)
    requires k < 4
    ensures (n as real / Pow1024(k) as real < 1024.0) <==> n < Pow1024(k + 1)
  {
    PowersOf1024();
  }

  /** The loop of `format_size`: try B, KB, MB and GB in turn, dividing by
      1024 after each unit at which the value is still 1024 or more; TB takes
      whatever is left. */
  method FormatSize(bytesSize: nat) returns (s: Size)
    ensures s == Formatted(bytesSize)
  {
    var value: real := bytesSize as real;
    var i := 0;
    while i < |Units|
      invariant 0 <= i <= |Units|
      invariant i <= UnitIndex(bytesSize)
      invariant value == bytesSize as real / Pow1024(i) as real
    {
      ScaledBelow(bytesSize, i);
      if value < 1024.0 {
        return Size(value, Units[i]);
      }
      value := value / 1024.0;
      i := i + 1;
    }
    return Size(value, TB);
  }

  /** Values below 1024 are reported in bytes, unchanged; every other value
      moves to a larger unit. */
  lemma SmallValuesInBytes(n: nat)
    ensures n < 1024 <==> Formatted(n).unit == B
    ensures n < 1024 ==> Formatted(n).value == n as real
  {
  }

  /** The reported unit is TB exactly when n is at least 1024^4, the point
      where all four divisions have happened. */
  lemma TeraBytesCap(n: nat)
    ensures Formatted(n).unit == TB <==> n >= Pow1024(4)
  {
  }

  /** A larger byte count never gets a smaller unit. */
  lemma UnitIndexMonotone(a: nat, b: nat)
    requires a <= b
    ensures UnitIndex(a) <= UnitIndex(b)
  {
  }

  /** The scaled value is below 1024 for every unit but TB, and at least 1
      for every unit but B. */
  lemma ScaledValueBounds(n: nat)
    ensures Formatted(n).unit != TB ==> Formatted(n).value < 1024.0
    ensures Formatted(n).unit != B ==> Formatted(n).value >= 1.0
  {
    var k := UnitIndex(n);
    PowersOf1024();
    if k < 4 {
      ScaledBelow(n, k);
    }
  }
}
