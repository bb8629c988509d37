/** size.rs: byte counts, the binary size units and their human-readable rendering. */
module Size {
  import opened Wrappers
  import opened Ints
  import Text

  datatype SizeUnit = Byte | KibiByte | MebiByte | GibiByte | TebiByte | PebiByte

  datatype SizeError = Negative | TooLarge

  /** A byte count; the derived `Ord` compares the count. */
  datatype Size = Size(inBytes: U128)

  /** A size expressed in a unit. */
  datatype HumanReadableSize = HumanReadableSize(size: U128, unit: SizeUnit)

  function ShortName(u: SizeUnit): string {
    match u
    case Byte => "B"
    case KibiByte => "KiB"
    case MebiByte => "MiB"
    case GibiByte => "GiB"
    case TebiByte => "TiB"
    case PebiByte => "PiB"
  }

  function Max(u: SizeUnit): U128 {
    match u
    case Byte => 1_023
    case KibiByte => 1_048_575
    case MebiByte => 1_073_741_823
    case GibiByte => 1_099_511_627_775
    case TebiByte => 1_125_899_906_842_623
    case PebiByte => 1_152_921_504_606_846_975
  }

  function Min(u: SizeUnit): U128 {
    match u
    case Byte => 0
    case KibiByte => 1_024
    case MebiByte => 1_048_576
    case GibiByte => 1_073_741_824
    case TebiByte => 1_099_511_627_776
    case PebiByte => 1_125_899_906_842_624
  }

  function Multiplier(u: SizeUnit): nat {
    match u
    case Byte => 0
    case KibiByte => 1
    case MebiByte => 2
    case GibiByte => 3
    case TebiByte => 4
    case PebiByte => 5
  }

  /** `1024_u128.pow(k)`. */
  function Pow1024(k: nat): nat {
    if k == 0 then 1 else 1024 * Pow1024(k - 1)
  }

  /** The unit with a given multiplier, if any: the `match` at the end of `preferred_size_unit`. */
  function UnitOfMultiplier(k: nat): Option<SizeUnit> {
    if k == 0 then Some(Byte)
    else if k == 1 then Some(KibiByte)
    else if k == 2 then Some(MebiByte)
    else if k == 3 then Some(GibiByte)
    else if k == 4 then Some(TebiByte)
    else if k == 5 then Some(PebiByte)
    else None
  }

  /** `floor(log_1024(n))` for `n >= 1`, the integer that `(n as f64).log(1024) as u32` computes. */
  function Log1024(n: nat): nat
    requires n >= 1
  {
    if n < 1024 then 0 else 1 + Log1024(n / 1024)
  }

  /** `preferred_size_unit`: zero is bytes; counts above the gibibyte range are first divided by 1024^4
      and the result's logarithm offset by 4. */
  function PreferredUnit(n: U128): Option<SizeUnit> {
    if n == 0 then Some(Byte)
    else if n > Max(GibiByte) then UnitOfMultiplier(Log1024(n as nat / Pow1024(4)) + 4)
    else UnitOfMultiplier(Log1024(n as nat))
  }

  /** `Size::try_from(i64)`: negative counts are rejected, others kept. */
  function SizeFromI64(v: I64): (r: Result<Size, SizeError>)
    ensures r.Ok? <==> v >= 0
    ensures r.Ok? ==> r.value.inBytes as int == v as int
    ensures r.Err? ==> r.error == Negative
  {
    if v >= 0 then Ok(Size(v as int as U128)) else Err(Negative)
  }

  /** The derived `Ord` of `Size`. */
  predicate SizeLt(a: Size, b: Size) {
    a.inBytes < b.inBytes
  }

  /** `HumanReadableSize::try_from(Size)`: the preferred unit, and the count divided by that unit's
      power of 1024, rounding down. */
  function HumanFromSize(s: Size): Result<HumanReadableSize, SizeError> {
    match PreferredUnit(s.inBytes)
    case None => Err(TooLarge)
    case Some(u) => Ok(HumanReadableSize((s.inBytes as nat / Pow1024(Multiplier(u))) as U128, u))
  }

  /** `Display for HumanReadableSize`: the decimal size immediately followed by the unit's short name. */
  function Display(h: HumanReadableSize): string {
    Text.NatToString(h.size as nat) + ShortName(h.unit)
  }

  lemma Pow1024Values()
    ensures Pow1024(1) == 1024 && Pow1024(2) == 1_048_576 && Pow1024(3) == 1_073_741_824
    ensures Pow1024(4) == 1_099_511_627_776 && Pow1024(5) == 1_125_899_906_842_624
    ensures Pow1024(6) == 1_152_921_504_606_846_976
  {
    assert Pow1024(1) == 1024;
    assert Pow1024(2) == 1_048_576;
    assert Pow1024(3) == 1_073_741_824;
    assert Pow1024(4) == 1_099_511_627_776;
    assert Pow1024(5) == 1_125_899_906_842_624;
  }

  /** The unit ranges tile the counts from 0 to the pebibyte maximum: bytes are [0, 1023] and the unit
      with multiplier k >= 1 is [1024^k, 1024^(k+1) - 1]. */
  lemma UnitRanges(u: SizeUnit)
    ensures u == Byte ==> Min(u) == 0
    ensures u != Byte ==> Min(u) as nat == Pow1024(Multiplier(u))
    ensures Max(u) as nat == Pow1024(Multiplier(u) + 1) - 1
    ensures UnitOfMultiplier(Multiplier(u)) == Some(u)
    ensures u != PebiByte ==> UnitOfMultiplier(Multiplier(u) + 1).Some?
                              && Min(UnitOfMultiplier(Multiplier(u) + 1).value) == Max(u) + 1
  {
    Pow1024Values();
  }

  /** `Log1024(n)` is the power of 1024 that brackets `n`. */
  lemma {:induction false} Log1024Brackets(n: nat)
    requires n >= 1
    ensures Pow1024(Log1024(n)) <= n < Pow1024(Log1024(n) + 1)
    decreases n
  {
    if n >= 1024 {
      Log1024Brackets(n / 1024);
    }
  }

  /** Any `k` with 1024^k <= n < 1024^(k+1) is `Log1024(n)`. */
  lemma {:induction false} Log1024Unique(n: nat, k: nat)
    requires n >= 1 && Pow1024(k) <= n < Pow1024(k + 1)
    ensures Log1024(n) == k
    decreases n
  {
    if k > 0 {
      assert n >= 1024 by { Pow1024Positive(k - 1); }
      Log1024Unique(n / 1024, k - 1);
    } else {
      assert n < 1024;
    }
  }

  /** A count of at least 1024^k has a logarithm of at least k. */
  lemma {:induction false} Log1024AtLeast(n: nat, k: nat)
    requires Pow1024(k) <= n
    ensures n >= 1 && Log1024(n) >= k
    decreases k
  {
    Pow1024Positive(k);
    if k > 0 {
      Pow1024Positive(k - 1);
      assert n / 1024 >= Pow1024(k - 1);
      Log1024AtLeast(n / 1024, k - 1);
    }
  }

  lemma DivBelow(n: nat, p: nat, c: nat)
    requires p > 0 && n < c * p
    ensures n / p < c
  {
    var q := n / p;
    assert p * q <= n;
    assert p * (c - q) > 0;
  }

  lemma DivAtLeastOne(n: nat, p: nat)
    requires p > 0 && p <= n
    ensures n / p >= 1
  {
  }

  lemma Pow1024Positive(k: nat)
    ensures Pow1024(k) >= 1
  {
  }

  /** The preferred unit is the unique unit whose range holds the count; past the pebibyte maximum there
      is none. */
  lemma PreferredUnitByRange(n: U128, u: SizeUnit)
    ensures PreferredUnit(n) == Some(u) <==> Min(u) <= n <= Max(u)
    ensures PreferredUnit(n).None? <==> n > Max(PebiByte)
  {
    Pow1024Values();
    UnitRanges(u);
    if n == 0 {
    } else if n > Max(GibiByte) {
      var m := n as nat / Pow1024(4);
      Log1024Brackets(m);
      if m < 1024 {
        Log1024Unique(m, 0);
      } else if m < 1_048_576 {
        Log1024Unique(m, 1);
      } else {
        Log1024AtLeast(m, 2);
      }
    } else {
      var m := n as nat;
      Log1024Brackets(m);
      if m < 1024 {
        Log1024Unique(m, 0);
      } else if m < 1_048_576 {
        Log1024Unique(m, 1);
      } else if m < 1_073_741_824 {
        Log1024Unique(m, 2);
      } else {
        Log1024Unique(m, 3);
      }
    }
  }

  /** A count within range converts to its unit's range-unit, with a displayed size of count / 1024^k
      rounded down: 0 to 1023 in bytes, 1 to 1023 in any larger unit; a count past the pebibyte maximum
      is `TooLarge`. */
  lemma HumanFromSizeSpec(s: Size)
    ensures HumanFromSize(s).Err? <==> s.inBytes > Max(PebiByte)
    ensures HumanFromSize(s).Err? ==> HumanFromSize(s).error == TooLarge
    ensures HumanFromSize(s).Ok? ==>
              var h := HumanFromSize(s).value;
              Min(h.unit) <= s.inBytes <= Max(h.unit)
              && h.size as nat == s.inBytes as nat / Pow1024(Multiplier(h.unit))
              && h.size <= 1023
              && (h.unit != Byte ==> h.size >= 1)
  {
    PreferredUnitByRange(s.inBytes, Byte);
    if PreferredUnit(s.inBytes).Some? {
      var u := PreferredUnit(s.inBytes).value;
      PreferredUnitByRange(s.inBytes, u);
      UnitRanges(u);
      var p := Pow1024(Multiplier(u));
      Pow1024Positive(Multiplier(u));
      var q := s.inBytes as nat / p;
      assert Pow1024(Multiplier(u) + 1) == 1024 * p;
      DivBelow(s.inBytes as nat, p, 1024);
      if u != Byte {
        DivAtLeastOne(s.inBytes as nat, p);
      }
    }
  }

  /** The boundary cases of size.rs: 2047 bytes is shown as 1 KiB, one byte past the pebibyte maximum is
      too large, and a size displays as its number followed by the unit. */
  lemma HumanFromSizeExamples()
    ensures HumanFromSize(Size(2047)) == Ok(HumanReadableSize(1, KibiByte))
    ensures HumanFromSize(Size(1023)) == Ok(HumanReadableSize(1023, Byte))
    ensures HumanFromSize(Size(1_152_921_504_606_846_975)) == Ok(HumanReadableSize(1023, PebiByte))
    ensures HumanFromSize(Size(1_152_921_504_606_846_976)) == Err(TooLarge)
    ensures Display(HumanReadableSize(1, KibiByte)) == "1KiB"
  {
    Pow1024Values();
    PreferredUnitByRange(2047, KibiByte);
    PreferredUnitByRange(1023, Byte);
    PreferredUnitByRange(1_152_921_504_606_846_975, PebiByte);
    PreferredUnitByRange(1_152_921_504_606_846_976, PebiByte);
    assert Text.NatToString(1) == "1";
  }

  /** The unit named by a short name, the inverse of `ShortName`. */
  function UnitFromShortName(s: string): Option<SizeUnit> {
    if s == "B" then Some(Byte)
    else if s == "KiB" then Some(KibiByte)
    else if s == "MiB" then Some(MebiByte)
    else if s == "GiB" then Some(GibiByte)
    else if s == "TiB" then Some(TebiByte)
    else if s == "PiB" then Some(PebiByte)
    else None
  }

  /** Number of leading decimal digits of `s`. */
  function DigitRun(s: string): (k: nat)
    ensures k <= |s|
    decreases |s|
  {
    if |s| > 0 && Text.IsDigit(s[0]) then 1 + DigitRun(s[1..]) else 0
  }

  /** Reads a displayed size back: its leading digits are the size, the rest the unit. */
  function ParseDisplay(s: string): Option<HumanReadableSize> {
    var k := DigitRun(s);
    if k == 0 then None
    else
      var u := UnitFromShortName(s[k..]);
      assert forall i :: 0 <= i < k ==> Text.IsDigit(s[..k][i]) by { DigitRunAllDigits(s); }
      var n := Text.DecimalValue(s[..k]);
      if u.None? || n >= U128_LIMIT then None
      else Some(HumanReadableSize(n as U128, u.value))
  }

  lemma {:induction false} DigitRunAllDigits(s: string)
    ensures forall i :: 0 <= i < DigitRun(s) ==> Text.IsDigit(s[i])
    decreases |s|
  {
    if |s| > 0 && Text.IsDigit(s[0]) {
      DigitRunAllDigits(s[1..]);
      forall i | 0 <= i < DigitRun(s) ensures Text.IsDigit(s[i]) {
        if i > 0 {
          assert s[i] == s[1..][i - 1];
        }
      }
    }
  }

  /** The digit run of `d + t` is all of `d` when `d` is all digits and `t` starts with a non-digit. */
  lemma {:induction false} DigitRunOfConcat(d: string, t: string)
    requires forall i :: 0 <= i < |d| ==> Text.IsDigit(d[i])
    requires |t| > 0 && !Text.IsDigit(t[0])
    ensures DigitRun(d + t) == |d|
    decreases |d|
  {
    if |d| == 0 {
      assert d + t == t;
    } else {
      assert (d + t)[1..] == d[1..] + t;
      DigitRunOfConcat(d[1..], t);
    }
  }

  /** `Display` loses nothing: the displayed text reads back as the same size and unit, so two sizes
      display the same only if they are equal. */
  lemma DisplayRoundTrip(h: HumanReadableSize)
    ensures ParseDisplay(Display(h)) == Some(h)
  {
    var d := Text.NatToString(h.size as nat);
    Text.NatToStringRoundTrip(h.size as nat);
    var t := ShortName(h.unit);
    ShortNameRoundTrip(h.unit);
    DigitRunOfConcat(d, t);
    var s := Display(h);
    assert s[..|d|] == d;
    assert s[|d|..] == t;
    assert Text.DecimalValue(s[..DigitRun(s)]) == h.size as nat;
  }

  /** Every short name starts with a non-digit and names its unit back. */
  lemma ShortNameRoundTrip(u: SizeUnit)
    ensures |ShortName(u)| > 0 && !Text.IsDigit(ShortName(u)[0])
    ensures UnitFromShortName(ShortName(u)) == Some(u)
  {
  }
}
