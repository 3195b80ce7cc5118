// itoa and formatDuration of pkg/anf/types.go, over Go's 64-bit int.

module Numbers {
  import opened Text
  import opened Manifest

  const MIN64 := -0x8000_0000_0000_0000
  const MAX64 := 0x7fff_ffff_ffff_ffff

  predicate IsInt64(n: int)
  {
    MIN64 <= n <= MAX64
  }

  // Negation wraps on the one value that has no positive counterpart.
  function Negate64(n: int): int
    requires IsInt64(n)
  {
    if n == MIN64 then MIN64 else -n
  }

  function ItoaText(n: int): string
  {
    if n == MIN64 then "-" else SignedDecimal(n)
  }

  function Pow10(k: nat): nat
  {
    if k == 0 then 1 else 10 * Pow10(k - 1)
  }

  lemma {:induction false} DecimalLength(m: nat, k: nat)
    requires k > 0 && m < Pow10(k)
    ensures |Decimal(m)| <= k
  {
    if m >= 10 {
      assert k > 1;
      DecimalLength(m / 10, k - 1);
    }
  }

  lemma NineteenDigits(m: nat)
    requires m <= MAX64
    ensures |Decimal(m)| <= 19
  {
    assert Pow10(4) == 10000;
    assert Pow10(8) == 100000000;
    assert Pow10(12) == 1000000000000;
    assert Pow10(16) == 10000000000000000;
    assert Pow10(19) == 10000000000000000000;
    DecimalLength(m, 19);
  }

  // The digits are laid down from the back of a 20-byte buffer, which never overflows.
  method Itoa(n0: int) returns (s: string)
    requires IsInt64(n0)
    ensures s == ItoaText(n0)
  {
    if n0 == 0 {
      return "0";
    }
    var n := n0;
    var buf := new char[20];
    var pos := buf.Length;
    var neg := n < 0;
    if neg {
      n := Negate64(n);
    }
    ghost var m := n;
    if m > 0 {
      NineteenDigits(m);
    }
    while n > 0
      invariant m > 0 ==> n >= 0
      invariant m <= 0 ==> n == m && pos == 20
      invariant 0 <= pos <= 20 && buf.Length == 20
      invariant m > 0 && n > 0 ==> Decimal(m) == Decimal(n) + buf[pos..]
      invariant m > 0 && n == 0 ==> Decimal(m) == buf[pos..]
      invariant m > 0 && n > 0 ==> |Decimal(n)| < pos
      invariant m > 0 && n == 0 ==> pos > 0
      decreases n
    {
      pos := pos - 1;
      buf[pos] := Digit(n % 10);
      assert buf[pos..] == [Digit(n % 10)] + buf[pos + 1..];
      n := n / 10;
    }
    if neg {
      pos := pos - 1;
      buf[pos] := '-';
      assert buf[pos..] == ['-'] + buf[pos + 1..];
    }
    s := buf[pos..];
  }

  function ReadInt(s: string): Option<int>
  {
    if s != "" && s[0] == '-' then
      if ReadDecimal(s[1..]) < 0 then None else Some(-ReadDecimal(s[1..]))
    else if ReadDecimal(s) < 0 then None
    else Some(ReadDecimal(s))
  }

  lemma SignedReadsBack(n: int)
    ensures ReadInt(SignedDecimal(n)) == Some(n)
  {
    if n < 0 {
      ReadDecimalBack(-n);
      assert ("-" + Decimal(-n))[1..] == Decimal(-n);
    } else {
      ReadDecimalBack(n);
      assert Decimal(n)[0] in Decimal(n);
    }
  }

  // The printed text reads back to the same number for every 64-bit integer but the least.
  lemma ItoaReadsBack(n: int)
    requires IsInt64(n)
    ensures ReadInt(ItoaText(n)) == Some(n) <==> n != MIN64
  {
    SignedReadsBack(n);
  }

  // ---- Durations --------------------------------------------------------------------

  function FormatDuration(seconds: int): string
  {
    if seconds >= 86400 && seconds % 86400 == 0 then ItoaText(seconds / 86400) + "d"
    else if seconds >= 3600 && seconds % 3600 == 0 then ItoaText(seconds / 3600) + "h"
    else if seconds >= 60 && seconds % 60 == 0 then ItoaText(seconds / 60) + "m"
    else ItoaText(seconds) + "s"
  }

  function UnitSeconds(c: char): nat
  {
    if c == 'd' then 86400 else if c == 'h' then 3600 else if c == 'm' then 60 else if c == 's' then 1 else 0
  }

  function ReadDuration(s: string): Option<int>
  {
    if s == "" || UnitSeconds(s[|s| - 1]) == 0 then None
    else match ReadInt(s[..|s| - 1])
      case None => None
      case Some(n) => Some(n * UnitSeconds(s[|s| - 1]))
  }

  lemma DurationParts(n: int, unit: char)
    requires UnitSeconds(unit) > 0 && n != MIN64
    ensures ReadDuration(ItoaText(n) + [unit]) == Some(n * UnitSeconds(unit))
  {
    var s := ItoaText(n) + [unit];
    assert s[..|s| - 1] == ItoaText(n);
    SignedReadsBack(n);
  }

  lemma WholeUnits(seconds: int, unit: char)
    requires UnitSeconds(unit) > 0 && seconds >= UnitSeconds(unit) && seconds % UnitSeconds(unit) == 0
    ensures ReadDuration(ItoaText(seconds / UnitSeconds(unit)) + [unit]) == Some(seconds)
  {
    var u := UnitSeconds(unit);
    assert seconds / u * u == seconds && seconds / u >= 0;
    DurationParts(seconds / u, unit);
  }

  // A printed duration reads back to exactly the same number of seconds, with the same exception.
  lemma DurationReadsBack(seconds: int)
    requires IsInt64(seconds)
    ensures ReadDuration(FormatDuration(seconds)) == Some(seconds) <==> seconds != MIN64
  {
    if seconds >= 86400 && seconds % 86400 == 0 {
      WholeUnits(seconds, 'd');
    } else if seconds >= 3600 && seconds % 3600 == 0 {
      WholeUnits(seconds, 'h');
    } else if seconds >= 60 && seconds % 60 == 0 {
      WholeUnits(seconds, 'm');
    } else {
      SecondsReadBack(seconds);
    }
  }

  lemma SecondsReadBack(seconds: int)
    ensures ReadDuration(ItoaText(seconds) + "s") == Some(seconds) <==> seconds != MIN64
  {
    if seconds == MIN64 {
      LoneMinus();
    } else {
      DurationParts(seconds, 's');
    }
  }

  lemma LoneMinus()
    ensures ReadDuration(ItoaText(MIN64) + "s") == None
  {
    assert ItoaText(MIN64) == "-";
    assert ("-" + "s")[..1] == "-";
  }

  // The unit printed is the largest that divides a value at least that large; seconds otherwise.
  lemma DurationUnitIsLargest(seconds: int, other: char)
    requires UnitSeconds(other) > 0
    ensures var s := FormatDuration(seconds);
            var unit := UnitSeconds(s[|s| - 1]);
            && unit > 0 && seconds % unit == 0
            && (seconds >= UnitSeconds(other) && seconds % UnitSeconds(other) == 0 ==> unit >= UnitSeconds(other))
  {
  }
}
