/**
 * The wall clock as the application reads it. An instant is a count of
 * microseconds; `Iso` stands for `datetime.isoformat()` (microsecond
 * resolution) and `SecondStamp` for the `strftime` formats that keep whole
 * seconds only (conversation ids, message timestamps). Both are fixed-width
 * decimal strings, so their lexicographic order, which is how the
 * application compares them, is the order of time.
 */
module Clock {
  import opened Text

  function Pow10(n: nat): (r: nat)
    ensures r >= 1
  {
    if n == 0 then 1 else 10 * Pow10(n - 1)
  }

  lemma {:induction false} Pow10Add(a: nat, b: nat)
    ensures Pow10(a + b) == Pow10(a) * Pow10(b)
    decreases a
  {
    if a > 0 {
      Pow10Add(a - 1, b);
    }
  }

  const MicrosPerSecond: nat := 1_000_000
  const IsoWidth: nat := 20
  const StampWidth: nat := 14

  /** Instants the twenty-digit representation can hold. */
  type Instant = t: nat | t < Pow10(IsoWidth)

  function DigitChar(d: nat): char
    requires d < 10
  {
    (48 + d) as char
  }

  function DigitValue(c: char): nat {
    if '0' <= c <= '9' then c as nat - 48 else 0
  }

  /** `n` written with exactly `width` decimal digits, most significant first. */
  function Digits(n: nat, width: nat): (r: string)
    requires n < Pow10(width)
    ensures |r| == width
    decreases width
  {
    if width == 0 then "" else Digits(n / 10, width - 1) + [DigitChar(n % 10)]
  }

  /** The number a string of decimal digits denotes. */
  function DigitsValue(s: string): nat {
    if s == [] then 0 else 10 * DigitsValue(s[..|s| - 1]) + DigitValue(s[|s| - 1])
  }

  lemma {:induction false} DigitsRoundTrip(n: nat, width: nat)
    requires n < Pow10(width)
    ensures DigitsValue(Digits(n, width)) == n
    decreases width
  {
    if width > 0 {
      var s := Digits(n, width);
      assert s[..|s| - 1] == Digits(n / 10, width - 1);
      DigitsRoundTrip(n / 10, width - 1);
    }
  }

  /** Appending one character to strings of equal length keeps their order, the last character deciding a tie. */
  lemma {:induction false} StrLeSnoc(x: string, y: string, c: char, d: char)
    requires |x| == |y|
    requires (x != y && StrLe(x, y)) || (x == y && c <= d)
    ensures StrLe(x + [c], y + [d])
    decreases |x|
  {
    if x != [] {
      assert (x + [c])[1..] == x[1..] + [c];
      assert (y + [d])[1..] == y[1..] + [d];
      assert x == [x[0]] + x[1..];
      assert y == [y[0]] + y[1..];
      if x[0] == y[0] {
        StrLeSnoc(x[1..], y[1..], c, d);
      }
    }
  }

  lemma {:induction false} DigitsMonotone(a: nat, b: nat, width: nat)
    requires a <= b < Pow10(width)
    ensures StrLe(Digits(a, width), Digits(b, width))
    decreases width
  {
    if width > 0 {
      var qa, qb := a / 10, b / 10;
      var pa, pb := Digits(qa, width - 1), Digits(qb, width - 1);
      assert Digits(a, width) == pa + [DigitChar(a % 10)];
      assert Digits(b, width) == pb + [DigitChar(b % 10)];
      if qa == qb {
        StrLeSnoc(pa, pb, DigitChar(a % 10), DigitChar(b % 10));
      } else {
        DigitsMonotone(qa, qb, width - 1);
        DigitsRoundTrip(qa, width - 1);
        DigitsRoundTrip(qb, width - 1);
        StrLeSnoc(pa, pb, DigitChar(a % 10), DigitChar(b % 10));
      }
    }
  }

  /** Stands for `datetime.isoformat()`. */
  function Iso(t: Instant): string {
    Digits(t, IsoWidth)
  }

  lemma SecondsInRange(t: Instant)
    ensures t / MicrosPerSecond < Pow10(StampWidth)
  {
    Pow10Add(6, StampWidth);
    assert Pow10(6) == MicrosPerSecond by {
      assert Pow10(1) == 10;
      assert Pow10(2) == 100;
      assert Pow10(3) == 1000;
      assert Pow10(4) == 10000;
      assert Pow10(5) == 100000;
    }
  }

  /** Stands for `strftime("%Y%m%d_%H%M%S")` and `strftime("%Y-%m-%d %H:%M:%S")`: whole seconds. */
  function SecondStamp(t: Instant): string {
    SecondsInRange(t);
    Digits(t / MicrosPerSecond, StampWidth)
  }

  /** The isoformat strings compare as the instants do, in both directions. */
  lemma IsoOrder(t1: Instant, t2: Instant)
    ensures StrLe(Iso(t1), Iso(t2)) <==> t1 <= t2
  {
    if t1 <= t2 {
      DigitsMonotone(t1, t2, IsoWidth);
    } else {
      DigitsMonotone(t2, t1, IsoWidth);
      if StrLe(Iso(t1), Iso(t2)) {
        StrLeAntisymmetric(Iso(t1), Iso(t2));
        DigitsRoundTrip(t1, IsoWidth);
        DigitsRoundTrip(t2, IsoWidth);
      }
    }
  }

  /** Two second stamps are equal exactly when both instants fall in the same second. */
  lemma SecondStampCollision(t1: Instant, t2: Instant)
    ensures SecondStamp(t1) == SecondStamp(t2) <==> t1 / MicrosPerSecond == t2 / MicrosPerSecond
  {
    SecondsInRange(t1);
    SecondsInRange(t2);
    DigitsRoundTrip(t1 / MicrosPerSecond, StampWidth);
    DigitsRoundTrip(t2 / MicrosPerSecond, StampWidth);
  }
}
