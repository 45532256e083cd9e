/**
 The 64-bit bound of `bignum_to_int64` (ext/sqlite3/sqlite3.c), in both its preprocessor
 variants, and the two routes by which a Ruby Integer reaches SQLite: a bound parameter and the
 result of a user-defined function.
 */
module Int64 {

  const TWO63: int := 0x8000_0000_0000_0000
  const TWO64: int := 0x1_0000_0000_0000_0000

  predicate InInt64(v: int) {
    -TWO63 <= v < TWO63
  }

  function Pow2(n: nat): (p: nat)
    ensures p >= 1
  {
    if n == 0 then 1 else 2 * Pow2(n - 1)
  }

  lemma {:induction false} Pow2Adds(a: nat, b: nat)
    ensures Pow2(a + b) == Pow2(a) * Pow2(b)
  {
    if a == 0 {
    } else {
      Pow2Adds(a - 1, b);
      assert Pow2(a + b) == 2 * Pow2(a - 1 + b);
    }
  }

  lemma {:induction false} Pow2Monotone(a: nat, b: nat)
    requires a <= b
    ensures Pow2(a) <= Pow2(b)
  {
    if a < b {
      Pow2Monotone(a, b - 1);
    }
  }

  lemma Pow2Of63()
    ensures Pow2(63) == TWO63 && Pow2(64) == TWO64
  {
    Pow2Of16();
    Pow2Adds(16, 16);
    Pow2Adds(32, 32);
    assert Pow2(64) == 2 * Pow2(63);
  }

  lemma Pow2Of16()
    ensures Pow2(16) == 0x1_0000
  {
    assert Pow2(2) == 4;
    Pow2Adds(2, 2);
    Pow2Adds(4, 4);
    Pow2Adds(8, 8);
  }

  lemma MulMonotone(c: nat, a: int, b: int)
    requires a <= b
    ensures c * a <= c * b
  {
  }

  /** The window `63 / w + 1` is the number of digits up to the one holding bit 63, which is bit
      `63 % w` of that digit. */
  lemma WindowOf(w: nat)
    requires w >= 1
    ensures w * (63 / w) + 63 % w == 63 && 63 % w < w
  {
  }

  // ---------------------------------------------------------------------------
  // Variant with rb_integer_pack

  /** What `rb_integer_pack` leaves behind for one 64-bit two's-complement word: the sign-and-overflow
      code, and the low 64 bits of the value read back as a signed word. */
  datatype Packed = Packed(code: int, word: int)

  function IntegerPack(v: int): Packed {
    var low := v % TWO64;
    Packed(
      if v == 0 then 0 else if v >= TWO64 then 2 else if v > 0 then 1 else if v >= -TWO64 then -1 else -2,
      if low >= TWO63 then low - TWO64 else low)
  }

  method BignumToInt64Packing(v: int) returns (ok: bool, result: int)
    ensures ok <==> InInt64(v)
    ensures ok ==> result == v
  {
    var packed := IntegerPack(v);
    result := packed.word;
    if packed.code == -2 || packed.code == 2 {
      return false, result;
    } else if packed.code == 1 {
      if result < 0 { return false, result; }
    } else if packed.code == -1 {
      if result >= 0 { return false, result; }
    }
    return true, result;
  }

  // ---------------------------------------------------------------------------
  // Variant over the digit array

  /** The magnitude of a digit array, least significant digit first, `w` bits a digit. */
  function Magnitude(digits: seq<nat>, w: nat): (m: int)
    ensures m >= 0
  {
    if digits == [] then 0 else
      var m := Magnitude(digits[1..], w);
      MulMonotone(Pow2(w), 0, m);
      digits[0] + Pow2(w) * m
  }

  function Value(digits: seq<nat>, positive: bool, w: nat): int {
    if positive then Magnitude(digits, w) else -Magnitude(digits, w)
  }

  /** Ruby keeps every digit below the radix and never a zero top digit. */
  predicate Normalised(digits: seq<nat>, w: nat) {
    && (forall i :: 0 <= i < |digits| ==> digits[i] < Pow2(w))
    && (digits != [] ==> digits[|digits| - 1] != 0)
  }

  lemma SplitDigit(m: nat, b: nat)
    requires m > 0 && b >= 2
    ensures m == m % b + b * (m / b) && m / b < m && m % b < b
  {
    MulMonotone(m / b, 2, b);
  }

  lemma PrependDigit(d: nat, rest: seq<nat>, w: nat)
    requires Normalised(rest, w) && d < Pow2(w) && (rest == [] ==> d != 0)
    ensures Normalised([d] + rest, w)
    ensures Magnitude([d] + rest, w) == d + Pow2(w) * Magnitude(rest, w)
  {
    assert ([d] + rest)[1..] == rest;
  }

  /** Every magnitude has a normalised digit array, so the digit variant is defined on all integers. */
  lemma {:induction false} DigitsExist(m: nat, w: nat) returns (digits: seq<nat>)
    requires w >= 1
    ensures Normalised(digits, w) && Magnitude(digits, w) == m
    decreases m
  {
    if m == 0 {
      digits := [];
    } else {
      var b := Pow2(w);
      SplitDigit(m, b);
      var rest := DigitsExist(m / b, w);
      PrependDigit(m % b, rest, w);
      digits := [m % b] + rest;
    }
  }

  /** Splitting off the top digit. */
  lemma {:induction false} MagnitudeTop(digits: seq<nat>, w: nat, n: nat)
    requires |digits| == n + 1
    ensures Magnitude(digits, w) == Magnitude(digits[..n], w) + Pow2(w * n) * digits[n]
  {
    if n == 0 {
      assert digits[1..] == [] && digits[..0] == [];
    } else {
      MagnitudeTop(digits[1..], w, n - 1);
      assert digits[1..][..n - 1] == digits[..n][1..];
      Pow2Adds(w, w * (n - 1));
      assert w + w * (n - 1) == w * n;
      Distribute(Pow2(w), Magnitude(digits[..n][1..], w), Pow2(w * (n - 1)), digits[n]);
    }
  }

  lemma Distribute(b: int, lower: int, top: int, d: int)
    ensures b * (lower + top * d) == b * lower + (b * top) * d
  {
  }

  lemma {:induction false} MagnitudeBelow(digits: seq<nat>, w: nat, n: nat)
    requires |digits| == n
    requires forall i :: 0 <= i < |digits| ==> digits[i] < Pow2(w)
    ensures Magnitude(digits, w) < Pow2(w * n)
  {
    if n == 0 {
    } else {
      MagnitudeBelow(digits[..n - 1], w, n - 1);
      MagnitudeTop(digits, w, n - 1);
      Pow2Adds(w * (n - 1), w);
      assert w * (n - 1) + w == w * n;
      MulMonotone(Pow2(w * (n - 1)), digits[n - 1] + 1, Pow2(w));
      assert Pow2(w * (n - 1)) * (digits[n - 1] + 1) == Pow2(w * (n - 1)) * digits[n - 1] + Pow2(w * (n - 1));
    }
  }

  lemma {:induction false} MagnitudeZero(digits: seq<nat>, w: nat)
    ensures Magnitude(digits, w) == 0 <==> forall i :: 0 <= i < |digits| ==> digits[i] == 0
  {
    if digits != [] {
      var rest := digits[1..];
      MagnitudeZero(rest, w);
      var m := Magnitude(rest, w);
      if m > 0 { MulMonotone(Pow2(w), 1, m); }
      assert forall i :: 0 < i < |digits| ==> digits[i] == rest[i - 1];
      assert forall i :: 0 <= i < |rest| ==> rest[i] == digits[i + 1];
    }
  }

  lemma TopDigitDominates(digits: seq<nat>, w: nat, n: nat)
    requires |digits| == n + 1 && digits[n] != 0
    ensures Magnitude(digits, w) >= Pow2(w * n)
  {
    MagnitudeTop(digits, w, n);
    MulMonotone(Pow2(w * n), 1, digits[n]);
  }

  lemma BeyondWindow(w: nat, k: nat, r: nat, n: nat)
    requires w * k + r == 63 && r < w && n >= k + 1
    ensures w * n >= 64
  {
  }

  /** An array longer than the 64-bit window, whose digits up to bit 63 number `k + 1`. */
  lemma LongerThanWindow(digits: seq<nat>, w: nat, k: nat, r: nat)
    requires w * k + r == 63 && r < w
    requires Normalised(digits, w) && |digits| > k + 1
    ensures Magnitude(digits, w) > TWO63
  {
    Pow2Of63();
    TopDigitDominates(digits, w, |digits| - 1);
    BeyondWindow(w, k, r, |digits| - 1);
    Pow2Monotone(64, w * (|digits| - 1));
  }

  lemma ShorterThanWindow(digits: seq<nat>, w: nat, k: nat, r: nat)
    requires w * k + r == 63 && r < w
    requires Normalised(digits, w) && |digits| <= k
    ensures Magnitude(digits, w) < TWO63
  {
    Pow2Of63();
    MagnitudeBelow(digits, w, |digits|);
    MulMonotone(w, |digits|, k);
    Pow2Monotone(w * |digits|, 63);
  }

  /** An array that fills the window: its top digit is compared with the bit 63 of the value, which is
      bit `r` of that digit. */
  lemma TopDigitDecides(digits: seq<nat>, w: nat, k: nat, r: nat)
    requires w * k + r == 63 && r < w
    requires Normalised(digits, w) && |digits| == k + 1
    ensures digits[k] > Pow2(r) ==> Magnitude(digits, w) > TWO63
    ensures digits[k] < Pow2(r) ==> Magnitude(digits, w) < TWO63
    ensures digits[k] == Pow2(r) ==> Magnitude(digits, w) == TWO63 + Magnitude(digits[..k], w)
  {
    Pow2Of63();
    Pow2Adds(w * k, r);
    MagnitudeTop(digits, w, k);
    MagnitudeBelow(digits[..k], w, k);
    CompareTop(Pow2(w * k), digits[k], Pow2(r), Magnitude(digits[..k], w));
  }

  lemma CompareTop(p: nat, d: int, bmax: int, lower: int)
    requires 0 <= lower < p
    ensures d > bmax ==> lower + p * d > p * bmax
    ensures d < bmax ==> lower + p * d < p * bmax
  {
    if d > bmax {
      MulMonotone(p, bmax + 1, d);
      assert p * (bmax + 1) == p * bmax + p;
    } else if d < bmax {
      MulMonotone(p, d + 1, bmax);
      assert p * (d + 1) == p * d + p;
    }
  }

  method BignumToInt64Digits(digits: array<nat>, positive: bool, w: nat) returns (ok: bool, result: int)
    requires w >= 1 && Normalised(digits[..], w)
    ensures ok <==> InInt64(Value(digits[..], positive, w))
    ensures ok ==> result == Value(digits[..], positive, w)
  {
    var len := digits.Length;
    if len == 0 {
      return true, 0;
    }
    WindowOf(w);
    if len > 63 / w + 1 {
      LongerThanWindow(digits[..], w, 63 / w, 63 % w);
      return false, 0;
    }
    if len == 63 / w + 1 {
      TopDigitDecides(digits[..], w, 63 / w, 63 % w);
      MagnitudeZero(digits[..][..len - 1], w);
      var blast, bmax := digits[len - 1], Pow2(63 % w);
      if blast > bmax { return false, 0; }
      if blast == bmax {
        if positive {
          return false, 0;
        } else {
          var i := len - 1;
          while i != 0
            invariant 0 <= i <= len - 1
            invariant forall j :: i <= j < len - 1 ==> digits[j] == 0
          {
            i := i - 1;
            if digits[i] != 0 {
              assert digits[..][..len - 1][i] != 0;
              return false, 0;
            }
          }
        }
      }
    } else {
      ShorterThanWindow(digits[..], w, 63 / w, 63 % w);
    }
    return true, Value(digits[..], positive, w);
  }

  // ---------------------------------------------------------------------------
  // The two routes into SQLite

  /** What SQLite stores for an Integer: its value, or the double it was rounded to. */
  datatype Stored = StoredInteger(i: int) | StoredDouble(r: real)

  /** A Fixnum is an Integer that fits a C long less its tag bit. */
  predicate IsFixnum(v: int, longBits: int) {
    if longBits == 64 then -0x4000_0000_0000_0000 <= v < 0x4000_0000_0000_0000
    else -0x4000_0000 <= v < 0x4000_0000
  }

  /** The value a bound Integer has when a later step reads it back: SQLite INTEGER on the whole
      64-bit range, REAL outside. */
  function IntegerBound(v: int, toDouble: int -> real): Stored {
    if InInt64(v) then StoredInteger(v) else StoredDouble(toDouble(v))
  }

  /** The value an Integer returned from a user-defined function has. */
  function IntegerReturned(v: int, longBits: int, toDouble: int -> real): Stored {
    if IsFixnum(v, longBits) || (longBits == 32 && InInt64(v)) then StoredInteger(v)
    else StoredDouble(toDouble(v))
  }

  /** `Statement#bind_param` on an Integer. */
  method BindInteger(v: int, longBits: int, toDouble: int -> real) returns (stored: Stored)
    requires longBits == 32 || longBits == 64
    ensures stored == IntegerBound(v, toDouble)
  {
    if IsFixnum(v, longBits) {
      return StoredInteger(v);
    }
    var ok, num64 := BignumToInt64Packing(v);
    if ok {
      return StoredInteger(num64);
    }
    return StoredDouble(toDouble(v));
  }

  /** `set_sqlite3_func_result` on an Integer: the 64-bit attempt is compiled only for short longs. */
  method ResultInteger(v: int, longBits: int, toDouble: int -> real) returns (stored: Stored)
    requires longBits == 32 || longBits == 64
    ensures stored == IntegerReturned(v, longBits, toDouble)
  {
    if IsFixnum(v, longBits) {
      return StoredInteger(v);
    }
    if longBits < 64 {
      var ok, num64 := BignumToInt64Packing(v);
      if ok {
        return StoredInteger(num64);
      }
    }
    return StoredDouble(toDouble(v));
  }

  /** An Integer survives binding exactly on the 64-bit range. Being returned from a function instead
      changes it, on 64-bit longs only, exactly between the Fixnum range and the 64-bit range; past
      that both routes give the same double. */
  lemma RoutesCompared(v: int, longBits: int, toDouble: int -> real)
    requires longBits == 32 || longBits == 64
    ensures IntegerBound(v, toDouble) == StoredInteger(v) <==> InInt64(v)
    ensures !InInt64(v) ==> IntegerBound(v, toDouble) == StoredDouble(toDouble(v))
    ensures IntegerReturned(v, longBits, toDouble) in {StoredInteger(v), StoredDouble(toDouble(v))}
    ensures IntegerBound(v, toDouble) != IntegerReturned(v, longBits, toDouble)
            <==> longBits == 64 && InInt64(v) && !(-0x4000_0000_0000_0000 <= v < 0x4000_0000_0000_0000)
  {
  }
}
