/** Machine words of the protocol, the wrapping arithmetic of 32-bit counters, and a law of
    sequences. */
module Words {
  type Byte = b: int | 0 <= b < 0x100
  type U16 = x: int | 0 <= x < 0x1_0000
  type U32 = x: int | 0 <= x < 0x1_0000_0000

  const WORD: nat := 0x1_0000_0000

  function Wrap(x: int): U32 {
    x % WORD
  }

  function Plus(a: U32, b: U32): U32 {
    Wrap(a as int + b as int)
  }

  function Minus(a: U32, b: U32): U32 {
    Wrap(a as int - b as int)
  }

  function Min(a: int, b: int): int {
    if a <= b then a else b
  }

  lemma WrapOfWord(x: U32)
    ensures Wrap(x) == x
  {
  }

  /** Wrapped counters subtract like the unbounded ones they stand for,
      as long as these are less than 2^32 apart. */
  lemma MinusIsExact(a: nat, b: nat)
    requires b <= a < b + WORD
    ensures Minus(Wrap(a), Wrap(b)) == a - b
  {
    assert Wrap(a) - Wrap(b) == (a - b) - WORD * (a / WORD - b / WORD);
    ModIsUnique(Wrap(a) - Wrap(b), b / WORD - a / WORD, a - b, WORD);
  }

  lemma PlusIsExact(a: nat, b: nat)
    ensures Plus(Wrap(a), Wrap(b)) == Wrap(a + b)
  {
    var s := Wrap(a) + Wrap(b);
    assert a + b == WORD * (a / WORD + b / WORD + s / WORD) + s % WORD;
    ModIsUnique(a + b, a / WORD + b / WORD + s / WORD, s % WORD, WORD);
  }

  lemma MulAtLeast(a: int, n: int)
    requires a >= 1 && n >= 0
    ensures a * n >= n
  {
    assert (a - 1) * n >= 0;
  }

  lemma ModIsUnique(x: int, q: int, r: int, n: int)
    requires n > 0 && 0 <= r < n && x == q * n + r
    ensures x % n == r && x / n == q
  {
    var q', r' := x / n, x % n;
    assert x == q' * n + r';
    assert (q - q') * n == q * n - q' * n;
    assert (q' - q) * n == q' * n - q * n;
    if q > q' {
      MulAtLeast(q - q', n);
    } else if q < q' {
      MulAtLeast(q' - q, n);
    }
  }

  lemma ModOfMod(k: nat, w: nat, m: nat, n: nat)
    requires n > 0 && w > 0 && w == m * n
    ensures (k % w) % n == k % n
  {
    var q, r := k / w, k % w;
    assert k == q * w + r;
    var c, d := r / n, r % n;
    assert r == c * n + d;
    assert q * (m * n) + c * n == (q * m + c) * n by {
      assert q * (m * n) == (q * m) * n;
    }
    ModIsUnique(k, q * m + c, d, n);
  }

  // ---- powers of two ----

  function Pow2(k: nat): nat {
    if k == 0 then 1 else 2 * Pow2(k - 1)
  }

  lemma {:induction false} Pow2Monotone(a: nat, b: nat)
    requires a <= b
    ensures 0 < Pow2(a) <= Pow2(b)
    decreases b
  {
    if b == 0 {
    } else if a < b {
      Pow2Monotone(a, b - 1);
    } else {
      Pow2Monotone(a - 1, b - 1);
    }
  }

  lemma MulAssoc(a: int, b: int, c: int)
    ensures a * (b * c) == (a * b) * c
  {
  }

  lemma {:induction false} PowerIsMultiple(k: nat, n: nat) returns (m: nat)
    requires k <= n
    ensures Pow2(n) == m * Pow2(k)
    decreases n
  {
    if n == k {
      m := 1;
    } else {
      var h := PowerIsMultiple(k, n - 1);
      MulAssoc(2, h, Pow2(k));
      m := 2 * h;
    }
  }

  lemma WordIsPower()
    ensures Pow2(1) == 2 && Pow2(16) == 0x1_0000 && Pow2(32) == WORD
  {
    assert Pow2(8) == 0x100;
    assert Pow2(16) == 0x1_0000;
    assert Pow2(24) == 0x100_0000;
  }

  lemma PowerDividesWord(k: nat)
    requires k <= 32
    ensures Pow2(k) > 0 && WORD % Pow2(k) == 0
  {
    WordIsPower();
    Pow2Monotone(0, k);
    var m := PowerIsMultiple(k, 32);
    ModIsUnique(WORD, m, 0, Pow2(k));
  }

  lemma SameRemainderFarApart(a: nat, b: nat, n: nat)
    requires n > 0 && a % n == b % n && a != b
    ensures a + n <= b || b + n <= a
  {
    var p, q := a / n, b / n;
    assert a - b == p * n - q * n;
    assert (p - q) * n == p * n - q * n && (q - p) * n == q * n - p * n;
    if p > q {
      MulAtLeast(p - q, n);
    } else if q > p {
      MulAtLeast(q - p, n);
    }
  }

  // ---- sequences ----

  lemma Assoc<T>(a: seq<T>, b: seq<T>, c: seq<T>)
    ensures a + b + c == a + (b + c)
  {
  }
}
