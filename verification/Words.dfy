/** Machine words: powers of two, the bitwise mask and the wrapping subtraction
    that the queues use on their `size_t` counters. */
module Words {

  datatype Option<+T> = None | Some(value: T)

  function Pow2(k: nat): (r: nat)
    ensures r > 0
  {
    if k == 0 then 1 else 2 * Pow2(k - 1)
  }

  /** Bitwise conjunction of two unsigned words, bit by bit. */
  function BitAnd(x: nat, y: nat): nat
  {
    if x == 0 || y == 0 then 0
    else 2 * BitAnd(x / 2, y / 2) + if x % 2 == 1 && y % 2 == 1 then 1 else 0
  }

  /** Unsigned subtraction modulo `word`. */
  function WrapSub(a: nat, b: nat, word: nat): (r: nat)
    requires word > 0
    ensures r < word
  {
    (a - b) % word
  }

  /** `x & (2^k - 1)` is the remainder of `x` by `2^k`. */
  lemma {:induction false} MaskIsRemainder(x: nat, k: nat)
    ensures BitAnd(x, Pow2(k) - 1) == x % Pow2(k)
    decreases k
  {
    if k == 0 {
      assert x % 1 == 0;
    } else {
      var m := Pow2(k - 1);
      assert Pow2(k) == 2 * m;
      MaskIsRemainder(x / 2, k - 1);
      HalfRemainder(x, m);
      MaskStep(x, m);
      assert BitAnd(x, 2 * m - 1) == x % (2 * m);
    }
  }

  /** A mask of one more bit adds the low bit. */
  lemma MaskStep(x: nat, m: nat)
    requires m > 0
    ensures BitAnd(x, 2 * m - 1) == 2 * BitAnd(x / 2, m - 1) + x % 2
  {
    assert (2 * m - 1) / 2 == m - 1 && (2 * m - 1) % 2 == 1;
  }

  /** Remainders by `2 * m` split into the low bit and the remainder by `m`. */
  lemma HalfRemainder(x: nat, m: nat)
    requires m > 0
    ensures x % (2 * m) == 2 * (x / 2 % m) + x % 2
  {
    var q, r := x / 2 / m, x / 2 % m;
    assert x / 2 == q * m + r;
    assert x == 2 * (x / 2) + x % 2;
    assert x == q * (2 * m) + (2 * r + x % 2) by {
      assert 2 * (q * m) == q * (2 * m);
    }
    RemainderUnique(x, 2 * m, q, 2 * r + x % 2);
  }

  /** A nonzero multiple of `m` is at least `m` away from zero. */
  lemma NonzeroMultiple(d: int, m: nat)
    ensures d >= 1 ==> d * m >= m
    ensures d <= -1 ==> d * m + m <= 0
  {
    if d >= 1 {
      assert d * m == m + (d - 1) * m;
    } else if d <= -1 {
      assert d * m + m == (d + 1) * m;
    }
  }

  lemma RemainderUnique(x: int, m: nat, q: int, r: nat)
    requires m > 0 && r < m && x == q * m + r
    ensures x % m == r && x / m == q
  {
    var q', r' := x / m, x % m;
    assert x == q' * m + r';
    assert (q' - q) * m == r - r';
    NonzeroMultiple(q' - q, m);
  }

  lemma {:induction false} PowersPass(k: nat)
    ensures BitAnd(Pow2(k), Pow2(k) - 1) == 0
  {
    if k > 0 {
      PowersPass(k - 1);
      assert Pow2(k) / 2 == Pow2(k - 1) && Pow2(k) % 2 == 0;
      assert (Pow2(k) - 1) / 2 == Pow2(k - 1) - 1;
    }
  }

  lemma {:induction false} OnlyPowersPass(c: nat) returns (k: nat)
    requires c > 0 && BitAnd(c, c - 1) == 0
    ensures c == Pow2(k)
    decreases c
  {
    if c == 1 {
      k := 0;
    } else if c % 2 == 1 {
      assert (c - 1) / 2 == c / 2;
      SelfAnd(c / 2);
      assert false;
    } else {
      assert (c - 1) / 2 == c / 2 - 1;
      k := OnlyPowersPass(c / 2);
      k := k + 1;
    }
  }

  /** The test in both queue constructors, `capacity & (capacity - 1)`, accepts
      exactly the powers of two. */
  lemma CapacityTest(c: nat)
    requires c > 0
    ensures BitAnd(c, c - 1) == 0 <==> exists k: nat :: c == Pow2(k)
  {
    if BitAnd(c, c - 1) == 0 {
      var k := OnlyPowersPass(c);
    }
    forall k: nat | c == Pow2(k) ensures BitAnd(c, c - 1) == 0 {
      PowersPass(k);
    }
  }

  lemma {:induction false} SelfAnd(x: nat)
    ensures BitAnd(x, x) == x
  {
    if x > 0 { SelfAnd(x / 2); }
  }

  /** A power of two divides every larger one. */
  lemma {:induction false} Pow2Divides(k: nat, w: nat)
    requires k <= w
    ensures Pow2(w) == Pow2(w - k) * Pow2(k)
    decreases w - k
  {
    if k < w {
      Pow2Divides(k, w - 1);
      assert Pow2(w) == 2 * (Pow2(w - 1 - k) * Pow2(k));
    }
  }

  /** Reducing first by a multiple of `m` does not change the remainder by `m`. */
  lemma RemainderOfRemainder(x: nat, m: nat, f: nat, fm: nat)
    requires m > 0 && fm == f * m && fm > 0
    ensures x % fm % m == x % m
  {
    var q, r := x / fm, x % fm;
    var q', r' := r / m, r % m;
    calc {
      x;
      q * fm + r;
      q * fm + (q' * m + r');
      q * (f * m) + (q' * m + r');
      { assert q * (f * m) == (q * f) * m; }
      (q * f) * m + q' * m + r';
      { assert (q * f) * m + q' * m == (q * f + q') * m; }
      (q * f + q') * m + r';
    }
    RemainderUnique(x, m, q * f + q', r');
  }

  lemma RemainderRepeats(x: nat, m: nat)
    requires m > 0
    ensures (x + m) % m == x % m
  {
    var q, r := x / m, x % m;
    assert x == q * m + r;
    assert (q + 1) * m == q * m + m;
    RemainderUnique(x + m, m, q + 1, r);
  }

  /** Two numbers less than `m` apart have different remainders by `m`. */
  lemma RemaindersDiffer(a: nat, b: nat, m: nat)
    requires a < b < a + m
    ensures a % m != b % m
  {
    var qa, qb := a / m, b / m;
    assert a == qa * m + a % m;
    assert b == qb * m + b % m;
    assert (qb - qa) * m == qb * m - qa * m;
    NonzeroMultiple(qb - qa, m);
  }

  /** Unsigned subtraction is exact when the true difference fits in the word,
      and otherwise, for a subtrahend ahead by less than a word, wraps once. */
  lemma WrapSubExact(a: nat, b: nat, word: nat)
    requires word > 0
    ensures b <= a < b + word ==> WrapSub(a, b, word) == a - b
    ensures a < b < a + word ==> WrapSub(a, b, word) == word - (b - a)
  {
    if b <= a < b + word {
      RemainderUnique(a - b, word, 0, a - b);
    } else if a < b < a + word {
      RemainderUnique(a - b, word, -1, word - (b - a));
    }
  }

  /** The wrapped difference for any subtrahend ahead, by its distance on the word. */
  lemma WrapSubBehind(a: nat, b: nat, word: nat)
    requires word > 0 && a < b
    ensures WrapSub(a, b, word) == if (b - a) % word == 0 then 0 else word - (b - a) % word
  {
    var q, d := (b - a) / word, (b - a) % word;
    assert b - a == q * word + d;
    if d == 0 {
      assert a - b == -q * word + 0;
      RemainderUnique(a - b, word, -q, 0);
    } else {
      assert (-q - 1) * word == -q * word - word;
      RemainderUnique(a - b, word, -q - 1, word - d);
    }
  }
}
