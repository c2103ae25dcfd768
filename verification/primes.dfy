/** The prime enumerator: a trial-division primality test and the
    enumeration of the first n primes by walking candidates upward from 2. */
module Primes {

  /** The mathematical definition: at least 2 and no divisor in [2, n-1]. */
  ghost predicate Prime(n: int) {
    n >= 2 && forall d :: 2 <= d < n ==> n % d != 0
  }

  /** What the trial loop checks of an odd n: no odd i with 3 <= i and
      i*i <= n divides n. */
  ghost predicate NoOddDivisorUpToRoot(n: int) {
    forall i :: 3 <= i && i * i <= n && i % 2 == 1 ==> n % i != 0
  }

  // ---------------------------------------------------------------------
  // Arithmetic helpers
  // ---------------------------------------------------------------------

  lemma SquareExceeds(i: int)
    requires i >= 2
    ensures i < i * i
  {
    assert i * i == i * (i - 1) + i;
    MulBounds(i, i - 1);
  }

  /** Multiplying by a positive k keeps the sign and at least the size of t. */
  lemma MulBounds(k: int, t: int)
    requires k > 0
    ensures t >= 1 ==> k * t >= k
    ensures t <= -1 ==> k * t <= -k
    ensures t == 0 ==> k * t == 0
  {
    if t >= 1 {
      assert k * t == k * (t - 1) + k;
    } else if t <= -1 {
      assert k * t == k * (t + 1) - k;
    }
  }

  lemma MulMonotone(a: int, b: int, c: int)
    requires a > 0 && b <= c
    ensures a * b <= a * c
  {
    assert a * c - a * b == a * (c - b);
    MulBounds(a, c - b);
  }

  lemma SquareOrder(a: int, b: int)
    requires a > 0 && b > 0
    ensures a <= b ==> a * a <= b * b
  {
    if a <= b {
      MulMonotone(a, a, b);
      MulMonotone(b, a, b);
    }
  }

  /** Quotient and remainder are unique. */
  lemma {:induction false} DivModUnique(a: int, k: int, q: int, r: int)
    requires k > 0 && 0 <= r < k && a == k * q + r
    ensures a % k == r && a / k == q
  {
    var q0, r0 := a / k, a % k;
    assert k * (q - q0) == r0 - r;
    MulBounds(k, q - q0);
  }

  /** A multiple of k leaves no remainder when divided by k. */
  lemma MultipleMod(k: int, m: int)
    requires k > 0
    ensures (k * m) % k == 0 && (k * m) / k == m
  {
    DivModUnique(k * m, k, m, 0);
  }

  /** n splits into d times its cofactor when d divides it. */
  lemma Cofactor(n: int, d: int)
    requires d > 0 && n % d == 0
    ensures n == d * (n / d)
  {
  }

  /** Divisibility is transitive. */
  lemma DividesTrans(a: int, b: int, c: int)
    requires a > 0 && b > 0
    requires b % a == 0 && c % b == 0
    ensures c % a == 0
  {
    Cofactor(b, a);
    Cofactor(c, b);
    var x, y := b / a, c / b;
    assert c == (a * x) * y;
    assert c == a * (x * y);
    MultipleMod(a, x * y);
  }

  /** An even number above 2 is not prime: 2 divides it. */
  lemma EvenNotPrime(n: int)
    requires n > 2 && n % 2 == 0
    ensures !Prime(n)
  {
  }

  /** A number with an even divisor is even. */
  lemma EvenDivisor(n: int, d: int)
    requires d > 0 && n % d == 0
    ensures d % 2 == 0 ==> n % 2 == 0
  {
    if d % 2 == 0 {
      DividesTrans(2, d, n);
    }
  }

  /** Every divisor of an odd number is odd, and so is its cofactor. */
  lemma OddFactors(n: int, d: int)
    requires n > 0 && n % 2 == 1 && d > 0 && n % d == 0
    ensures n == d * (n / d) && n / d > 0
    ensures d % 2 == 1 && (n / d) % 2 == 1 && n % (n / d) == 0
  {
    Cofactor(n, d);
    var e := n / d;
    MulBounds(d, e);
    EvenDivisor(n, d);
    assert n == e * d;
    MultipleMod(e, d);
    EvenDivisor(n, e);
  }

  /** A divisor of an odd composite has a partner of at most the square
      root, and that partner is an odd trial divisor. */
  lemma SmallOddDivisor(n: int, d: int) returns (i: int)
    requires n >= 3 && n % 2 == 1 && 2 <= d < n && n % d == 0
    ensures 3 <= i && i * i <= n && i % 2 == 1 && n % i == 0
  {
    OddFactors(n, d);
    var e := n / d;
    assert d * (e - 1) == n - d;
    MulBounds(d, e - 1);
    assert e >= 2;
    if d <= e {
      MulMonotone(d, d, e);
      i := d;
    } else {
      MulMonotone(e, e, d);
      assert n == e * d;
      i := e;
    }
  }

  /** For odd n >= 3, the trial condition holds exactly when n is prime:
      a divisor above the square root has a cofactor below it. */
  lemma TrialDivisionSound(n: int)
    requires n >= 3 && n % 2 == 1
    ensures NoOddDivisorUpToRoot(n) <==> Prime(n)
  {
    if Prime(n) {
      forall i | 3 <= i && i * i <= n && i % 2 == 1
        ensures n % i != 0
      {
        SquareExceeds(i);
      }
    } else {
      var d :| 2 <= d < n && n % d == 0;
      var i := SmallOddDivisor(n, d);
      assert !NoOddDivisorUpToRoot(n);
    }
  }

  // ---------------------------------------------------------------------
  // is_prime
  // ---------------------------------------------------------------------

  /** The trial loop from divisor i on: no odd j >= i, stepping by 2 while
      j*j <= n, divides n. */
  predicate NoOddDivisorFrom(n: int, i: int)
    requires i >= 3
    decreases n - i * i
  {
    i * i > n || (n % i != 0 && NoOddDivisorFrom(n, i + 2))
  }

  /** The recursive trial loop checks exactly the odd candidates j >= i
      whose square is at most n. */
  lemma {:induction false} NoOddDivisorFromSpec(n: int, i: int)
    requires i >= 3 && i % 2 == 1
    ensures NoOddDivisorFrom(n, i) <==>
            forall j :: i <= j && j * j <= n && j % 2 == 1 ==> n % j != 0
    decreases n - i
  {
    if i * i <= n {
      SquareExceeds(i);
      NoOddDivisorFromSpec(n, i + 2);
      assert NoOddDivisorFrom(n, i) == (n % i != 0 && NoOddDivisorFrom(n, i + 2));
      if NoOddDivisorFrom(n, i) {
        forall j | i <= j && j * j <= n && j % 2 == 1
          ensures n % j != 0
        {
          if j != i {
            assert i + 2 <= j;
          }
        }
      }
    } else {
      forall j | i <= j
        ensures j * j > n
      {
        SquareOrder(i, j);
      }
    }
  }

  /** The decision is_prime makes, branch by branch: below 2 no, 2 yes,
      other even numbers no, odd numbers by trial division from 3. */
  predicate TrialPrime(n: int) {
    if n < 2 then false
    else if n == 2 then true
    else if n % 2 == 0 then false
    else NoOddDivisorFrom(n, 3)
  }

  /** Trial division agrees with the mathematical definition of a prime. */
  lemma TrialPrimeCorrect(n: int)
    ensures TrialPrime(n) <==> Prime(n)
  {
    if n > 2 && n % 2 == 0 {
      EvenNotPrime(n);
    } else if n > 2 {
      NoOddDivisorFromSpec(n, 3);
      TrialDivisionSound(n);
    }
  }

  /** Trial division: reject n < 2, accept 2, reject other even numbers,
      then try odd divisors 3, 5, ... while their square is at most n. */
  method IsPrime(n: int) returns (r: bool)
    ensures n < 2 ==> !r
    ensures n == 2 ==> r
    ensures n > 2 && n % 2 == 0 ==> !r
    ensures n > 2 && n % 2 == 1 ==> (r <==> NoOddDivisorUpToRoot(n))
    ensures r == TrialPrime(n) && (r <==> Prime(n))
  {
    TrialPrimeCorrect(n);
    if n < 2 {
      return false;
    }
    if n == 2 {
      return true;
    }
    if n % 2 == 0 {
      return false;
    }
    NoOddDivisorFromSpec(n, 3);
    var i := 3;
    while i * i <= n
      invariant 3 <= i && i % 2 == 1
      invariant NoOddDivisorFrom(n, i) == NoOddDivisorFrom(n, 3)
      decreases n - i
    {
      SquareExceeds(i);
      if n % i == 0 {
        return false;
      }
      i := i + 2;
    }
    return true;
  }

  // ---------------------------------------------------------------------
  // Infinitely many primes (Euclid): the enumeration loop terminates
  // ---------------------------------------------------------------------

  function Factorial(n: nat): (r: nat)
    ensures r >= 1
  {
    if n == 0 then 1 else n * Factorial(n - 1)
  }

  lemma {:induction false} FactorialDivisible(n: nat, d: int)
    requires 1 <= d <= n
    ensures Factorial(n) % d == 0
  {
    if d == n {
      MultipleMod(n, Factorial(n - 1));
    } else {
      FactorialDivisible(n - 1, d);
      assert Factorial(n) == Factorial(n - 1) * n;
      MultipleMod(Factorial(n - 1), n);
      DividesTrans(d, Factorial(n - 1), Factorial(n));
    }
  }

  /** Every m >= 2 has a prime divisor. */
  lemma {:induction false} PrimeDivisor(m: int) returns (q: int)
    requires m >= 2
    ensures Prime(q) && m % q == 0
    decreases m
  {
    if Prime(m) {
      q := m;
    } else {
      var d :| 2 <= d < m && m % d == 0;
      q := PrimeDivisor(d);
      DividesTrans(q, d, m);
    }
  }

  /** k! + 1 leaves remainder 1 when divided by any p in [2, k]. */
  lemma FactorialPlusOne(k: nat, p: int)
    requires p >= 2
    ensures p <= k ==> (Factorial(k) + 1) % p == 1
  {
    if p <= k {
      FactorialDivisible(k, p);
      Cofactor(Factorial(k), p);
      DivModUnique(Factorial(k) + 1, p, Factorial(k) / p, 1);
    }
  }

  /** There is a prime at or above every integer (Euclid). */
  lemma PrimeAtOrAbove(c: int) returns (p: int)
    ensures Prime(p) && p >= c
  {
    var k: nat := if c < 2 then 2 else c;
    p := PrimeDivisor(Factorial(k) + 1);
    FactorialPlusOne(k, p);
  }

  // ---------------------------------------------------------------------
  // get_first_n_primes
  // ---------------------------------------------------------------------

  datatype Error = NotPositive
  datatype Result<T> = Ok(value: T) | Err(error: Error)

  /** The ascending list of the primes in [2, c). */
  ghost function PrimesBelow(c: int): seq<int>
    decreases c
  {
    if c <= 2 then [] else PrimesBelow(c - 1) + (if Prime(c - 1) then [c - 1] else [])
  }

  ghost predicate StrictlyAscending(s: seq<int>) {
    forall i, j :: 0 <= i < j < |s| ==> s[i] < s[j]
  }

  /** s is an initial segment of the primes: every element is prime, the
      elements ascend strictly, and no prime below the last one is missing. */
  ghost predicate FirstPrimes(s: seq<int>) {
    StrictlyAscending(s)
    && (forall i :: 0 <= i < |s| ==> Prime(s[i]))
    && (forall p :: Prime(p) && |s| > 0 && p < s[|s| - 1] ==> p in s)
  }

  /** PrimesBelow(c) holds exactly the primes in [2, c), in ascending order. */
  lemma {:induction false} PrimesBelowSpec(c: int)
    ensures StrictlyAscending(PrimesBelow(c))
    ensures forall x :: x in PrimesBelow(c) <==> Prime(x) && x < c
    decreases c
  {
    if c > 2 {
      PrimesBelowSpec(c - 1);
      var s := PrimesBelow(c - 1);
      var t := PrimesBelow(c);
      assert t == s + (if Prime(c - 1) then [c - 1] else []);
      forall i, j | 0 <= i < j < |t| ensures t[i] < t[j] {
        if j == |s| {
          assert t[i] in s;
        }
      }
    }
  }

  /** The primes below any bound form an initial segment of the primes. */
  lemma PrimesBelowIsFirst(c: int)
    ensures FirstPrimes(PrimesBelow(c))
  {
    PrimesBelowSpec(c);
    var s := PrimesBelow(c);
    forall i | 0 <= i < |s| ensures Prime(s[i]) {
      assert s[i] in s;
    }
  }

  /** Walks candidates upward from 2, appending each prime, until it holds
      n of them; a non-positive n is an invalid argument. */
  method FirstNPrimes(n: int) returns (r: Result<seq<int>>)
    ensures n <= 0 <==> r == Err(NotPositive)
    ensures n > 0 ==> r.Ok? && |r.value| == n && FirstPrimes(r.value)
  {
    if n <= 0 {
      return Err(NotPositive);
    }
    var primes: seq<int> := [];
    var candidate := 2;
    ghost var target := 2;
    while |primes| < n
      invariant 2 <= candidate <= target && Prime(target)
      invariant primes == PrimesBelow(candidate)
      invariant |primes| <= n
      decreases n - |primes|, target - candidate
    {
      var isPrime := IsPrime(candidate);
      if isPrime {
        primes := primes + [candidate];
      }
      candidate := candidate + 1;
      if candidate > target {
        target := PrimeAtOrAbove(candidate);
      }
    }
    PrimesBelowIsFirst(candidate);
    return Ok(primes);
  }

  // ---------------------------------------------------------------------
  // The result is the first n primes
  // ---------------------------------------------------------------------

  /** Two initial segments of the primes that agree below k: the second
      cannot fall below the first at k. */
  lemma AgreeAt(s: seq<int>, t: seq<int>, k: int)
    requires FirstPrimes(s) && FirstPrimes(t) && |s| == |t| && 0 <= k < |s|
    requires forall i :: 0 <= i < k ==> s[i] == t[i]
    ensures s[k] <= t[k]
  {
    var last := |s| - 1;
    assert s[k] <= s[last] by {
      if k < last {
        assert s[k] < s[last];
      }
    }
    if t[k] < s[last] {
      assert t[k] in s;
      var m :| 0 <= m < |s| && s[m] == t[k];
      assert forall i :: 0 <= i < k ==> s[i] < t[k];
      assert k <= m;
      if k < m {
        assert s[k] < s[m];
      }
    }
  }

  /** There is only one initial segment of the primes of each length. */
  lemma {:induction false} FirstPrimesUnique(s: seq<int>, t: seq<int>)
    requires FirstPrimes(s) && FirstPrimes(t) && |s| == |t|
    ensures s == t
  {
    var k := 0;
    while k < |s|
      invariant 0 <= k <= |s|
      invariant forall i :: 0 <= i < k ==> s[i] == t[i]
    {
      AgreeAt(s, t, k);
      AgreeAt(t, s, k);
      k := k + 1;
    }
  }

  /** An initial segment of the primes starts with 2. */
  lemma FirstPrimeIsTwo(s: seq<int>)
    requires FirstPrimes(s) && |s| > 0
    ensures s[0] == 2
  {
    var last := |s| - 1;
    assert Prime(s[0]) && Prime(2);
    assert s[0] <= s[last] by {
      if 0 < last {
        assert s[0] < s[last];
      }
    }
    if 2 < s[last] {
      assert 2 in s;
      var m :| 0 <= m < |s| && s[m] == 2;
      assert m == 0;
    }
  }

  /** In an initial segment of the primes, the element after s[i] is at
      most any prime above s[i]: no prime is skipped. */
  lemma NextPrimeAtMost(s: seq<int>, i: int, p: int)
    requires FirstPrimes(s) && 0 <= i < |s| - 1 && Prime(p) && s[i] < p
    ensures s[i + 1] <= p
  {
    var last := |s| - 1;
    assert s[i + 1] <= s[last] by {
      if i + 1 < last {
        assert s[i + 1] < s[last];
      }
    }
    if p < s[last] {
      assert p in s;
      var m :| 0 <= m < |s| && s[m] == p;
      assert i < m;
      if i + 1 < m {
        assert s[i + 1] < s[m];
      }
    }
  }

  /** The first five primes. */
  lemma FirstFivePrimes(s: seq<int>)
    requires FirstPrimes(s) && |s| == 5
    ensures s == [2, 3, 5, 7, 11]
  {
    forall k | k in {3, 5, 7, 11} ensures Prime(k) {
      TrialPrimeCorrect(k);
    }
    assert !Prime(4) && !Prime(6) && !Prime(8) && !Prime(10) by {
      assert 4 % 2 == 0 && 6 % 2 == 0 && 8 % 2 == 0 && 10 % 2 == 0;
    }
    assert !Prime(9) by {
      assert 9 % 3 == 0;
    }
    assert Prime(s[1]) && Prime(s[2]) && Prime(s[3]) && Prime(s[4]);
    FirstPrimeIsTwo(s);
    NextPrimeAtMost(s, 0, 3);
    NextPrimeAtMost(s, 1, 5);
    NextPrimeAtMost(s, 2, 7);
    NextPrimeAtMost(s, 3, 11);
  }

  /** How many of the numbers in [lo, hi) is_prime accepts. */
  function PrimeCount(lo: int, hi: int): nat
    decreases hi - lo
  {
    if lo >= hi then 0 else (if TrialPrime(lo) then 1 else 0) + PrimeCount(lo + 1, hi)
  }

  /** Counting over [lo, hi) splits at any mid point. */
  lemma {:induction false} PrimeCountSplit(lo: int, mid: int, hi: int)
    requires lo <= mid <= hi
    ensures PrimeCount(lo, hi) == PrimeCount(lo, mid) + PrimeCount(mid, hi)
    decreases mid - lo
  {
    if lo < mid {
      PrimeCountSplit(lo + 1, mid, hi);
    }
  }

  /** The primes below hi are counted by PrimeCount. */
  lemma {:induction false} PrimesBelowLength(hi: int)
    requires hi >= 2
    ensures |PrimesBelow(hi)| == PrimeCount(2, hi)
    decreases hi
  {
    if hi > 2 {
      PrimesBelowLength(hi - 1);
      PrimeCountSplit(2, hi - 1, hi);
      TrialPrimeCorrect(hi - 1);
    }
  }

  // The count of primes below 542, 20 candidates at a time: each
  // lemma settles is_prime for its candidates, then sums them from the top.

  lemma PrimeCount2To22()
    ensures PrimeCount(2, 22) == 8
  {
    assert !TrialPrime(21) && !TrialPrime(20) && TrialPrime(19) && !TrialPrime(18) && TrialPrime(17)
      && !TrialPrime(16) && !TrialPrime(15) && !TrialPrime(14) && TrialPrime(13) && !TrialPrime(12);
    assert PrimeCount(12, 22) == 3;
    assert TrialPrime(11) && !TrialPrime(10) && !TrialPrime(9) && !TrialPrime(8) && TrialPrime(7)
      && !TrialPrime(6) && TrialPrime(5) && !TrialPrime(4) && TrialPrime(3) && TrialPrime(2);
    assert PrimeCount(2, 22) == 8;
  }

  lemma PrimeCount22To42()
    ensures PrimeCount(22, 42) == 5
  {
    assert TrialPrime(41) && !TrialPrime(40) && !TrialPrime(39) && !TrialPrime(38) && TrialPrime(37)
      && !TrialPrime(36) && !TrialPrime(35) && !TrialPrime(34) && !TrialPrime(33) && !TrialPrime(32);
    assert PrimeCount(32, 42) == 2;
    assert TrialPrime(31) && !TrialPrime(30) && TrialPrime(29) && !TrialPrime(28) && !TrialPrime(27)
      && !TrialPrime(26) && !TrialPrime(25) && !TrialPrime(24) && TrialPrime(23) && !TrialPrime(22);
    assert PrimeCount(22, 42) == 5;
  }

  lemma PrimeCount42To62()
    ensures PrimeCount(42, 62) == 5
  {
    assert TrialPrime(61) && !TrialPrime(60) && TrialPrime(59) && !TrialPrime(58) && !TrialPrime(57)
      && !TrialPrime(56) && !TrialPrime(55) && !TrialPrime(54) && TrialPrime(53) && !TrialPrime(52);
    assert PrimeCount(52, 62) == 3;
    assert !TrialPrime(51) && !TrialPrime(50) && !TrialPrime(49) && !TrialPrime(48) && TrialPrime(47)
      && !TrialPrime(46) && !TrialPrime(45) && !TrialPrime(44) && TrialPrime(43) && !TrialPrime(42);
    assert PrimeCount(42, 62) == 5;
  }

  lemma PrimeCount62To82()
    ensures PrimeCount(62, 82) == 4
  {
    assert !TrialPrime(81) && !TrialPrime(80) && TrialPrime(79) && !TrialPrime(78) && !TrialPrime(77)
      && !TrialPrime(76) && !TrialPrime(75) && !TrialPrime(74) && TrialPrime(73) && !TrialPrime(72);
    assert PrimeCount(72, 82) == 2;
    assert TrialPrime(71) && !TrialPrime(70) && !TrialPrime(69) && !TrialPrime(68) && TrialPrime(67)
      && !TrialPrime(66) && !TrialPrime(65) && !TrialPrime(64) && !TrialPrime(63) && !TrialPrime(62);
    assert PrimeCount(62, 82) == 4;
  }

  lemma PrimeCount82To102()
    ensures PrimeCount(82, 102) == 4
  {
    assert TrialPrime(101) && !TrialPrime(100) && !TrialPrime(99) && !TrialPrime(98) && TrialPrime(97)
      && !TrialPrime(96) && !TrialPrime(95) && !TrialPrime(94) && !TrialPrime(93) && !TrialPrime(92);
    assert PrimeCount(92, 102) == 2;
    assert !TrialPrime(91) && !TrialPrime(90) && TrialPrime(89) && !TrialPrime(88) && !TrialPrime(87)
      && !TrialPrime(86) && !TrialPrime(85) && !TrialPrime(84) && TrialPrime(83) && !TrialPrime(82);
    assert PrimeCount(82, 102) == 4;
  }

  lemma PrimeCount102To122()
    ensures PrimeCount(102, 122) == 4
  {
    assert !TrialPrime(121) && !TrialPrime(120) && !TrialPrime(119) && !TrialPrime(118) && !TrialPrime(117)
      && !TrialPrime(116) && !TrialPrime(115) && !TrialPrime(114) && TrialPrime(113) && !TrialPrime(112);
    assert PrimeCount(112, 122) == 1;
    assert !TrialPrime(111) && !TrialPrime(110) && TrialPrime(109) && !TrialPrime(108) && TrialPrime(107)
      && !TrialPrime(106) && !TrialPrime(105) && !TrialPrime(104) && TrialPrime(103) && !TrialPrime(102);
    assert PrimeCount(102, 122) == 4;
  }

  lemma PrimeCount122To142()
    ensures PrimeCount(122, 142) == 4
  {
    assert !TrialPrime(141) && !TrialPrime(140) && TrialPrime(139) && !TrialPrime(138) && TrialPrime(137)
      && !TrialPrime(136) && !TrialPrime(135) && !TrialPrime(134) && !TrialPrime(133) && !TrialPrime(132);
    assert PrimeCount(132, 142) == 2;
    assert TrialPrime(131) && !TrialPrime(130) && !TrialPrime(129) && !TrialPrime(128) && TrialPrime(127)
      && !TrialPrime(126) && !TrialPrime(125) && !TrialPrime(124) && !TrialPrime(123) && !TrialPrime(122);
    assert PrimeCount(122, 142) == 4;
  }

  lemma PrimeCount142To162()
    ensures PrimeCount(142, 162) == 3
  {
    assert !TrialPrime(161) && !TrialPrime(160) && !TrialPrime(159) && !TrialPrime(158) && TrialPrime(157)
      && !TrialPrime(156) && !TrialPrime(155) && !TrialPrime(154) && !TrialPrime(153) && !TrialPrime(152);
    assert PrimeCount(152, 162) == 1;
    assert TrialPrime(151) && !TrialPrime(150) && TrialPrime(149) && !TrialPrime(148) && !TrialPrime(147)
      && !TrialPrime(146) && !TrialPrime(145) && !TrialPrime(144) && !TrialPrime(143) && !TrialPrime(142);
    assert PrimeCount(142, 162) == 3;
  }

  lemma PrimeCount162To182()
    ensures PrimeCount(162, 182) == 5
  {
    assert TrialPrime(181) && !TrialPrime(180) && TrialPrime(179) && !TrialPrime(178) && !TrialPrime(177)
      && !TrialPrime(176) && !TrialPrime(175) && !TrialPrime(174) && TrialPrime(173) && !TrialPrime(172);
    assert PrimeCount(172, 182) == 3;
    assert !TrialPrime(171) && !TrialPrime(170) && !TrialPrime(169) && !TrialPrime(168) && TrialPrime(167)
      && !TrialPrime(166) && !TrialPrime(165) && !TrialPrime(164) && TrialPrime(163) && !TrialPrime(162);
    assert PrimeCount(162, 182) == 5;
  }

  lemma PrimeCount182To202()
    ensures PrimeCount(182, 202) == 4
  {
    assert !TrialPrime(201) && !TrialPrime(200) && TrialPrime(199) && !TrialPrime(198) && TrialPrime(197)
      && !TrialPrime(196) && !TrialPrime(195) && !TrialPrime(194) && TrialPrime(193) && !TrialPrime(192);
    assert PrimeCount(192, 202) == 3;
    assert TrialPrime(191) && !TrialPrime(190) && !TrialPrime(189) && !TrialPrime(188) && !TrialPrime(187)
      && !TrialPrime(186) && !TrialPrime(185) && !TrialPrime(184) && !TrialPrime(183) && !TrialPrime(182);
    assert PrimeCount(182, 202) == 4;
  }

  lemma PrimeCount202To222()
    ensures PrimeCount(202, 222) == 1
  {
    assert !TrialPrime(221) && !TrialPrime(220) && !TrialPrime(219) && !TrialPrime(218) && !TrialPrime(217)
      && !TrialPrime(216) && !TrialPrime(215) && !TrialPrime(214) && !TrialPrime(213) && !TrialPrime(212);
    assert PrimeCount(212, 222) == 0;
    assert TrialPrime(211) && !TrialPrime(210) && !TrialPrime(209) && !TrialPrime(208) && !TrialPrime(207)
      && !TrialPrime(206) && !TrialPrime(205) && !TrialPrime(204) && !TrialPrime(203) && !TrialPrime(202);
    assert PrimeCount(202, 222) == 1;
  }

  lemma PrimeCount222To242()
    ensures PrimeCount(222, 242) == 6
  {
    assert TrialPrime(241) && !TrialPrime(240) && TrialPrime(239) && !TrialPrime(238) && !TrialPrime(237)
      && !TrialPrime(236) && !TrialPrime(235) && !TrialPrime(234) && TrialPrime(233) && !TrialPrime(232);
    assert PrimeCount(232, 242) == 3;
    assert !TrialPrime(231) && !TrialPrime(230) && TrialPrime(229) && !TrialPrime(228) && TrialPrime(227)
      && !TrialPrime(226) && !TrialPrime(225) && !TrialPrime(224) && TrialPrime(223) && !TrialPrime(222);
    assert PrimeCount(222, 242) == 6;
  }

  lemma PrimeCount242To262()
    ensures PrimeCount(242, 262) == 2
  {
    assert !TrialPrime(261) && !TrialPrime(260) && !TrialPrime(259) && !TrialPrime(258) && TrialPrime(257)
      && !TrialPrime(256) && !TrialPrime(255) && !TrialPrime(254) && !TrialPrime(253) && !TrialPrime(252);
    assert PrimeCount(252, 262) == 1;
    assert TrialPrime(251) && !TrialPrime(250) && !TrialPrime(249) && !TrialPrime(248) && !TrialPrime(247)
      && !TrialPrime(246) && !TrialPrime(245) && !TrialPrime(244) && !TrialPrime(243) && !TrialPrime(242);
    assert PrimeCount(242, 262) == 2;
  }

  lemma PrimeCount262To282()
    ensures PrimeCount(262, 282) == 5
  {
    assert TrialPrime(281) && !TrialPrime(280) && !TrialPrime(279) && !TrialPrime(278) && TrialPrime(277)
      && !TrialPrime(276) && !TrialPrime(275) && !TrialPrime(274) && !TrialPrime(273) && !TrialPrime(272);
    assert PrimeCount(272, 282) == 2;
    assert TrialPrime(271) && !TrialPrime(270) && TrialPrime(269) && !TrialPrime(268) && !TrialPrime(267)
      && !TrialPrime(266) && !TrialPrime(265) && !TrialPrime(264) && TrialPrime(263) && !TrialPrime(262);
    assert PrimeCount(262, 282) == 5;
  }

  lemma PrimeCount282To302()
    ensures PrimeCount(282, 302) == 2
  {
    assert !TrialPrime(301) && !TrialPrime(300) && !TrialPrime(299) && !TrialPrime(298) && !TrialPrime(297)
      && !TrialPrime(296) && !TrialPrime(295) && !TrialPrime(294) && TrialPrime(293) && !TrialPrime(292);
    assert PrimeCount(292, 302) == 1;
    assert !TrialPrime(291) && !TrialPrime(290) && !TrialPrime(289) && !TrialPrime(288) && !TrialPrime(287)
      && !TrialPrime(286) && !TrialPrime(285) && !TrialPrime(284) && TrialPrime(283) && !TrialPrime(282);
    assert PrimeCount(282, 302) == 2;
  }

  lemma PrimeCount302To322()
    ensures PrimeCount(302, 322) == 4
  {
    assert !TrialPrime(321) && !TrialPrime(320) && !TrialPrime(319) && !TrialPrime(318) && TrialPrime(317)
      && !TrialPrime(316) && !TrialPrime(315) && !TrialPrime(314) && TrialPrime(313) && !TrialPrime(312);
    assert PrimeCount(312, 322) == 2;
    assert TrialPrime(311) && !TrialPrime(310) && !TrialPrime(309) && !TrialPrime(308) && TrialPrime(307)
      && !TrialPrime(306) && !TrialPrime(305) && !TrialPrime(304) && !TrialPrime(303) && !TrialPrime(302);
    assert PrimeCount(302, 322) == 4;
  }

  lemma PrimeCount322To342()
    ensures PrimeCount(322, 342) == 2
  {
    assert !TrialPrime(341) && !TrialPrime(340) && !TrialPrime(339) && !TrialPrime(338) && TrialPrime(337)
      && !TrialPrime(336) && !TrialPrime(335) && !TrialPrime(334) && !TrialPrime(333) && !TrialPrime(332);
    assert PrimeCount(332, 342) == 1;
    assert TrialPrime(331) && !TrialPrime(330) && !TrialPrime(329) && !TrialPrime(328) && !TrialPrime(327)
      && !TrialPrime(326) && !TrialPrime(325) && !TrialPrime(324) && !TrialPrime(323) && !TrialPrime(322);
    assert PrimeCount(322, 342) == 2;
  }

  lemma PrimeCount342To362()
    ensures PrimeCount(342, 362) == 4
  {
    assert !TrialPrime(361) && !TrialPrime(360) && TrialPrime(359) && !TrialPrime(358) && !TrialPrime(357)
      && !TrialPrime(356) && !TrialPrime(355) && !TrialPrime(354) && TrialPrime(353) && !TrialPrime(352);
    assert PrimeCount(352, 362) == 2;
    assert !TrialPrime(351) && !TrialPrime(350) && TrialPrime(349) && !TrialPrime(348) && TrialPrime(347)
      && !TrialPrime(346) && !TrialPrime(345) && !TrialPrime(344) && !TrialPrime(343) && !TrialPrime(342);
    assert PrimeCount(342, 362) == 4;
  }

  lemma PrimeCount362To382()
    ensures PrimeCount(362, 382) == 3
  {
    assert !TrialPrime(381) && !TrialPrime(380) && TrialPrime(379) && !TrialPrime(378) && !TrialPrime(377)
      && !TrialPrime(376) && !TrialPrime(375) && !TrialPrime(374) && TrialPrime(373) && !TrialPrime(372);
    assert PrimeCount(372, 382) == 2;
    assert !TrialPrime(371) && !TrialPrime(370) && !TrialPrime(369) && !TrialPrime(368) && TrialPrime(367)
      && !TrialPrime(366) && !TrialPrime(365) && !TrialPrime(364) && !TrialPrime(363) && !TrialPrime(362);
    assert PrimeCount(362, 382) == 3;
  }

  lemma PrimeCount382To402()
    ensures PrimeCount(382, 402) == 4
  {
    assert TrialPrime(401) && !TrialPrime(400) && !TrialPrime(399) && !TrialPrime(398) && TrialPrime(397)
      && !TrialPrime(396) && !TrialPrime(395) && !TrialPrime(394) && !TrialPrime(393) && !TrialPrime(392);
    assert PrimeCount(392, 402) == 2;
    assert !TrialPrime(391) && !TrialPrime(390) && TrialPrime(389) && !TrialPrime(388) && !TrialPrime(387)
      && !TrialPrime(386) && !TrialPrime(385) && !TrialPrime(384) && TrialPrime(383) && !TrialPrime(382);
    assert PrimeCount(382, 402) == 4;
  }

  lemma PrimeCount402To422()
    ensures PrimeCount(402, 422) == 3
  {
    assert TrialPrime(421) && !TrialPrime(420) && TrialPrime(419) && !TrialPrime(418) && !TrialPrime(417)
      && !TrialPrime(416) && !TrialPrime(415) && !TrialPrime(414) && !TrialPrime(413) && !TrialPrime(412);
    assert PrimeCount(412, 422) == 2;
    assert !TrialPrime(411) && !TrialPrime(410) && TrialPrime(409) && !TrialPrime(408) && !TrialPrime(407)
      && !TrialPrime(406) && !TrialPrime(405) && !TrialPrime(404) && !TrialPrime(403) && !TrialPrime(402);
    assert PrimeCount(402, 422) == 3;
  }

  lemma PrimeCount422To442()
    ensures PrimeCount(422, 442) == 3
  {
    assert !TrialPrime(441) && !TrialPrime(440) && TrialPrime(439) && !TrialPrime(438) && !TrialPrime(437)
      && !TrialPrime(436) && !TrialPrime(435) && !TrialPrime(434) && TrialPrime(433) && !TrialPrime(432);
    assert PrimeCount(432, 442) == 2;
    assert TrialPrime(431) && !TrialPrime(430) && !TrialPrime(429) && !TrialPrime(428) && !TrialPrime(427)
      && !TrialPrime(426) && !TrialPrime(425) && !TrialPrime(424) && !TrialPrime(423) && !TrialPrime(422);
    assert PrimeCount(422, 442) == 3;
  }

  lemma PrimeCount442To462()
    ensures PrimeCount(442, 462) == 4
  {
    assert TrialPrime(461) && !TrialPrime(460) && !TrialPrime(459) && !TrialPrime(458) && TrialPrime(457)
      && !TrialPrime(456) && !TrialPrime(455) && !TrialPrime(454) && !TrialPrime(453) && !TrialPrime(452);
    assert PrimeCount(452, 462) == 2;
    assert !TrialPrime(451) && !TrialPrime(450) && TrialPrime(449) && !TrialPrime(448) && !TrialPrime(447)
      && !TrialPrime(446) && !TrialPrime(445) && !TrialPrime(444) && TrialPrime(443) && !TrialPrime(442);
    assert PrimeCount(442, 462) == 4;
  }

  lemma PrimeCount462To482()
    ensures PrimeCount(462, 482) == 3
  {
    assert !TrialPrime(481) && !TrialPrime(480) && TrialPrime(479) && !TrialPrime(478) && !TrialPrime(477)
      && !TrialPrime(476) && !TrialPrime(475) && !TrialPrime(474) && !TrialPrime(473) && !TrialPrime(472);
    assert PrimeCount(472, 482) == 1;
    assert !TrialPrime(471) && !TrialPrime(470) && !TrialPrime(469) && !TrialPrime(468) && TrialPrime(467)
      && !TrialPrime(466) && !TrialPrime(465) && !TrialPrime(464) && TrialPrime(463) && !TrialPrime(462);
    assert PrimeCount(462, 482) == 3;
  }

  lemma PrimeCount482To502()
    ensures PrimeCount(482, 502) == 3
  {
    assert !TrialPrime(501) && !TrialPrime(500) && TrialPrime(499) && !TrialPrime(498) && !TrialPrime(497)
      && !TrialPrime(496) && !TrialPrime(495) && !TrialPrime(494) && !TrialPrime(493) && !TrialPrime(492);
    assert PrimeCount(492, 502) == 1;
    assert TrialPrime(491) && !TrialPrime(490) && !TrialPrime(489) && !TrialPrime(488) && TrialPrime(487)
      && !TrialPrime(486) && !TrialPrime(485) && !TrialPrime(484) && !TrialPrime(483) && !TrialPrime(482);
    assert PrimeCount(482, 502) == 3;
  }

  lemma PrimeCount502To522()
    ensures PrimeCount(502, 522) == 3
  {
    assert TrialPrime(521) && !TrialPrime(520) && !TrialPrime(519) && !TrialPrime(518) && !TrialPrime(517)
      && !TrialPrime(516) && !TrialPrime(515) && !TrialPrime(514) && !TrialPrime(513) && !TrialPrime(512);
    assert PrimeCount(512, 522) == 1;
    assert !TrialPrime(511) && !TrialPrime(510) && TrialPrime(509) && !TrialPrime(508) && !TrialPrime(507)
      && !TrialPrime(506) && !TrialPrime(505) && !TrialPrime(504) && TrialPrime(503) && !TrialPrime(502);
    assert PrimeCount(502, 522) == 3;
  }

  lemma PrimeCount522To542()
    ensures PrimeCount(522, 542) == 2
  {
    assert TrialPrime(541) && !TrialPrime(540) && !TrialPrime(539) && !TrialPrime(538) && !TrialPrime(537)
      && !TrialPrime(536) && !TrialPrime(535) && !TrialPrime(534) && !TrialPrime(533) && !TrialPrime(532);
    assert PrimeCount(532, 542) == 1;
    assert !TrialPrime(531) && !TrialPrime(530) && !TrialPrime(529) && !TrialPrime(528) && !TrialPrime(527)
      && !TrialPrime(526) && !TrialPrime(525) && !TrialPrime(524) && TrialPrime(523) && !TrialPrime(522);
    assert PrimeCount(522, 542) == 2;
  }

  lemma PrimeCount2To182()
    ensures PrimeCount(2, 182) == 42
  {
    PrimeCount2To22();
    PrimeCount22To42();
    PrimeCount42To62();
    PrimeCount62To82();
    PrimeCount82To102();
    PrimeCount102To122();
    PrimeCount122To142();
    PrimeCount142To162();
    PrimeCount162To182();
    PrimeCountSplit(2, 22, 42);
    PrimeCountSplit(2, 42, 62);
    PrimeCountSplit(2, 62, 82);
    PrimeCountSplit(2, 82, 102);
    PrimeCountSplit(2, 102, 122);
    PrimeCountSplit(2, 122, 142);
    PrimeCountSplit(2, 142, 162);
    PrimeCountSplit(2, 162, 182);
  }

  lemma PrimeCount182To362()
    ensures PrimeCount(182, 362) == 30
  {
    PrimeCount182To202();
    PrimeCount202To222();
    PrimeCount222To242();
    PrimeCount242To262();
    PrimeCount262To282();
    PrimeCount282To302();
    PrimeCount302To322();
    PrimeCount322To342();
    PrimeCount342To362();
    PrimeCountSplit(182, 202, 222);
    PrimeCountSplit(182, 222, 242);
    PrimeCountSplit(182, 242, 262);
    PrimeCountSplit(182, 262, 282);
    PrimeCountSplit(182, 282, 302);
    PrimeCountSplit(182, 302, 322);
    PrimeCountSplit(182, 322, 342);
    PrimeCountSplit(182, 342, 362);
  }

  lemma PrimeCount362To542()
    ensures PrimeCount(362, 542) == 28
  {
    PrimeCount362To382();
    PrimeCount382To402();
    PrimeCount402To422();
    PrimeCount422To442();
    PrimeCount442To462();
    PrimeCount462To482();
    PrimeCount482To502();
    PrimeCount502To522();
    PrimeCount522To542();
    PrimeCountSplit(362, 382, 402);
    PrimeCountSplit(362, 402, 422);
    PrimeCountSplit(362, 422, 442);
    PrimeCountSplit(362, 442, 462);
    PrimeCountSplit(362, 462, 482);
    PrimeCountSplit(362, 482, 502);
    PrimeCountSplit(362, 502, 522);
    PrimeCountSplit(362, 522, 542);
  }

  /** There are 100 primes below 542. */
  lemma PrimeCountBelow542()
    ensures PrimeCount(2, 542) == 100
  {
    PrimeCount2To182();
    PrimeCount182To362();
    PrimeCount362To542();
    PrimeCountSplit(2, 182, 362);
    PrimeCountSplit(2, 362, 542);
  }

  /** An initial segment of the primes with as many elements as there are
      primes below c, where c - 1 is prime, ends with c - 1. */
  lemma FirstPrimesEndAt(s: seq<int>, c: int)
    requires c >= 2 && FirstPrimes(s) && |s| == PrimeCount(2, c) && |s| > 0 && TrialPrime(c - 1)
    ensures s[|s| - 1] == c - 1
  {
    PrimesBelowLength(c);
    TrialPrimeCorrect(c - 1);
    PrimesBelowIsFirst(c);
    FirstPrimesUnique(s, PrimesBelow(c));
    PrimesBelowSpec(c);
    assert c - 1 in s && s[|s| - 1] in s;
  }

  /** The hundredth prime is 541. */
  lemma HundredthPrime(s: seq<int>)
    requires FirstPrimes(s) && |s| == 100
    ensures s[99] == 541
  {
    assert TrialPrime(541);
    PrimeCountBelow542();
    FirstPrimesEndAt(s, 542);
  }
}
