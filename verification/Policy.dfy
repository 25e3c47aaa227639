/** Load balancing policies (proxy/policy.go). Counters and hashes are 32 bits wide and wrap around. A
host is given by its place in the pool; whether it is available is read once per selection. */
module Policies {
  import opened Basics

  const WORD: int := 0x1_0000_0000

  datatype Host = Host(available: bool, conns: int)

  // ----- arithmetic -----

  lemma {:induction false} AtLeastOnce(n: int, d: int)
    requires n > 0 && d >= 1
    ensures n * d >= n
  {
    assert n * d == n * (d - 1) + n;
  }

  lemma {:induction false} RemainderIs(x: int, n: int, q: int, r: int)
    requires 0 <= r < n && x == n * q + r
    ensures x % n == r
  {
    var d := q - x / n;
    assert n * d == x % n - r;
    if d >= 1 {
      AtLeastOnce(n, d);
    } else if d <= -1 {
      AtLeastOnce(n, -d);
    }
  }

  lemma {:induction false} SameRemainder(x: int, y: int, n: int, q: int)
    requires n > 0 && x - y == n * q
    ensures x % n == y % n
  {
    assert x == n * (y / n + q) + y % n;
    RemainderIs(x, n, y / n + q, y % n);
  }

  lemma {:induction false} RemainderSum(x: int, y: int, c: int, n: int)
    requires n > 0 && x % n == y % n
    ensures (x + c) % n == (y + c) % n
  {
    assert x - y == n * (x / n - y / n);
    SameRemainder(x + c, y + c, n, x / n - y / n);
  }

  /** Wrapping does not change the remainder for a divisor of the word size. */
  lemma {:induction false} WrapKeepsRemainder(x: int, n: int)
    requires n > 0 && WORD % n == 0
    ensures (x % WORD) % n == x % n
  {
    var q := -(x / WORD);
    assert x % WORD - x == WORD * q == (n * (WORD / n)) * q;
    assert (n * (WORD / n)) * q == n * ((WORD / n) * q);
    SameRemainder(x % WORD, x, n, (WORD / n) * q);
  }

  function Pow2(k: nat): (p: nat)
    ensures p > 0
  {
    if k == 0 then 1 else 2 * Pow2(k - 1)
  }

  ghost predicate PowerOfTwo(n: nat) {
    exists k: nat :: n == Pow2(k)
  }

  lemma {:induction false} OddFactor(a: int, b: int, m: nat, c: int)
    requires a % 2 == 1 && a * b == Pow2(m) * c
    ensures b % Pow2(m) == 0
    decreases m
  {
    if m > 0 {
      var h := a / 2;
      assert a * b == 2 * (h * b) + b;
      assert Pow2(m) * c == 2 * (Pow2(m - 1) * c);
      assert b == 2 * (Pow2(m - 1) * c - h * b);
      var b' := Pow2(m - 1) * c - h * b;
      assert a * b == 2 * (a * b');
      OddFactor(a, b', m - 1, c);
      var q := b' / Pow2(m - 1);
      assert b == Pow2(m) * q by {
        assert b' == Pow2(m - 1) * q;
      }
      RemainderIs(b, Pow2(m), q, 0);
    }
  }

  // ----- triangular probing -----

  function Triangle(i: nat): nat {
    if i == 0 then 0 else Triangle(i - 1) + i
  }

  lemma {:induction false} TriangleIs(i: nat)
    ensures 2 * Triangle(i) == i * (i + 1)
  {
    if i > 0 {
      TriangleIs(i - 1);
      assert i * (i + 1) == (i - 1) * i + 2 * i;
    }
  }

  /** The index before the remainder is taken, in round i. */
  function Index(hash: nat, n: nat, i: nat): (x: nat)
    requires n > 0
    ensures i > 0 ==> x < WORD
  {
    if i == 0 then hash % n else (Index(hash, n, i - 1) + i) % WORD
  }

  /** The place looked at in round i. */
  function Probe(hash: nat, n: nat, i: nat): (x: nat)
    requires n > 0
    ensures x < n
  {
    Index(hash, n, i) % n
  }

  /** Without wrapping, the index is a triangular number away from where it started. */
  lemma {:induction false} IndexIsTriangle(hash: nat, n: nat, i: nat)
    requires 0 < n && n + Triangle(i) <= WORD
    ensures Index(hash, n, i) == hash % n + Triangle(i)
  {
    if i > 0 {
      IndexIsTriangle(hash, n, i - 1);
    }
  }

  lemma {:induction false} ProbeIsTriangle(hash: nat, n: nat, i: nat)
    requires 0 < n && (WORD % n == 0 || n + Triangle(i) <= WORD)
    ensures Probe(hash, n, i) == (hash + Triangle(i)) % n
  {
    RemainderIs(hash % n, n, 0, hash % n);
    if WORD % n != 0 {
      IndexIsTriangle(hash, n, i);
      RemainderSum(hash % n, hash, Triangle(i), n);
    } else if i > 0 {
      ProbeIsTriangle(hash, n, i - 1);
      var x, t := Index(hash, n, i - 1), Triangle(i - 1);
      WrapKeepsRemainder(x + i, n);
      RemainderSum(x, hash + t, i, n);
    }
  }

  lemma {:induction false} Pow2Divides(k: nat, m: nat)
    requires k <= m
    ensures Pow2(m) % Pow2(k) == 0
    decreases m
  {
    if k < m {
      Pow2Divides(k, m - 1);
      var q := Pow2(m - 1) / Pow2(k);
      assert Pow2(m) == Pow2(k) * (2 * q);
      RemainderIs(Pow2(m), Pow2(k), 2 * q, 0);
    } else {
      RemainderIs(Pow2(m), Pow2(k), 1, 0);
    }
  }

  lemma {:induction false} Pow2Grows(k: nat, m: nat)
    requires k < m
    ensures Pow2(k) < Pow2(m)
    decreases m
  {
    if k < m - 1 {
      Pow2Grows(k, m - 1);
    }
  }

  /** Powers of two below the word size divide it. */
  lemma {:induction false} PowerDividesWord(k: nat)
    requires Pow2(k) < WORD
    ensures WORD % Pow2(k) == 0
  {
    assert Pow2(16) == 0x1_0000 && Pow2(32) == WORD by {
      assert Pow2(8) == 0x100;
      assert Pow2(16) == 0x1_0000;
      assert Pow2(24) == 0x100_0000;
    }
    if k > 32 {
      Pow2Grows(32, k);
    } else {
      Pow2Divides(k, 32);
    }
  }

  lemma {:induction false} TriangleDistance(i: nat, j: nat)
    requires i < j
    ensures 2 * (Triangle(j) - Triangle(i)) == (j - i) * (j + i + 1)
  {
    TriangleIs(i);
    TriangleIs(j);
    assert (j - i) * (j + i + 1) == j * (j + 1) - i * (i + 1);
  }

  /** One of the factors is odd, and the other one is too small. */
  lemma {:induction false} NotMultiple(a: int, b: int, m: nat, c: int)
    requires 0 < a < Pow2(m) && 0 < b < Pow2(m) && a % 2 != b % 2
    ensures a * b != Pow2(m) * c
  {
    if a % 2 == 1 {
      OddNotMultiple(a, b, m, c);
    } else {
      OddNotMultiple(b, a, m, c);
      assert a * b == b * a;
    }
  }

  lemma {:induction false} OddNotMultiple(a: int, b: int, m: nat, c: int)
    requires 0 < b < Pow2(m) && a % 2 == 1
    ensures a * b != Pow2(m) * c
  {
    RemainderIs(b, Pow2(m), 0, b);
    if a * b == Pow2(m) * c {
      OddFactor(a, b, m, c);
    }
  }

  lemma {:induction false} TrianglesDiffer(hash: nat, k: nat, i: nat, j: nat)
    requires i < j < Pow2(k)
    ensures (hash + Triangle(i)) % Pow2(k) != (hash + Triangle(j)) % Pow2(k)
  {
    var x, y := hash + Triangle(i), hash + Triangle(j);
    var c := y / Pow2(k) - x / Pow2(k);
    NotMultiple(j - i, j + i + 1, k + 1, c);
    TriangleDistance(i, j);
    Doubled(k, c);
    if x % Pow2(k) == y % Pow2(k) {
      Gap(x, y, Pow2(k));
    }
  }

  lemma {:induction false} Doubled(k: nat, c: int)
    ensures Pow2(k + 1) * c == 2 * (Pow2(k) * c)
  {
  }

  lemma {:induction false} Gap(x: int, y: int, n: int)
    requires n > 0 && x % n == y % n
    ensures y - x == n * (y / n - x / n)
  {
  }

  /** With a power of two, no two rounds look at the same place. */
  lemma {:induction false} ProbesDiffer(hash: nat, k: nat, i: nat, j: nat)
    requires i < j < Pow2(k) < WORD
    ensures Probe(hash, Pow2(k), i) != Probe(hash, Pow2(k), j)
  {
    PowerDividesWord(k);
    ProbeIsTriangle(hash, Pow2(k), i);
    ProbeIsTriangle(hash, Pow2(k), j);
    TrianglesDiffer(hash, k, i, j);
  }

  // ----- counting -----

  ghost predicate Distinct(s: seq<nat>) {
    forall i, j :: 0 <= i < j < |s| ==> s[i] != s[j]
  }

  ghost predicate Covers(s: seq<nat>, n: nat) {
    forall y :: 0 <= y < n ==> y in s
  }

  ghost function Elements(s: seq<nat>): set<nat> {
    set x | x in s
  }

  ghost function Below(n: nat): (s: set<nat>)
    ensures forall x: nat :: x in s <==> x < n
  {
    if n == 0 then {} else Below(n - 1) + {n - 1}
  }

  lemma {:induction false} BelowSize(n: nat)
    ensures |Below(n)| == n
  {
    if n > 0 {
      BelowSize(n - 1);
    }
  }

  lemma {:induction false} ElementsSize(s: seq<nat>)
    ensures |Elements(s)| <= |s|
    ensures |Elements(s)| == |s| <==> Distinct(s)
    decreases |s|
  {
    if s == [] {
      assert Elements(s) == {};
    } else {
      var m := |s| - 1;
      var before, x := s[..m], s[m];
      ElementsSize(before);
      assert Elements(s) == Elements(before) + {x};
      if x in before {
        var i :| 0 <= i < m && before[i] == x;
        assert s[i] == s[m];
        assert Elements(s) == Elements(before);
      } else {
        DistinctGrows(s);
      }
    }
  }

  lemma {:induction false} DistinctGrows(s: seq<nat>)
    requires s != [] && s[|s| - 1] !in s[..|s| - 1]
    ensures Distinct(s) <==> Distinct(s[..|s| - 1])
  {
    var before := s[..|s| - 1];
    forall i | 0 <= i < |s| - 1 ensures s[i] == before[i] && s[i] != s[|s| - 1] {
      assert before[i] in before;
    }
  }

  /** n places in n rounds: all of them are visited exactly when none is visited twice. */
  lemma {:induction false} Pigeonhole(s: seq<nat>, n: nat)
    requires |s| == n && forall x :: x in s ==> x < n
    ensures Covers(s, n) <==> Distinct(s)
  {
    BelowSize(n);
    ElementsSize(s);
    SubsetSize(Elements(s), Below(n));
    if Covers(s, n) {
      assert Elements(s) == Below(n);
    }
    if Distinct(s) {
      assert Elements(s) == Below(n);
      forall y | 0 <= y < n ensures y in s {
        assert y in Below(n);
      }
    }
  }

  // ----- which pools are covered -----

  ghost function Probes(hash: nat, n: nat): (s: seq<nat>)
    requires n > 0
    ensures |s| == n && forall x :: x in s ==> x < n
  {
    seq(n, i requires 0 <= i < n => Probe(hash, n, i))
  }

  /** A pool whose size is a power of two is visited completely, each host once, for every hash. */
  lemma {:induction false} PowerOfTwoCovers(hash: nat, n: nat)
    requires PowerOfTwo(n) && n < WORD
    ensures Distinct(Probes(hash, n)) && Covers(Probes(hash, n), n)
  {
    var k: nat :| n == Pow2(k);
    forall i, j | 0 <= i < j < n ensures Probes(hash, n)[i] != Probes(hash, n)[j] {
      ProbesDiffer(hash, k, i, j);
    }
    Pigeonhole(Probes(hash, n), n);
  }

  /** Every positive number is an odd number times a power of two. */
  lemma {:induction false} OddPart(n: nat) returns (k: nat, m: nat)
    requires n > 0
    ensures n == Pow2(k) * m && m % 2 == 1
  {
    if n % 2 == 1 {
      k, m := 0, n;
    } else {
      var k', m' := OddPart(n / 2);
      k, m := k' + 1, m';
      assert n == 2 * (Pow2(k') * m');
      assert Pow2(k) * m == 2 * (Pow2(k') * m');
    }
  }

  lemma {:induction false} FactorsFit(p: nat, m: nat)
    requires p >= 2 && m > 2
    ensures p + m < p * m
  {
    assert p * m == p + m + (p - 1) * (m - 1) - 1;
    AtLeastOnce(m - 1, p - 1);
  }

  /** With an odd part above 1, two rounds look at the same place. */
  lemma {:induction false} Collision(p: nat, m: nat) returns (i: nat, j: nat)
    requires p >= 2 && p % 2 == 0 && m % 2 == 1 && m > 2
    ensures i < j && 2 * j < p * m && (j - i) * (j + i + 1) == p * m
  {
    FactorsFit(p, m);
    if m < p {
      i, j := (p - m - 1) / 2, (p + m - 1) / 2;
      Swapped(p, m, i, j);
    } else {
      i, j := (m - p - 1) / 2, (m + p - 1) / 2;
    }
  }

  lemma {:induction false} Swapped(p: nat, m: nat, i: nat, j: nat)
    requires j == i + m && j + i + 1 == p
    ensures (j - i) * (j + i + 1) == p * m
  {
  }

  lemma {:induction false} TrianglesCollide(hash: nat, n: nat, i: nat, j: nat)
    requires n > 0 && i < j && (j - i) * (j + i + 1) == 2 * n
    ensures (hash + Triangle(i)) % n == (hash + Triangle(j)) % n
  {
    TriangleDistance(i, j);
    SameRemainder(hash + Triangle(j), hash + Triangle(i), n, 1);
  }

  /** Two rounds whose triangular numbers differ by n. */
  lemma {:induction false} CollidingRounds(n: nat) returns (i: nat, j: nat)
    requires 0 < n && !PowerOfTwo(n)
    ensures i < j < n && (j - i) * (j + i + 1) == 2 * n
  {
    var k, m := OddPart(n);
    assert n == Pow2(k) ==> PowerOfTwo(n);
    Doubled(k, m);
    i, j := Collision(Pow2(k + 1), m);
  }

  lemma {:induction false} OthersMiss(hash: nat, n: nat)
    requires 0 < n && n + Triangle(n) <= WORD && !PowerOfTwo(n)
    ensures !Covers(Probes(hash, n), n)
  {
    var i, j := CollidingRounds(n);
    TrianglesCollide(hash, n, i, j);
    TriangleGrows(i, n);
    TriangleGrows(j, n);
    ProbeIsTriangle(hash, n, i);
    ProbeIsTriangle(hash, n, j);
    assert Probes(hash, n)[i] == Probes(hash, n)[j];
    Pigeonhole(Probes(hash, n), n);
  }

  lemma {:induction false} TriangleGrows(i: nat, j: nat)
    requires i <= j
    ensures Triangle(i) <= Triangle(j)
    decreases j
  {
    if i < j {
      TriangleGrows(i, j - 1);
    }
  }

  // ----- selection -----

  /** The first available host in the order of the places given. */
  ghost predicate FirstAvailable(pool: seq<Host>, places: seq<nat>, r: Option<nat>) {
    match r
    case None => forall i :: 0 <= i < |places| && places[i] < |pool| ==> !pool[places[i]].available
    case Some(h) =>
      exists i :: 0 <= i < |places| && places[i] == h < |pool| && pool[h].available
                  && forall j :: 0 <= j < i && places[j] < |pool| ==> !pool[places[j]].available
  }

  ghost predicate SomeAvailable(pool: seq<Host>) {
    exists i :: 0 <= i < |pool| && pool[i].available
  }

  lemma {:induction false} ProbeStep(hash: nat, n: nat, i: nat, index: nat)
    requires i < n < WORD && hash < WORD && index == if i == 0 then hash % n else Index(hash, n, i - 1)
    ensures (index + i) % WORD == Index(hash, n, i) && (index + i) % WORD % n == Probes(hash, n)[i]
  {
    if i == 0 {
      RemainderIs(index, WORD, 0, index);
    }
  }

  method HostByHashing(pool: seq<Host>, hash: nat) returns (r: Option<nat>)
    requires 0 < |pool| < WORD && hash < WORD
    ensures FirstAvailable(pool, Probes(hash, |pool|), r)
    ensures r.Some? ==> r.value < |pool| && pool[r.value].available
    ensures PowerOfTwo(|pool|) ==> (r.None? <==> !SomeAvailable(pool))
  {
    var poolLen := |pool|;
    var index := hash % poolLen;
    ghost var places := Probes(hash, poolLen);
    r := None;
    var i := 0;
    while i < poolLen && r.None?
      invariant 0 <= i <= poolLen
      invariant index == if i == 0 then hash % poolLen else Index(hash, poolLen, i - 1)
      invariant r.None? ==> forall j :: 0 <= j < i ==> !pool[places[j]].available
      invariant r.Some? ==> FirstAvailable(pool, places, r)
    {
      ProbeStep(hash, poolLen, i, index);
      index := (index + i) % WORD;
      if pool[index % poolLen].available {
        r := Some(index % poolLen);
      }
      i := i + 1;
    }
    if PowerOfTwo(poolLen) {
      PowerOfTwoCovers(hash, poolLen);
      CoverFinds(pool, places, r);
    }
  }

  lemma {:induction false} CoverFinds(pool: seq<Host>, places: seq<nat>, r: Option<nat>)
    requires Covers(places, |pool|) && FirstAvailable(pool, places, r)
    ensures r.None? <==> !SomeAvailable(pool)
  {
    if r.None? {
      forall h | 0 <= h < |pool| ensures !pool[h].available {
        assert h in places;
      }
    }
  }

  /** While the index does not wrap, probing finds a host whenever one is available exactly for powers of two. */
  lemma {:induction false} FindsExactly(hash: nat, n: nat)
    requires 0 < n && n + Triangle(n) <= WORD
    ensures PowerOfTwo(n)
       <==> forall pool: seq<Host>, r :: |pool| == n && SomeAvailable(pool) && FirstAvailable(pool, Probes(hash, n), r) ==> r.Some?
  {
    if PowerOfTwo(n) {
      PowerOfTwoCovers(hash, n);
      forall pool: seq<Host>, r | |pool| == n && SomeAvailable(pool) && FirstAvailable(pool, Probes(hash, n), r) ensures r.Some? {
        CoverFinds(pool, Probes(hash, n), r);
      }
    } else {
      OthersMiss(hash, n);
      var h :| 0 <= h < n && h !in Probes(hash, n);
      var pool := seq(n, i => Host(i == h, 0));
      assert pool[h].available;
      assert FirstAvailable(pool, Probes(hash, n), None);
    }
  }

  // ----- round robin -----

  /** The counter after i rounds. */
  function Counter(robin: nat, i: nat): (x: nat)
    ensures x < WORD
  {
    (robin + i) % WORD
  }

  /** The place looked at in round i, for a counter that stood at robin. */
  function Turn(robin: nat, n: nat, i: nat): (x: nat)
    requires n > 0
    ensures x < n
  {
    Counter(robin, i + 1) % n
  }

  ghost function Turns(robin: nat, n: nat): (s: seq<nat>)
    ensures |s| == n && forall x :: x in s ==> x < n
  {
    seq(n, i requires 0 <= i < n => Turn(robin, n, i))
  }

  /** The counter does not wrap in the middle of the pool. */
  predicate Aligned(robin: nat, n: nat)
    requires n > 0
  {
    robin + n < WORD || robin == WORD - 1 || WORD % n == 0
  }

  lemma {:induction false} NeighboursDiffer(base: int, n: nat, i: nat, j: nat)
    requires i < j < n
    ensures (base + i) % n != (base + j) % n
  {
    var x, y := base + i, base + j;
    if x % n == y % n {
      Gap(x, y, n);
      var d := y / n - x / n;
      if d >= 1 {
        AtLeastOnce(n, d);
      } else if d <= -1 {
        AtLeastOnce(n, -d);
      }
    }
  }

  lemma {:induction false} AlignedTurn(robin: nat, n: nat, i: nat)
    requires 0 < n && i < n < WORD && robin < WORD && Aligned(robin, n)
    ensures Turn(robin, n, i) == ((if robin == WORD - 1 then 0 else robin + 1) + i) % n
  {
    if robin == WORD - 1 {
      assert (robin + 1 + i) % WORD == i;
    } else if robin + n < WORD {
      assert (robin + 1 + i) % WORD == robin + 1 + i;
    } else {
      WrapKeepsRemainder(robin + 1 + i, n);
    }
  }

  /** Otherwise one host is passed over. */
  lemma {:induction false} Skipped(robin: nat, n: nat) returns (x: nat)
    requires 0 < n < WORD && robin < WORD && !Aligned(robin, n)
    ensures x < n && x !in Turns(robin, n)
  {
    var r := WORD % n;
    var before := WORD - 1 - robin;
    var after := n - before;
    x := if r + after - 1 < n then r + after - 1 else n - 1;
    forall i | 0 <= i < n ensures Turn(robin, n, i) != x {
      if i < before {
        SkippedBefore(robin, n, x, i);
      } else {
        assert (robin + 1 + i) % WORD == i - before;
        RemainderIs(i - before, n, 0, i - before);
      }
    }
  }

  lemma {:induction false} SkippedBefore(robin: nat, n: nat, x: nat, i: nat)
    requires 0 < n < WORD && robin < WORD && robin + 1 + i < WORD && i < n
    requires var r := WORD % n; x < n && r <= x < r + n - (WORD - 1 - robin)
    ensures Turn(robin, n, i) != x
  {
    var v := robin + 1 + i;
    RemainderIs(v, WORD, 0, v);
    NotBetween(v, WORD, WORD % n, x, n);
  }

  /** From v on, the next number with remainder x lies behind a multiple of n plus r. */
  lemma {:induction false} NotBetween(v: nat, w: nat, r: nat, x: nat, n: nat)
    requires 0 < n && r == w % n && r <= x < n && 0 < w - v + (x - r) < n
    ensures v % n != x
  {
    var y := w - r + x;
    assert y - x == n * (w / n);
    SameRemainder(y, x, n, w / n);
    RemainderIs(x, n, 0, x);
    NoMultiple(v, y, n);
  }

  /** Numbers less than n apart have different remainders. */
  lemma {:induction false} NoMultiple(v: int, y: int, n: int)
    requires 0 < y - v < n
    ensures v % n != y % n
  {
    if v % n == y % n {
      Gap(v, y, n);
      var q := y / n - v / n;
      if q >= 1 {
        AtLeastOnce(n, q);
      } else if q <= -1 {
        AtLeastOnce(n, -q);
      }
    }
  }

  lemma {:induction false} TurnsDiffer(robin: nat, n: nat, i: nat, j: nat)
    requires i < j < n < WORD && robin < WORD && Aligned(robin, n)
    ensures Turn(robin, n, i) != Turn(robin, n, j)
  {
    AlignedTurn(robin, n, i);
    AlignedTurn(robin, n, j);
    NeighboursDiffer(if robin == WORD - 1 then 0 else robin + 1, n, i, j);
  }

  /** n rounds visit the whole pool exactly when the counter does not wrap in its middle. */
  lemma {:induction false} TurnsCoverExactly(robin: nat, n: nat)
    requires 0 < n < WORD && robin < WORD
    ensures Covers(Turns(robin, n), n) <==> Aligned(robin, n)
    ensures Distinct(Turns(robin, n)) <==> Aligned(robin, n)
  {
    Pigeonhole(Turns(robin, n), n);
    if Aligned(robin, n) {
      forall i, j | 0 <= i < j < n ensures Turns(robin, n)[i] != Turns(robin, n)[j] {
        TurnsDiffer(robin, n, i, j);
      }
    } else {
      var x := Skipped(robin, n);
    }
  }

  lemma {:induction false} CounterStep(robin: nat, i: nat)
    ensures (Counter(robin, i) + 1) % WORD == Counter(robin, i + 1)
  {
    CounterSum(robin, i, 1);
  }

  lemma {:induction false} TurnStep(robin: nat, n: nat, i: nat)
    requires i < n
    ensures (Counter(robin, i) + 1) % WORD == Counter(robin, i + 1)
    ensures Counter(robin, i + 1) % n == Turns(robin, n)[i]
  {
    CounterStep(robin, i);
  }

  lemma {:induction false} AlignedFinds(robin: nat, pool: seq<Host>, r: Option<nat>)
    requires robin < WORD && |pool| < WORD && FirstAvailable(pool, Turns(robin, |pool|), r)
    ensures |pool| > 0 && Aligned(robin, |pool|) ==> (r.None? <==> !SomeAvailable(pool))
  {
    if |pool| > 0 && Aligned(robin, |pool|) {
      TurnsCoverExactly(robin, |pool|);
      CoverFinds(pool, Turns(robin, |pool|), r);
    }
  }

  /** A selection that looked at i places in turn, the last of which it took, or all of which were unavailable. */
  ghost predicate StoppedAt(pool: seq<Host>, robin: nat, robin': nat, r: Option<nat>, i: nat) {
    && i <= |pool| && robin' == Counter(robin, i)
    && (if r.None? then i == |pool| else i > 0 && r.value == Turns(robin, |pool|)[i - 1])
    && forall j :: 0 <= j < (if r.None? then i else i - 1) ==> !pool[Turns(robin, |pool|)[j]].available
  }

  class RoundRobin {
    var robin: nat

    ghost predicate Valid()
      reads this
    {
      robin < WORD
    }

    constructor ()
      ensures Valid() && robin == 0
    {
      robin := 0;
    }

    method Select(pool: seq<Host>) returns (r: Option<nat>)
      requires Valid() && |pool| < WORD
      modifies this
      ensures Valid()
      ensures FirstAvailable(pool, Turns(old(robin), |pool|), r)
      ensures r.Some? ==> r.value < |pool| && pool[r.value].available
      ensures exists i: nat :: StoppedAt(pool, old(robin), robin, r, i)
      ensures |pool| > 0 && Aligned(old(robin), |pool|) ==> (r.None? <==> !SomeAvailable(pool))
    {
      var poolLen := |pool|;
      ghost var places := Turns(robin, poolLen);
      r := None;
      var i := 0;
      while i < poolLen && r.None?
        invariant 0 <= i <= poolLen && robin == Counter(old(robin), i)
        invariant r.None? ==> forall j :: 0 <= j < i ==> !pool[places[j]].available
        invariant r.Some? ==> i > 0 && r.value == places[i - 1] && FirstAvailable(pool, places, r)
        invariant r.Some? ==> forall j :: 0 <= j < i - 1 ==> !pool[places[j]].available
      {
        TurnStep(old(robin), poolLen, i);
        robin := (robin + 1) % WORD;
        var host := robin % poolLen;
        assert host == places[i];
        if pool[host].available {
          r := Some(host);
        }
        i := i + 1;
      }
      assert StoppedAt(pool, old(robin), robin, r, i);
      AlignedFinds(old(robin), pool, r);
    }

    /** Selections one after the other while all hosts are available take the hosts in turn. As many as there are
    hosts choose each host once, exactly when the counter does not wrap in the middle. */
    method SelectInTurn(pool: seq<Host>, count: nat) returns (hosts: seq<nat>)
      requires Valid() && 0 < |pool| < WORD && forall i :: 0 <= i < |pool| ==> pool[i].available
      modifies this
      ensures Valid() && |hosts| == count && forall j :: 0 <= j < count ==> hosts[j] == Turn(old(robin), |pool|, j)
      ensures count == |pool| ==> (Distinct(hosts) && Covers(hosts, |pool|) <==> Aligned(old(robin), |pool|))
    {
      hosts := [];
      CounterZero(robin);
      var i := 0;
      while i < count
        invariant 0 <= i == |hosts| <= count && robin == Counter(old(robin), i)
        invariant forall j :: 0 <= j < i ==> hosts[j] == Turn(old(robin), |pool|, j)
      {
        ghost var before := robin;
        var r := Select(pool);
        ghost var k: nat :| StoppedAt(pool, before, robin, r, k);
        NextInTurn(pool, old(robin), i, before, robin, r, k);
        hosts := hosts + [r.value];
        i := i + 1;
      }
      if count == |pool| {
        assert hosts == Turns(old(robin), |pool|);
        TurnsCoverExactly(old(robin), |pool|);
      }
    }
  }

  lemma {:induction false} CounterZero(robin: nat)
    requires robin < WORD
    ensures Counter(robin, 0) == robin
  {
  }

  lemma {:induction false} CounterSum(robin: nat, a: nat, b: nat)
    ensures Counter(Counter(robin, a), b) == Counter(robin, a + b)
  {
    var x := robin + a;
    RemainderIs(x % WORD, WORD, 0, x % WORD);
    RemainderSum(x % WORD, x, b, WORD);
  }

  lemma {:induction false} NextInTurn(pool: seq<Host>, start: nat, i: nat, robin: nat, robin': nat, r: Option<nat>, k: nat)
    requires 0 < |pool| && (forall j :: 0 <= j < |pool| ==> pool[j].available)
    requires robin == Counter(start, i) && StoppedAt(pool, robin, robin', r, k)
    ensures r == Some(Turn(start, |pool|, i)) && robin' == Counter(start, i + 1)
  {
    assert k == 1 by {
      assert Turns(robin, |pool|)[0] < |pool|;
    }
    CounterSum(start, i, 1);
    assert r.Some? && r.value == Turns(robin, |pool|)[0] == Turn(robin, |pool|, 0);
    assert Turn(robin, |pool|, 0) == Counter(robin, 1) % |pool|;
  }

  // ----- least connections -----

  const MAX_INT64: int := 0x7fff_ffff_ffff_ffff

  /** rand gives the random number drawn at each host. */
  method LeastConn(pool: seq<Host>, rand: nat -> nat) returns (r: Option<nat>)
    requires forall i :: 0 <= i < |pool| ==> pool[i].conns <= MAX_INT64
    ensures r.None? <==> !SomeAvailable(pool)
    ensures r.Some? ==> r.value < |pool| && pool[r.value].available
    ensures r.Some? ==> forall i :: 0 <= i < |pool| && pool[i].available ==> pool[r.value].conns <= pool[i].conns
  {
    var count, leastConn := 0, MAX_INT64;
    r := None;
    var i := 0;
    while i < |pool|
      invariant 0 <= i <= |pool|
      invariant r.None? <==> count == 0
      invariant r.None? ==> leastConn == MAX_INT64 && forall j :: 0 <= j < i ==> !pool[j].available
      invariant r.Some? ==> r.value < i && pool[r.value].available && pool[r.value].conns == leastConn
      invariant forall j :: 0 <= j < i && pool[j].available ==> leastConn <= pool[j].conns
    {
      var host := pool[i];
      if host.available {
        if host.conns < leastConn {
          leastConn := host.conns;
          count := 0;
        }
        if host.conns == leastConn {
          count := count + 1;
          if rand(i) % count == 0 {
            r := Some(i);
          }
        }
      }
      i := i + 1;
    }
  }
}
