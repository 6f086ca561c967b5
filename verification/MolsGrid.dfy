/** The MOLS grid of portal/discovery/mols.go: which multiplier pairs the gcd
    test accepts, which pair is chosen for an order, and what an accepted pair
    guarantees about the two projected targets. */
module MolsGrid {

  const BASE_M1 := 3
  const BASE_M2 := 5
  const VARIANT_M1 := 7
  const VARIANT_M2 := 11

  datatype Multipliers = Multipliers(m1: int, m2: int, ok: bool)

  // ---------------------------------------------------------------- gcd

  function Abs(a: int): nat { if a < 0 then -a else a }

  /** d divides a, with no restriction on signs. */
  ghost predicate Divides(d: int, a: int) {
    exists q :: a == d * q
  }

  /** The greatest common divisor, by Euclid's recursion. */
  function Gcd(a: nat, b: nat): nat
    decreases b
  {
    if b == 0 then a else Gcd(b, a % b)
  }

  /** The in-place Euclid loop of molsPairValid. */
  method GcdLoop(a0: int, b0: nat) returns (a: nat)
    ensures a == Gcd(Abs(a0), b0)
  {
    a := if a0 < 0 then -a0 else a0;
    var b: nat := b0;
    while b != 0
      invariant Gcd(a, b) == Gcd(Abs(a0), b0)
      decreases b
    {
      a, b := b, a % b;
    }
  }

  lemma Factor(d: int, p: int, q: int, x: int, y: int)
    ensures (d * p) * x + (d * q) * y == d * (p * x + q * y)
  {
    assert (d * p) * x == d * (p * x);
    assert (d * q) * y == d * (q * y);
  }

  lemma DividesCombination(d: int, a: int, b: int, x: int, y: int)
    requires Divides(d, a) && Divides(d, b)
    ensures Divides(d, a * x + b * y)
  {
    var p :| a == d * p;
    var q :| b == d * q;
    Factor(d, p, q, x, y);
  }

  lemma BezoutStep(a: int, b: int, q: int, r: int, x: int, y: int, g: int)
    requires a == b * q + r && b * x + r * y == g
    ensures a * y + b * (x - q * y) == g
  {
    assert a * y == (b * q) * y + r * y;
    assert (b * q) * y == b * (q * y);
    assert b * (x - q * y) == b * x - b * (q * y);
  }

  /** Euclid's gcd is an integer combination of its arguments. */
  lemma {:induction false} GcdBezout(a: nat, b: nat) returns (x: int, y: int)
    ensures a * x + b * y == Gcd(a, b)
    decreases b
  {
    if b == 0 {
      x, y := 1, 0;
    } else {
      var r, q := a % b, a / b;
      var x', y' := GcdBezout(b, r);
      x, y := y', x' - q * y';
      BezoutStep(a, b, q, r, x', y', Gcd(b, r));
    }
  }

  /** Every common divisor divides the gcd. */
  lemma GcdIsGreatest(a: nat, b: nat, d: int)
    requires Divides(d, a) && Divides(d, b)
    ensures Divides(d, Gcd(a, b))
  {
    var x, y := GcdBezout(a, b);
    DividesCombination(d, a, b, x, y);
  }

  /** The gcd divides both its arguments. */
  lemma {:induction false} GcdDivides(a: nat, b: nat)
    ensures Divides(Gcd(a, b), a) && Divides(Gcd(a, b), b)
    decreases b
  {
    if b == 0 {
      assert a == a * 1 && 0 == a * 0;
    } else {
      GcdDivides(b, a % b);
      DividesCombination(Gcd(a, b), b, a % b, a / b, 1);
      assert b * (a / b) + (a % b) * 1 == a;
    }
  }

  /** Nothing but 1 and -1 divides both. */
  ghost predicate Coprime(a: int, b: int) {
    forall d :: Divides(d, a) && Divides(d, b) ==> Abs(d) == 1
  }

  lemma DividesNegation(d: int, a: int)
    requires Divides(d, a)
    ensures Divides(d, -a)
  {
    var q :| a == d * q;
    assert -a == d * -q;
  }

  lemma DividesAbs(d: int, a: int)
    ensures Divides(d, a) <==> Divides(d, Abs(a))
  {
    if a < 0 {
      if Divides(d, a) {
        DividesNegation(d, a);
      }
      if Divides(d, -a) {
        DividesNegation(d, -a);
      }
    }
  }

  lemma FactorsOfOne(x: nat, y: nat)
    requires x * y == 1
    ensures x == 1
  {
  }

  lemma DivisorOfOne(d: int)
    requires Divides(d, 1)
    ensures Abs(d) == 1
  {
    var q: int :| 1 == d * q;
    assert d * q == -d * -q;
    if d >= 0 && q >= 0 {
      FactorsOfOne(d, q);
    } else if d < 0 && q < 0 {
      FactorsOfOne(-d, -q);
    }
  }

  /** A gcd of 1 means coprime, and nothing else does. */
  lemma GcdOneExactly(a: int, b: nat)
    ensures Gcd(Abs(a), b) == 1 <==> Coprime(a, b)
  {
    var g := Gcd(Abs(a), b);
    GcdDivides(Abs(a), b);
    DividesAbs(g, a);
    if g == 1 {
      forall d | Divides(d, a) && Divides(d, b) ensures Abs(d) == 1 {
        DividesAbs(d, a);
        GcdIsGreatest(Abs(a), b, d);
        DivisorOfOne(d);
      }
    }
  }

  // ---------------------------------------------------------------- accepted pairs

  predicate PairValid(order: nat, m1: int, m2: int) {
    && Gcd(Abs(m1), order) == 1
    && Gcd(Abs(m2), order) == 1
    && Gcd(Abs(m1 - m2), order) == 1
  }

  method MolsPairValid(order: nat, m1: int, m2: int) returns (valid: bool)
    ensures valid == PairValid(order, m1, m2)
    ensures valid <==> Coprime(m1, order) && Coprime(m2, order) && Coprime(m1 - m2, order)
  {
    GcdOneExactly(m1, order);
    GcdOneExactly(m2, order);
    GcdOneExactly(m1 - m2, order);
    var g1 := GcdLoop(m1, order);
    var g2 := GcdLoop(m2, order);
    var g3 := GcdLoop(m1 - m2, order);
    valid := g1 == 1 && g2 == 1 && g3 == 1;
  }

  /** A number coprime to the order has an inverse modulo the order. */
  lemma UnitInverse(m: int, order: nat) returns (x: int, y: int)
    requires Gcd(Abs(m), order) == 1
    ensures m * x + order * y == 1
  {
    x, y := GcdBezout(Abs(m), order);
    if m < 0 {
      x := -x;
    }
  }

  lemma TwoDividesAbs(m: int)
    requires m % 2 == 0
    ensures Divides(2, Abs(m))
  {
    assert Abs(m) == 2 * (Abs(m) / 2);
  }

  /** A unit modulo an even order is odd. */
  lemma UnitOfEvenOrderIsOdd(m: int, order: nat)
    requires order % 2 == 0 && Gcd(Abs(m), order) == 1
    ensures m % 2 == 1
  {
    if m % 2 == 0 {
      TwoDividesAbs(m);
      TwoDividesAbs(order);
      GcdIsGreatest(Abs(m), order, 2);
      assert false;
    }
  }

  lemma OddMinusOdd(a: int, b: int)
    requires a % 2 == 1 && b % 2 == 1
    ensures (a - b) % 2 == 0
  {
  }

  /** No integer pair at all is accepted at an even order. */
  lemma EvenOrderAcceptsNoPair(order: nat, m1: int, m2: int)
    requires order % 2 == 0
    ensures !PairValid(order, m1, m2)
  {
    if PairValid(order, m1, m2) {
      UnitOfEvenOrderIsOdd(m1, order);
      UnitOfEvenOrderIsOdd(m2, order);
      UnitOfEvenOrderIsOdd(m1 - m2, order);
      OddMinusOdd(m1, m2);
      assert false;
    }
  }

  lemma GcdOneWith(n: nat)
    ensures Gcd(1, n) == 1
  {
    if n > 1 {
      assert 1 % n == 1 && n % 1 == 0;
      assert Gcd(n, 1) == Gcd(1, 0);
    }
  }

  lemma GcdTwoWithOdd(n: nat)
    requires n % 2 == 1
    ensures Gcd(2, n) == 1
  {
    assert Gcd(2, 1) == Gcd(1, 0) == 1;
    if n > 1 {
      assert 2 % n == 2;
      assert Gcd(n, 2) == Gcd(2, 1);
    }
  }

  /** (1, 2) and (2, 1) are accepted at every odd order, so a scan never fails. */
  lemma SmallPairsAreValid(order: nat)
    requires order % 2 == 1
    ensures PairValid(order, 1, 2) && PairValid(order, 2, 1)
  {
    GcdOneWith(order);
    GcdTwoWithOdd(order);
  }

  // ---------------------------------------------------------------- choice of the pair

  /** What the scan may return: a valid pair that is not `avoid` modulo the order. */
  predicate Admissible(order: nat, avoid: Multipliers, a: int, b: int)
    requires order > 0
  {
    PairValid(order, a, b) &&
    (avoid.ok ==> a % order != avoid.m1 % order || b % order != avoid.m2 % order)
  }

  /** The first admissible pair in row-major order from (a, b), or (1, 1) unmarked. */
  function Scan(order: nat, avoid: Multipliers, a: nat, b: nat): Multipliers
    requires order > 0
    decreases order - a, order - b
  {
    if a >= order then Multipliers(1, 1, false)
    else if b >= order then Scan(order, avoid, a + 1, 1)
    else if a != b && Admissible(order, avoid, a, b) then Multipliers(a, b, true)
    else Scan(order, avoid, a, b + 1)
  }

  const NO_PAIR := Multipliers(1, 1, false)

  function Choose(order: nat, variant: bool): Multipliers
    requires order > 0
    decreases variant
  {
    if order % 2 == 0 then NO_PAIR
    else if variant then
      var base := Choose(order, false);
      if !base.ok then NO_PAIR
      else if Admissible(order, base, VARIANT_M1, VARIANT_M2) then Multipliers(VARIANT_M1, VARIANT_M2, true)
      else Scan(order, base, 1, 1)
    else if Admissible(order, NO_PAIR, BASE_M1, BASE_M2) then Multipliers(BASE_M1, BASE_M2, true)
    else Scan(order, NO_PAIR, 1, 1)
  }

  /** The nested scan loops of molsMultipliers. */
  method ScanLoops(order: nat, avoid: Multipliers) returns (r: Multipliers)
    requires order > 0
    ensures r == Scan(order, avoid, 1, 1)
  {
    var a := 1;
    while a < order
      invariant 1 <= a
      invariant Scan(order, avoid, 1, 1) == Scan(order, avoid, a, 1)
      decreases order - a
    {
      var b := 1;
      while b < order
        invariant 1 <= b
        invariant Scan(order, avoid, 1, 1) == Scan(order, avoid, a, b)
        decreases order - b
      {
        var valid := MolsPairValid(order, a, b);
        if a != b && valid && (avoid.ok ==> a % order != avoid.m1 % order || b % order != avoid.m2 % order) {
          return Multipliers(a, b, true);
        }
        b := b + 1;
      }
      a := a + 1;
    }
    r := NO_PAIR;
  }

  method MolsMultipliers(order: nat, variant: bool) returns (r: Multipliers)
    requires order > 0
    ensures r == Choose(order, variant)
    decreases variant
  {
    if order % 2 == 0 {
      return NO_PAIR;
    }
    if variant {
      var base := MolsMultipliers(order, false);
      if !base.ok {
        return NO_PAIR;
      }
      var valid := MolsPairValid(order, VARIANT_M1, VARIANT_M2);
      if valid && (VARIANT_M1 % order != base.m1 % order || VARIANT_M2 % order != base.m2 % order) {
        return Multipliers(VARIANT_M1, VARIANT_M2, true);
      }
      r := ScanLoops(order, base);
      return;
    }
    var valid := MolsPairValid(order, BASE_M1, BASE_M2);
    if valid {
      return Multipliers(BASE_M1, BASE_M2, true);
    }
    r := ScanLoops(order, NO_PAIR);
  }

  /** A scan that meets an admissible pair finds one, and finds nothing else. */
  lemma {:induction false} ScanFinds(order: nat, avoid: Multipliers, a: nat, b: nat, a': nat, b': nat)
    requires order > 0 && 1 <= a && 1 <= b
    requires a' != b' && a' < order && b' < order && 1 <= b' && Admissible(order, avoid, a', b')
    requires a < a' || (a == a' && b <= b')
    ensures var r := Scan(order, avoid, a, b);
            r.ok && 1 <= r.m1 && 1 <= r.m2 && Admissible(order, avoid, r.m1, r.m2)
    decreases order - a, order - b
  {
    if b >= order {
      ScanFinds(order, avoid, a + 1, 1, a', b');
    } else if a != b && Admissible(order, avoid, a, b) {
    } else {
      ScanFinds(order, avoid, a, b + 1, a', b');
    }
  }

  lemma OrderOneAcceptsAll(m1: int, m2: int)
    ensures PairValid(1, m1, m2)
  {
    forall a: nat ensures Gcd(a, 1) == 1 {
      assert a % 1 == 0;
      assert Gcd(a, 1) == Gcd(1, 0);
    }
  }

  /** At every odd order the base choice is an accepted pair of positive numbers. */
  lemma BaseChoiceIsValid(order: nat)
    requires order % 2 == 1
    ensures var r := Choose(order, false);
            r.ok && 1 <= r.m1 && 1 <= r.m2 && PairValid(order, r.m1, r.m2)
  {
    if order == 1 {
      OrderOneAcceptsAll(BASE_M1, BASE_M2);
    } else {
      SmallPairsAreValid(order);
      ScanFinds(order, NO_PAIR, 1, 1, 1, 2);
    }
  }

  lemma OneOfTwoIsAdmissible(order: nat, avoid: Multipliers)
    requires order % 2 == 1 && order >= 3
    ensures Admissible(order, avoid, 1, 2) || Admissible(order, avoid, 2, 1)
  {
    SmallPairsAreValid(order);
    SmallResidues(order);
  }

  lemma SmallResidues(order: nat)
    requires order >= 3
    ensures 1 % order == 1 && 2 % order == 2
  {
  }

  lemma ScanAvoiding(order: nat, avoid: Multipliers)
    requires order % 2 == 1 && order >= 3
    ensures var r := Scan(order, avoid, 1, 1);
            r.ok && 1 <= r.m1 && 1 <= r.m2 && Admissible(order, avoid, r.m1, r.m2)
  {
    OneOfTwoIsAdmissible(order, avoid);
    if Admissible(order, avoid, 1, 2) {
      ScanFinds(order, avoid, 1, 1, 1, 2);
    } else {
      ScanFinds(order, avoid, 1, 1, 2, 1);
    }
  }

  /** At every odd order from 3 on the variant choice is accepted too, and names
      another pair of squares than the base choice. */
  lemma VariantChoiceIsValidAndDiffers(order: nat)
    requires order % 2 == 1 && order >= 3
    ensures var base, r := Choose(order, false), Choose(order, true);
            && r.ok && 1 <= r.m1 && 1 <= r.m2 && PairValid(order, r.m1, r.m2)
            && (r.m1 % order != base.m1 % order || r.m2 % order != base.m2 % order)
  {
    BaseChoiceIsValid(order);
    ScanAvoiding(order, Choose(order, false));
  }

  /** Exactly when molsMultipliers reports a usable pair. */
  lemma ChoiceSucceedsExactly(order: nat, variant: bool)
    requires order > 0
    ensures Choose(order, variant).ok <==> order % 2 == 1 && (variant ==> order != 1)
    ensures Choose(order, variant).ok ==> PairValid(order, Choose(order, variant).m1, Choose(order, variant).m2)
    ensures 1 <= Choose(order, variant).m1 && 1 <= Choose(order, variant).m2
  {
    if order % 2 == 1 {
      BaseChoiceIsValid(order);
      if order > 1 {
        VariantChoiceIsValidAndDiffers(order);
      }
    }
  }

  // ---------------------------------------------------------------- orthogonality

  /** The column a client in (row, col) projects onto in the square with multiplier m. */
  function Target(m: int, row: nat, col: nat, order: nat): nat
    requires order > 0
  {
    (m * row + col) % order
  }

  lemma MulMonotone(n: int, t: int)
    requires n > 0
    ensures t >= 1 ==> n * t >= n
    ensures t <= -1 ==> n * t <= -n
  {
    if t >= 1 {
      assert n * (t - 1) >= 0;
    } else if t <= -1 {
      assert n * (t + 1) <= 0;
    }
  }

  lemma ModUnique(a: int, n: int, q: int, r: int)
    requires n > 0 && 0 <= r < n && a == n * q + r
    ensures a % n == r
  {
    var q', r' := a / n, a % n;
    assert n * (q - q') == n * q - n * q' == r' - r;
    SmallMultipleIsZero(n, r' - r, q - q');
  }

  lemma ModDecompose(a: int, n: int) returns (q: int)
    requires n > 0
    ensures a == n * q + a % n
  {
    q := a / n;
  }

  lemma UnitExpansion(m: int, x: int, order: int, y: int, k: int)
    requires m * x + order * y == 1
    ensures k == (m * k) * x + order * (y * k)
  {
    assert k == (m * x + order * y) * k == (m * x) * k + (order * y) * k;
    assert (m * x) * k == (m * k) * x;
    assert (order * y) * k == order * (y * k);
  }

  /** A unit can be cancelled from a multiple of the order. */
  lemma CancelUnit(m: int, order: nat, k: int, q: int) returns (t: int)
    requires Gcd(Abs(m), order) == 1 && m * k == order * q
    ensures k == order * t
  {
    var x, y := UnitInverse(m, order);
    t := q * x + y * k;
    UnitExpansion(m, x, order, y, k);
    Factor(order, q, y * k, x, 1);
  }

  lemma SmallMultipleIsZero(n: int, k: int, t: int)
    requires n > 0 && k == n * t && -n < k < n
    ensures k == 0
  {
    MulMonotone(n, t);
  }

  lemma CrossDifference(m1: int, m2: int, r: int, r': int, c: int, c': int, n: int, p: int, p': int, s: int, s': int)
    requires m1 * r + c - n * p == m1 * r' + c' - n * p'
    requires m2 * r + c - n * s == m2 * r' + c' - n * s'
    ensures (m1 - m2) * (r - r') == n * ((p - p') - (s - s'))
  {
    assert (m1 - m2) * (r - r') == m1 * r - m1 * r' - m2 * r + m2 * r';
    assert n * ((p - p') - (s - s')) == n * p - n * p' - n * s + n * s';
  }

  lemma SameRowSameColumn(base: int, n: int, c: int, c': int, p: int, p': int)
    requires n > 0 && 0 <= c < n && 0 <= c' < n
    requires base + c - n * p == base + c' - n * p'
    ensures c == c'
  {
    assert n * (p - p') == n * p - n * p';
    SmallMultipleIsZero(n, c - c', p - p');
  }

  /** Two grid cells with the same pair of targets are the same cell. */
  lemma TargetsAreInjective(order: nat, m1: int, m2: int, row: nat, col: nat, row': nat, col': nat)
    requires PairValid(order, m1, m2)
    requires row < order && col < order && row' < order && col' < order
    requires Target(m1, row, col, order) == Target(m1, row', col', order)
    requires Target(m2, row, col, order) == Target(m2, row', col', order)
    ensures row == row' && col == col'
  {
    var p := ModDecompose(m1 * row + col, order);
    var p' := ModDecompose(m1 * row' + col', order);
    var s := ModDecompose(m2 * row + col, order);
    var s' := ModDecompose(m2 * row' + col', order);
    CrossDifference(m1, m2, row, row', col, col', order, p, p', s, s');
    var t := CancelUnit(m1 - m2, order, row - row', (p - p') - (s - s'));
    SmallMultipleIsZero(order, row - row', t);
    SameRowSameColumn(m1 * row, order, col, col', p, p');
  }

  lemma InverseRow(d: int, x: int, n: int, y: int, e: int, p: int)
    requires d * x + n * y == 1
    ensures d * (x * e - n * p) == e - n * (y * e + d * p)
  {
    assert d * (x * e - n * p) == d * (x * e) - d * (n * p);
    assert d * (x * e) == (d * x) * e == (1 - n * y) * e == e - (n * y) * e;
    assert (n * y) * e == n * (y * e) && d * (n * p) == n * (d * p);
    assert n * (y * e + d * p) == n * (y * e) + n * (d * p);
  }

  lemma FirstTarget(m1: int, row: int, order: nat, t1: nat) returns (col: nat, q: int)
    requires order > 0 && t1 < order
    ensures col < order && m1 * row + col == t1 - order * q && (m1 * row + col) % order == t1
  {
    col := (t1 - m1 * row) % order;
    q := ModDecompose(t1 - m1 * row, order);
    assert order * (-q) == -(order * q);
    ModUnique(m1 * row + col, order, -q, t1);
  }

  lemma SecondTarget(m1: int, m2: int, row: int, col: int, order: nat, t1: int, t2: nat, q: int, u: int)
    requires order > 0 && t2 < order && m1 * row + col == t1 - order * q && (m1 - m2) * row == t1 - t2 - order * u
    ensures (m2 * row + col) % order == t2
  {
    assert (m1 - m2) * row == m1 * row - m2 * row;
    assert order * (u - q) == order * u - order * q;
    ModUnique(m2 * row + col, order, u - q, t2);
  }

  /** Every pair of targets is reached from some grid cell. */
  lemma TargetsAreSurjective(order: nat, m1: int, m2: int, t1: nat, t2: nat) returns (row: nat, col: nat)
    requires order > 0 && PairValid(order, m1, m2) && t1 < order && t2 < order
    ensures row < order && col < order
    ensures Target(m1, row, col, order) == t1 && Target(m2, row, col, order) == t2
  {
    var d := m1 - m2;
    var x, y := UnitInverse(d, order);
    row := (x * (t1 - t2)) % order;
    var p := ModDecompose(x * (t1 - t2), order);
    InverseRow(d, x, order, y, t1 - t2, p);
    var q;
    col, q := FirstTarget(m1, row, order, t1);
    SecondTarget(m1, m2, row, col, order, t1, t2, q, y * (t1 - t2) + d * p);
  }

  // ---------------------------------------------------------------- the converse

  /** In every column of the square the rows have different targets. */
  ghost predicate Latin(order: nat, m: int)
    requires order > 0
  {
    forall row: nat, row': nat, col: nat | row < order && row' < order && col < order ::
      Target(m, row, col, order) == Target(m, row', col, order) ==> row == row'
  }

  /** Two cells with the same pair of targets. */
  predicate SameTargets(order: nat, m1: int, m2: int, row: nat, col: nat, row': nat, col': nat)
    requires order > 0
  {
    && Target(m1, row, col, order) == Target(m1, row', col', order)
    && Target(m2, row, col, order) == Target(m2, row', col', order)
  }

  /** Different cells have different pairs of targets. */
  ghost predicate Orthogonal(order: nat, m1: int, m2: int)
    requires order > 0
  {
    forall row: nat, col: nat, row': nat, col': nat | row < order && col < order && row' < order && col' < order ::
      SameTargets(order, m1, m2, row, col, row', col') ==> row == row' && col == col'
  }

  lemma RowDifference(m: int, r: int, r': int, c: int, n: int, p: int, p': int)
    requires m * r + c - n * p == m * r' + c - n * p'
    ensures m * (r - r') == n * (p - p')
  {
    assert m * (r - r') == m * r - m * r';
    assert n * (p - p') == n * p - n * p';
  }

  lemma UnitIsLatin(order: nat, m: int, row: nat, row': nat, col: nat)
    requires order > 0 && Gcd(Abs(m), order) == 1 && row < order && row' < order && col < order
    requires Target(m, row, col, order) == Target(m, row', col, order)
    ensures row == row'
  {
    var p := ModDecompose(m * row + col, order);
    var p' := ModDecompose(m * row' + col, order);
    RowDifference(m, row, row', col, order, p, p');
    var t := CancelUnit(m, order, row - row', p - p');
    SmallMultipleIsZero(order, row - row', t);
  }

  lemma CommonMultiple(m: int, n: int, g: int, q: int, r: int)
    requires m == g * q && n == g * r
    ensures m * r == n * q
  {
    assert (g * q) * r == g * (q * r) == (g * r) * q;
  }

  /** A multiplier that is not coprime to the order sends some later row back to
      the target of the first. */
  lemma NonUnitRepeats(order: nat, m: int) returns (row: nat, k: int)
    requires order > 0 && Gcd(Abs(m), order) != 1
    ensures 0 < row < order && m * row == order * k
  {
    var g: int := Gcd(Abs(m), order);
    GcdDivides(Abs(m), order);
    DividesAbs(g, m);
    assert Divides(g, m) && Divides(g, order);
    var q :| m == g * q;
    var r :| order == g * r;
    PositiveFactors(g, r);
    LargerProduct(g, r);
    row, k := r, q;
    CommonMultiple(m, order, g, q, r);
  }

  lemma PositiveFactors(g: int, r: int)
    requires g * r > 0 && g >= 0
    ensures g > 0 && r > 0
  {
  }

  lemma LargerProduct(g: int, r: int)
    requires g >= 2 && r > 0
    ensures g * r > r
  {
  }

  lemma NonUnitIsNotLatin(order: nat, m: int)
    requires order > 0 && Gcd(Abs(m), order) != 1
    ensures !Latin(order, m)
  {
    var row, k := NonUnitRepeats(order, m);
    ModUnique(m * row + 0, order, k, 0);
    ModUnique(m * 0 + 0, order, 0, 0);
    assert Target(m, row, 0, order) == Target(m, 0, 0, order);
  }

  lemma CommonDifferenceIsNotOrthogonal(order: nat, m1: int, m2: int)
    requires order > 0 && Gcd(Abs(m1 - m2), order) != 1
    ensures !Orthogonal(order, m1, m2)
  {
    var row, k := NonUnitRepeats(order, m1 - m2);
    var col, q := FirstTarget(m1, row, order, 0);
    SecondTarget(m1, m2, row, col, order, 0, 0, q, -k);
    ModUnique(m1 * 0 + 0, order, 0, 0);
    ModUnique(m2 * 0 + 0, order, 0, 0);
    assert SameTargets(order, m1, m2, row, col, 0, 0);
  }

  lemma AcceptedIsLatin(order: nat, m: int)
    requires order > 0 && Gcd(Abs(m), order) == 1
    ensures Latin(order, m)
  {
    forall row: nat, row': nat, col: nat | row < order && row' < order && col < order
      ensures Target(m, row, col, order) == Target(m, row', col, order) ==> row == row'
    {
      if Target(m, row, col, order) == Target(m, row', col, order) {
        UnitIsLatin(order, m, row, row', col);
      }
    }
  }

  lemma AcceptedIsOrthogonal(order: nat, m1: int, m2: int)
    requires order > 0 && PairValid(order, m1, m2)
    ensures Orthogonal(order, m1, m2)
  {
    forall row: nat, col: nat, row': nat, col': nat | row < order && col < order && row' < order && col' < order
      ensures SameTargets(order, m1, m2, row, col, row', col') ==> row == row' && col == col'
    {
      if SameTargets(order, m1, m2, row, col, row', col') {
        TargetsAreInjective(order, m1, m2, row, col, row', col');
      }
    }
  }

  /** The gcd test accepts exactly the pairs whose two squares are Latin and
      orthogonal to each other. */
  lemma AcceptedExactlyOrthogonal(order: nat, m1: int, m2: int)
    requires order > 0
    ensures PairValid(order, m1, m2) <==> Latin(order, m1) && Latin(order, m2) && Orthogonal(order, m1, m2)
  {
    if PairValid(order, m1, m2) {
      AcceptedIsLatin(order, m1);
      AcceptedIsLatin(order, m2);
      AcceptedIsOrthogonal(order, m1, m2);
    } else if Gcd(Abs(m1), order) != 1 {
      NonUnitIsNotLatin(order, m1);
    } else if Gcd(Abs(m2), order) != 1 {
      NonUnitIsNotLatin(order, m2);
    } else {
      CommonDifferenceIsNotOrthogonal(order, m1, m2);
    }
  }
}
