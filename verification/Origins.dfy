/** The origins approved motions dispatch with, the gates they pass, and the scheduler's order on them. */
module Origins {
  import opened Words
  import opened Motions

  datatype Origin = Root | Members(yes: U32, count: U32) | Member(who: Account) | OtherOrigin(id: nat)

  datatype Ordering = Less | Equal | Greater

  predicate EnsureProportionMoreThan(o: Origin, n: U32, d: U32) {
    o.Members? && SatMul(o.yes, d) > SatMul(n, o.count)
  }

  predicate EnsureProportionAtLeast(o: Origin, n: U32, d: U32) {
    o.Members? && SatMul(o.yes, d) >= SatMul(n, o.count)
  }

  predicate EnsureMajoritySenate(o: Origin) {
    EnsureProportionMoreThan(o, 1, 2)
  }

  function Compare(a: nat, b: nat): Ordering {
    if a < b then Less else if a == b then Equal else Greater
  }

  function CmpPrivilege(l: Origin, r: Origin): Option<Ordering> {
    if l == r then Some(Equal)
    else if l.Root? then Some(Greater)
    else if l.Members? && r.Members? then Some(Compare(SatMul(l.yes, r.count), SatMul(r.yes, l.count)))
    else None
  }

  /** An origin equals itself, root outranks every other origin, and besides only two voting origins compare: by their
      cross products, of which one at the limit counts as equal to any larger. The comparison reverses with its
      operands. */
  lemma PrivilegeComparesExactly(l: Origin, r: Origin)
    ensures l == r ==> CmpPrivilege(l, r) == Some(Equal)
    ensures l.Root? && !r.Root? ==> CmpPrivilege(l, r) == Some(Greater)
    ensures l != r && !l.Root? && !(l.Members? && r.Members?) ==> CmpPrivilege(l, r) == None
    ensures l.Members? && r.Members? ==>
              var p, q, cmp := l.yes * r.count, r.yes * l.count, CmpPrivilege(l, r);
              && (cmp == Some(Less) <==> p < q && p < U32_MAX)
              && (cmp == Some(Greater) <==> q < p && q < U32_MAX)
              && (cmp == Some(Equal) <==> p == q || (p >= U32_MAX && q >= U32_MAX))
              && (cmp == Some(Less) <==> CmpPrivilege(r, l) == Some(Greater))
  {
    if l.Members? && r.Members? { SaturatedOrder(l.yes, r.count, r.yes, l.count); }
  }

  lemma SaturatedOrder(a: U32, b: U32, c: U32, d: U32)
    ensures SatMul(a, b) < SatMul(c, d) <==> a * b < c * d && a * b < U32_MAX
    ensures SatMul(a, b) == SatMul(c, d) <==> a * b == c * d || (a * b >= U32_MAX && c * d >= U32_MAX)
  {
  }

  // ----- the gates, over every origin

  /** A gate admits voting origins only: the strict one those whose true product exceeds a bound that does not saturate,
      the other those whose product reaches the bound or saturates. */
  lemma GatesAdmitExactly(o: Origin, n: U32, d: U32)
    ensures EnsureProportionMoreThan(o, n, d)
       <==> o.Members? && o.yes * d > n * o.count && n * o.count < U32_MAX
    ensures EnsureProportionAtLeast(o, n, d)
       <==> o.Members? && (o.yes * d >= n * o.count || o.yes * d >= U32_MAX)
  {
    if o.Members? { SaturatedOrder(n, o.count, o.yes, d); }
  }

  // ----- the majority gate

  /** The Senate's gate admits exactly the voting origins with a strict majority of fewer than 2^32 - 1 seats. */
  lemma MajorityGateExact(o: Origin)
    ensures EnsureMajoritySenate(o) <==> o.Members? && 2 * o.yes > o.count && o.count < U32_MAX
  {
    GatesAdmitExactly(o, 1, 2);
  }

  /** A threshold guarantees the gate exactly when the seats are fewer than twice the threshold. */
  lemma ThresholdGuaranteesGate(threshold: U32, seats: U32)
    ensures (forall yes: U32 :: yes >= threshold ==> EnsureMajoritySenate(Members(yes, seats)))
       <==> seats < 2 * threshold && seats < U32_MAX
  {
    forall yes: U32 ensures EnsureMajoritySenate(Members(yes, seats)) <==> 2 * yes > seats && seats < U32_MAX {
      MajorityGateExact(Members(yes, seats));
    }
    if seats >= 2 * threshold || seats == U32_MAX {
      assert !EnsureMajoritySenate(Members(threshold, seats));
    }
  }

  // ----- fractions

  ghost function Fraction(n: nat, d: nat): real
    requires d > 0
  {
    n as real / d as real
  }

  ghost function CompareReal(a: real, b: real): Ordering {
    if a < b then Less else if a == b then Equal else Greater
  }

  /** Cross multiplication compares the fractions. */
  lemma CrossMultiply(a: nat, b: nat, c: nat, d: nat)
    requires b > 0 && d > 0
    ensures Compare(a * d, c * b) == CompareReal(Fraction(a, b), Fraction(c, d))
  {
    var x, y, bd := Fraction(a, b), Fraction(c, d), b as real * d as real;
    assert (a * d) as real == x * bd by { assert x * b as real == a as real; }
    assert (c * b) as real == y * bd by { assert y * d as real == c as real; }
    assert bd > 0.0;
    if x < y { assert x * bd < y * bd; }
    if x > y { assert x * bd > y * bd; }
  }

  /** Saturation keeps the order of two products: they are equal, or one of them stays below the limit. */
  predicate OrderSurvives(p: nat, q: nat) {
    p == q || p < U32_MAX || q < U32_MAX
  }

  lemma SaturatedComparison(a: U32, b: U32, c: U32, d: U32)
    ensures Compare(SatMul(a, b), SatMul(c, d)) == Compare(a * b, c * d) <==> OrderSurvives(a * b, c * d)
  {
  }

  predicate Comparable(l: Origin, r: Origin) {
    && l.Members? && r.Members? && l.count > 0 && r.count > 0
    && OrderSurvives(l.yes * r.count, r.yes * l.count)
  }

  /** `cmp_privilege` on voting origins compares their fractions of ayes exactly when saturation keeps the order. */
  lemma PrivilegeIsFraction(l: Origin, r: Origin)
    requires l.Members? && r.Members? && l.count > 0 && r.count > 0
    ensures CmpPrivilege(l, r) == Some(CompareReal(Fraction(l.yes, l.count), Fraction(r.yes, r.count)))
       <==> Comparable(l, r)
  {
    CrossMultiply(l.yes, l.count, r.yes, r.count);
    SaturatedComparison(l.yes, r.count, r.yes, l.count);
  }

  predicate AtMost(l: Origin, r: Origin) {
    CmpPrivilege(l, r) == Some(Less) || CmpPrivilege(l, r) == Some(Equal)
  }

  /** So it is a total preorder where saturation keeps the order. */
  lemma PrivilegeIsTotalPreorder(a: Origin, b: Origin, c: Origin)
    requires Comparable(a, b) && Comparable(b, c) && Comparable(a, c)
    ensures AtMost(a, a)
    ensures AtMost(a, b) || AtMost(b, a)
    ensures AtMost(a, b) && AtMost(b, c) ==> AtMost(a, c)
  {
    PrivilegeIsFraction(a, b);
    PrivilegeIsFraction(b, a);
    PrivilegeIsFraction(b, c);
    PrivilegeIsFraction(a, c);
  }

  /** Three tallies, far beyond any Senate, that saturation makes intransitive. */
  lemma SaturationBreaksPrivilege() returns (a: Origin, b: Origin, c: Origin)
    ensures a.Members? && b.Members? && c.Members? && a.yes <= a.count && b.yes <= b.count && c.yes <= c.count
    ensures AtMost(a, b) && AtMost(b, c) && !AtMost(a, c)
  {
    a, b, c := Members(2, 2), Members(0xFFFF_FFFE, 0xFFFF_FFFF), Members(1, 2);
    assert SatMul(a.yes, b.count) == SatMul(b.yes, a.count) == U32_MAX;
    assert SatMul(b.yes, c.count) == U32_MAX == SatMul(c.yes, b.count);
  }

  /** A tally over at most `n` seats. */
  predicate TallyWithin(o: Origin, n: nat) {
    o.Members? && 0 < o.count <= n && o.yes <= o.count
  }

  ghost predicate ComparesFractions(l: Origin, r: Origin)
    requires l.Members? && r.Members? && l.count > 0 && r.count > 0
  {
    CmpPrivilege(l, r) == Some(CompareReal(Fraction(l.yes, l.count), Fraction(r.yes, r.count)))
  }

  lemma MulMonotone(a: nat, c: nat, b: nat)
    requires a <= c
    ensures a * b <= c * b && b * a <= c * b
  {
    assert c * b - a * b == (c - a) * b;
  }

  lemma SmallProduct(a: nat, b: nat)
    requires a <= 65536 && b <= 65536
    ensures a * b < U32_MAX || a * b == 65536 * 65536
  {
    if a < 65536 { MulMonotone(a, 65535, b); }
    if b < 65536 { MulMonotone(b, 65535, a); }
  }

  /** `cmp_privilege` compares the fractions of all tallies over at most `n` seats exactly when `n` is at most 2^16. */
  lemma PrivilegeIsFractionUpTo(n: nat)
    ensures (forall l, r :: TallyWithin(l, n) && TallyWithin(r, n) ==> ComparesFractions(l, r)) <==> n <= 65536
  {
    if n <= 65536 {
      forall l, r | TallyWithin(l, n) && TallyWithin(r, n) ensures ComparesFractions(l, r) {
        SmallProduct(l.yes, r.count);
        SmallProduct(r.yes, l.count);
        PrivilegeIsFraction(l, r);
      }
    } else {
      var l, r := Members(65537, 65537), Members(65536, 65537);
      assert TallyWithin(l, n) && TallyWithin(r, n);
      assert !OrderSurvives(l.yes * r.count, r.yes * l.count);
      PrivilegeIsFraction(l, r);
    }
  }

  /** The strict gate compares the fraction of ayes with n/d, except when both products saturate over a true excess. */
  lemma StrictGateIsFraction(o: Origin, n: U32, d: U32)
    requires o.Members? && o.count > 0 && d > 0
    ensures (EnsureProportionMoreThan(o, n, d) <==> Fraction(o.yes, o.count) > Fraction(n, d))
       <==> !(o.yes * d > n * o.count >= U32_MAX)
  {
    CrossMultiply(o.yes, o.count, n, d);
  }

  /** The other gate does too, except when both products saturate over a true shortfall. */
  lemma WeakGateIsFraction(o: Origin, n: U32, d: U32)
    requires o.Members? && o.count > 0 && d > 0
    ensures (EnsureProportionAtLeast(o, n, d) <==> Fraction(o.yes, o.count) >= Fraction(n, d))
       <==> !(n * o.count > o.yes * d >= U32_MAX)
  {
    CrossMultiply(o.yes, o.count, n, d);
  }

  /** An origin of at least the privilege of one that the strict gate admits is admitted
      exactly when its own bound does not saturate. */
  lemma StrictGateIsMonotone(l: Origin, r: Origin, n: U32, d: U32)
    requires Comparable(l, r) && AtMost(l, r) && d > 0 && EnsureProportionMoreThan(l, n, d)
    ensures EnsureProportionMoreThan(r, n, d) <==> n * r.count < U32_MAX
  {
    PrivilegeIsFraction(l, r);
    StrictGateIsFraction(l, n, d);
    CrossMultiply(r.yes, r.count, n, d);
  }

  /** An origin of at least the privilege of one whose fraction meets the other gate is admitted, saturated or not. */
  lemma WeakGateIsMonotone(l: Origin, r: Origin, n: U32, d: U32)
    requires Comparable(l, r) && AtMost(l, r) && d > 0
    requires EnsureProportionAtLeast(l, n, d) && !(n * l.count > l.yes * d >= U32_MAX)
    ensures EnsureProportionAtLeast(r, n, d)
  {
    PrivilegeIsFraction(l, r);
    WeakGateIsFraction(l, n, d);
    CrossMultiply(r.yes, r.count, n, d);
  }
}
