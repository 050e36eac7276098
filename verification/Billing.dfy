/**
 Billing of invitations: the 31-day proration of UtilService, the order and payment rows of
 OrdersService and PaymentsService, and the refund of ProfilesService.remove.

 Instants are milliseconds and prices are exact integers.
 */
module Billing {

  const DAYS_OF_MONTH := 31
  const A_DAY := 1000 * 60 * 60 * 24
  const TEAM_CREATION_DAY_IS_SERVICE := 1

  /** The remainder of JavaScript, which takes the sign of the dividend. */
  function Remainder(n: int, divisor: nat): int
    requires divisor > 0
  {
    if n >= 0 then n % divisor else -((-n) % divisor)
  }

  /** Math.floor of a quotient. */
  function SinceDays(now: int, paymentPeriod: int): int {
    (now - paymentPeriod) / A_DAY
  }

  function ProrationDate(now: int, paymentPeriod: int): int {
    DAYS_OF_MONTH - Remainder(SinceDays(now, paymentPeriod), DAYS_OF_MONTH) - TEAM_CREATION_DAY_IS_SERVICE
  }

  /** Math.ceil of a quotient. */
  function CeilDiv(n: int, divisor: nat): int
    requires divisor > 0
  {
    -((-n) / divisor)
  }

  /** Math.ceil(amount / 31 * days / 10) * 10. */
  function Prorated(amount: int, days: int): int {
    CeilDiv(amount * days, DAYS_OF_MONTH * 10) * 10
  }

  function Proration(amount: int, now: int, paymentPeriod: int): int {
    Prorated(amount, ProrationDate(now, paymentPeriod))
  }

  // ---------------------------------------------------------------- days and proration

  /** The days left are 0 to 30, unless the period starts in the future by other than whole months. */
  lemma ProrationDateRange(now: int, paymentPeriod: int)
    ensures 0 <= ProrationDate(now, paymentPeriod) <= 30 <==>
            paymentPeriod <= now || SinceDays(now, paymentPeriod) % DAYS_OF_MONTH == 0
  {
    var since := SinceDays(now, paymentPeriod);
    FloorSign(now - paymentPeriod, A_DAY);
    NegativeRemainder(since);
  }

  lemma FloorSign(n: int, divisor: nat)
    requires divisor > 0
    ensures n / divisor >= 0 <==> n >= 0
  {
  }

  lemma NegativeRemainder(n: int)
    ensures (-n) % DAYS_OF_MONTH == 0 <==> n % DAYS_OF_MONTH == 0
  {
  }

  /** Of a month of 31 days, in milliseconds, the days left count down from 30 on the first day to 0 on the last. */
  lemma DaysLeft(now: int, paymentPeriod: int)
    requires 0 <= now - paymentPeriod < 31 * 86_400_000
    ensures var left := ProrationDate(now, paymentPeriod);
            86_400_000 * (30 - left) <= now - paymentPeriod < 86_400_000 * (31 - left)
  {
    var since := SinceDays(now, paymentPeriod);
    assert 86_400_000 * since <= now - paymentPeriod < 86_400_000 * (since + 1);
    assert 0 <= since <= 30;
  }

  /** A month later, once the period has started, as many days are left. */
  lemma DaysLeftRepeat(now: int, paymentPeriod: int)
    requires paymentPeriod <= now
    ensures ProrationDate(now + 31 * 86_400_000, paymentPeriod) == ProrationDate(now, paymentPeriod)
  {
    var since := SinceDays(now, paymentPeriod);
    assert SinceDays(now + 31 * 86_400_000, paymentPeriod) == since + 31;
    assert (since + 31) % 31 == since % 31;
  }

  /** On the first day an amount is prorated over 30 days of 31, rounded up to tens. */
  lemma FirstDay(amount: nat, now: int, paymentPeriod: int)
    requires 0 <= now - paymentPeriod < 86_400_000
    ensures var p := Proration(amount, now, paymentPeriod);
            p % 10 == 0 && 30 * amount <= 31 * p < 30 * amount + 310
  {
    DaysLeft(now, paymentPeriod);
    assert ProrationDate(now, paymentPeriod) == 30;
    ProratedBounds(amount, 30);
  }

  /** On the last day nothing is left to charge or to refund. */
  lemma LastDay(amount: nat, now: int, paymentPeriod: int)
    requires 30 * 86_400_000 <= now - paymentPeriod < 31 * 86_400_000
    ensures Proration(amount, now, paymentPeriod) == 0
  {
    DaysLeft(now, paymentPeriod);
    assert ProrationDate(now, paymentPeriod) == 0;
  }

  /** Within a month waiting never makes an amount dearer. */
  lemma LaterIsNoDearer(amount: nat, earlier: int, later: int, paymentPeriod: int)
    requires 0 <= earlier - paymentPeriod && earlier <= later && later - paymentPeriod < 31 * 86_400_000
    ensures Proration(amount, later, paymentPeriod) <= Proration(amount, earlier, paymentPeriod)
  {
    DaysLeft(earlier, paymentPeriod);
    DaysLeft(later, paymentPeriod);
    var few, many := ProrationDate(later, paymentPeriod), ProrationDate(earlier, paymentPeriod);
    MoreDaysMore(amount, few, many);
    CeilDivMonotone(amount * few, amount * many, 310);
  }

  lemma MoreDaysMore(amount: nat, few: int, many: int)
    requires few <= many
    ensures amount * few <= amount * many
  {
  }

  lemma CeilDivMonotone(m: int, n: int, divisor: nat)
    requires divisor > 0 && m <= n
    ensures CeilDiv(m, divisor) <= CeilDiv(n, divisor)
  {
    CeilDivBounds(m, divisor);
    CeilDivBounds(n, divisor);
    CeilDivLess(divisor, CeilDiv(m, divisor), CeilDiv(n, divisor), m, n);
  }

  lemma CeilDivLess(divisor: nat, a: int, b: int, m: int, n: int)
    requires divisor > 0 && m <= n && divisor * a < m + divisor && n <= divisor * b
    ensures a <= b
  {
    assert divisor * a < divisor * (b + 1);
    if a > b {
      MoreDaysMore(divisor, b + 1, a);
    }
  }

  lemma ProratedBounds(amount: int, days: int)
    ensures Prorated(amount, days) % 10 == 0
    ensures amount * days <= DAYS_OF_MONTH * Prorated(amount, days) < amount * days + DAYS_OF_MONTH * 10
  {
    CeilDivBounds(amount * days, DAYS_OF_MONTH * 10);
  }

  lemma CeilDivBounds(n: int, divisor: nat)
    requires divisor > 0
    ensures n <= divisor * CeilDiv(n, divisor) < n + divisor
  {
  }

  lemma ProratedMonotone(amount: int, days: int)
    requires 0 <= amount && 0 <= days <= 30
    ensures 0 <= Prorated(amount, days) <= Prorated(amount, 30)
  {
    assert 0 <= amount * days <= amount * 30;
  }

  // ---------------------------------------------------------------- unit price and refund

  /** A unit's price for which no day of the month refunds more than the price. */
  predicate RefundFitsPrice(unitPrice: int) {
    3 * (unitPrice % 10) <= unitPrice / 10
  }

  /** The largest refund is that of 30 days left. */
  lemma LargestRefund(unitPrice: int)
    requires 0 <= unitPrice
    ensures Prorated(unitPrice, 30) <= unitPrice <==> RefundFitsPrice(unitPrice)
  {
    var tens, ones := unitPrice / 10, unitPrice % 10;
    assert unitPrice == 10 * tens + ones;
    ProratedBounds(unitPrice, 30);
    // The refund is ten times the least k with 310 k >= 30 (10 tens + ones).
    var k := CeilDiv(unitPrice * 30, 310);
    assert 300 * tens + 30 * ones <= 310 * k < 300 * tens + 30 * ones + 310;
    assert k <= tens <==> 3 * ones <= tens;
  }

  /** Prices of 310 or more, and whole tens, are safe. */
  lemma UsualPricesFit(unitPrice: int)
    requires 310 <= unitPrice || (0 <= unitPrice && unitPrice % 10 == 0)
    ensures RefundFitsPrice(unitPrice)
  {
  }

  // ---------------------------------------------------------------- the payments of an order

  function UnitPrice(amount: int, unit: nat): int
    requires unit > 0
  {
    amount / unit
  }

  function Sum(payments: seq<int>): int {
    if payments == [] then 0 else Sum(payments[..|payments| - 1]) + payments[|payments| - 1]
  }

  /** One refund of the unit price per removal, given the days left at each. */
  function Refunds(unitPrice: int, days: seq<int>): seq<int> {
    if days == [] then []
    else Refunds(unitPrice, days[..|days| - 1]) + [-Prorated(unitPrice, days[|days| - 1])]
  }

  /** The payment rows of an order after these removals. */
  function Payments(amount: int, unit: nat, days: seq<int>): seq<int>
    requires unit > 0
  {
    [amount] + Refunds(UnitPrice(amount, unit), days)
  }

  /** An order row, with the profiles it lists and the days left at each refund made on it. */
  datatype OrderRow = OrderRow(unit: nat, amount: int, profileIds: set<int>, refunds: seq<int>)

  /** An order with its payment rows. */
  class Order {
    var row: OrderRow
    var payments: seq<int>

    ghost predicate Valid()
      reads this
    {
      row.unit > 0 && payments == Payments(row.amount, row.unit, row.refunds)
    }

    /** OrdersService._create with the proration as its amount, then PaymentsService._create. */
    constructor (price: nat, unit: nat, profileIds: set<int>, now: int, paymentPeriod: int)
      requires unit > 0
      ensures Valid() && row == OrderRow(unit, Proration(price * unit, now, paymentPeriod), profileIds, [])
      ensures payments == [row.amount]
    {
      var proration := Proration(price * unit, now, paymentPeriod);
      this.row := OrderRow(unit, proration, profileIds, []);
      this.payments := [proration];
    }

    /** The refund of a removed profile: a negative row of the prorated unit price. */
    method Refund(now: int, paymentPeriod: int)
      requires Valid()
      modifies this
      ensures Valid() && row == old(row).(refunds := old(row).refunds + [ProrationDate(now, paymentPeriod)])
      ensures payments == old(payments) + [-Proration(row.amount / row.unit, now, paymentPeriod)]
    {
      var unitPrice := row.amount / row.unit;
      var proration := Proration(unitPrice, now, paymentPeriod);
      payments := payments + [proration * -1];
      row := row.(refunds := row.refunds + [ProrationDate(now, paymentPeriod)]);
      assert row.refunds[..|row.refunds| - 1] == old(row).refunds;
    }
  }

  /** Each refund takes the prorated unit price off what the order's payments sum to, by the days that were left. */
  lemma RefundSubtracts(row: OrderRow, days: int)
    requires row.unit > 0
    ensures var refunded := row.(refunds := row.refunds + [days]);
            Sum(Payments(row.amount, row.unit, refunded.refunds)) ==
            Sum(Payments(row.amount, row.unit, row.refunds)) - Prorated(row.amount / row.unit, days)
  {
    SumOfPayments(row.amount, row.unit, row.refunds);
    SumOfPayments(row.amount, row.unit, row.refunds + [days]);
    var unitPrice := UnitPrice(row.amount, row.unit);
    assert (row.refunds + [days])[..|row.refunds|] == row.refunds;
    SumConcat(Refunds(unitPrice, row.refunds), [-Prorated(unitPrice, days)]);
    assert Sum([-Prorated(unitPrice, days)]) == -Prorated(unitPrice, days);
  }

  /** The elements of a list of payments all count. */
  lemma SumOfOne(payment: int)
    ensures Sum([]) == 0 && Sum([payment]) == payment
  {
    assert [payment][..0] == [];
  }

  ghost predicate InMonth(days: seq<int>) {
    forall i | 0 <= i < |days| :: 0 <= days[i] <= 30
  }

  lemma {:induction false} SumConcat(a: seq<int>, b: seq<int>)
    ensures Sum(a + b) == Sum(a) + Sum(b)
    decreases |b|
  {
    if b == [] {
      assert a + b == a;
    } else {
      SumConcat(a, b[..|b| - 1]);
      assert (a + b)[..|a + b| - 1] == a + b[..|b| - 1];
    }
  }

  lemma SumOfPayments(amount: int, unit: nat, days: seq<int>)
    requires unit > 0
    ensures Sum(Payments(amount, unit, days)) == amount + Sum(Refunds(UnitPrice(amount, unit), days))
  {
    SumConcat([amount], Refunds(UnitPrice(amount, unit), days));
    assert Sum([amount]) == amount;
  }

  lemma OneMore(n: nat, x: int)
    requires n > 0
    ensures n * x == (n - 1) * x + x
  {
  }

  /** What n refunds can cost. */
  lemma {:induction false} RefundsBound(unitPrice: nat, days: seq<int>)
    requires InMonth(days)
    ensures -(|days| * Prorated(unitPrice, 30)) <= Sum(Refunds(unitPrice, days)) <= 0
    decreases |days|
  {
    if days != [] {
      var front := days[..|days| - 1];
      RefundsBound(unitPrice, front);
      ProratedMonotone(unitPrice, days[|days| - 1]);
      OneMore(|days|, Prorated(unitPrice, 30));
    }
  }

  lemma {:induction false} FullRefunds(unitPrice: nat, n: nat)
    ensures Sum(Refunds(unitPrice, seq(n, _ => 30))) == -(n * Prorated(unitPrice, 30))
  {
    if n > 0 {
      FullRefunds(unitPrice, n - 1);
      var days := seq(n, _ => 30);
      assert days[..n - 1] == seq(n - 1, _ => 30) && days[n - 1] == 30;
      var refunds := Refunds(unitPrice, days);
      assert refunds[..|refunds| - 1] == Refunds(unitPrice, days[..n - 1]);
      OneMore(n, Prorated(unitPrice, 30));
    }
  }

  /** No history of up to unit removals takes the order's payments below zero. */
  ghost predicate NeverOverRefunded(amount: nat, unit: nat)
    requires unit > 0
  {
    forall days: seq<int> | |days| <= unit && InMonth(days) :: Sum(Payments(amount, unit, days)) >= 0
  }

  lemma UnitsFitAmount(amount: nat, unit: nat)
    requires unit > 0
    ensures unit * UnitPrice(amount, unit) <= amount < unit * (UnitPrice(amount, unit) + 1)
  {
  }

  lemma ProductsOrdered(a: nat, b: nat, x: nat, y: nat)
    requires a <= b && x <= y
    ensures a * x <= b * y
  {
  }

  /** An order's payments stay non-negative in every history exactly when the refund fits the unit price. */
  lemma NeverOverRefundedIff(amount: nat, unit: nat)
    requires unit > 0
    ensures NeverOverRefunded(amount, unit) <==> RefundFitsPrice(UnitPrice(amount, unit))
  {
    var price := UnitPrice(amount, unit);
    var largest := Prorated(price, 30);
    LargestRefund(price);
    UnitsFitAmount(amount, unit);
    ProratedMonotone(price, 30);
    if RefundFitsPrice(price) {
      forall days: seq<int> | |days| <= unit && InMonth(days)
        ensures Sum(Payments(amount, unit, days)) >= 0
      {
        SumOfPayments(amount, unit, days);
        RefundsBound(price, days);
        ProductsOrdered(|days|, unit, largest, price);
      }
    } else {
      var days := seq(unit, _ => 30);
      SumOfPayments(amount, unit, days);
      FullRefunds(price, unit);
      ProductsOrdered(unit, unit, price + 1, largest);
      assert Sum(Payments(amount, unit, days)) < 0;
    }
  }

  /** Whatever the price, the refunds stay below 30/31 of the amount plus ten for every unit. */
  lemma RefundsBelow(amount: nat, unit: nat, days: seq<int>)
    requires unit > 0 && |days| <= unit && InMonth(days)
    ensures DAYS_OF_MONTH * -Sum(Refunds(UnitPrice(amount, unit), days)) < 30 * amount + DAYS_OF_MONTH * 10 * unit
  {
    var price := UnitPrice(amount, unit);
    var largest := Prorated(price, 30);
    UnitsFitAmount(amount, unit);
    ProratedMonotone(price, 30);
    RefundsBound(price, days);
    ProratedBounds(price, 30);
    ProductsOrdered(|days|, unit, largest, largest);
    RefundShare(unit, largest, price);
  }

  lemma RefundShare(unit: nat, refund: nat, price: nat)
    requires DAYS_OF_MONTH * refund < 30 * price + DAYS_OF_MONTH * 10
    ensures DAYS_OF_MONTH * (unit * refund) <= 30 * (unit * price) + (DAYS_OF_MONTH * 10 - 1) * unit
  {
    ProductsOrdered(unit, unit, DAYS_OF_MONTH * refund, 30 * price + DAYS_OF_MONTH * 10 - 1);
    assert unit * (DAYS_OF_MONTH * refund) == DAYS_OF_MONTH * (unit * refund);
    assert unit * (30 * price + DAYS_OF_MONTH * 10 - 1) == 30 * (unit * price) + (DAYS_OF_MONTH * 10 - 1) * unit;
  }
}
