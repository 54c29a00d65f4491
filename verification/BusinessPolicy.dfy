/**
 The rental policy's arithmetic (backend/src/common/business-policy.ts).

 Money is exact (`real`), instants are milliseconds (`int`). The ratios are the
 source's decimal literals as exact fractions.
 */
module BusinessPolicy {
  import opened BusinessDays

  const DEPOSIT_RATIO := 0.5
  const LATE_FEE_DAILY_RATIO := 0.2
  const HOURLY_PRICING_MAX_HOURS := 24
  const LOST_DEVICE_MAX_CLAIM_RATIO := 1.5
  const REPLACEMENT_VALUE_TOLERANCE := 0.2
  const REFUND_ROUNDING_VND := 1000
  const HANDOVER_MIN_PHOTOS := 3
  const RETURN_DAMAGE_MIN_PHOTOS := 1
  const LOST_SUSPECT_OVERDUE_DAYS := 7

  function Min(a: real, b: real): real { if a <= b then a else b }

  function Max(a: real, b: real): real { if a >= b then a else b }

  /** How many units of length `unit` it takes to cover `duration`. */
  function CeilDiv(duration: int, unit: int): (n: int)
    requires unit > 0
    ensures (n - 1) * unit < duration <= n * unit
  {
    -((-duration) / unit)
  }

  // ------------------------------------------------------------------ deposit

  function Deposit(originalPrice: real): real {
    originalPrice * DEPOSIT_RATIO
  }

  datatype RefundTier = RefundTier(minHoursBeforeStart: real, percentage: real)

  const REFUND_TIERS := [RefundTier(24.0, 100.0), RefundTier(6.0, 50.0)]

  /** The share of the deposit that is paid back: everything up to a day before, half up to six hours. */
  function RefundShare(hoursUntilStart: real, storeFault: bool): real {
    if storeFault || hoursUntilStart >= 24.0 then 100.0
    else if hoursUntilStart >= 6.0 then 50.0
    else 0.0
  }

  /** The search through the tiers. */
  method CalculateRefundPercentage(hoursUntilStart: real, storeFault: bool) returns (percentage: real)
    ensures percentage == RefundShare(hoursUntilStart, storeFault)
  {
    if storeFault {
      return 100.0;
    }
    for i := 0 to |REFUND_TIERS|
      invariant forall k | 0 <= k < i :: hoursUntilStart < REFUND_TIERS[k].minHoursBeforeStart
    {
      if hoursUntilStart >= REFUND_TIERS[i].minHoursBeforeStart {
        assert i == 0 || hoursUntilStart < REFUND_TIERS[0].minHoursBeforeStart;
        return REFUND_TIERS[i].percentage;
      }
    }
    assert hoursUntilStart < REFUND_TIERS[0].minHoursBeforeStart && hoursUntilStart < REFUND_TIERS[1].minHoursBeforeStart;
    return 0.0;
  }

  /** In milliseconds: at least 24 hours before the start everything, from 6 hours half, below that nothing. */
  lemma RefundShareByTime(milliseconds: int, storeFault: bool)
    ensures RefundShare(milliseconds as real / HOUR_MS as real, storeFault)
         == if storeFault || milliseconds >= 86_400_000 then 100.0 else if milliseconds >= 21_600_000 then 50.0 else 0.0
  {
    var hours, unit := milliseconds as real / HOUR_MS as real, 3_600_000.0;
    assert hours * unit == milliseconds as real;
    assert hours >= 24.0 <==> milliseconds as real >= 24.0 * unit;
    assert hours >= 6.0 <==> milliseconds as real >= 6.0 * unit;
  }

  // ----------------------------------------------------------------- late fee

  /** 20% of the daily price for the first day, 40% more for the second, and so on: triangular numbers. */
  function Escalated(daysLate: nat, pricePerDay: real): real {
    LATE_FEE_DAILY_RATIO * pricePerDay * (daysLate as real * (daysLate as real + 1.0) / 2.0)
  }

  function LateFeeForDays(daysLate: nat, pricePerDay: real, originalPrice: real): real {
    Min(Escalated(daysLate, pricePerDay), originalPrice)
  }

  lemma EscalatedStep(day: nat, pricePerDay: real)
    requires day > 0
    ensures Escalated(day, pricePerDay)
         == Escalated(day - 1, pricePerDay) + pricePerDay * LATE_FEE_DAILY_RATIO * day as real
  {
    var d := day as real;
    assert (day - 1) as real == d - 1.0;
    assert d * (d + 1.0) / 2.0 == (d - 1.0) * (d - 1.0 + 1.0) / 2.0 + d;
  }

  /** The loop of `calculateLateFeeForDays`; it equals the closed form. */
  method CalculateLateFeeForDays(daysLate: int, pricePerDay: real, originalPrice: real) returns (fee: real)
    ensures fee == LateFeeForDays(if daysLate > 0 then daysLate else 0, pricePerDay, originalPrice)
  {
    var total, day := 0.0, 1;
    while day <= daysLate
      invariant 1 <= day && (daysLate > 0 ==> day <= daysLate + 1) && (daysLate <= 0 ==> day == 1)
      invariant total == Escalated(day - 1, pricePerDay)
    {
      EscalatedStep(day, pricePerDay);
      total := total + pricePerDay * LATE_FEE_DAILY_RATIO * day as real;
      day := day + 1;
    }
    fee := Min(total, originalPrice);
  }

  function LateFee(returnedAt: int, expectedEndTime: int, pricePerDay: real, originalPrice: real): real {
    var lateMs := returnedAt - expectedEndTime;
    if lateMs <= 0 then 0.0 else LateFeeForDays(CeilDiv(lateMs, DAY_MS), pricePerDay, originalPrice)
  }

  method CalculateLateFee(returnedAt: int, expectedEndTime: int, pricePerDay: real, originalPrice: real)
    returns (fee: real)
    ensures fee == LateFee(returnedAt, expectedEndTime, pricePerDay, originalPrice)
  {
    var lateMs := returnedAt - expectedEndTime;
    if lateMs <= 0 {
      return 0.0;
    }
    var days := CeilDiv(lateMs, DAY_MS);
    assert days > 0;
    fee := CalculateLateFeeForDays(days, pricePerDay, originalPrice);
  }

  lemma {:induction false} EscalatedGrows(m: nat, n: nat, pricePerDay: real)
    requires pricePerDay >= 0.0 && m <= n
    ensures 0.0 <= Escalated(m, pricePerDay) <= Escalated(n, pricePerDay)
    decreases n
  {
    if n > m {
      EscalatedGrows(m, n - 1, pricePerDay);
      EscalatedStep(n, pricePerDay);
      Product(pricePerDay * LATE_FEE_DAILY_RATIO, n as real);
    } else if n > 0 {
      EscalatedGrows(m - 1, n - 1, pricePerDay);
      EscalatedStep(n, pricePerDay);
      Product(pricePerDay * LATE_FEE_DAILY_RATIO, n as real);
    }
  }

  lemma Product(a: real, b: real)
    requires a >= 0.0 && b >= 0.0
    ensures a * b >= 0.0
  {
  }

  /** The fee never exceeds the device's value, is never negative, and never falls with time. */
  lemma LateFeeBounds(returnedAt: int, later: int, end: int, pricePerDay: real, originalPrice: real)
    requires pricePerDay >= 0.0 && originalPrice >= 0.0 && returnedAt <= later
    ensures 0.0 <= LateFee(returnedAt, end, pricePerDay, originalPrice)
                <= LateFee(later, end, pricePerDay, originalPrice) <= originalPrice
  {
    if later > end {
      var n := CeilDiv(later - end, DAY_MS);
      assert n > 0;
      if returnedAt > end {
        var m := CeilDiv(returnedAt - end, DAY_MS);
        assert 0 < m <= n;
        EscalatedGrows(m, n, pricePerDay);
      } else {
        EscalatedGrows(0, n, pricePerDay);
      }
    }
  }

  /**
   A device that is back by the end costs nothing; on the n-th day after it, a fifth
   of the daily price for the first day, two for the second and so on, up to the value.
   */
  ghost predicate IsLateFee(fee: real, returnedAt: int, end: int, pricePerDay: real, value: real) {
    && (returnedAt <= end ==> fee == 0.0)
    && forall n: nat {:trigger n * 86_400_000} | 0 < n && (n - 1) * 86_400_000 < returnedAt - end <= n * 86_400_000 ::
         var sum := pricePerDay * (n * (n + 1)) as real / 10.0;
         fee == if sum <= value then sum else value
  }

  lemma LateFeeIsLateFee(returnedAt: int, end: int, pricePerDay: real, value: real)
    ensures IsLateFee(LateFee(returnedAt, end, pricePerDay, value), returnedAt, end, pricePerDay, value)
  {
    forall n: nat | 0 < n && (n - 1) * 86_400_000 < returnedAt - end <= n * 86_400_000
      ensures LateFee(returnedAt, end, pricePerDay, value) == LateFeeForDays(n, pricePerDay, value)
      ensures Escalated(n, pricePerDay) == pricePerDay * (n * (n + 1)) as real / 10.0
    {
      assert CeilDiv(returnedAt - end, DAY_MS) == n;
      Triangular(n, pricePerDay);
    }
    hide LateFee, Escalated;
  }

  lemma Triangular(n: nat, pricePerDay: real)
    ensures Escalated(n, pricePerDay) == pricePerDay * (n * (n + 1)) as real / 10.0
  {
    var x := n as real;
    assert (n * (n + 1)) as real == x * (x + 1.0);
    var y := x * (x + 1.0);
    assert Escalated(n, pricePerDay) == 0.2 * pricePerDay * (y / 2.0);
  }

  /** Some day is the day of the return, so the fee is determined. */
  lemma LateFeeIsDetermined(fee: real, other: real, returnedAt: int, end: int, pricePerDay: real, value: real)
    requires IsLateFee(fee, returnedAt, end, pricePerDay, value)
    requires IsLateFee(other, returnedAt, end, pricePerDay, value)
    ensures fee == other
  {
    if returnedAt > end {
      var n: nat := CeilDiv(returnedAt - end, DAY_MS);
      assert (n - 1) * 86_400_000 < returnedAt - end <= n * 86_400_000;
    }
  }

  // -------------------------------------------------------------- rental price

  datatype PriceUnit = Hour | Day

  datatype RentalPricing =
    RentalPricing(priceUnit: PriceUnit, quantity: int, unitPrice: real, total: real, totalHours: int)

  function DescribeRentalPricing(pricePerHour: real, pricePerDay: real, start: int, end: int): RentalPricing {
    var duration := end - start;
    var hours := CeilDiv(duration, HOUR_MS);
    if duration <= HOURLY_PRICING_MAX_HOURS * HOUR_MS then
      RentalPricing(Hour, hours, pricePerHour, pricePerHour * hours as real, hours)
    else
      var days := CeilDiv(duration, DAY_MS);
      RentalPricing(Day, days, pricePerDay, pricePerDay * days as real, hours)
  }

  function RentalPrice(pricePerHour: real, pricePerDay: real, start: int, end: int): real {
    DescribeRentalPricing(pricePerHour, pricePerDay, start, end).total
  }

  /**
   What is charged: the fewest whole hours, or beyond 24 hours the fewest whole
   days, that cover the rental; so at most 24 hours, or at least two days.
   */
  lemma RentalIsCovered(pricePerHour: real, pricePerDay: real, start: int, end: int)
    requires start < end
    ensures var p := DescribeRentalPricing(pricePerHour, pricePerDay, start, end);
      var unit := if p.priceUnit.Hour? then HOUR_MS else DAY_MS;
      && (p.quantity - 1) * unit < end - start <= p.quantity * unit
      && (p.priceUnit.Hour? ==> 1 <= p.quantity <= 24 && p.total == pricePerHour * p.quantity as real)
      && (p.priceUnit.Day? ==> 2 <= p.quantity && p.total == pricePerDay * p.quantity as real)
      && (p.priceUnit.Day? <==> p.totalHours > 24)
  {
    var hours, days := CeilDiv(end - start, HOUR_MS), CeilDiv(end - start, DAY_MS);
    assert end - start <= 24 * HOUR_MS ==> (hours - 1) * HOUR_MS < 24 * HOUR_MS;
    assert end - start > 24 * HOUR_MS ==> hours * HOUR_MS > 24 * HOUR_MS && days * DAY_MS > DAY_MS;
  }

  /** The hourly price for each hour begun, or beyond 24 hours the daily price for each day begun. */
  ghost predicate IsRentalPrice(price: real, pricePerHour: real, pricePerDay: real, start: int, end: int) {
    && (end - start <= 86_400_000 ==>
          exists n: nat {:trigger n * 3_600_000} ::
            (n - 1) * 3_600_000 < end - start <= n * 3_600_000 && price == pricePerHour * n as real)
    && (end - start > 86_400_000 ==>
          exists n: nat {:trigger n * 86_400_000} ::
            (n - 1) * 86_400_000 < end - start <= n * 86_400_000 && price == pricePerDay * n as real)
  }

  lemma RentalPriceIsRentalPrice(pricePerHour: real, pricePerDay: real, start: int, end: int)
    requires start < end
    ensures IsRentalPrice(RentalPrice(pricePerHour, pricePerDay, start, end), pricePerHour, pricePerDay, start, end)
  {
    var hours: nat, days: nat := CeilDiv(end - start, HOUR_MS), CeilDiv(end - start, DAY_MS);
    assert (hours - 1) * 3_600_000 < end - start <= hours * 3_600_000;
    assert (days - 1) * 86_400_000 < end - start <= days * 86_400_000;
  }

  // ---------------------------------------------------------------- settlement

  datatype Settlement = Settlement(totalDeductions: real, refundAmount: real, amountOwed: real)

  function DepositSettlement(depositAmount: real, lateFee: real, damageFee: real, repairFee: real): Settlement {
    var deductions := lateFee + damageFee + repairFee;
    var balance := depositAmount - deductions;
    Settlement(deductions, Max(balance, 0.0), Max(-balance, 0.0))
  }

  /**
   The settlement balances the deposit against the fees, and it is the only way
   to do so with amounts that are not negative and of which one is zero.
   */
  lemma SettlementBalances(deposit: real, late: real, damage: real, repair: real, refund: real, owed: real)
    ensures DepositSettlement(deposit, late, damage, repair) == Settlement(late + damage + repair, refund, owed)
       <==> && deposit + owed == refund + late + damage + repair
            && refund >= 0.0 && owed >= 0.0 && (refund == 0.0 || owed == 0.0)
  {
  }

  // ------------------------------------------------------- unused rental refund

  /** How much of the rental lies ahead at `endedAt`. */
  function Unused(startTime: int, endTime: int, endedAt: int): int
    requires startTime < endTime
  {
    var passed := if endedAt - startTime < 0 then 0 else endedAt - startTime;
    endTime - startTime - if passed > endTime - startTime then endTime - startTime else passed
  }

  function RoundDown(amount: real): int {
    (amount / REFUND_ROUNDING_VND as real).Floor * REFUND_ROUNDING_VND
  }

  function UnusedRentalRefund(totalPrice: real, startTime: int, endTime: int, endedAt: int): int {
    var total := endTime - startTime;
    if total <= 0 then 0
    else RoundDown(Share(totalPrice, Unused(startTime, endTime, endedAt), total))
  }

  function Share(price: real, part: int, whole: int): real
    requires whole > 0
  {
    price * part as real / whole as real
  }

  lemma RoundDownBounds(a: real, b: real)
    requires 0.0 <= a <= b
    ensures 0 <= RoundDown(a) <= RoundDown(b) && RoundDown(b) as real <= b && RoundDown(b) % REFUND_ROUNDING_VND == 0
  {
    var k := REFUND_ROUNDING_VND as real;
    Divide(0.0, a, k);
    Divide(a, b, k);
    assert 0 <= (a / k).Floor <= (b / k).Floor && (b / k).Floor as real <= b / k;
    assert RoundDown(b) as real == (b / k).Floor as real * k;
  }

  lemma ShareGrows(price: real, part: int, bigger: int, whole: int)
    requires price >= 0.0 && part <= bigger && whole > 0
    ensures Share(price, part, whole) <= Share(price, bigger, whole)
  {
    Product(price, bigger as real - part as real);
    Divide(price * part as real, price * bigger as real, whole as real);
  }

  lemma ShareOfAll(price: real, whole: int)
    requires whole > 0
    ensures Share(price, 0, whole) == 0.0 && Share(price, whole, whole) == price
  {
  }

  lemma ShareBounds(price: real, part: int, bigger: int, whole: int)
    requires price >= 0.0 && 0 <= part <= bigger <= whole && whole > 0
    ensures 0.0 <= Share(price, part, whole) <= Share(price, bigger, whole) <= price
  {
    hide Share;
    ShareOfAll(price, whole);
    ShareGrows(price, 0, part, whole);
    ShareGrows(price, part, bigger, whole);
    ShareGrows(price, bigger, whole, whole);
  }

  lemma Divide(a: real, b: real, c: real)
    requires a <= b && c > 0.0
    ensures a / c <= b / c
  {
  }

  /** The refund is a multiple of 1000 between nothing and the price, and never grows as time passes. */
  lemma UnusedRentalRefundBounds(totalPrice: real, startTime: int, endTime: int, endedAt: int, later: int)
    requires totalPrice >= 0.0 && endedAt <= later
    ensures var r, s := UnusedRentalRefund(totalPrice, startTime, endTime, endedAt),
                        UnusedRentalRefund(totalPrice, startTime, endTime, later);
      0 <= s <= r && r as real <= totalPrice && r % REFUND_ROUNDING_VND == 0
    ensures later >= endTime ==> UnusedRentalRefund(totalPrice, startTime, endTime, later) == 0
  {
    var total := endTime - startTime;
    if total > 0 {
      var left, leftLater := Unused(startTime, endTime, endedAt), Unused(startTime, endTime, later);
      assert 0 <= leftLater <= left <= total && (later >= endTime ==> leftLater == 0);
      hide Unused, RoundDown, Share;
      ShareBounds(totalPrice, leftLater, left, total);
      RoundDownBounds(Share(totalPrice, leftLater, total), Share(totalPrice, left, total));
      ShareOfAll(totalPrice, total);
    }
  }

  /** The greatest multiple of 1000 within the share of the price for the time that lies ahead. */
  predicate IsUnusedRefund(refund: int, price: real, start: int, end: int, endedAt: int) {
    if end <= start then refund == 0
    else
      var ahead := if endedAt <= start then end - start else if endedAt >= end then 0 else end - endedAt;
      var share := price * ahead as real / (end - start) as real;
      refund % 1000 == 0 && refund as real <= share < (refund + 1000) as real
  }

  lemma UnusedRefundIsExact(price: real, start: int, end: int, endedAt: int)
    ensures IsUnusedRefund(UnusedRentalRefund(price, start, end, endedAt), price, start, end, endedAt)
  {
    if start < end {
      var ahead := Unused(start, end, endedAt);
      RoundDownIsNear(Share(price, ahead, end - start));
      assert ahead == if endedAt <= start then end - start else if endedAt >= end then 0 else end - endedAt;
      assert UnusedRentalRefund(price, start, end, endedAt) == RoundDown(Share(price, ahead, end - start));
      hide RoundDown, Unused, UnusedRentalRefund;
    }
  }

  lemma RoundDownIsNear(amount: real)
    ensures RoundDown(amount) % 1000 == 0 && RoundDown(amount) as real <= amount < (RoundDown(amount) + 1000) as real
  {
    var units := (amount / 1000.0).Floor;
    assert units as real <= amount / 1000.0 < units as real + 1.0;
    assert RoundDown(amount) == units * 1000;
    assert (units * 1000) as real == units as real * 1000.0;
  }

  // --------------------------------------------------------------- lost device

  datatype LossDebt = LossDebt(lateFee: real, amountOwed: real)

  function LostDeviceDebt(originalPrice: real, depositAmount: real, lateFee: real): LossDebt {
    var maxClaim := originalPrice * LOST_DEVICE_MAX_CLAIM_RATIO;
    var late := Max(Min(lateFee, maxClaim - originalPrice), 0.0);
    LossDebt(late, Max(originalPrice + late - depositAmount, 0.0))
  }

  /**
   The shop keeps the deposit and claims the rest of the value plus late fees,
   within half the value. The promise that deposit and debt together stay
   within 1.5 times the value holds exactly when the deposit alone does.
   */
  lemma LossClaimCap(originalPrice: real, depositAmount: real, lateFee: real)
    requires originalPrice >= 0.0 && depositAmount >= 0.0
    ensures var debt := LostDeviceDebt(originalPrice, depositAmount, lateFee);
      && 0.0 <= debt.lateFee <= originalPrice / 2.0 && debt.amountOwed >= 0.0
      && depositAmount + debt.amountOwed == Max(originalPrice + debt.lateFee, depositAmount)
      && (depositAmount + debt.amountOwed <= 1.5 * originalPrice <==> depositAmount <= 1.5 * originalPrice)
  {
  }

  /** The late fee as it is, up to half the value; and the value and that fee less the deposit, if it is more. */
  lemma LossDebtIs(originalPrice: real, depositAmount: real, lateFee: real)
    requires originalPrice >= 0.0 && lateFee >= 0.0
    ensures var debt := LostDeviceDebt(originalPrice, depositAmount, lateFee);
      && debt.lateFee == (if lateFee <= originalPrice / 2.0 then lateFee else originalPrice / 2.0)
      && debt.amountOwed
         == if originalPrice + debt.lateFee >= depositAmount then originalPrice + debt.lateFee - depositAmount else 0.0
  {
  }

  predicate IsEquivalentValue(originalPrice: real, candidatePrice: real) {
    var difference := candidatePrice - originalPrice;
    (if difference >= 0.0 then difference else -difference) <= originalPrice * REPLACEMENT_VALUE_TOLERANCE
  }

  lemma EquivalentValueBounds(originalPrice: real, candidatePrice: real)
    ensures IsEquivalentValue(originalPrice, candidatePrice)
       <==> 0.8 * originalPrice <= candidatePrice <= 1.2 * originalPrice
  {
  }
}
