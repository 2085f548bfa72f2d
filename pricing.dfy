/**
 * Rental pricing shared by the two rent flows: the request flow
 * (interaction.controller) and the direct flow (buyer.controller). Both bill
 * `ceil((end - start) / one day)` days at the item's daily rate, a missing
 * rate counting as 0, and take a deposit of a fifth of the item's price.
 */
module Pricing {
  import opened Tables
  import opened Records

  /** One day in milliseconds (1000 * 60 * 60 * 24). */
  const DayMs: int := 86400000

  /** The ceiling of d / n for a positive divisor (Math.ceil of the quotient). */
  function CeilDiv(d: int, n: int): (q: int)
    requires n > 0
    ensures (q - 1) * n < d <= q * n
  {
    var f := (-d) / n;
    assert -d == n * f + (-d) % n;
    -f
  }

  /** The number of days billed for a rental from `start` to `end` (partial days count as whole days). */
  function RentalDays(start: int, end: int): int {
    CeilDiv(end - start, DayMs)
  }

  /** `item.rentPrice || 0`: a missing daily rate bills nothing. */
  function DailyRate(it: Item): real {
    match it.rentPrice
    case Some(r) => r
    case None => 0.0
  }

  /** The rent charged: the daily rate times the billed days. */
  function TotalRent(it: Item, start: int, end: int): real {
    DailyRate(it) * RentalDays(start, end) as real
  }

  /** `item.price * 0.2`. */
  function Deposit(it: Item): real {
    it.price * 0.2
  }

  /** A rental that ends after it starts is billed at least one day, and never a day more than it needs. */
  lemma ForwardRentalDays(start: int, end: int)
    requires start < end
    ensures 1 <= RentalDays(start, end)
    ensures (RentalDays(start, end) - 1) * DayMs < end - start <= RentalDays(start, end) * DayMs
  {
  }

  /** A rental that does not end after it starts is billed zero or a negative number of days. */
  lemma BackwardRentalDays(start: int, end: int)
    requires end <= start
    ensures RentalDays(start, end) <= 0
  {
  }

  /** With a non-negative daily rate a forward rental costs at least one day's rent. */
  lemma ForwardRentalCharge(it: Item, start: int, end: int)
    requires start < end && DailyRate(it) >= 0.0
    ensures TotalRent(it, start, end) >= DailyRate(it)
  {
    ForwardRentalDays(start, end);
    var d := RentalDays(start, end) as real;
    assert DailyRate(it) * d - DailyRate(it) == DailyRate(it) * (d - 1.0);
  }

  /** With a positive daily rate a backward rental of at least a day is charged a negative rent. */
  lemma BackwardRentalCharge(it: Item, start: int, end: int)
    requires end <= start - DayMs && DailyRate(it) > 0.0
    ensures TotalRent(it, start, end) < 0.0
  {
    var q := RentalDays(start, end);
    assert q <= -1;
  }

  /** The deposit is a fifth of the price. */
  lemma DepositIsAFifth(it: Item)
    ensures 5.0 * Deposit(it) == it.price
  {
  }

  /** Three calendar days (2025-01-01T00:00Z to 2025-01-04T00:00Z) at 100 a day cost 300. */
  lemma ThreeDayRental(it: Item)
    requires it.rentPrice == Some(100.0)
    ensures RentalDays(1735689600000, 1735948800000) == 3
    ensures TotalRent(it, 1735689600000, 1735948800000) == 300.0
  {
  }

  /** One millisecond of rental is billed as a whole day. */
  lemma PartialDayIsWholeDay(start: int)
    ensures RentalDays(start, start + 1) == 1
  {
    ForwardRentalDays(start, start + 1);
  }
}
