/** The guest tariff and the 6-digit codes.  app.py and backend/routes_gate.py
    carry identical copies of `calculate_fee` and `generate_ticket_code`; both
    are modelled once here.  Times are integers counting microseconds, the
    resolution of Python's `datetime`. */
module Tariff {
  import opened Text

  const MicrosPerHour: int := 3_600_000_000
  /** 5000 dong per started hour */
  const HourlyRate: int := 5000

  /** A value of `random.randint(0, 999999)`; the draw itself is an input. */
  type Draw = n: nat | n <= 999999

  /** Python's `int(a / b)` for `b > 0`: the quotient truncated toward zero. */
  function TruncDiv(a: int, b: int): (q: int)
    requires b > 0
    ensures a >= 0 ==> q * b <= a < (q + 1) * b
    ensures a < 0 ==> (q - 1) * b < a <= q * b
  {
    if a >= 0 then a / b else -((-a) / b)
  }

  /** `calculate_fee(checkin_time, checkout_time)`: the duration in hours,
      rounded up unless it is a whole number of hours, times the rate.  For a
      non-negative duration the result is the rate times the least number of
      hours that covers the duration. */
  function CalculateFee(checkin: int, checkout: int): (fee: int)
    ensures fee % HourlyRate == 0
    ensures checkin <= checkout ==>
      && 0 <= fee
      && (fee / HourlyRate - 1) * MicrosPerHour < checkout - checkin
      && checkout - checkin <= (fee / HourlyRate) * MicrosPerHour
  {
    var diff := checkout - checkin;
    var hours := TruncDiv(diff, MicrosPerHour);
    var billed := if diff % MicrosPerHour == 0 then hours else hours + 1;
    billed * HourlyRate
  }

  /** Billing never decreases as the stay gets longer. */
  lemma FeeMonotone(checkin: int, out1: int, out2: int)
    requires checkin <= out1 <= out2
    ensures CalculateFee(checkin, out1) <= CalculateFee(checkin, out2)
  {
  }

  /** A whole number of hours is billed as it is; one second more starts a new hour. */
  lemma FeeExamples(t: int)
    ensures CalculateFee(t, t) == 0
    ensures CalculateFee(t, t + 2 * MicrosPerHour) == 2 * HourlyRate
    ensures CalculateFee(t, t + 2 * MicrosPerHour + 1_000_000) == 3 * HourlyRate
    ensures CalculateFee(t, t + 12 * MicrosPerHour / 10) == 2 * HourlyRate
  {
  }

  /** The rounding rule taken literally for a checkout stamped before the
      check-in: `int()` truncates toward zero, so half an hour of negative
      duration is billed as one hour while a zero duration costs nothing. */
  lemma FeeForEarlierCheckout(t: int)
    ensures CalculateFee(t, t - MicrosPerHour / 2) == HourlyRate
    ensures CalculateFee(t, t - 3 * MicrosPerHour / 2) == 0
    ensures CalculateFee(t, t - 2 * MicrosPerHour) == -2 * HourlyRate
  {
  }

  /** `f"{random.randint(0, 999999):06d}"`: always six ASCII digits, zero
      padded, that read back as the drawn number. */
  function TicketCode(n: Draw): (code: string)
    ensures |code| == 6 && AllDigits(code)
    ensures DecimalValue(code) == n
  {
    var s := NatToString(n);
    assert Pow10(6) == 1000000;
    NatToStringShort(n, 6);
    NatToStringRoundTrip(n);
    LeadingZeros(6 - |s|, s);
    ZeroPad(n, 6)
  }

  /** Distinct draws give distinct codes. */
  lemma TicketCodeInjective(a: Draw, b: Draw)
    requires TicketCode(a) == TicketCode(b)
    ensures a == b
  {
  }
}
