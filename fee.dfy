/** The fee charged on unparking: whole minutes parked, in units of
    fifteen minutes, times a per-type rate. */
module Fee {
  import opened ParkingTypes

  /** Whole minutes in a duration of `seconds`, truncated toward zero as a
      cast of a duration to minutes truncates. */
  function WholeMinutes(seconds: int): (m: int)
    ensures seconds >= 0 ==> 0 <= m && 60 * m <= seconds < 60 * m + 60
    ensures seconds < 0 ==> m <= 0 && 60 * m - 60 < seconds <= 60 * m
  {
    if seconds >= 0 then seconds / 60 else -((-seconds) / 60)
  }

  /** Minutes between the recorded entry time and the current time. */
  function ElapsedMinutes(entry: int, now: int): (m: int)
    ensures entry <= now ==> 0 <= m && entry + 60 * m <= now < entry + 60 * m + 60
    ensures now < entry ==> m <= 0
  {
    WholeMinutes(now - entry)
  }

  /** Currency units per fifteen minutes: 2 for a car, 1 for anything else. */
  function Rate(t: VehicleType): (r: real)
    ensures r > 0.0
  {
    if t == Car then 2.0 else 1.0
  }

  /** The exact fee for `minutes` of parking. */
  function Charge(t: VehicleType, minutes: int): (fee: real)
    ensures minutes > 0 ==> fee > 0.0
    ensures minutes < 0 ==> fee < 0.0
  {
    (minutes as real / 15.0) * Rate(t)
  }

  lemma CarPaysTwiceMotorcycle(minutes: int)
    ensures Charge(Car, minutes) == 2.0 * Charge(Motorcycle, minutes)
  {
  }

  lemma ChargeMonotone(t: VehicleType, m1: int, m2: int)
    requires m1 <= m2
    ensures Charge(t, m1) <= Charge(t, m2)
  {
  }

  lemma ZeroMinutesAreFree(t: VehicleType)
    ensures Charge(t, 0) == 0.0
  {
  }

  /** A clock behind the entry time gives a negative charge: the program
      does not guard against it. */
  lemma ClockBehindEntryChargesNegative(t: VehicleType, entry: int, now: int)
    requires now <= entry - 60
    ensures Charge(t, ElapsedMinutes(entry, now)) < 0.0
  {
  }

  lemma ElapsedMonotone(entry: int, now1: int, now2: int)
    requires now1 <= now2
    ensures ElapsedMinutes(entry, now1) <= ElapsedMinutes(entry, now2)
  {
  }

  /** The longer a vehicle stays, the more it pays. */
  lemma ChargeNonDecreasingInTime(t: VehicleType, entry: int, now1: int, now2: int)
    requires now1 <= now2
    ensures Charge(t, ElapsedMinutes(entry, now1)) <= Charge(t, ElapsedMinutes(entry, now2))
  {
  }

  /** Unparking within the first minute costs nothing. */
  lemma UnderAMinuteIsFree(t: VehicleType, entry: int, now: int)
    requires entry <= now < entry + 60
    ensures ElapsedMinutes(entry, now) == 0 && Charge(t, ElapsedMinutes(entry, now)) == 0.0
  {
  }
}
