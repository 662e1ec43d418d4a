/**
 The unit in which a verbose sampleOut run reports its elapsed time: hours
 above an hour, minutes above a minute, seconds otherwise.
 */
module Elapsed {

  datatype Unit = Seconds | Minutes | Hours

  /** How many seconds one of the unit is. */
  function SecondsPer(u: Unit): real
  {
    match u
    case Seconds => 1.0
    case Minutes => 60.0
    case Hours => 3600.0
  }

  /** Position of the unit from smallest to largest. */
  function Rank(u: Unit): nat
  {
    match u
    case Seconds => 0
    case Minutes => 1
    case Hours => 2
  }

  datatype Duration = Duration(amount: real, unit: Unit)

  /** The elapsed seconds re-expressed for the closing message. The amount in the
      chosen unit is the same length of time, and it is above one whenever a unit
      larger than seconds is chosen. */
  function InUnits(total: real): (d: Duration)
    ensures d.unit == Hours <==> total > 3600.0
    ensures d.unit == Minutes <==> 60.0 < total <= 3600.0
    ensures d.unit == Seconds <==> total <= 60.0
    ensures d.amount * SecondsPer(d.unit) == total
    ensures d.unit != Seconds ==> d.amount > 1.0
    ensures d.unit == Minutes ==> d.amount <= 60.0
  {
    if total > 3600.0 then Duration(total / 3600.0, Hours)
    else if total > 60.0 then Duration(total / 60.0, Minutes)
    else Duration(total, Seconds)
  }

  /** A longer run never reports in a smaller unit. */
  lemma UnitMonotone(shorter: real, longer: real)
    requires shorter <= longer
    ensures Rank(InUnits(shorter).unit) <= Rank(InUnits(longer).unit)
  {
  }
}
