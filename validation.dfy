/**
 * The field rules a ship must satisfy before it is stored, and the derived
 * rating (ShipController.checkShip and its helpers, calculateRating).
 * Java doubles are modelled as reals.
 */
module Validation {
  import opened Wrappers
  import opened Ships

  /** Java's Math.round: the nearest integer, a half rounded up. */
  function Round(x: real): (n: int)
    ensures n as real - 0.5 <= x < n as real + 0.5
  {
    (x + 0.5).Floor
  }

  /** Every field the rules need is present. */
  predicate CheckRequired(f: ShipFields) {
    !(f.name.None? || f.planet.None? || f.shipType.None?
      || f.prodDate.None? || f.speed.None? || f.crewSize.None?)
  }

  /** A name or a planet: not empty and at most 50 characters. */
  predicate TextInRange(text: string) {
    !(|text| == 0 || |text| > 50)
  }

  predicate ValidName(f: ShipFields)
    requires f.name.Some?
  {
    TextInRange(f.name.value)
  }

  predicate ValidPlanet(f: ShipFields)
    requires f.planet.Some?
  {
    TextInRange(f.planet.value)
  }

  /** Not before the epoch, and a calendar year from 2800 to 3019. */
  predicate DateInRange(d: ProdDate) {
    !(d.millis < 0 || d.year < 2800 || d.year > 3019)
  }

  predicate ValidProdDate(f: ShipFields)
    requires f.prodDate.Some?
  {
    DateInRange(f.prodDate.value)
  }

  /** The speed rounded to hundredths lies between 0.01 and 0.99. */
  predicate SpeedInRange(speed: real) {
    var rounded := Round(speed * 100.0) as real / 100.0;
    !(rounded < 0.01 || rounded > 0.99)
  }

  predicate ValidSpeed(f: ShipFields)
    requires f.speed.Some?
  {
    SpeedInRange(f.speed.value)
  }

  predicate CrewInRange(crewSize: int) {
    !(crewSize < 1 || crewSize > 9999)
  }

  predicate ValidCrewSize(f: ShipFields)
    requires f.crewSize.Some?
  {
    CrewInRange(f.crewSize.value)
  }

  /** The conjunction of all rules; the later rules are reached only when every field is present. */
  predicate CheckShip(f: ShipFields) {
    CheckRequired(f) && ValidName(f) && ValidPlanet(f) && ValidProdDate(f)
    && ValidSpeed(f) && ValidCrewSize(f)
  }

  /** The speed rule in terms of the speed itself: rounding to hundredths keeps exactly [0.005, 0.995). */
  lemma SpeedRule(speed: real)
    ensures SpeedInRange(speed) <==> 1 <= Round(speed * 100.0) <= 99
    ensures SpeedInRange(speed) <==> 0.005 <= speed < 0.995
  {
    var n := Round(speed * 100.0);
    assert n as real / 100.0 < 0.01 <==> n < 1;
    assert n as real / 100.0 > 0.99 <==> n > 99;
    assert n >= 1 <==> speed * 100.0 >= 0.5;
    assert n <= 99 <==> speed * 100.0 < 99.5;
  }

  /** checkShip accepts a ship iff every field is present and every rule holds. */
  lemma CheckShipIff(f: ShipFields)
    ensures CheckShip(f) <==>
      && f.name.Some? && f.planet.Some? && f.shipType.Some?
      && f.prodDate.Some? && f.speed.Some? && f.crewSize.Some?
      && 1 <= |f.name.value| <= 50
      && 1 <= |f.planet.value| <= 50
      && f.prodDate.value.millis >= 0
      && 2800 <= f.prodDate.value.year <= 3019
      && 0.005 <= f.speed.value < 0.995
      && 1 <= f.crewSize.value <= 9999
  {
    if f.speed.Some? {
      SpeedRule(f.speed.value);
    }
  }

  /** The edges of each range: which side of every boundary is accepted. */
  lemma Boundaries()
    ensures SpeedInRange(0.005) && SpeedInRange(0.994)
    ensures !SpeedInRange(0.004) && !SpeedInRange(0.995)
    ensures DateInRange(ProdDate(0, 2800)) && DateInRange(ProdDate(0, 3019))
    ensures !DateInRange(ProdDate(0, 2799)) && !DateInRange(ProdDate(0, 3020))
    ensures !DateInRange(ProdDate(-1, 3000))
    ensures TextInRange(seq(50, i => 'a')) && !TextInRange(seq(51, i => 'a')) && !TextInRange("")
    ensures CrewInRange(1) && CrewInRange(9999) && !CrewInRange(0) && !CrewInRange(10000)
  {
    SpeedRule(0.005);
    SpeedRule(0.994);
    SpeedRule(0.004);
    SpeedRule(0.995);
  }

  /** The rating before rounding: 80 * speed * k / (3019 - year + 1), with k = 0.5 for a used ship. */
  function RawRating(speed: real, isUsed: bool, year: int): real
    requires year <= 3019
  {
    80.0 * speed * (if isUsed then 0.5 else 1.0) / (3019 - year + 1) as real
  }

  /** calculateRating: the raw rating rounded to hundredths, a half rounded up. */
  function CalculateRating(s: Ship): (r: real)
    requires s.prodDate.year <= 3019
    ensures (r * 100.0).Floor as real == r * 100.0
    ensures -0.005 < r - RawRating(s.speed, s.isUsed, s.prodDate.year) <= 0.005
    ensures s.speed >= 0.0 ==> r >= 0.0
  {
    var raw := RawRating(s.speed, s.isUsed, s.prodDate.year);
    var n := Round(raw * 100.0);
    assert n as real / 100.0 - 0.005 <= raw < n as real / 100.0 + 0.005;
    n as real / 100.0
  }

  /** A used ship's raw rating is half that of the same ship unused. */
  lemma UsedHalvesRawRating(speed: real, year: int)
    requires year <= 3019
    ensures RawRating(speed, true, year) == RawRating(speed, false, year) / 2.0
  {
  }

  /**
   * For a ship that passes checkShip the denominator 3019 - year + 1 lies in
   * [1, 220], so it is never zero, and the rating lies in [0, 79.6].
   */
  lemma RatingOfValidShip(s: Ship)
    requires CheckShip(AsFields(s))
    ensures 1 <= 3019 - s.prodDate.year + 1 <= 220
    ensures 0.0 <= CalculateRating(s) <= 79.6
  {
    SpeedRule(s.speed);
    var d := (3019 - s.prodDate.year + 1) as real;
    var k := if s.isUsed then 0.5 else 1.0;
    var raw := RawRating(s.speed, s.isUsed, s.prodDate.year);
    var a := 80.0 * s.speed * k;
    assert 0.0 <= a <= 79.6;
    assert raw == a / d;
    assert raw * d == a;
    assert 0.0 <= raw <= raw * d;
    var n := Round(raw * 100.0);
    assert n <= 7960;
  }
}
