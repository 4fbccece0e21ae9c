/**
 * The Ship entity in two forms: `Ship`, a record as the store holds it
 * (every field set), and `ShipFields`, a request body whose fields may each
 * be missing (a Java null).
 */
module Ships {
  import opened Wrappers

  /** The closed set of ship categories. */
  datatype ShipType = Transport | Military | Merchant

  /**
   * A production date: milliseconds since the epoch, and the calendar year
   * that the platform calendar assigns to that instant.
   */
  datatype ProdDate = ProdDate(millis: int, year: int)

  /** A stored ship. */
  datatype Ship = Ship(
    id: int,
    name: string,
    planet: string,
    shipType: ShipType,
    prodDate: ProdDate,
    isUsed: bool,
    speed: real,
    crewSize: int,
    rating: real)

  /** A ship as a request carries it: any field may be absent. */
  datatype ShipFields = ShipFields(
    id: Option<int>,
    name: Option<string>,
    planet: Option<string>,
    shipType: Option<ShipType>,
    prodDate: Option<ProdDate>,
    isUsed: Option<bool>,
    speed: Option<real>,
    crewSize: Option<int>,
    rating: Option<real>)

  /** A stored ship seen as a request body with every field present. */
  function AsFields(s: Ship): ShipFields {
    ShipFields(Some(s.id), Some(s.name), Some(s.planet), Some(s.shipType), Some(s.prodDate),
               Some(s.isUsed), Some(s.speed), Some(s.crewSize), Some(s.rating))
  }
}
