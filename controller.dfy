/**
 * ShipController: the request outcomes of the endpoints, over a ShipService.
 * HTTP 400, 404 and 200 are the Outcome constructors BadRequest, NotFound
 * and Ok.
 */
module Controller {
  import opened Wrappers
  import opened Ships
  import opened Validation
  import Filtering
  import Paging
  import Service

  /** What an endpoint answers. */
  datatype Outcome<+T> = BadRequest | NotFound | Ok(value: T)

  /**
   * The record updateShip validates: every field the patch carries replaces
   * the stored one, every field it leaves null keeps the stored value, and
   * the id and the rating are never taken from the patch.
   */
  ghost function Merge(stored: Ship, patch: ShipFields): Ship {
    stored.(name := patch.name.GetOr(stored.name),
            planet := patch.planet.GetOr(stored.planet),
            shipType := patch.shipType.GetOr(stored.shipType),
            prodDate := patch.prodDate.GetOr(stored.prodDate),
            isUsed := patch.isUsed.GetOr(stored.isUsed),
            speed := patch.speed.GetOr(stored.speed),
            crewSize := patch.crewSize.GetOr(stored.crewSize))
  }

  /** The setter calls of updateShip, one per non-null field of the patch. */
  method ApplyPatch(stored: Ship, patch: ShipFields) returns (ship: Ship)
    ensures ship == Merge(stored, patch)
    ensures ship.id == stored.id && ship.rating == stored.rating
  {
    ship := stored;
    if patch.name.Some? { ship := ship.(name := patch.name.value); }
    if patch.planet.Some? { ship := ship.(planet := patch.planet.value); }
    if patch.shipType.Some? { ship := ship.(shipType := patch.shipType.value); }
    if patch.prodDate.Some? { ship := ship.(prodDate := patch.prodDate.value); }
    if patch.isUsed.Some? { ship := ship.(isUsed := patch.isUsed.value); }
    if patch.speed.Some? { ship := ship.(speed := patch.speed.value); }
    if patch.crewSize.Some? { ship := ship.(crewSize := patch.crewSize.value); }
  }

  /** Every field the patch carries passes its own rule. */
  predicate PatchFieldsValid(patch: ShipFields) {
    && (patch.name.Some? ==> TextInRange(patch.name.value))
    && (patch.planet.Some? ==> TextInRange(patch.planet.value))
    && (patch.prodDate.Some? ==> DateInRange(patch.prodDate.value))
    && (patch.speed.Some? ==> SpeedInRange(patch.speed.value))
    && (patch.crewSize.Some? ==> CrewInRange(patch.crewSize.value))
  }

  /**
   * The rules are per field, so a patch of valid fields on a valid record
   * passes re-validation, and a patch carrying one invalid field fails it
   * whatever the stored record holds.
   */
  lemma MergeValidity(stored: Ship, patch: ShipFields)
    ensures CheckShip(AsFields(stored)) && PatchFieldsValid(patch) ==> CheckShip(AsFields(Merge(stored, patch)))
    ensures !PatchFieldsValid(patch) ==> !CheckShip(AsFields(Merge(stored, patch)))
  {
  }

  /** A list in which no ship occurs twice is as long as the set of its ships. */
  lemma {:induction false} DistinctCount(r: seq<Ship>)
    requires forall x :: multiset(r)[x] <= 1
    ensures |set x | x in r| == |r|
  {
    if r != [] {
      var t := r[1..];
      assert r == [r[0]] + t;
      assert forall x :: multiset(r)[x] == multiset(t)[x] + (if x == r[0] then 1 else 0);
      DistinctCount(t);
      assert r[0] !in multiset(t);
      assert (set x | x in r) == (set x | x in t) + {r[0]};
    }
  }

  class ShipController {
    const service: Service.ShipService

    constructor (service: Service.ShipService)
      ensures this.service == service
    {
      this.service := service;
    }

    /**
     * getShips: one page of the stored ships that match every criterion,
     * ascending by the chosen key, no ship twice.
     */
    method GetShips(c: Filtering.Criteria, order: Option<Paging.ShipOrder>,
                    pageNumber: Option<int>, pageSize: Option<int>) returns (page: seq<Ship>)
      requires service.Valid()
      requires pageNumber.Some? ==> pageNumber.value >= 0
      requires pageSize.Some? ==> pageSize.value >= 0
      ensures forall x :: multiset(page)[x] <= if x in service.ships.Values && Filtering.Matches(c, x) then 1 else 0
      ensures Paging.SortedBy(Paging.GetComparator(order.GetOr(Paging.DefaultOrder)), page)
      ensures |page| <= pageSize.GetOr(Paging.DefaultPageSize)
      ensures exists list: seq<Ship> ::
        && (forall x :: multiset(list)[x] == if x in service.ships.Values && Filtering.Matches(c, x) then 1 else 0)
        && page == Paging.GetShipsByPage(list, order, pageNumber, pageSize)
    {
      var list := service.GetShips(c);
      page := Paging.GetShipsByPage(list, order, pageNumber, pageSize);
      Paging.PageContents(list, order, pageNumber, pageSize);
    }

    /** shipsCount: how many stored ships match every criterion. */
    method ShipsCount(c: Filtering.Criteria) returns (n: int)
      requires service.Valid()
      ensures n == |set x | x in service.ships.Values && Filtering.Matches(c, x)|
    {
      var list := service.GetShips(c);
      n := |list|;
      DistinctCount(list);
      assert (set x | x in list) == (set x | x in service.ships.Values && Filtering.Matches(c, x)) by {
        forall x ensures x in list <==> x in service.ships.Values && Filtering.Matches(c, x) {
          assert x in list <==> x in multiset(list);
        }
      }
    }

    /** getShip: BAD_REQUEST for an id below 1, NOT_FOUND for an unknown id, else the stored ship. */
    method GetShip(id: int) returns (r: Outcome<Ship>)
      requires service.Valid()
      ensures r == if id < 1 then BadRequest else if id !in service.ships then NotFound else Ok(service.ships[id])
    {
      if id < 1 {
        return BadRequest;
      }
      var ship := service.GetShip(id);
      if ship.None? {
        return NotFound;
      }
      return Ok(ship.value);
    }

    /** deleteShip: the same checks as getShip; only a stored id is removed. */
    method DeleteShip(id: int) returns (r: Outcome<()>)
      requires service.Valid()
      modifies service
      ensures service.Valid() && service.nextId == old(service.nextId)
      ensures id < 1 ==> r == BadRequest && service.ships == old(service.ships)
      ensures id >= 1 && id !in old(service.ships) ==> r == NotFound && service.ships == old(service.ships)
      ensures id >= 1 && id in old(service.ships) ==> r == Ok(()) && service.ships == old(service.ships) - {id}
    {
      if id < 1 {
        return BadRequest;
      }
      var ship := service.GetShip(id);
      if ship.None? {
        return NotFound;
      }
      service.DeleteShip(id);
      return Ok(());
    }

    /**
     * createShip: a body that fails checkShip is refused and nothing is
     * stored; otherwise the body's id and rating are discarded, a null
     * isUsed becomes false, the rating is computed and one record is stored
     * under a new id.
     */
    method CreateShip(body: ShipFields) returns (r: Outcome<Ship>)
      requires service.Valid()
      modifies service
      ensures service.Valid()
      ensures !CheckShip(body) ==>
        r == BadRequest && service.ships == old(service.ships) && service.nextId == old(service.nextId)
      ensures CheckShip(body) ==>
        && r.Ok?
        && r.value.id == old(service.nextId)
        && r.value.id !in old(service.ships)
        && r.value.name == body.name.value
        && r.value.planet == body.planet.value
        && r.value.shipType == body.shipType.value
        && r.value.prodDate == body.prodDate.value
        && r.value.isUsed == body.isUsed.GetOr(false)
        && r.value.speed == body.speed.value
        && r.value.crewSize == body.crewSize.value
        && r.value.rating == CalculateRating(r.value)
        && service.ships == old(service.ships)[r.value.id := r.value]
        && service.nextId == old(service.nextId) + 1
    {
      if !CheckShip(body) {
        return BadRequest;
      }
      var ship := body.(id := None);
      if ship.isUsed.None? {
        ship := ship.(isUsed := Some(false));
      }
      // The id field is a placeholder: the repository assigns the real one.
      var entity := Ship(0, ship.name.value, ship.planet.value, ship.shipType.value, ship.prodDate.value,
                         ship.isUsed.value, ship.speed.value, ship.crewSize.value, 0.0);
      entity := entity.(rating := CalculateRating(entity));
      var saved := service.CreateShip(entity);
      return Ok(saved);
    }

    /**
     * updateShip: BAD_REQUEST for an id below 1, NOT_FOUND for an unknown id;
     * otherwise the patch is merged onto the stored record, a merged record
     * that fails checkShip is refused without saving, and a valid one gets
     * its rating recomputed and replaces the stored record.
     */
    method UpdateShip(id: int, patch: ShipFields) returns (r: Outcome<Ship>)
      requires service.Valid()
      modifies service
      ensures service.Valid() && service.nextId == old(service.nextId)
      ensures id < 1 ==> r == BadRequest && service.ships == old(service.ships)
      ensures id >= 1 && id !in old(service.ships) ==> r == NotFound && service.ships == old(service.ships)
      ensures id >= 1 && id in old(service.ships) ==>
        var merged := Merge(old(service.ships)[id], patch);
        if CheckShip(AsFields(merged)) then
          && r == Ok(merged.(rating := CalculateRating(merged)))
          && service.ships == old(service.ships)[id := r.value]
        else
          r == BadRequest && service.ships == old(service.ships)
    {
      if id < 1 {
        return BadRequest;
      }
      var found := service.GetShip(id);
      if found.None? {
        return NotFound;
      }
      var ship := ApplyPatch(found.value, patch);
      if !CheckShip(AsFields(ship)) {
        return BadRequest;
      }
      ship := ship.(rating := CalculateRating(ship));
      var saved := service.UpdateShip(ship);
      return Ok(ship);
    }
  }
}
