/**
 * ShipServiceImpl's repository calls, with the repository as an in-memory
 * map from id to ship and a counter for the next generated id.
 */
module Service {
  import opened Wrappers
  import opened Ships
  import Filtering

  class ShipService {
    /** The stored ships, keyed by id. */
    var ships: map<int, Ship>
    /** The id the repository generates for the next new ship. */
    var nextId: int

    /** Ids are positive, below the next generated id, and each record carries its own key. */
    ghost predicate Valid()
      reads this
    {
      nextId >= 1 && forall id | id in ships :: 1 <= id < nextId && ships[id].id == id
    }

    constructor ()
      ensures Valid() && ships == map[] && nextId == 1
    {
      ships := map[];
      nextId := 1;
    }

    /** A record is stored when the map holds it under its own id. */
    ghost predicate Stored(x: Ship)
      reads this
    {
      x.id in ships && ships[x.id] == x
    }

    /** `all` holds once each stored ship whose id is no longer in `rest`, and nothing else. */
    ghost predicate Listed(all: seq<Ship>, rest: set<int>)
      reads this
    {
      forall x :: multiset(all)[x] == if Stored(x) && x.id !in rest then 1 else 0
    }

    /** Listing the ship stored under one more id keeps Listed. */
    lemma ListedStep(all: seq<Ship>, rest: set<int>, id: int)
      requires Valid() && Listed(all, rest) && id in rest && id in ships
      ensures Listed(all + [ships[id]], rest - {id})
    {
      forall x ensures multiset(all + [ships[id]])[x] == if Stored(x) && x.id !in rest - {id} then 1 else 0 {
        assert multiset(all + [ships[id]])[x] == multiset(all)[x] + multiset([ships[id]])[x];
      }
    }

    /** With every id listed, `all` holds each stored ship exactly once. */
    lemma ListedAll(all: seq<Ship>)
      requires Valid() && Listed(all, {})
      ensures forall x :: multiset(all)[x] == if x in ships.Values then 1 else 0
    {
      forall x ensures x in ships.Values <==> Stored(x) {
        if x in ships.Values {
          if forall id | id in ships :: ships[id] != x {
            assert false;
          }
          var id :| id in ships && ships[id] == x;
        }
      }
    }

    /** findAll: every stored ship exactly once, in an order the repository chooses. */
    method FindAll() returns (all: seq<Ship>)
      requires Valid()
      ensures |all| == |ships|
      ensures forall x :: multiset(all)[x] == if x in ships.Values then 1 else 0
    {
      all := [];
      var rest := ships.Keys;
      while rest != {}
        invariant rest <= ships.Keys
        invariant |all| + |rest| == |ships|
        invariant Listed(all, rest)
        decreases |rest|
      {
        if forall id :: id !in rest {
          assert false;
        }
        var id :| id in rest;
        ListedStep(all, rest, id);
        all := all + [ships[id]];
        rest := rest - {id};
      }
      ListedAll(all);
    }

    /** getShips: the stored ships that match every criterion, each exactly once. */
    method GetShips(c: Filtering.Criteria) returns (r: seq<Ship>)
      requires Valid()
      ensures forall x :: multiset(r)[x] == if x in ships.Values && Filtering.Matches(c, x) then 1 else 0
    {
      var all := FindAll();
      r := Filtering.GetShips(all, c);
      Filtering.GetShipsContents(all, c);
    }

    /** createShip: the repository stores the ship under a newly generated id. */
    method CreateShip(s: Ship) returns (saved: Ship)
      requires Valid()
      modifies this
      ensures Valid()
      ensures old(nextId) !in old(ships)
      ensures saved == s.(id := old(nextId))
      ensures ships == old(ships)[saved.id := saved]
      ensures nextId == old(nextId) + 1
    {
      saved := s.(id := nextId);
      ships := ships[nextId := saved];
      nextId := nextId + 1;
    }

    /** getShip: the stored ship with this id, or null. */
    method GetShip(id: int) returns (r: Option<Ship>)
      requires Valid()
      ensures r == if id in ships then Some(ships[id]) else None
    {
      r := if id in ships then Some(ships[id]) else None;
    }

    /** updateShip: saving a ship whose id is stored replaces that record. */
    method UpdateShip(s: Ship) returns (saved: Ship)
      requires Valid()
      requires s.id in ships
      modifies this
      ensures Valid()
      ensures saved == s
      ensures ships == old(ships)[s.id := s]
      ensures nextId == old(nextId)
    {
      ships := ships[s.id := s];
      saved := s;
    }

    /** deleteShip: removes the record with this id, if there is one. */
    method DeleteShip(id: int)
      requires Valid()
      modifies this
      ensures Valid()
      ensures ships == old(ships) - {id}
      ensures nextId == old(nextId)
    {
      ships := ships - {id};
    }
  }
}
