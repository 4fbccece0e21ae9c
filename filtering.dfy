/**
 * ShipServiceImpl.getShips: twelve optional criteria, each a `filter` step
 * of one stream over the full record list. An absent criterion keeps every
 * ship.
 */
module Filtering {
  import opened Wrappers
  import opened Ships

  /** The optional criteria of a listing request; None is a null parameter. */
  datatype Criteria = Criteria(
    name: Option<string>,
    planet: Option<string>,
    shipType: Option<ShipType>,
    after: Option<int>,
    before: Option<int>,
    isUsed: Option<bool>,
    minSpeed: Option<real>,
    maxSpeed: Option<real>,
    minCrewSize: Option<int>,
    maxCrewSize: Option<int>,
    minRating: Option<real>,
    maxRating: Option<real>)

  /** A request with every criterion null. */
  const NoCriteria := Criteria(None, None, None, None, None, None, None, None, None, None, None, None)

  /** The number of filter steps in the chain. */
  const StageCount := 12

  /** String.contains: `part` occurs in `text` as a contiguous run, case-sensitively. */
  predicate Contains(text: string, part: string)
    decreases |text|
  {
    |part| <= |text| && (text[..|part|] == part || Contains(text[1..], part))
  }

  /** `part` occurs in `text` starting at offset i. */
  predicate OccursAt(text: string, part: string, i: int) {
    0 <= i <= |text| - |part| && text[i..i + |part|] == part
  }

  /** Contains agrees with the textbook definition: some offset where `part` starts. */
  lemma {:induction false} ContainsIff(text: string, part: string)
    ensures Contains(text, part) <==> exists i :: OccursAt(text, part, i)
    decreases |text|
  {
    if |part| <= |text| {
      if text[..|part|] == part {
        assert OccursAt(text, part, 0);
      } else {
        ContainsIff(text[1..], part);
        forall i | OccursAt(text[1..], part, i)
          ensures OccursAt(text, part, i + 1)
        {
          assert text[i + 1..i + 1 + |part|] == text[1..][i..i + |part|];
        }
        forall i | OccursAt(text, part, i)
          ensures OccursAt(text[1..], part, i - 1)
        {
          assert i != 0;
          assert text[1..][i - 1..i - 1 + |part|] == text[i..i + |part|];
        }
      }
    } else if i :| OccursAt(text, part, i) {
      assert false;
    }
  }

  /** The empty string is contained in every string. */
  lemma EmptyIsContained(text: string)
    ensures Contains(text, "")
  {
    assert text[..0] == "";
  }

  /** The k-th filter step of the chain, in the order the source applies them. */
  predicate Stage(k: nat, c: Criteria, s: Ship) {
    if k == 0 then c.name.None? || Contains(s.name, c.name.value)
    else if k == 1 then c.planet.None? || Contains(s.planet, c.planet.value)
    else if k == 2 then c.shipType.None? || s.shipType == c.shipType.value
    else if k == 3 then c.after.None? || s.prodDate.millis >= c.after.value
    else if k == 4 then c.before.None? || s.prodDate.millis <= c.before.value
    else if k == 5 then c.isUsed.None? || s.isUsed == c.isUsed.value
    else if k == 6 then c.minSpeed.None? || s.speed >= c.minSpeed.value
    else if k == 7 then c.maxSpeed.None? || s.speed <= c.maxSpeed.value
    else if k == 8 then c.minCrewSize.None? || s.crewSize >= c.minCrewSize.value
    else if k == 9 then c.maxCrewSize.None? || s.crewSize <= c.maxCrewSize.value
    else if k == 10 then c.minRating.None? || s.rating >= c.minRating.value
    else if k == 11 then c.maxRating.None? || s.rating <= c.maxRating.value
    else true
  }

  /** The ship passes the first n filter steps. */
  predicate PassesFirst(c: Criteria, s: Ship, n: nat) {
    forall k | 0 <= k < n :: Stage(k, c, s)
  }

  /** The ship passes every filter step. */
  predicate Matches(c: Criteria, s: Ship) {
    PassesFirst(c, s, StageCount)
  }

  /** r is s with some elements left out, the rest in their original order. */
  predicate IsSubsequence<T(==)>(r: seq<T>, s: seq<T>)
    decreases |s|
  {
    r == [] || (s != [] && ((r[0] == s[0] && IsSubsequence(r[1..], s[1..])) || IsSubsequence(r, s[1..])))
  }

  /** One `filter` call of the stream: the ships that pass step k, in order. */
  function KeepStage(ships: seq<Ship>, c: Criteria, k: nat): seq<Ship> {
    if ships == [] then []
    else if Stage(k, c, ships[0]) then [ships[0]] + KeepStage(ships[1..], c, k)
    else KeepStage(ships[1..], c, k)
  }

  /** The first n `filter` calls of the chain, applied one after the other. */
  function Chain(ships: seq<Ship>, c: Criteria, n: nat): seq<Ship>
    requires n <= StageCount
  {
    if n == 0 then ships else KeepStage(Chain(ships, c, n - 1), c, n - 1)
  }

  /** getShips: the whole chain over the records that findAll returned. */
  function GetShips(all: seq<Ship>, c: Criteria): seq<Ship> {
    Chain(all, c, StageCount)
  }

  /**
   * A single pass that keeps the ships passing the first n steps: an
   * order-preserving subsequence holding each passing ship as often as the
   * input does and no other ship.
   */
  function KeepPassing(ships: seq<Ship>, c: Criteria, n: nat): (r: seq<Ship>)
    ensures IsSubsequence(r, ships)
    ensures forall x :: multiset(r)[x] == if PassesFirst(c, x, n) then multiset(ships)[x] else 0
  {
    if ships == [] then []
    else
      var rest := KeepPassing(ships[1..], c, n);
      assert ships == [ships[0]] + ships[1..];
      if PassesFirst(c, ships[0], n) then [ships[0]] + rest else rest
  }

  /** When every ship passes, the single pass returns its input unchanged. */
  lemma {:induction false} KeepPassingAll(ships: seq<Ship>, c: Criteria, n: nat)
    requires forall x | x in ships :: PassesFirst(c, x, n)
    ensures KeepPassing(ships, c, n) == ships
  {
    if ships != [] {
      KeepPassingAll(ships[1..], c, n);
    }
  }

  /** Two criteria that accept the same ships select the same list. */
  lemma {:induction false} KeepPassingCongruent(ships: seq<Ship>, c: Criteria, d: Criteria, n: nat)
    requires forall x :: PassesFirst(c, x, n) <==> PassesFirst(d, x, n)
    ensures KeepPassing(ships, c, n) == KeepPassing(ships, d, n)
  {
    if ships != [] {
      KeepPassingCongruent(ships[1..], c, d, n);
    }
  }

  /** Passing n + 1 steps is passing n steps and then step n. */
  lemma PassesFirstStep(c: Criteria, s: Ship, n: nat)
    ensures PassesFirst(c, s, n + 1) <==> PassesFirst(c, s, n) && Stage(n, c, s)
  {
  }

  /** Filtering the survivors of n steps by step n leaves the survivors of n + 1 steps. */
  lemma {:induction false} KeepStageAfterPassing(ships: seq<Ship>, c: Criteria, n: nat)
    ensures KeepStage(KeepPassing(ships, c, n), c, n) == KeepPassing(ships, c, n + 1)
  {
    if ships != [] {
      var x := ships[0];
      var rest := KeepPassing(ships[1..], c, n);
      KeepStageAfterPassing(ships[1..], c, n);
      PassesFirstStep(c, x, n);
      if PassesFirst(c, x, n) {
        assert KeepPassing(ships, c, n) == [x] + rest;
        assert ([x] + rest)[1..] == rest;
      } else {
        assert KeepPassing(ships, c, n) == rest;
      }
    }
  }

  /** The chain of n separate `filter` calls equals one pass with their conjunction. */
  lemma {:induction false} ChainIsSinglePass(ships: seq<Ship>, c: Criteria, n: nat)
    requires n <= StageCount
    ensures Chain(ships, c, n) == KeepPassing(ships, c, n)
  {
    if n == 0 {
      KeepPassingAll(ships, c, 0);
    } else {
      ChainIsSinglePass(ships, c, n - 1);
      KeepStageAfterPassing(ships, c, n - 1);
      assert Chain(ships, c, n) == KeepStage(Chain(ships, c, n - 1), c, n - 1);
    }
  }

  /** A ship matches iff every non-null criterion holds of it, each bound inclusive. */
  lemma MatchesIff(c: Criteria, s: Ship)
    ensures Matches(c, s) <==>
      && (c.name.None? || Contains(s.name, c.name.value))
      && (c.planet.None? || Contains(s.planet, c.planet.value))
      && (c.shipType.None? || s.shipType == c.shipType.value)
      && (c.after.None? || s.prodDate.millis >= c.after.value)
      && (c.before.None? || s.prodDate.millis <= c.before.value)
      && (c.isUsed.None? || s.isUsed == c.isUsed.value)
      && (c.minSpeed.None? || s.speed >= c.minSpeed.value)
      && (c.maxSpeed.None? || s.speed <= c.maxSpeed.value)
      && (c.minCrewSize.None? || s.crewSize >= c.minCrewSize.value)
      && (c.maxCrewSize.None? || s.crewSize <= c.maxCrewSize.value)
      && (c.minRating.None? || s.rating >= c.minRating.value)
      && (c.maxRating.None? || s.rating <= c.maxRating.value)
  {
    if Matches(c, s) {
      assert Stage(0, c, s) && Stage(1, c, s) && Stage(2, c, s) && Stage(3, c, s);
      assert Stage(4, c, s) && Stage(5, c, s) && Stage(6, c, s) && Stage(7, c, s);
      assert Stage(8, c, s) && Stage(9, c, s) && Stage(10, c, s) && Stage(11, c, s);
    }
  }

  /**
   * getShips returns an order-preserving subsequence of its input holding
   * exactly the matching ships, each as often as the input holds it.
   */
  lemma GetShipsContents(all: seq<Ship>, c: Criteria)
    ensures IsSubsequence(GetShips(all, c), all)
    ensures forall x :: multiset(GetShips(all, c))[x] == if Matches(c, x) then multiset(all)[x] else 0
    ensures forall x :: x in GetShips(all, c) <==> x in all && Matches(c, x)
  {
    ChainIsSinglePass(all, c, StageCount);
  }

  /** With every criterion null, getShips returns findAll's list unchanged. */
  lemma GetShipsNoCriteria(all: seq<Ship>)
    ensures GetShips(all, NoCriteria) == all
  {
    ChainIsSinglePass(all, NoCriteria, StageCount);
    KeepPassingAll(all, NoCriteria, StageCount);
  }

  /** minSpeed == maxSpeed == v keeps exactly the ships whose speed is v. */
  lemma GetShipsSpeedWindow(all: seq<Ship>, v: real)
    ensures forall x ::
      x in GetShips(all, NoCriteria.(minSpeed := Some(v), maxSpeed := Some(v))) <==> x in all && x.speed == v
  {
    var c := NoCriteria.(minSpeed := Some(v), maxSpeed := Some(v));
    GetShipsContents(all, c);
    forall x {
      MatchesIff(c, x);
    }
  }

  /** An empty name or planet criterion selects the same ships as a null one. */
  lemma GetShipsEmptyText(all: seq<Ship>, c: Criteria)
    ensures GetShips(all, c.(name := Some(""))) == GetShips(all, c.(name := None))
    ensures GetShips(all, c.(planet := Some(""))) == GetShips(all, c.(planet := None))
  {
    forall x: Ship
      ensures PassesFirst(c.(name := Some("")), x, StageCount) <==> PassesFirst(c.(name := None), x, StageCount)
      ensures PassesFirst(c.(planet := Some("")), x, StageCount) <==> PassesFirst(c.(planet := None), x, StageCount)
    {
      EmptyIsContained(x.name);
      EmptyIsContained(x.planet);
      MatchesIff(c.(name := Some("")), x);
      MatchesIff(c.(name := None), x);
      MatchesIff(c.(planet := Some("")), x);
      MatchesIff(c.(planet := None), x);
    }
    ChainIsSinglePass(all, c.(name := Some("")), StageCount);
    ChainIsSinglePass(all, c.(name := None), StageCount);
    KeepPassingCongruent(all, c.(name := Some("")), c.(name := None), StageCount);
    ChainIsSinglePass(all, c.(planet := Some("")), StageCount);
    ChainIsSinglePass(all, c.(planet := None), StageCount);
    KeepPassingCongruent(all, c.(planet := Some("")), c.(planet := None), StageCount);
  }
}
