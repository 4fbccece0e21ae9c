/**
 * ShipServiceImpl.getShipsByPage and getComparator: a stable sort by the
 * chosen key, then `skip(pageNumber * pageSize)` and `limit(pageSize)`.
 */
module Paging {
  import opened Wrappers
  import opened Ships

  /** The orders a listing may ask for, each naming the field it sorts by. */
  datatype ShipOrder = Id | Speed | Date | Rating {
    function FieldName(): string {
      match this
      case Id => "id"
      case Speed => "speed"
      case Date => "prodDate"
      case Rating => "rating"
    }
  }

  /** The comparators getComparator can return: `Comparator.comparing` on one getter. */
  datatype Comparator = ComparingSpeed | ComparingProdDate | ComparingRating | ComparingId

  /** getComparator: a switch on the order's field name whose default compares ids. */
  function GetComparator(order: ShipOrder): (cmp: Comparator)
    ensures order == Speed <==> cmp == ComparingSpeed
    ensures order == Date <==> cmp == ComparingProdDate
    ensures order == Rating <==> cmp == ComparingRating
    ensures order == Id <==> cmp == ComparingId
  {
    var field := order.FieldName();
    if field == "speed" then ComparingSpeed
    else if field == "prodDate" then ComparingProdDate
    else if field == "rating" then ComparingRating
    else ComparingId
  }

  /** The value a comparator compares; a Date compares by its milliseconds. */
  function Key(cmp: Comparator, s: Ship): real {
    match cmp
    case ComparingSpeed => s.speed
    case ComparingProdDate => s.prodDate.millis as real
    case ComparingRating => s.rating
    case ComparingId => s.id as real
  }

  /** Ascending by the key of `cmp`. */
  predicate SortedBy(cmp: Comparator, s: seq<Ship>) {
    forall i, j | 0 <= i < j < |s| :: Key(cmp, s[i]) <= Key(cmp, s[j])
  }

  /** Puts x in front of the first element whose key is not below x's. */
  function Insert(cmp: Comparator, x: Ship, s: seq<Ship>): seq<Ship> {
    if s == [] then [x]
    else if Key(cmp, x) <= Key(cmp, s[0]) then [x] + s
    else [s[0]] + Insert(cmp, x, s[1..])
  }

  /** `sorted(comparator)`: a stable sort, ascending by key (insertion sort). */
  function SortBy(cmp: Comparator, s: seq<Ship>): seq<Ship> {
    if s == [] then [] else Insert(cmp, s[0], SortBy(cmp, s[1..]))
  }

  /** Insert adds x to the multiset of elements and nothing else. */
  lemma {:induction false} InsertPermutes(cmp: Comparator, x: Ship, s: seq<Ship>)
    ensures multiset(Insert(cmp, x, s)) == multiset(s) + multiset{x}
  {
    if s != [] && Key(cmp, x) > Key(cmp, s[0]) {
      InsertPermutes(cmp, x, s[1..]);
      assert s == [s[0]] + s[1..];
    }
  }

  /** A sorted list stays sorted with an element in front whose key is not above any of its keys. */
  lemma SortedCons(cmp: Comparator, a: Ship, t: seq<Ship>)
    requires SortedBy(cmp, t)
    requires forall y | y in t :: Key(cmp, a) <= Key(cmp, y)
    ensures SortedBy(cmp, [a] + t)
  {
    forall i, j | 0 <= i < j < |[a] + t|
      ensures Key(cmp, ([a] + t)[i]) <= Key(cmp, ([a] + t)[j])
    {
      assert ([a] + t)[j] == t[j - 1];
      if i > 0 {
        assert ([a] + t)[i] == t[i - 1];
      }
    }
  }

  /** Inserting into a sorted list keeps it sorted. */
  lemma {:induction false} InsertSorted(cmp: Comparator, x: Ship, s: seq<Ship>)
    requires SortedBy(cmp, s)
    ensures SortedBy(cmp, Insert(cmp, x, s))
  {
    if s == [] {
    } else if Key(cmp, x) <= Key(cmp, s[0]) {
      forall y | y in s ensures Key(cmp, x) <= Key(cmp, y) {
        var j :| 0 <= j < |s| && s[j] == y;
        assert j == 0 || Key(cmp, s[0]) <= Key(cmp, s[j]);
      }
      SortedCons(cmp, x, s);
    } else {
      var rest := Insert(cmp, x, s[1..]);
      assert SortedBy(cmp, s[1..]) by {
        forall i, j | 0 <= i < j < |s[1..]| ensures Key(cmp, s[1..][i]) <= Key(cmp, s[1..][j]) {
          assert s[1..][i] == s[i + 1] && s[1..][j] == s[j + 1];
        }
      }
      InsertSorted(cmp, x, s[1..]);
      InsertPermutes(cmp, x, s[1..]);
      forall y | y in rest ensures Key(cmp, s[0]) <= Key(cmp, y) {
        assert y in multiset(rest);
        if y != x {
          assert y in multiset(s[1..]);
          var j :| 0 <= j < |s[1..]| && s[1..][j] == y;
          assert s[j + 1] == y;
        }
      }
      SortedCons(cmp, s[0], rest);
    }
  }

  /** The sort returns a permutation of its input. */
  lemma {:induction false} SortByPermutes(cmp: Comparator, s: seq<Ship>)
    ensures multiset(SortBy(cmp, s)) == multiset(s)
    ensures |SortBy(cmp, s)| == |s|
  {
    if s != [] {
      SortByPermutes(cmp, s[1..]);
      InsertPermutes(cmp, s[0], SortBy(cmp, s[1..]));
      assert s == [s[0]] + s[1..];
    }
    assert |SortBy(cmp, s)| == |multiset(SortBy(cmp, s))|;
  }

  /** The sort returns a list ascending by key. */
  lemma {:induction false} SortBySorted(cmp: Comparator, s: seq<Ship>)
    ensures SortedBy(cmp, SortBy(cmp, s))
  {
    if s != [] {
      SortBySorted(cmp, s[1..]);
      InsertSorted(cmp, s[0], SortBy(cmp, s[1..]));
    }
  }

  /** The ships of s whose key is k, in their order in s. */
  function WithKey(cmp: Comparator, s: seq<Ship>, k: real): seq<Ship> {
    if s == [] then []
    else if Key(cmp, s[0]) == k then [s[0]] + WithKey(cmp, s[1..], k)
    else WithKey(cmp, s[1..], k)
  }

  /** Inserting x keeps the relative order of x and every ship of equal key after it. */
  lemma {:induction false} InsertKeepsTies(cmp: Comparator, x: Ship, s: seq<Ship>, k: real)
    ensures WithKey(cmp, Insert(cmp, x, s), k) == WithKey(cmp, [x] + s, k)
  {
    assert ([x] + s)[0] == x && ([x] + s)[1..] == s;
    if s != [] && Key(cmp, x) > Key(cmp, s[0]) {
      var rest := Insert(cmp, x, s[1..]);
      InsertKeepsTies(cmp, x, s[1..], k);
      assert ([s[0]] + rest)[0] == s[0] && ([s[0]] + rest)[1..] == rest;
      assert ([x] + s[1..])[0] == x && ([x] + s[1..])[1..] == s[1..];
    }
  }

  /** The sort is stable: ships of equal key keep their input order. */
  lemma {:induction false} SortIsStable(cmp: Comparator, s: seq<Ship>, k: real)
    ensures WithKey(cmp, SortBy(cmp, s), k) == WithKey(cmp, s, k)
  {
    if s != [] {
      SortIsStable(cmp, s[1..], k);
      InsertKeepsTies(cmp, s[0], SortBy(cmp, s[1..]), k);
      var t := SortBy(cmp, s[1..]);
      assert ([s[0]] + t)[0] == s[0] && ([s[0]] + t)[1..] == t;
    }
  }

  /** Stream.skip(n): drops the first n elements, or all of them. */
  function Skip(s: seq<Ship>, n: int): seq<Ship>
    requires n >= 0
  {
    if n >= |s| then [] else s[n..]
  }

  /** Stream.limit(n): keeps the first n elements, or all of them. */
  function Limit(s: seq<Ship>, n: int): seq<Ship>
    requires n >= 0
  {
    if n >= |s| then s else s[..n]
  }

  /** The defaults a listing request falls back to. */
  const DefaultPageNumber := 0
  const DefaultPageSize := 3
  const DefaultOrder := Id

  /** The number of sorted ships before page `number` of pages of `size`. */
  function PageStart(number: nat, size: nat): nat {
    number * size
  }

  /**
   * getShipsByPage. Java's stream throws when pageNumber * pageSize or
   * pageSize is negative; the precondition also excludes the one negative
   * input Java accepts, a negative page number with page size 0, for which
   * Java returns an empty page.
   */
  function GetShipsByPage(allShips: seq<Ship>, order: Option<ShipOrder>,
                          pageNumber: Option<int>, pageSize: Option<int>): seq<Ship>
    requires pageNumber.Some? ==> pageNumber.value >= 0
    requires pageSize.Some? ==> pageSize.value >= 0
  {
    var number := pageNumber.GetOr(DefaultPageNumber);
    var size := pageSize.GetOr(DefaultPageSize);
    var cmp := GetComparator(order.GetOr(DefaultOrder));
    Limit(Skip(SortBy(cmp, allShips), PageStart(number, size)), size)
  }

  /**
   * Each default is filled in on its own: a null page number is page 0, a
   * null page size is 3 and a null order is by id, whatever the other two
   * arguments are.
   */
  lemma PageDefaults(allShips: seq<Ship>, order: Option<ShipOrder>, pageNumber: Option<int>, pageSize: Option<int>)
    requires pageNumber.Some? ==> pageNumber.value >= 0
    requires pageSize.Some? ==> pageSize.value >= 0
    ensures GetShipsByPage(allShips, order, None, pageSize) == GetShipsByPage(allShips, order, Some(0), pageSize)
    ensures GetShipsByPage(allShips, order, pageNumber, None) == GetShipsByPage(allShips, order, pageNumber, Some(3))
    ensures GetShipsByPage(allShips, None, pageNumber, pageSize) == GetShipsByPage(allShips, Some(Id), pageNumber, pageSize)
    ensures GetShipsByPage(allShips, None, None, None) == Limit(SortBy(ComparingId, allShips), 3)
  {
  }

  /** `skip(start).limit(size)` is the window of `size` elements, or fewer, beginning at `start`. */
  lemma {:induction false} SkipLimitWindow(s: seq<Ship>, start: nat, size: nat)
    ensures var w := Limit(Skip(s, start), size);
            && |w| == (if start >= |s| then 0 else if size <= |s| - start then size else |s| - start)
            && (forall i | 0 <= i < |w| :: w[i] == s[start + i])
            && multiset(w) <= multiset(s)
  {
    if start < |s| {
      var rest := s[start..];
      assert s == s[..start] + rest;
      if size < |rest| {
        assert rest == rest[..size] + rest[size..];
      }
    }
  }

  /** A window of a sorted list is sorted. */
  lemma WindowSorted(cmp: Comparator, s: seq<Ship>, start: nat, size: nat)
    requires SortedBy(cmp, s)
    ensures SortedBy(cmp, Limit(Skip(s, start), size))
  {
    var w := Limit(Skip(s, start), size);
    SkipLimitWindow(s, start, size);
    forall i, j | 0 <= i < j < |w| ensures Key(cmp, w[i]) <= Key(cmp, w[j]) {
      assert w[i] == s[start + i] && w[j] == s[start + j];
    }
  }

  /**
   * The page is the window of the sorted list that starts at
   * pageNumber * pageSize and holds at most pageSize ships; a window that
   * starts past the end is empty.
   */
  lemma PageWindow(allShips: seq<Ship>, order: ShipOrder, pageNumber: nat, pageSize: nat)
    ensures var page := GetShipsByPage(allShips, Some(order), Some(pageNumber), Some(pageSize));
            var sorted := SortBy(GetComparator(order), allShips);
            var start := PageStart(pageNumber, pageSize);
            && |page| == (if start >= |allShips| then 0
                          else if pageSize <= |allShips| - start then pageSize
                          else |allShips| - start)
            && (forall i | 0 <= i < |page| :: page[i] == sorted[start + i])
  {
    var sorted := SortBy(GetComparator(order), allShips);
    var start := PageStart(pageNumber, pageSize);
    assert GetShipsByPage(allShips, Some(order), Some(pageNumber), Some(pageSize)) == Limit(Skip(sorted, start), pageSize);
    SortByPermutes(GetComparator(order), allShips);
    SkipLimitWindow(sorted, start, pageSize);
  }

  /** Every page is ascending by the chosen key and holds only ships of the input, none more often than there. */
  lemma PageContents(allShips: seq<Ship>, order: Option<ShipOrder>, pageNumber: Option<int>, pageSize: Option<int>)
    requires pageNumber.Some? ==> pageNumber.value >= 0
    requires pageSize.Some? ==> pageSize.value >= 0
    ensures var page := GetShipsByPage(allShips, order, pageNumber, pageSize);
            && SortedBy(GetComparator(order.GetOr(DefaultOrder)), page)
            && multiset(page) <= multiset(allShips)
            && |page| <= pageSize.GetOr(DefaultPageSize)
  {
    var cmp := GetComparator(order.GetOr(DefaultOrder));
    var sorted := SortBy(cmp, allShips);
    var size: nat := pageSize.GetOr(DefaultPageSize);
    var start := PageStart(pageNumber.GetOr(DefaultPageNumber), size);
    var page := Limit(Skip(sorted, start), size);
    assert GetShipsByPage(allShips, order, pageNumber, pageSize) == page;
    SortByPermutes(cmp, allShips);
    SortBySorted(cmp, allShips);
    SkipLimitWindow(sorted, start, size);
    WindowSorted(cmp, sorted, start, size);
  }

  /** Seven ships, three to a page by id: page 1 holds the 4th to 6th, page 2 only the 7th. */
  lemma SevenShipsByThree(allShips: seq<Ship>)
    requires |allShips| == 7
    ensures |SortBy(ComparingId, allShips)| == 7
    ensures GetShipsByPage(allShips, Some(Id), Some(1), Some(3)) == SortBy(ComparingId, allShips)[3..6]
    ensures GetShipsByPage(allShips, Some(Id), Some(2), Some(3)) == [SortBy(ComparingId, allShips)[6]]
  {
    SortByPermutes(ComparingId, allShips);
    PageWindow(allShips, Id, 1, 3);
    PageWindow(allShips, Id, 2, 3);
  }
}
