# Ship catalog engine

This project models the ship catalog of spaceJavaRush. The catalog stores ship records. It accepts create, read, update and delete requests and validates the required fields. It computes a derived rating and serves filtered, sorted and paginated listings. The two modelled classes are `ShipServiceImpl` and `ShipController`.

The project has one module per concern:

- `Wrappers` (wrappers.dfy) holds `Option`, which stands for a Java reference that may be `null`.
- `Ships` (ships.dfy) holds the `Ship` entity and `ShipFields`. `ShipFields` is a request body or update patch in which every field may be missing.
- `Validation` (validation.dfy) holds `checkShip` and its field rules, and `calculateRating`.
- `Filtering` (filtering.dfy) holds the twelve optional criteria of `getShips`. They are a chain of twelve filter stages, and the model proves the chain equal to one pass over their conjunction.
- `Paging` (paging.dfy) holds `getComparator` and `getShipsByPage`. The model sorts with a stable insertion sort by the chosen key, followed by `skip` and `limit`; every stable sort by the same key gives the same list.
- `Service` (service.dfy) holds `ShipService`, a class whose `map<int, Ship>` plays the repository. It assigns fresh ids from 1 upward. Its methods are `findAll`, `getShips`, `createShip`, `getShip`, `updateShip` and `deleteShip`.
- `Controller` (controller.dfy) holds `ShipController`. Its endpoints answer an `Outcome`, which is `BadRequest`, `NotFound` or `Ok(value)` in place of an HTTP status.

Doubles are modelled as `real`. `Math.round(x)` is `(x + 0.5).Floor`. A production date is a pair of its epoch milliseconds and its calendar year.

## Model

| member | source | states |
|---|---|---|
| Filtering.GetShipsContents | space/src/main/java/com/space/service/ShipServiceImpl.java:28-42 | the filtered list is an order-preserving subsequence of the full list, and each ship occurs in it exactly as often as in the input if it matches every criterion, otherwise not at all |
| Filtering.ChainIsSinglePass | space/src/main/java/com/space/service/ShipServiceImpl.java:29-42 | the first n chained filter calls keep exactly the ships that pass all of the first n filters, in input order |
| Filtering.KeepStageAfterPassing | space/src/main/java/com/space/service/ShipServiceImpl.java:30-41 | applying filter n after filters 0..n-1 equals a single pass over the conjunction of filters 0..n |
| Filtering.KeepPassing | space/src/main/java/com/space/service/ShipServiceImpl.java:29-42 | the single-pass filter returns a subsequence of its input and keeps every copy of a passing ship and no copy of a failing one |
| Filtering.MatchesIff | space/src/main/java/com/space/service/ShipServiceImpl.java:30-41 | a ship matches iff each criterion is null or holds: substring containment for name and planet, equality for type and isUsed, inclusive bounds for prodDate millis, speed, crew size and rating |
| Filtering.GetShipsNoCriteria | space/src/main/java/com/space/service/ShipServiceImpl.java:28-42 | with all twelve criteria null the result is exactly the full list |
| Filtering.GetShipsSpeedWindow | space/src/main/java/com/space/service/ShipServiceImpl.java:36-37 | with minSpeed and maxSpeed both v, a ship is kept iff it is in the list and its speed is exactly v |
| Filtering.GetShipsEmptyText | space/src/main/java/com/space/service/ShipServiceImpl.java:30-31 | an empty name or planet criterion gives the same result as a null one |
| Filtering.ContainsIff | space/src/main/java/com/space/service/ShipServiceImpl.java:30-31 | String.contains holds iff the part occurs at some index of the text |
| Filtering.KeepPassingAll | space/src/main/java/com/space/service/ShipServiceImpl.java:29-42 | a list whose every ship passes the filters comes through unchanged |
| Filtering.KeepPassingCongruent | space/src/main/java/com/space/service/ShipServiceImpl.java:29-42 | two sets of criteria that accept the same ships give the same result |
| Paging.GetComparator | space/src/main/java/com/space/service/ShipServiceImpl.java:73-84 | speed, prodDate and rating select their own key and id selects the id key, each iff that order was asked for |
| Paging.SortByPermutes | space/src/main/java/com/space/service/ShipServiceImpl.java:70 | the sorted list is a permutation of its input |
| Paging.SortBySorted | space/src/main/java/com/space/service/ShipServiceImpl.java:70 | the sorted list is ascending by the comparator's key |
| Paging.SortIsStable | space/src/main/java/com/space/service/ShipServiceImpl.java:70 | for every key value, the ships sharing it keep their input order |
| Paging.InsertPermutes | space/src/main/java/com/space/service/ShipServiceImpl.java:70 | one insertion step adds exactly the inserted ship |
| Paging.InsertSorted | space/src/main/java/com/space/service/ShipServiceImpl.java:70 | one insertion step keeps a sorted list sorted |
| Paging.InsertKeepsTies | space/src/main/java/com/space/service/ShipServiceImpl.java:70 | among ships of one key, inserting a ship keeps the order of putting it in front of the list, so it stays ahead of the ships of equal key it preceded |
| Paging.PageDefaults | space/src/main/java/com/space/service/ShipServiceImpl.java:67-69 | each default is filled in on its own: a null page number means page 0, a null page size means 3 and a null order means id order, whatever the other arguments are |
| Paging.SkipLimitWindow | space/src/main/java/com/space/service/ShipServiceImpl.java:70 | skip then limit keeps min(size, max(0, n - start)) elements, the i-th being element start + i |
| Paging.WindowSorted | space/src/main/java/com/space/service/ShipServiceImpl.java:70 | any skip-then-limit window of a sorted list is sorted |
| Paging.PageWindow | space/src/main/java/com/space/service/ShipServiceImpl.java:70 | page pageNumber has min(pageSize, max(0, n - pageNumber*pageSize)) ships, the i-th being sorted ship pageNumber*pageSize + i, so a page past the end is empty |
| Paging.PageContents | space/src/main/java/com/space/service/ShipServiceImpl.java:66-71 | every page is sorted by the chosen key, draws only on the input and is at most pageSize (default 3) long |
| Paging.SevenShipsByThree | space/src/main/java/com/space/service/ShipServiceImpl.java:66-71 | over seven ships in id order, page 1 of size 3 holds the 4th to 6th ship and page 2 holds the 7th alone |
| Service.ShipService.constructor | space/src/main/java/com/space/service/ShipServiceImpl.java:19-21 | the repository starts empty, with the first id to assign being 1 |
| Service.ShipService.ListedAll | space/src/main/java/com/space/service/ShipServiceImpl.java:28 | a scan that listed every key once holds each stored ship exactly once |
| Service.ShipService.FindAll | space/src/main/java/com/space/service/ShipServiceImpl.java:28 | findAll lists every stored ship exactly once and nothing else |
| Service.ShipService.GetShips | space/src/main/java/com/space/service/ShipServiceImpl.java:23-43 | the result holds each stored ship that matches every criterion exactly once, and nothing else |
| Service.ShipService.CreateShip | space/src/main/java/com/space/service/ShipServiceImpl.java:46-48 | save stores the ship under a fresh id, which it returns, and changes nothing else |
| Service.ShipService.GetShip | space/src/main/java/com/space/service/ShipServiceImpl.java:51-54 | findById gives the stored ship, or null for an unknown id |
| Service.ShipService.UpdateShip | space/src/main/java/com/space/service/ShipServiceImpl.java:57-59 | save replaces the record under its id and changes nothing else |
| Service.ShipService.DeleteShip | space/src/main/java/com/space/service/ShipServiceImpl.java:62-64 | deleteById removes exactly that id |
| Validation.Round | space/src/main/java/com/space/controller/ShipController.java:103 | Math.round gives the integer nearest its argument, with halves rounded up |
| Validation.CheckShipIff | space/src/main/java/com/space/controller/ShipController.java:145-181 | checkShip holds iff name, planet, shipType, prodDate, speed and crewSize are present, the texts are 1..50 long, millis are at least 0 and the year is in 2800..3019, speed is in [0.005, 0.995), and crew is in 1..9999 |
| Validation.SpeedRule | space/src/main/java/com/space/controller/ShipController.java:173-176 | the speed rule holds iff round(speed*100) is in 1..99, and iff 0.005 <= speed < 0.995 |
| Validation.Boundaries | space/src/main/java/com/space/controller/ShipController.java:155-181 | speed 0.005 and 0.994 pass while 0.004 and 0.995 fail; years 2800 and 3019 pass while 2799 and 3020 fail; millis -1 fails; text length 50 passes while 0 and 51 fail; crew 1 and 9999 pass while 0 and 10000 fail |
| Validation.CalculateRating | space/src/main/java/com/space/controller/ShipController.java:99-105 | the rating is a whole number of hundredths, within half a hundredth of 80*speed*usedFactor/(3019-year+1), and not negative for a non-negative speed |
| Validation.UsedHalvesRawRating | space/src/main/java/com/space/controller/ShipController.java:103 | a used ship's value before rounding is half that of an unused one |
| Validation.RatingOfValidShip | space/src/main/java/com/space/controller/ShipController.java:99-105 | for a ship passing checkShip the denominator is in 1..220 and the rating in [0, 79.6] |
| Controller.MergeValidity | space/src/main/java/com/space/controller/ShipController.java:115-138 | a patch of valid fields on a valid record passes re-validation, and a patch with one invalid field fails it |
| Controller.ApplyPatch | space/src/main/java/com/space/controller/ShipController.java:115-134 | each non-null patch field overwrites the stored value, each null one keeps it, and the id and rating are never taken from the patch |
| Controller.DistinctCount | space/src/main/java/com/space/controller/ShipController.java:59 | the size of a list without repeats is the number of distinct ships in it |
| Controller.ShipController.GetShips | space/src/main/java/com/space/controller/ShipController.java:26-44 | the answer is getShipsByPage applied to a list holding each stored ship that matches every criterion exactly once; so it is sorted by the chosen key, at most pageSize long, and holds no ship twice |
| Controller.ShipController.ShipsCount | space/src/main/java/com/space/controller/ShipController.java:47-60 | the count is the number of stored ships matching every criterion |
| Controller.ShipController.GetShip | space/src/main/java/com/space/controller/ShipController.java:63-72 | BadRequest for an id below 1, NotFound for an unknown id, otherwise the stored ship |
| Controller.ShipController.DeleteShip | space/src/main/java/com/space/controller/ShipController.java:75-84 | BadRequest for an id below 1 and NotFound for an unknown id leave the store unchanged; otherwise exactly that id is removed |
| Controller.ShipController.CreateShip | space/src/main/java/com/space/controller/ShipController.java:87-97 | an invalid body is refused and nothing is stored; a valid one is stored once under a new id, the next id moves on by one, with the body's fields, isUsed defaulting to false and the rating computed by the formula |
| Controller.ShipController.UpdateShip | space/src/main/java/com/space/controller/ShipController.java:108-143 | BadRequest for an id below 1 and NotFound for an unknown id leave the store unchanged; otherwise the merged record is refused without saving if it fails checkShip, or else gets its rating recomputed and replaces the stored record |

## Left out

- Spring wiring, request binding, `ResponseEntity`, JSON and HTTP status codes are not modelled; the endpoints answer an `Outcome`.
- The JPA repository is an in-memory map; `findAll` order, transactions, flushing and storage errors are not modelled. `FindAll` lists the stored ships in an unspecified order.
- Service.ShipService.UpdateShip: requires a stored id, because the controller only calls it after `getShip` found the record; `save` of an unknown id is not modelled.
- Service.ShipService.CreateShip: the saved record is returned, while the Java controller returns the request object it passed to `save`; both carry the same fields once the id is assigned.
- `ShipService.java` only declares the signatures of `ShipServiceImpl` and is not part of this model.
- IEEE-754 doubles are modelled as exact reals. `speed*100` and the rating formula are not rounded in binary. For example, 0.285*100 is 28.499999999999996 as a double, so Java rounds that speed to 0.28 where the real-number model rounds it to 0.29.
- `GregorianCalendar` year extraction depends on the default time zone and is not modelled: the year is part of the production date.
- Validation.CalculateRating: requires year <= 3019. The Java code divides by zero (giving Infinity) or by a negative number for later years. It is only called on records that passed checkShip.
- Paging.GetShipsByPage: requires a non-negative page number and page size. Java throws when `pageNumber*pageSize` or `pageSize` is negative, and that exception is not modelled. The precondition also excludes the one negative input Java accepts: a negative page number with page size 0, for which Java returns an empty page.
- A null path id (`id == null`) cannot be expressed; the id is an `int`.
- The `isUsed` filter compares `Boolean` objects with `==`; the model compares the values.
- Name and planet length is counted in Dafny characters, not UTF-16 code units.
- The sources of `Ship`, `ShipType` and `ShipOrder` are not part of this model. The type values are Transport, Military and Merchant. The orders are id, speed, prodDate and rating, as used by `getComparator`.
- `updateShip` changes the fetched entity in memory before validating it; whether that change reaches the store without `save` depends on JPA and is not modelled.
- Concurrent requests are not modelled.
