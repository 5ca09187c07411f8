# Ship service: a verified Dafny model

This project models the decision logic of a CRUD web service for spaceship records: the
write path of `ShipService` (field validation, the derived rating with its half-up rounding
to two decimals, the normalisation done before a ship is stored, the partial-merge update,
the id guards and not-found errors of get and delete, and the listing defaults), and the
filter builder `ShipSpecifications` (twelve optional per-field conditions, each "no
condition" when its input is null, chained by conjunction).

## Layout

- `ship_model.dfy`, module `ShipModel`: `Option` for Java's nullable values, the enumerations
  `ShipType` and `ShipOrder`, the production date `ProdDate(time, year)`, the value snapshot
  `ShipData` of all nine ship fields, and the entity class `Ship`, whose setters the write
  path calls.
- `ship_specifications.dfy`, module `ShipSpecifications`: the condition a specification hands
  to the storage (`Predicate`), what it means for a row (`Holds`, `Matches`), SQL `LIKE` with
  `%`, the composition of two specifications (`Conjoin`), the twelve per-field specifications,
  `FullSpecification`, and an independent reference meaning of a query (`Satisfies`).
- `repository.dfy`, module `Repository`: what the service needs from the storage when it
  lists and counts: the rows a specification admits (`Filtered`) and one page of an ordered
  result (`PageOf`).
- `ship_rules.dfy`, module `ShipRules`: `IsShipValid`, `Round2d`, `GetRating`, the
  normalisation `Prepared`, the stored form `Saved`, the update merge `Merge`, and the narrowing
  of a `long` count to an `int`.
- `ship_service.dfy`, module `Service`: the class `ShipService`. It holds the ship table as a
  map from id to `ShipData` and the id the storage hands out next. Its methods mirror the
  Java service.

Modelling decisions:

- A Spring `Specification` is modelled by the predicate it yields. `None` is the null
  predicate, which the storage reads as "no condition". `Conjoin` follows Spring's
  composition rule: a null side is dropped, and two predicates are joined with `And`.
- Comparisons on a null column are never true, as in SQL.
- The year of a production date is a given attribute, next to the raw timestamp. It is not
  derived from the timestamp. The date filters compare raw timestamps.
- Speeds and ratings are `real`. `Round2d(x)` is `floor(x * 100 + 0.5) / 100`.
- HTTP errors are the `Err` side of `Result`: `BadRequest`, `NotFound`, and
  `InternalServerError`. The last one is what the paging library's argument check produces
  for a negative page number or a page size below one.
- The storage's `save` is `ShipService.Store`. A row whose id is already stored replaces
  that row. Any other row is inserted under a freshly generated id. So a create request that
  carries the id of a stored ship overwrites that ship.
- Listing and counting work on sequences of rows supplied by the storage, because sorting
  belongs to the storage. `ListAllShips` receives, for each sort key, the stored rows in the
  storage's order for that key. `GetCount` receives the stored rows in any order.
  `CountAgreesWithListing` proves that the order does not change the count.
- `com/space/model/Ship.java`, `ShipType.java` and `controller/ShipOrder.java` are not part
  of this model. `ShipType` and `ShipOrder` are declared here directly. The service
  itself only names `ShipOrder.ID`, its default (`ShipService.java:43`). The model gives
  `ShipOrder` seven keys, one per sortable field: id, name, planet, production date, speed,
  crew size and rating.

Two behaviours of the code that a reader might not expect, both modelled as written:

- The speed is rounded before it is validated (`ShipService.java:75-77`). So an input speed
  is accepted exactly when it lies in [0.005, 0.995), and it is stored rounded into
  [0.01, 0.99] (`ShipRules.SavedSpeedWindow`). 0.00 and 1.00 are still rejected.
- The count is the storage's `long` count cast to `int` (`ShipService.java:65`). It wraps
  modulo 2^32 (`ShipRules.ToInt32`). This only differs from the true count beyond 2^31 - 1
  rows.

## Model

| member | source | states |
|---|---|---|
| `ShipSpecifications.NameSpec` | src/main/java/com/space/service/ShipSpecifications.java:10-12 | no condition for a null name; otherwise admits exactly the ships whose name matches `LIKE "%" + name + "%"` |
| `ShipSpecifications.PlanetSpec` | src/main/java/com/space/service/ShipSpecifications.java:14-16 | no condition for a null planet; otherwise admits exactly the ships whose planet matches `LIKE "%" + planet + "%"` |
| `ShipSpecifications.ShipTypeSpec` | src/main/java/com/space/service/ShipSpecifications.java:18-20 | no condition for a null type; otherwise exact equality of the ship type |
| `ShipSpecifications.DateAfterSpec` | src/main/java/com/space/service/ShipSpecifications.java:22-24 | no condition for null; otherwise production timestamp >= after (inclusive) |
| `ShipSpecifications.DateBeforeSpec` | src/main/java/com/space/service/ShipSpecifications.java:26-28 | no condition for null; otherwise production timestamp <= before (inclusive) |
| `ShipSpecifications.UsedSpec` | src/main/java/com/space/service/ShipSpecifications.java:30-32 | no condition for null; otherwise exact equality of the usage flag |
| `ShipSpecifications.SpeedMinSpec` | src/main/java/com/space/service/ShipSpecifications.java:34-36 | no condition for null; otherwise speed >= minSpeed (inclusive) |
| `ShipSpecifications.SpeedMaxSpec` | src/main/java/com/space/service/ShipSpecifications.java:38-40 | no condition for null; otherwise speed <= maxSpeed (inclusive) |
| `ShipSpecifications.CrewMinSpec` | src/main/java/com/space/service/ShipSpecifications.java:42-44 | no condition for null; otherwise crew size >= minCrewSize (inclusive) |
| `ShipSpecifications.CrewMaxSpec` | src/main/java/com/space/service/ShipSpecifications.java:46-48 | no condition for null; otherwise crew size <= maxCrewSize (inclusive) |
| `ShipSpecifications.RatingMinSpec` | src/main/java/com/space/service/ShipSpecifications.java:50-52 | no condition for null; otherwise rating >= minRating (inclusive) |
| `ShipSpecifications.RatingMaxSpec` | src/main/java/com/space/service/ShipSpecifications.java:54-56 | no condition for null; otherwise rating <= maxRating (inclusive) |
| `ShipSpecifications.Conjoin` | src/main/java/com/space/service/ShipSpecifications.java:71-83 | `.and` yields no condition only when both sides yield none, and admits a ship iff both sides admit it |
| `ShipSpecifications.ContainsPatternMeaning` | src/main/java/com/space/service/ShipSpecifications.java:11 | the pattern `"%" + x + "%"` matches every text containing `x`, and only those when `x` holds no `%` |
| `ShipSpecifications.FullSpecification` | src/main/java/com/space/service/ShipSpecifications.java:58-84 | the twelve per-field specifications chained with `Conjoin` in the source's order; what it admits is stated by the four lemmas below |
| `ShipSpecifications.FullSpecificationIsConjunction` | src/main/java/com/space/service/ShipSpecifications.java:58-84 | the full specification admits a ship iff each of the twelve per-field specifications admits it |
| `ShipSpecifications.FullSpecificationMeaning` | src/main/java/com/space/service/ShipSpecifications.java:58-84 | a ship meeting every non-null input (substring, equality, inclusive bounds) is admitted; without `%` in the text inputs, admitted iff it meets every non-null input |
| `ShipSpecifications.NoFilterMatchesAll` | src/main/java/com/space/service/ShipSpecifications.java:58-84 | with all twelve inputs null there is no condition and every ship is admitted |
| `ShipSpecifications.NullSpecificationOnlyWithoutInputs` | src/main/java/com/space/service/ShipSpecifications.java:58-84 | the full specification yields no condition only when every input is null |
| `ShipSpecifications.NarrowingNeverEnlarges` | src/main/java/com/space/service/ShipSpecifications.java:71-83 | adding non-null inputs never admits a ship that was not admitted before |
| `ShipSpecifications.ConjoinOrderIrrelevant` | src/main/java/com/space/service/ShipSpecifications.java:71-83 | the conjunction is commutative and associative in what it admits |
| `Repository.Filtered` | src/main/java/com/space/service/ShipService.java:47 | the storage keeps exactly the admitted rows, at most as many as there are rows, and all rows for a null predicate |
| `Repository.FilteredKeepsOrder` | src/main/java/com/space/service/ShipService.java:47 | filtering keeps the order of the rows: filtering a + b is filtering a followed by filtering b |
| `Repository.PageOf` | src/main/java/com/space/service/ShipService.java:46-48 | a page holds at most pageSize rows, the rows from offset pageNumber * pageSize on, and is empty past the end |
| `Repository.FirstPageIsPrefix` | src/main/java/com/space/service/ShipService.java:44-46 | the first page is the first pageSize rows, or all rows when fewer |
| `Repository.RowOnItsPage` | src/main/java/com/space/service/ShipService.java:46-48 | row j lies on page j / pageSize at position j % pageSize |
| `Repository.FilteredMultiset` | src/main/java/com/space/service/ShipService.java:65 | the admitted rows hold every copy of an admitted row and no copy of any other |
| `Repository.FilteredCountIgnoresOrder` | src/main/java/com/space/service/ShipService.java:65-66 | the number of admitted rows does not depend on the order of the rows |
| `Repository.NarrowingNeverCountsMore` | src/main/java/com/space/service/ShipService.java:65-66 | a query with more non-null inputs never counts more rows |
| `ShipRules.Round2d` | src/main/java/com/space/service/ShipService.java:129-131 | the result is a whole number of hundredths r with r - 0.005 <= x < r + 0.005 (nearest, ties up) |
| `ShipRules.Round2dUnique` | src/main/java/com/space/service/ShipService.java:129-131 | that window determines the result: any two-decimal r in it is `Round2d(x)` |
| `ShipRules.Round2dIdempotent` | src/main/java/com/space/service/ShipService.java:129-131 | a value already at two decimals is returned unchanged; rounding twice equals rounding once |
| `ShipRules.Round2dMonotonic` | src/main/java/com/space/service/ShipService.java:129-131 | rounding preserves order |
| `ShipRules.IsShipValid` | src/main/java/com/space/service/ShipService.java:100-117 | valid iff name, planet, type, date, speed and crew size are present, name and planet have 1..50 UTF-16 code units (Java's `length()`), 0.01 <= speed <= 0.99, 1 <= crew <= 9999, timestamp >= 0 and 2800 <= year <= 3019 |
| `ShipRules.Utf16Length` | src/main/java/com/space/service/ShipService.java:109-110 | the `length()` of a Java string: between the number of characters and twice that, and equal to it when every character is at most U+FFFF |
| `ShipRules.AstralTextCountsTwice` | src/main/java/com/space/service/ShipService.java:109-110 | a text of characters beyond U+FFFF has a `length()` of twice its characters, so 26 such characters exceed the limit of 50 |
| `ShipRules.ValidityBoundaries` | src/main/java/com/space/service/ShipService.java:109-115 | 0.01, 0.99, 1, 9999, 2800, 3019 and texts of length 50 are accepted; 0.00, 1.00, 0, 10000, 2799, 3020, timestamp -1, empty texts and texts of length 51 are rejected |
| `ShipRules.GetRating` | src/main/java/com/space/service/ShipService.java:119-127 | the rating is the two-decimal half-up rounding of 80 * speed / (3019 - year + 1), halved for a used ship before the one rounding |
| `ShipRules.RatingExample` | src/main/java/com/space/service/ShipService.java:119-127 | speed 0.50, year 2800 rates 0.18, or 0.09 when used |
| `ShipRules.RatingBounds` | src/main/java/com/space/service/ShipService.java:119-127 | for a valid ship the divisor lies in [1, 220] and the rating in [0, 79.2] |
| `ShipRules.UsedNeverRatesHigher` | src/main/java/com/space/service/ShipService.java:125-126 | a used ship never rates higher than the same ship unused |
| `ShipRules.Prepared` | src/main/java/com/space/service/ShipService.java:75-76 | before validation the speed is rounded, a null usage flag becomes false, and nothing else changes |
| `ShipRules.Saved` | src/main/java/com/space/service/ShipService.java:74-78 | the ship saving stores, or None when it is rejected: prepared, validated, and given the derived rating; its properties are stated by `SavedShip` and the lemmas after it |
| `ShipRules.SavedShip` | src/main/java/com/space/service/ShipService.java:74-79 | a ship is stored iff it is valid after normalisation; the stored ship is normalised, keeps the other fields, has usage flag false when absent, rounded speed, and the derived rating |
| `ShipRules.SavedIgnoresSuppliedRating` | src/main/java/com/space/service/ShipService.java:78 | the rating the caller supplies has no effect on what is stored |
| `ShipRules.SavedSpeedWindow` | src/main/java/com/space/service/ShipService.java:75-77 | since validation sees the rounded speed, an otherwise valid ship is stored iff its input speed lies in [0.005, 0.995) |
| `ShipRules.SavedIdempotent` | src/main/java/com/space/service/ShipService.java:74-79 | saving a ship already in stored form changes nothing |
| `ShipRules.NormalisedWithId` | src/main/java/com/space/service/ShipService.java:79 | the stored form does not depend on the id the storage gives the row |
| `ShipRules.Merge` | src/main/java/com/space/service/ShipService.java:90-96 | the stored ship with each non-null patch field among the seven copied over; its properties are stated by `UpdatedShip` and the lemmas after it |
| `ShipRules.UpdatedShip` | src/main/java/com/space/service/ShipService.java:88-97 | an update stores the stored ship with exactly the non-null patch fields among name, planet, type, date, usage, speed and crew size; it keeps the stored id, never copies the patch's id or rating, and re-derives the rating |
| `ShipRules.EmptyUpdateChangesNothing` | src/main/java/com/space/service/ShipService.java:88-97 | an update whose patch supplies none of the seven fields leaves a stored ship unchanged |
| `ShipRules.NameOnlyUpdate` | src/main/java/com/space/service/ShipService.java:88-97 | updating only the name keeps every other field; the rating is re-derived from the merged ship |
| `ShipRules.ToInt32` | src/main/java/com/space/service/ShipService.java:65 | the `(int)` cast gives the 32-bit value congruent to the count modulo 2^32, and the count itself when it fits |
| `Service.ShipService.constructor` | src/main/java/com/space/service/ShipService.java:22-24 | a service over an existing table whose rows are filed under their own ids |
| `Service.ShipService.Store` | src/main/java/com/space/service/ShipService.java:79 | the storage's save replaces the row under a stored id, or else inserts the row under a fresh id; nothing else changes |
| `Service.ShipService.GetShipById` | src/main/java/com/space/service/ShipService.java:69-72 | BadRequest for a null or non-positive id, NotFound for an absent id, else the stored ship |
| `Service.ShipService.Prepare` | src/main/java/com/space/service/ShipService.java:75-76 | the entity's speed is rounded and a null usage flag set to false (the new state is `Prepared` of the old) |
| `Service.ShipService.SaveShip` | src/main/java/com/space/service/ShipService.java:74-80 | an invalid ship gives BadRequest and the table is unchanged; otherwise the stored form of the ship (rating overwritten) is saved and returned, under the ship's own id when that id is stored (next id unchanged), otherwise under the next id, which then advances; every stored ship stays normalised |
| `Service.ShipService.DeleteShipById` | src/main/java/com/space/service/ShipService.java:82-86 | BadRequest for a null or non-positive id, NotFound for an absent id, else exactly that id is removed and every other row is unchanged |
| `Service.ShipService.UpdateShip` | src/main/java/com/space/service/ShipService.java:88-98 | the lookup's BadRequest/NotFound with the table unchanged; else the merged ship goes through saving: BadRequest and no change when invalid, otherwise it is stored under the same id; the next id never changes |
| `Service.ShipService.CopyPresentFields` | src/main/java/com/space/service/ShipService.java:90-96 | the setters copy exactly the non-null patch fields onto the entity (`Merge` of the old state) |
| `Service.ShipService.ListAllShips` | src/main/java/com/space/service/ShipService.java:26-49 | order defaults to id, page number to 0 and page size to 3; a negative page or a size below one is an error; otherwise the page of the admitted rows, of at most pageSize ships, each admitted by the full specification |
| `Service.ShipService.GetCount` | src/main/java/com/space/service/ShipService.java:51-67 | the count of admitted rows cast to `int`; between 0 and the number of rows, and all rows with no filter |
| `Service.CountAgreesWithListing` | src/main/java/com/space/service/ShipService.java:43-66 | the count equals the number of admitted rows the listing pages through, whatever the storage's order |
| `Service.DeleteThenGet` | src/main/java/com/space/service/ShipService.java:82-86 | after deleting a stored ship, looking it up gives NotFound |

## Left out

- HTTP routing and parameter binding in `ShipController`: every handler only forwards to the service.
- Spring Data and JPA: the repository, the translation of specifications to SQL, `@Transactional` rollback and the persistence context. An error path leaves the table as it was, which is what the rollback achieves.
- The managed entity that `getShipById` returns: `UpdateShip` copies the stored row into a fresh `Ship` object. Aliasing between that object and the storage is not modelled.
- SQL `LIKE` details: the `_` wildcard, escape characters and database collation (case sensitivity). `%` typed by a user acts as a wildcard in the model, as in SQL. The substring reading of the two text filters is proved for inputs without `%`.
- IEEE double behaviour: the representation error at 0.01 and 0.99, and `Math.floor` on binary doubles. Reals are used instead.
- Deriving the year from the timestamp (`getYear() + 1900`), which is time-zone dependent. The year is a given attribute of the production date.
- Sorting by a key (`ShipOrder.getFieldName()`, `Sort.by(...)`): the storage supplies the rows already in order.
- `long` overflow of timestamps and ids, and the `int` width of crew sizes and page parameters.
- `ShipRules.GetRating`: requires the speed, the production date and the usage flag to be present and the year not to be 3020. A null field would throw `NullPointerException`. Year 3020 would divide by zero and give IEEE infinity. The only caller calls it after validation, which rules out both.
- Service.ShipService.ListAllShips: does not state that each `ordered(key)` is sorted by that key or holds exactly the stored rows; both are the storage's job.
