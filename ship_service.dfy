/** The ship service: reads, writes and deletes ship rows in a repository keyed by id, and
    lists and counts the rows a query admits. Failures are the HTTP statuses the service raises. */
module Service {
  import opened ShipModel
  import opened ShipSpecifications
  import opened Repository
  import opened ShipRules

  /** The statuses a failed request ends with. `InternalServerError` is the answer to the
      paging library rejecting a negative page number or a page size below one. */
  datatype HttpStatus = BadRequest | NotFound | InternalServerError

  datatype Result<T> = Ok(value: T) | Err(status: HttpStatus)

  /** Default listing parameters applied when the request leaves them out. */
  const DefaultOrder: ShipOrder := Id
  const DefaultPageNumber: int := 0
  const DefaultPageSize: int := 3

  /** An id the service accepts to look up: present and positive. */
  predicate WellFormedId(id: Option<int>) {
    id.Some? && id.value > 0
  }

  class ShipService {
    /** The ship table, by id. */
    var repo: map<int, ShipData>
    /** The id the storage gives the next new row. */
    var nextId: int

    /** Every row is filed under its own positive id, below the next id to hand out. */
    ghost predicate Valid()
      reads this
    {
      0 < nextId && forall k :: k in repo ==> 0 < k < nextId && repo[k].id == Some(k)
    }

    /** Every row is in the state the write path leaves it in. */
    ghost predicate StoredNormalised()
      reads this
    {
      forall k :: k in repo ==> Normalised(repo[k])
    }

    /** A service over an existing table whose ids lie below `firstFreeId`. */
    constructor (table: map<int, ShipData>, firstFreeId: int)
      requires 0 < firstFreeId
      requires forall k :: k in table ==> 0 < k < firstFreeId && table[k].id == Some(k)
      ensures Valid()
      ensures repo == table && nextId == firstFreeId
    {
      repo := table;
      nextId := firstFreeId;
    }

    /** The storage's save: a row whose id is stored replaces that row; any other row is
        inserted under a freshly generated id. */
    method Store(d: ShipData) returns (stored: ShipData)
      requires Valid()
      modifies this
      ensures Valid()
      ensures stored == d.(id := stored.id) && stored.id.Some?
      ensures d.id.Some? && d.id.value in old(repo) ==> stored.id == d.id && nextId == old(nextId)
      ensures !(d.id.Some? && d.id.value in old(repo)) ==>
        stored.id == Some(old(nextId)) && nextId == old(nextId) + 1
      ensures repo == old(repo)[stored.id.value := stored]
    {
      if d.id.Some? && d.id.value in repo {
        stored := d;
      } else {
        stored := d.(id := Some(nextId));
        nextId := nextId + 1;
      }
      repo := repo[stored.id.value := stored];
    }

    /** The ship stored under `id`: BadRequest for a null or non-positive id, NotFound for an
        id with no row. */
    method GetShipById(id: Option<int>) returns (r: Result<ShipData>)
      ensures !WellFormedId(id) ==> r == Err(BadRequest)
      ensures WellFormedId(id) && id.value !in repo ==> r == Err(NotFound)
      ensures WellFormedId(id) && id.value in repo ==> r == Ok(repo[id.value])
      ensures r.Ok? <==> WellFormedId(id) && id.value in repo
    {
      if id.None? || id.value <= 0 {
        return Err(BadRequest);
      }
      if id.value !in repo {
        return Err(NotFound);
      }
      r := Ok(repo[id.value]);
    }

    /** The normalisation before validation: the speed is rounded to two decimals and a null
        usage flag is set to false. */
    static method Prepare(ship: Ship)
      modifies ship
      ensures ship.Data() == Prepared(old(ship.Data()))
    {
      if ship.speed.Some? {
        ship.SetSpeed(Some(Round2d(ship.speed.value)));
      }
      if ship.used.None? {
        ship.SetUsed(Some(false));
      }
    }

    /** Normalises `ship` (rounded speed, usage flag false when absent), rejects it with
        BadRequest when it is then invalid, and otherwise overwrites its rating with the
        derived one and stores it. A rejected ship leaves the table untouched. */
    method SaveShip(ship: Ship) returns (r: Result<ShipData>)
      requires Valid()
      modifies this, ship
      ensures Valid()
      ensures old(StoredNormalised()) ==> StoredNormalised()
      ensures Saved(old(ship.Data())).None? ==>
        && r == Err(BadRequest)
        && repo == old(repo) && nextId == old(nextId)
        && ship.Data() == Prepared(old(ship.Data()))
      ensures Saved(old(ship.Data())).Some? ==>
        && r.Ok? && r.value.id.Some?
        && r.value == Saved(old(ship.Data())).value.(id := r.value.id)
        && Normalised(r.value)
        && repo == old(repo)[r.value.id.value := r.value]
        && (old(ship.id).Some? && old(ship.id).value in old(repo) ==>
              r.value.id == old(ship.id) && nextId == old(nextId))
        && (!(old(ship.id).Some? && old(ship.id).value in old(repo)) ==>
              r.value.id == Some(old(nextId)) && nextId == old(nextId) + 1)
        && ship.Data() == r.value
    {
      ghost var given := ship.Data();
      Prepare(ship);
      if !IsShipValid(ship.Data()) {
        return Err(BadRequest);
      }
      ship.SetRating(Some(GetRating(ship.Data())));
      SavedShip(given);
      var saved := ship.Data();
      assert Saved(given) == Some(saved);
      var stored := Store(saved);
      NormalisedWithId(saved, stored.id);
      ship.SetId(stored.id);
      r := Ok(stored);
    }

    /** Removes the row stored under `id`: BadRequest for a null or non-positive id, NotFound
        for an id with no row; a removal removes that row and no other. */
    method DeleteShipById(id: Option<int>) returns (r: Result<()>)
      requires Valid()
      modifies this
      ensures Valid()
      ensures old(StoredNormalised()) ==> StoredNormalised()
      ensures nextId == old(nextId)
      ensures !WellFormedId(id) ==> r == Err(BadRequest) && repo == old(repo)
      ensures WellFormedId(id) && id.value !in old(repo) ==> r == Err(NotFound) && repo == old(repo)
      ensures WellFormedId(id) && id.value in old(repo) ==> r == Ok(()) && repo == old(repo) - {id.value}
    {
      if id.None? || id.value <= 0 {
        return Err(BadRequest);
      }
      if id.value !in repo {
        return Err(NotFound);
      }
      repo := repo - {id.value};
      r := Ok(());
    }

    /** Loads the row under `id` (with the lookup's errors), takes every non-null field of
        `shipData` among name, planet, ship type, production date, usage flag, speed and
        crew size, and saves the result, which re-validates it and re-derives its rating. */
    method UpdateShip(id: Option<int>, shipData: ShipData) returns (r: Result<ShipData>)
      requires Valid()
      modifies this
      ensures Valid()
      ensures old(StoredNormalised()) ==> StoredNormalised()
      ensures nextId == old(nextId)
      ensures !WellFormedId(id) ==> r == Err(BadRequest) && repo == old(repo)
      ensures WellFormedId(id) && id.value !in old(repo) ==> r == Err(NotFound) && repo == old(repo)
      ensures WellFormedId(id) && id.value in old(repo) ==>
        var stored := old(repo)[id.value];
        var merged := Merge(stored, shipData);
        && (Saved(merged).None? ==> r == Err(BadRequest) && repo == old(repo))
        && (Saved(merged).Some? ==>
              && r == Ok(Saved(merged).value)
              && r.value.id == Some(id.value)
              && Normalised(r.value)
              && repo == old(repo)[id.value := r.value])
    {
      var found := GetShipById(id);
      if found.Err? {
        return Err(found.status);
      }
      var ship := new Ship(found.value);
      CopyPresentFields(ship, shipData);
      r := SaveShip(ship);
    }

    /** The setter calls of an update: each non-null field of `shipData` among name, planet,
        ship type, production date, usage flag, speed and crew size is copied onto `ship`. */
    static method CopyPresentFields(ship: Ship, shipData: ShipData)
      modifies ship
      ensures ship.Data() == Merge(old(ship.Data()), shipData)
    {
      if shipData.name.Some? { ship.SetName(shipData.name); }
      if shipData.planet.Some? { ship.SetPlanet(shipData.planet); }
      if shipData.shipType.Some? { ship.SetShipType(shipData.shipType); }
      if shipData.prodDate.Some? { ship.SetProdDate(shipData.prodDate); }
      if shipData.used.Some? { ship.SetUsed(shipData.used); }
      if shipData.speed.Some? { ship.SetSpeed(shipData.speed); }
      if shipData.crewSize.Some? { ship.SetCrewSize(shipData.crewSize); }
    }

    /** Page `pageNumber` of `pageSize` ships among those the query admits, in ascending order
        of `order`; the defaults are order by id, page 0 and page size 3. `ordered` gives, for
        each sort key, the stored rows as the storage sorts them by that key. */
    static method ListAllShips(q: Query, order: Option<ShipOrder>, pageNumber: Option<int>, pageSize: Option<int>,
                        ordered: ShipOrder -> seq<ShipData>)
      returns (r: Result<seq<ShipData>>)
      ensures var n, size := pageNumber.GetOr(DefaultPageNumber), pageSize.GetOr(DefaultPageSize);
        && (r.Err? <==> n < 0 || size < 1)
        && (r.Err? ==> r.status == InternalServerError)
        && (r.Ok? ==>
              var admitted := Filtered(ordered(order.GetOr(DefaultOrder)), FullSpecification(q));
              && r.value == PageOf(admitted, n, size)
              && |r.value| <= size
              && (forall s :: s in r.value ==> Matches(FullSpecification(q), s)))
    {
      var sortKey := DefaultOrder;
      if order.Some? { sortKey := order.value; }
      var page := DefaultPageNumber;
      if pageNumber.Some? { page := pageNumber.value; }
      var size := DefaultPageSize;
      if pageSize.Some? { size := pageSize.value; }
      if page < 0 || size < 1 {
        return Err(InternalServerError);
      }
      var spec := FullSpecification(q);
      var admitted := Filtered(ordered(sortKey), spec);
      var result := PageOf(admitted, page, size);
      r := Ok(result);
    }

    /** The number of stored rows the query admits, narrowed to a Java `int`. */
    static function GetCount(q: Query, rows: seq<ShipData>): (n: int)
      ensures -0x8000_0000 <= n < 0x8000_0000
      ensures |rows| < 0x8000_0000 ==> 0 <= n <= |rows|
      ensures |rows| < 0x8000_0000 && q == NoFilter ==> n == |rows|
    {
      ToInt32(|Filtered(rows, FullSpecification(q))|)
    }
  }

  /** Count and listing see the same admitted rows: whatever order the storage lists the rows
      in, the count is the number of admitted rows the pages are cut from. */
  lemma CountAgreesWithListing(q: Query, rows: seq<ShipData>, sorted: seq<ShipData>)
    requires multiset(sorted) == multiset(rows)
    requires |rows| < 0x8000_0000
    ensures ShipService.GetCount(q, rows) == |Filtered(sorted, FullSpecification(q))|
  {
    FilteredCountIgnoresOrder(rows, sorted, FullSpecification(q));
  }

  /** Deleting a ship and then looking it up again gives NotFound. */
  method DeleteThenGet(service: ShipService, id: int) returns (r: Result<ShipData>)
    requires service.Valid()
    requires id > 0 && id in service.repo
    modifies service
    ensures r == Err(NotFound)
  {
    var deleted := service.DeleteShipById(Some(id));
    assert deleted.Ok?;
    r := service.GetShipById(Some(id));
  }
}
