/** The ship entity of the service: its enumerated attributes, its value form (every field
    nullable, as the JSON body and the entity class allow) and the mutable entity object that
    the write path updates through its setters. */
module ShipModel {

  /** A nullable value: `None` stands for Java's `null`. */
  datatype Option<+T> = None | Some(value: T) {
    /** The value, or `default` when absent. */
    function GetOr(default: T): T {
      if Some? then value else default
    }
  }

  /** The ship classes a ship can belong to. */
  datatype ShipType = Transport | Military | Merchant

  /** The sort keys a listing can be ordered by (ascending). */
  datatype ShipOrder = Id | Name | Planet | Date | Speed | CrewSize | Rating

  /** A production date: the raw timestamp in milliseconds and the calendar year the platform's
      date library reports for it; the year is taken as given, not derived from the timestamp. */
  datatype ProdDate = ProdDate(time: int, year: int)

  /** A snapshot of all fields of a ship, each possibly null. */
  datatype ShipData = ShipData(
    id: Option<int>,
    name: Option<string>,
    planet: Option<string>,
    shipType: Option<ShipType>,
    prodDate: Option<ProdDate>,
    used: Option<bool>,
    speed: Option<real>,
    crewSize: Option<int>,
    rating: Option<real>)

  /** The ship with every field null: the patch that changes nothing. */
  const NoFields: ShipData := ShipData(None, None, None, None, None, None, None, None, None)

  /** A ship entity object whose fields the service changes one setter at a time. */
  class Ship {
    var id: Option<int>
    var name: Option<string>
    var planet: Option<string>
    var shipType: Option<ShipType>
    var prodDate: Option<ProdDate>
    var used: Option<bool>
    var speed: Option<real>
    var crewSize: Option<int>
    var rating: Option<real>

    /** The current field values of this object. */
    function Data(): ShipData
      reads this
    {
      ShipData(id, name, planet, shipType, prodDate, used, speed, crewSize, rating)
    }

    // The setters: each replaces one field and leaves the others as they are.

    method SetId(id: Option<int>)
      modifies this
      ensures Data() == old(Data()).(id := id)
    {
      this.id := id;
    }

    method SetName(name: Option<string>)
      modifies this
      ensures Data() == old(Data()).(name := name)
    {
      this.name := name;
    }

    method SetPlanet(planet: Option<string>)
      modifies this
      ensures Data() == old(Data()).(planet := planet)
    {
      this.planet := planet;
    }

    method SetShipType(shipType: Option<ShipType>)
      modifies this
      ensures Data() == old(Data()).(shipType := shipType)
    {
      this.shipType := shipType;
    }

    method SetProdDate(prodDate: Option<ProdDate>)
      modifies this
      ensures Data() == old(Data()).(prodDate := prodDate)
    {
      this.prodDate := prodDate;
    }

    method SetUsed(used: Option<bool>)
      modifies this
      ensures Data() == old(Data()).(used := used)
    {
      this.used := used;
    }

    method SetSpeed(speed: Option<real>)
      modifies this
      ensures Data() == old(Data()).(speed := speed)
    {
      this.speed := speed;
    }

    method SetCrewSize(crewSize: Option<int>)
      modifies this
      ensures Data() == old(Data()).(crewSize := crewSize)
    {
      this.crewSize := crewSize;
    }

    method SetRating(rating: Option<real>)
      modifies this
      ensures Data() == old(Data()).(rating := rating)
    {
      this.rating := rating;
    }

    /** An entity object holding the given field values (a row loaded from storage). */
    constructor (d: ShipData)
      ensures Data() == d
    {
      id, name, planet, shipType, prodDate := d.id, d.name, d.planet, d.shipType, d.prodDate;
      used, speed, crewSize, rating := d.used, d.speed, d.crewSize, d.rating;
    }
  }
}
