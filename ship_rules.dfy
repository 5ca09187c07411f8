/** The decision logic of the write path: field validation, the half-up rounding to two
    decimals, the derived rating, the normalisation done before a ship is stored, and the
    partial merge of an update. */
module ShipRules {
  import opened ShipModel

  // ---------------------------------------------------------------------------------------
  // Rounding

  /** `x` is a whole number of hundredths. */
  predicate TwoDecimals(x: real) {
    (x * 100.0).Floor as real == x * 100.0
  }

  /** Half-up rounding to two decimals: `floor(x * 100 + 0.5) / 100`. The result is the
      two-decimal value nearest to `x`, ties going up. */
  function Round2d(x: real): (r: real)
    ensures TwoDecimals(r)
    ensures r - 0.005 <= x < r + 0.005
  {
    var n := (x * 100.0 + 0.5).Floor;
    assert (n as real / 100.0) * 100.0 == n as real;
    n as real / 100.0
  }

  /** Round2d is the only two-decimal value within the half-up window around `x`. */
  lemma Round2dUnique(x: real, r: real)
    requires TwoDecimals(r) && r - 0.005 <= x < r + 0.005
    ensures Round2d(x) == r
  {
    var m := (r * 100.0).Floor;
    assert m as real <= x * 100.0 + 0.5 < m as real + 1.0;
    assert (x * 100.0 + 0.5).Floor == m;
  }

  /** A value already at two decimals is returned unchanged, so rounding twice is rounding once. */
  lemma Round2dIdempotent(x: real)
    ensures TwoDecimals(x) ==> Round2d(x) == x
    ensures Round2d(Round2d(x)) == Round2d(x)
  {
    if TwoDecimals(x) {
      Round2dUnique(x, x);
    }
    Round2dUnique(Round2d(x), Round2d(x));
  }

  /** Rounding never reverses the order of two values. */
  lemma Round2dMonotonic(x: real, y: real)
    requires x <= y
    ensures Round2d(x) <= Round2d(y)
  {
    assert (x * 100.0 + 0.5).Floor <= (y * 100.0 + 0.5).Floor;
  }

  // ---------------------------------------------------------------------------------------
  // Validation

  /** The length a Java string reports: the number of UTF-16 code units, so a character
      beyond the Basic Multilingual Plane (above U+FFFF) counts twice. */
  function Utf16Length(s: string): (n: nat)
    ensures |s| <= n <= 2 * |s|
    ensures (forall i :: 0 <= i < |s| ==> s[i] as int < 0x1_0000) ==> n == |s|
  {
    if s == [] then 0
    else (if s[0] as int < 0x1_0000 then 1 else 2) + Utf16Length(s[1..])
  }

  /** A text made only of characters beyond U+FFFF reports twice as many code units as it
      has characters. */
  lemma {:induction false} AstralTextCountsTwice(s: string)
    requires forall i :: 0 <= i < |s| ==> s[i] as int >= 0x1_0000
    ensures Utf16Length(s) == 2 * |s|
  {
    if s != [] {
      AstralTextCountsTwice(s[1..]);
    }
  }

  /** The checks a ship must pass before it is stored, in the order the service makes them. */
  function IsShipValid(s: ShipData): (valid: bool)
    ensures valid <==>
      && s.name.Some? && s.planet.Some? && s.shipType.Some?
      && s.prodDate.Some? && s.speed.Some? && s.crewSize.Some?
      && 1 <= Utf16Length(s.name.value) <= 50
      && 1 <= Utf16Length(s.planet.value) <= 50
      && 0.01 <= s.speed.value <= 0.99
      && 1 <= s.crewSize.value <= 9999
      && 0 <= s.prodDate.value.time
      && 2800 <= s.prodDate.value.year <= 3019
  {
    if s.name.None? || s.planet.None? || s.shipType.None? || s.prodDate.None? || s.speed.None? || s.crewSize.None? then
      false
    else if s.name.value == "" || Utf16Length(s.name.value) > 50 then false
    else if s.planet.value == "" || Utf16Length(s.planet.value) > 50 then false
    else if s.speed.value < 0.01 || s.speed.value > 0.99 then false
    else if s.crewSize.value < 1 || s.crewSize.value > 9999 then false
    else if s.prodDate.value.time < 0 then false
    else
      var year := s.prodDate.value.year;
      if year < 2800 || year > 3019 then false
      else true
  }

  /** The boundary values of a valid ship: each range is closed, and one step past either end
      is rejected. */
  lemma ValidityBoundaries(s: ShipData, text: string)
    requires IsShipValid(s)
    ensures IsShipValid(s.(speed := Some(0.01))) && IsShipValid(s.(speed := Some(0.99)))
    ensures !IsShipValid(s.(speed := Some(0.00))) && !IsShipValid(s.(speed := Some(1.00)))
    ensures IsShipValid(s.(crewSize := Some(1))) && IsShipValid(s.(crewSize := Some(9999)))
    ensures !IsShipValid(s.(crewSize := Some(0))) && !IsShipValid(s.(crewSize := Some(10000)))
    ensures IsShipValid(s.(prodDate := Some(ProdDate(s.prodDate.value.time, 2800))))
    ensures IsShipValid(s.(prodDate := Some(ProdDate(s.prodDate.value.time, 3019))))
    ensures !IsShipValid(s.(prodDate := Some(ProdDate(s.prodDate.value.time, 2799))))
    ensures !IsShipValid(s.(prodDate := Some(ProdDate(s.prodDate.value.time, 3020))))
    ensures !IsShipValid(s.(prodDate := Some(ProdDate(-1, s.prodDate.value.year))))
    ensures !IsShipValid(s.(name := Some(""))) && !IsShipValid(s.(planet := Some("")))
    ensures Utf16Length(text) == 50 ==> IsShipValid(s.(name := Some(text))) && IsShipValid(s.(planet := Some(text)))
    ensures Utf16Length(text) == 51 ==> !IsShipValid(s.(name := Some(text))) && !IsShipValid(s.(planet := Some(text)))
  {
  }

  // ---------------------------------------------------------------------------------------
  // Rating

  /** What the rating formula needs of a ship: the fields it reads are present and the year
      is not the one that would make the divisor zero. */
  predicate RatingDefined(s: ShipData) {
    s.prodDate.Some? && s.speed.Some? && s.used.Some? && s.prodDate.value.year != 3020
  }

  /** The rating before rounding: `80 * speed / (3019 - year + 1)`, halved for a used ship. */
  function RawRating(speed: real, year: int, used: bool): real
    requires year != 3020
  {
    var currentYear := 3019;
    var rating := 80.0 * speed / (currentYear - year + 1) as real;
    if used then rating / 2.0 else rating
  }

  /** The rating the service derives for a ship, rounded once, after any halving. */
  function GetRating(s: ShipData): (r: real)
    requires RatingDefined(s)
    ensures TwoDecimals(r)
    ensures r - 0.005 <= RawRating(s.speed.value, s.prodDate.value.year, s.used.value) < r + 0.005
  {
    Round2d(RawRating(s.speed.value, s.prodDate.value.year, s.used.value))
  }

  /** The worked example: speed 0.50 made in 2800 rates 0.18, or 0.09 when used. */
  lemma RatingExample(s: ShipData)
    requires s.speed == Some(0.5) && s.prodDate.Some? && s.prodDate.value.year == 2800 && s.used.Some?
    ensures GetRating(s) == if s.used.value then 0.09 else 0.18
  {
    assert RawRating(0.5, 2800, false) == 40.0 / 220.0;
    assert RawRating(0.5, 2800, true) == 40.0 / 220.0 / 2.0;
    if s.used.value {
      Round2dUnique(40.0 / 220.0 / 2.0, 0.09);
    } else {
      Round2dUnique(40.0 / 220.0, 0.18);
    }
  }

  /** For a valid ship the divisor lies in [1, 220], so the rating lies in [0, 79.2]. */
  lemma RatingBounds(s: ShipData)
    requires IsShipValid(s) && s.used.Some?
    ensures 1 <= 3019 - s.prodDate.value.year + 1 <= 220
    ensures 0.0 <= GetRating(s) <= 79.2
  {
    var speed, year := s.speed.value, s.prodDate.value.year;
    var d := (3019 - year + 1) as real;
    assert 1.0 <= d <= 220.0;
    var base := 80.0 * speed / d;
    assert base * d == 80.0 * speed;
    assert 0.0 < base <= 80.0 * speed;
    var raw := RawRating(speed, year, s.used.value);
    assert raw == if s.used.value then base / 2.0 else base;
    assert 0.0 < raw <= 79.2;
    Round2dMonotonic(0.0, raw);
    Round2dMonotonic(raw, 79.2);
    Round2dUnique(0.0, 0.0);
    Round2dUnique(79.2, 79.2);
  }

  /** Being used never raises a ship's rating. */
  lemma UsedNeverRatesHigher(s: ShipData)
    requires IsShipValid(s)
    ensures GetRating(s.(used := Some(true))) <= GetRating(s.(used := Some(false)))
  {
    var speed, year := s.speed.value, s.prodDate.value.year;
    var d := (3019 - year + 1) as real;
    var base := 80.0 * speed / d;
    assert base * d == 80.0 * speed && d > 0.0;
    assert base > 0.0;
    Round2dMonotonic(base / 2.0, base);
  }

  // ---------------------------------------------------------------------------------------
  // Saving

  /** The normalisation done before validation: the speed is rounded and a null usage flag
      becomes false; nothing else changes. */
  function Prepared(d: ShipData): (p: ShipData)
    ensures p.speed == if d.speed.Some? then Some(Round2d(d.speed.value)) else None
    ensures p.used == if d.used.Some? then d.used else Some(false)
    ensures p == d.(speed := p.speed, used := p.used)
  {
    var rounded := if d.speed.Some? then d.(speed := Some(Round2d(d.speed.value))) else d;
    if rounded.used.None? then rounded.(used := Some(false)) else rounded
  }

  /** The ship the service stores for `d`, or None when `d` is rejected: it is normalised,
      validated, and its rating overwritten with the derived one. The id is left as given. */
  function Saved(d: ShipData): Option<ShipData> {
    var p := Prepared(d);
    if IsShipValid(p) then Some(p.(rating := Some(GetRating(p)))) else None
  }

  /** The state of every ship as the service stores it. */
  predicate Normalised(d: ShipData) {
    && IsShipValid(d)
    && d.used.Some?
    && TwoDecimals(d.speed.value)
    && d.rating == Some(GetRating(d))
  }

  /** A saved ship is normalised and keeps the caller's fields apart from the speed (rounded),
      the usage flag (false when absent) and the rating (derived); an invalid ship is never saved. */
  lemma SavedShip(d: ShipData)
    ensures Saved(d).Some? <==> IsShipValid(Prepared(d))
    ensures Saved(d).Some? ==>
      var e := Saved(d).value;
      && Normalised(e)
      && e.id == d.id && e.name == d.name && e.planet == d.planet && e.shipType == d.shipType
      && e.prodDate == d.prodDate && e.crewSize == d.crewSize
      && e.used == Some(d.used.GetOr(false))
      && e.speed == Some(Round2d(d.speed.value))
      && e.rating == Some(GetRating(e))
  {
    if Saved(d).Some? {
      var p := Prepared(d);
      Round2dIdempotent(d.speed.value);
      assert Saved(d).value == p.(rating := Some(GetRating(p)));
    }
  }

  /** Whether a ship is normalised does not depend on its id. */
  lemma NormalisedWithId(e: ShipData, id: Option<int>)
    requires Normalised(e)
    ensures Normalised(e.(id := id))
  {
    assert GetRating(e.(id := id)) == GetRating(e);
  }

  /** A supplied rating has no effect on what is saved. */
  lemma SavedIgnoresSuppliedRating(d: ShipData, rating: Option<real>)
    ensures Saved(d.(rating := rating)) == Saved(d)
  {
  }

  /** Validation applies to the rounded speed: an input speed is accepted exactly when it lies
      in [0.005, 0.995), wider than the window [0.01, 0.99] of the rounded value. */
  lemma SavedSpeedWindow(d: ShipData)
    requires d.speed.Some?
    requires IsShipValid(d.(speed := Some(0.5)))
    ensures Saved(d).Some? <==> 0.005 <= d.speed.value < 0.995
  {
    var v := d.speed.value;
    var r := Round2d(v);
    if 0.005 <= v < 0.995 {
      Round2dMonotonic(0.005, v);
      Round2dUnique(0.005, 0.01);
      if v < 0.985 {
        Round2dMonotonic(v, 0.985);
        Round2dUnique(0.985, 0.99);
      } else {
        Round2dUnique(v, 0.99);
      }
    }
    if Saved(d).Some? {
      assert 0.01 <= r <= 0.99;
    }
  }

  /** Saving a ship as stored changes nothing. */
  lemma SavedIdempotent(e: ShipData)
    requires Normalised(e)
    ensures Saved(e) == Some(e)
  {
    Round2dIdempotent(e.speed.value);
    assert Prepared(e) == e;
  }

  // ---------------------------------------------------------------------------------------
  // Partial update

  /** The stored ship with each non-null field among name, planet, ship type, production date,
      usage flag, speed and crew size taken from the patch. */
  function Merge(stored: ShipData, patch: ShipData): ShipData {
    ShipData(
      stored.id,
      if patch.name.Some? then patch.name else stored.name,
      if patch.planet.Some? then patch.planet else stored.planet,
      if patch.shipType.Some? then patch.shipType else stored.shipType,
      if patch.prodDate.Some? then patch.prodDate else stored.prodDate,
      if patch.used.Some? then patch.used else stored.used,
      if patch.speed.Some? then patch.speed else stored.speed,
      if patch.crewSize.Some? then patch.crewSize else stored.crewSize,
      stored.rating)
  }

  /** What an update stores: the merged ship, normalised, with the stored id and a rating
      derived afresh, whatever id or rating the patch carries. */
  lemma UpdatedShip(stored: ShipData, patch: ShipData)
    requires Saved(Merge(stored, patch)).Some?
    ensures var e := Saved(Merge(stored, patch)).value;
      && Normalised(e)
      && e.id == stored.id
      && e.rating == Some(GetRating(e))
      && e.name == (if patch.name.Some? then patch.name else stored.name)
      && e.planet == (if patch.planet.Some? then patch.planet else stored.planet)
      && e.shipType == (if patch.shipType.Some? then patch.shipType else stored.shipType)
      && e.prodDate == (if patch.prodDate.Some? then patch.prodDate else stored.prodDate)
      && e.crewSize == (if patch.crewSize.Some? then patch.crewSize else stored.crewSize)
      && e.used == Some((if patch.used.Some? then patch.used else stored.used).GetOr(false))
      && e.speed == Some(Round2d((if patch.speed.Some? then patch.speed else stored.speed).value))
  {
    SavedShip(Merge(stored, patch));
  }

  /** An update that supplies no field leaves a stored ship exactly as it was. */
  lemma EmptyUpdateChangesNothing(stored: ShipData, patch: ShipData)
    requires Normalised(stored)
    requires patch.(id := None, rating := None) == NoFields
    ensures Saved(Merge(stored, patch)) == Some(stored)
  {
    assert Merge(stored, patch) == stored;
    SavedIdempotent(stored);
  }

  /** An update of the name alone keeps every other field and re-derives the rating. */
  lemma NameOnlyUpdate(stored: ShipData, name: string)
    requires Normalised(stored)
    requires 1 <= Utf16Length(name) <= 50
    ensures Saved(Merge(stored, NoFields.(name := Some(name)))) == Some(stored.(name := Some(name)))
  {
    var m := stored.(name := Some(name));
    assert Merge(stored, NoFields.(name := Some(name))) == m;
    assert Normalised(m);
    SavedIdempotent(m);
  }

  // ---------------------------------------------------------------------------------------
  // Integer width

  /** Java's narrowing of a `long` to an `int`: the 32-bit two's-complement value congruent
      to `n` modulo 2^32. */
  function ToInt32(n: int): (r: int)
    ensures -0x8000_0000 <= r < 0x8000_0000
    ensures (n - r) % 0x1_0000_0000 == 0
    ensures -0x8000_0000 <= n < 0x8000_0000 ==> r == n
  {
    var m := n % 0x1_0000_0000;
    if m >= 0x8000_0000 then m - 0x1_0000_0000 else m
  }
}
