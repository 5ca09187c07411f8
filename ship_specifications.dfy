/** The filter builder: twelve optional per-field conditions over a ship, each "no condition"
    when its input is null, chained by conjunction into one specification. A specification is
    modelled by the condition it hands to the storage: `None` when it yields no condition (a
    null predicate, which the storage reads as "match every row"), `Some(p)` otherwise. */
module ShipSpecifications {
  import opened ShipModel

  /** A condition on one column of the ship table, or the conjunction of two conditions. */
  datatype Predicate =
    | NameLike(pattern: string)
    | PlanetLike(pattern: string)
    | ShipTypeEquals(shipType: ShipType)
    | ProdDateAtLeast(after: int)
    | ProdDateAtMost(before: int)
    | UsedEquals(isUsed: bool)
    | SpeedAtLeast(minSpeed: real)
    | SpeedAtMost(maxSpeed: real)
    | CrewSizeAtLeast(minCrewSize: int)
    | CrewSizeAtMost(maxCrewSize: int)
    | RatingAtLeast(minRating: real)
    | RatingAtMost(maxRating: real)
    | And(left: Predicate, right: Predicate)

  /** SQL LIKE, with `%` matching any run of characters and every other character matching
      itself. A comparison with a null column is never true. */
  predicate Like(pattern: string, text: string)
    decreases |pattern| + |text|
  {
    if pattern == [] then text == []
    else if pattern[0] == '%' then Like(pattern[1..], text) || (text != [] && Like(pattern, text[1..]))
    else text != [] && text[0] == pattern[0] && Like(pattern[1..], text[1..])
  }

  /** Whether `p` is true of the row `s`; comparisons on a null column are not true. */
  predicate Holds(p: Predicate, s: ShipData) {
    match p
    case NameLike(pat) => s.name.Some? && Like(pat, s.name.value)
    case PlanetLike(pat) => s.planet.Some? && Like(pat, s.planet.value)
    case ShipTypeEquals(t) => s.shipType == Some(t)
    case ProdDateAtLeast(t) => s.prodDate.Some? && s.prodDate.value.time >= t
    case ProdDateAtMost(t) => s.prodDate.Some? && s.prodDate.value.time <= t
    case UsedEquals(b) => s.used == Some(b)
    case SpeedAtLeast(v) => s.speed.Some? && s.speed.value >= v
    case SpeedAtMost(v) => s.speed.Some? && s.speed.value <= v
    case CrewSizeAtLeast(n) => s.crewSize.Some? && s.crewSize.value >= n
    case CrewSizeAtMost(n) => s.crewSize.Some? && s.crewSize.value <= n
    case RatingAtLeast(v) => s.rating.Some? && s.rating.value >= v
    case RatingAtMost(v) => s.rating.Some? && s.rating.value <= v
    case And(l, r) => Holds(l, s) && Holds(r, s)
  }

  /** Whether a specification admits the row `s`: a null predicate admits every row. */
  predicate Matches(spec: Option<Predicate>, s: ShipData) {
    spec.None? || Holds(spec.value, s)
  }

  /** The composition `lhs.and(rhs)`: a null side is dropped, two conditions are conjoined. */
  function Conjoin(lhs: Option<Predicate>, rhs: Option<Predicate>): (r: Option<Predicate>)
    ensures r.None? <==> lhs.None? && rhs.None?
    ensures forall s :: Matches(r, s) <==> Matches(lhs, s) && Matches(rhs, s)
  {
    if lhs.None? then rhs
    else if rhs.None? then lhs
    else Some(And(lhs.value, rhs.value))
  }

  /** The `"%" + x + "%"` pattern of the two text filters. */
  function ContainsPattern(x: string): string {
    "%" + x + "%"
  }

  function NameSpec(name: Option<string>): (r: Option<Predicate>)
    ensures name.None? ==> r.None?
    ensures forall s :: Matches(r, s) <==>
      (name.None? || (s.name.Some? && Like(ContainsPattern(name.value), s.name.value)))
  {
    if name.None? then None else Some(NameLike(ContainsPattern(name.value)))
  }

  function PlanetSpec(planet: Option<string>): (r: Option<Predicate>)
    ensures planet.None? ==> r.None?
    ensures forall s :: Matches(r, s) <==>
      (planet.None? || (s.planet.Some? && Like(ContainsPattern(planet.value), s.planet.value)))
  {
    if planet.None? then None else Some(PlanetLike(ContainsPattern(planet.value)))
  }

  function ShipTypeSpec(shipType: Option<ShipType>): (r: Option<Predicate>)
    ensures shipType.None? ==> r.None?
    ensures forall s :: Matches(r, s) <==> (shipType.None? || s.shipType == shipType)
  {
    if shipType.None? then None else Some(ShipTypeEquals(shipType.value))
  }

  function DateAfterSpec(after: Option<int>): (r: Option<Predicate>)
    ensures after.None? ==> r.None?
    ensures forall s :: Matches(r, s) <==>
      (after.None? || (s.prodDate.Some? && after.value <= s.prodDate.value.time))
  {
    if after.None? then None else Some(ProdDateAtLeast(after.value))
  }

  function DateBeforeSpec(before: Option<int>): (r: Option<Predicate>)
    ensures before.None? ==> r.None?
    ensures forall s :: Matches(r, s) <==>
      (before.None? || (s.prodDate.Some? && s.prodDate.value.time <= before.value))
  {
    if before.None? then None else Some(ProdDateAtMost(before.value))
  }

  function UsedSpec(isUsed: Option<bool>): (r: Option<Predicate>)
    ensures isUsed.None? ==> r.None?
    ensures forall s :: Matches(r, s) <==> (isUsed.None? || s.used == isUsed)
  {
    if isUsed.None? then None else Some(UsedEquals(isUsed.value))
  }

  function SpeedMinSpec(minSpeed: Option<real>): (r: Option<Predicate>)
    ensures minSpeed.None? ==> r.None?
    ensures forall s :: Matches(r, s) <==>
      (minSpeed.None? || (s.speed.Some? && minSpeed.value <= s.speed.value))
  {
    if minSpeed.None? then None else Some(SpeedAtLeast(minSpeed.value))
  }

  function SpeedMaxSpec(maxSpeed: Option<real>): (r: Option<Predicate>)
    ensures maxSpeed.None? ==> r.None?
    ensures forall s :: Matches(r, s) <==>
      (maxSpeed.None? || (s.speed.Some? && s.speed.value <= maxSpeed.value))
  {
    if maxSpeed.None? then None else Some(SpeedAtMost(maxSpeed.value))
  }

  function CrewMinSpec(minCrewSize: Option<int>): (r: Option<Predicate>)
    ensures minCrewSize.None? ==> r.None?
    ensures forall s :: Matches(r, s) <==>
      (minCrewSize.None? || (s.crewSize.Some? && minCrewSize.value <= s.crewSize.value))
  {
    if minCrewSize.None? then None else Some(CrewSizeAtLeast(minCrewSize.value))
  }

  function CrewMaxSpec(maxCrewSize: Option<int>): (r: Option<Predicate>)
    ensures maxCrewSize.None? ==> r.None?
    ensures forall s :: Matches(r, s) <==>
      (maxCrewSize.None? || (s.crewSize.Some? && s.crewSize.value <= maxCrewSize.value))
  {
    if maxCrewSize.None? then None else Some(CrewSizeAtMost(maxCrewSize.value))
  }

  function RatingMinSpec(minRating: Option<real>): (r: Option<Predicate>)
    ensures minRating.None? ==> r.None?
    ensures forall s :: Matches(r, s) <==>
      (minRating.None? || (s.rating.Some? && minRating.value <= s.rating.value))
  {
    if minRating.None? then None else Some(RatingAtLeast(minRating.value))
  }

  function RatingMaxSpec(maxRating: Option<real>): (r: Option<Predicate>)
    ensures maxRating.None? ==> r.None?
    ensures forall s :: Matches(r, s) <==>
      (maxRating.None? || (s.rating.Some? && s.rating.value <= maxRating.value))
  {
    if maxRating.None? then None else Some(RatingAtMost(maxRating.value))
  }

  /** The twelve optional filter inputs of a listing or count request. */
  datatype Query = Query(
    name: Option<string>,
    planet: Option<string>,
    shipType: Option<ShipType>,
    after: Option<int>,
    before: Option<int>,
    isUsed: Option<bool>,
    minSpeed: Option<real>,
    maxSpeed: Option<real>,
    minCrewSize: Option<int>,
    maxCrewSize: Option<int>,
    minRating: Option<real>,
    maxRating: Option<real>)

  /** The request with no filter input at all. */
  const NoFilter: Query := Query(None, None, None, None, None, None, None, None, None, None, None, None)

  /** The specification `where(name).and(planet).and(shipType) ... .and(ratingMax)`. */
  function FullSpecification(q: Query): Option<Predicate> {
    Conjoin(Conjoin(Conjoin(Conjoin(Conjoin(Conjoin(Conjoin(Conjoin(Conjoin(Conjoin(Conjoin(
      NameSpec(q.name),
      PlanetSpec(q.planet)),
      ShipTypeSpec(q.shipType)),
      DateAfterSpec(q.after)),
      DateBeforeSpec(q.before)),
      UsedSpec(q.isUsed)),
      SpeedMinSpec(q.minSpeed)),
      SpeedMaxSpec(q.maxSpeed)),
      CrewMinSpec(q.minCrewSize)),
      CrewMaxSpec(q.maxCrewSize)),
      RatingMinSpec(q.minRating)),
      RatingMaxSpec(q.maxRating))
  }

  // ---------------------------------------------------------------------------------------
  // Reference meaning of a query, stated without specifications

  /** `x` occurs in `text` as a contiguous piece. */
  predicate IsSubstring(x: string, text: string) {
    exists k :: 0 <= k <= |text| && x <= text[k..]
  }

  /** The inputs put no LIKE wildcard into the two text patterns. */
  predicate NoWildcards(q: Query) {
    (q.name.Some? ==> '%' !in q.name.value) && (q.planet.Some? ==> '%' !in q.planet.value)
  }

  /** The ship satisfies every non-null input of `q`: text inputs as substrings, the ship type
      and the usage flag exactly, and the six bounds inclusively. */
  predicate Satisfies(q: Query, s: ShipData) {
    && (q.name.Some? ==> s.name.Some? && IsSubstring(q.name.value, s.name.value))
    && (q.planet.Some? ==> s.planet.Some? && IsSubstring(q.planet.value, s.planet.value))
    && (q.shipType.Some? ==> s.shipType == q.shipType)
    && (q.after.Some? ==> s.prodDate.Some? && q.after.value <= s.prodDate.value.time)
    && (q.before.Some? ==> s.prodDate.Some? && s.prodDate.value.time <= q.before.value)
    && (q.isUsed.Some? ==> s.used == q.isUsed)
    && (q.minSpeed.Some? ==> s.speed.Some? && q.minSpeed.value <= s.speed.value)
    && (q.maxSpeed.Some? ==> s.speed.Some? && s.speed.value <= q.maxSpeed.value)
    && (q.minCrewSize.Some? ==> s.crewSize.Some? && q.minCrewSize.value <= s.crewSize.value)
    && (q.maxCrewSize.Some? ==> s.crewSize.Some? && s.crewSize.value <= q.maxCrewSize.value)
    && (q.minRating.Some? ==> s.rating.Some? && q.minRating.value <= s.rating.value)
    && (q.maxRating.Some? ==> s.rating.Some? && s.rating.value <= q.maxRating.value)
  }

  /** `q2` keeps every non-null input of `q1` and may add more. */
  predicate Narrows(q2: Query, q1: Query) {
    && (q1.name.Some? ==> q2.name == q1.name)
    && (q1.planet.Some? ==> q2.planet == q1.planet)
    && (q1.shipType.Some? ==> q2.shipType == q1.shipType)
    && (q1.after.Some? ==> q2.after == q1.after)
    && (q1.before.Some? ==> q2.before == q1.before)
    && (q1.isUsed.Some? ==> q2.isUsed == q1.isUsed)
    && (q1.minSpeed.Some? ==> q2.minSpeed == q1.minSpeed)
    && (q1.maxSpeed.Some? ==> q2.maxSpeed == q1.maxSpeed)
    && (q1.minCrewSize.Some? ==> q2.minCrewSize == q1.minCrewSize)
    && (q1.maxCrewSize.Some? ==> q2.maxCrewSize == q1.maxCrewSize)
    && (q1.minRating.Some? ==> q2.minRating == q1.minRating)
    && (q1.maxRating.Some? ==> q2.maxRating == q1.maxRating)
  }

  // ---------------------------------------------------------------------------------------
  // LIKE with a "%...%" pattern is a substring test

  /** A lone `%` matches every text. */
  lemma {:induction false} LikeAnyText(text: string)
    ensures Like("%", text)
  {
    if text != [] {
      LikeAnyText(text[1..]);
    }
  }

  /** A pattern `x + "%"` matches every text that starts with `x`. */
  lemma {:induction false} LikePrefix(x: string, text: string)
    requires x <= text
    ensures Like(x + "%", text)
  {
    if x == [] {
      assert x + "%" == "%";
      LikeAnyText(text);
    } else {
      assert (x + "%")[1..] == x[1..] + "%";
      LikePrefix(x[1..], text[1..]);
    }
  }

  /** Without wildcards in `x`, a text matching `x + "%"` starts with `x`. */
  lemma {:induction false} LikePrefixOnly(x: string, text: string)
    requires '%' !in x
    requires Like(x + "%", text)
    ensures x <= text
  {
    if x != [] {
      assert (x + "%")[0] == x[0] && x[0] != '%';
      assert (x + "%")[1..] == x[1..] + "%";
      LikePrefixOnly(x[1..], text[1..]);
    }
  }

  /** A leading `%` lets the rest of the pattern match any suffix of the text. */
  lemma {:induction false} LikeSkip(rest: string, text: string, k: int)
    requires 0 <= k <= |text| && Like(rest, text[k..])
    ensures Like("%" + rest, text)
  {
    assert ("%" + rest)[1..] == rest;
    if k == 0 {
      assert text[k..] == text;
    } else {
      assert text[1..][k - 1..] == text[k..];
      LikeSkip(rest, text[1..], k - 1);
    }
  }

  /** A pattern `"%" + rest` only matches when `rest` matches some suffix of the text. */
  lemma {:induction false} LikeSkipOnly(rest: string, text: string)
    requires Like("%" + rest, text)
    ensures exists k :: 0 <= k <= |text| && Like(rest, text[k..])
  {
    assert ("%" + rest)[1..] == rest;
    if Like(rest, text) {
      assert text[0..] == text;
    } else {
      LikeSkipOnly(rest, text[1..]);
      var k :| 0 <= k <= |text[1..]| && Like(rest, text[1..][k..]);
      assert text[1..][k..] == text[k + 1..];
    }
  }

  /** The text filters' pattern matches every text containing the input, and, when the input
      holds no `%`, only those. */
  lemma ContainsPatternMeaning(x: string, text: string)
    ensures IsSubstring(x, text) ==> Like(ContainsPattern(x), text)
    ensures '%' !in x && Like(ContainsPattern(x), text) ==> IsSubstring(x, text)
  {
    assert ContainsPattern(x) == "%" + (x + "%");
    if IsSubstring(x, text) {
      var k :| 0 <= k <= |text| && x <= text[k..];
      LikePrefix(x, text[k..]);
      LikeSkip(x + "%", text, k);
    }
    if '%' !in x && Like(ContainsPattern(x), text) {
      LikeSkipOnly(x + "%", text);
      var k :| 0 <= k <= |text| && Like(x + "%", text[k..]);
      LikePrefixOnly(x, text[k..]);
    }
  }

  // ---------------------------------------------------------------------------------------
  // Properties of the full specification

  /** The full specification admits a ship exactly when each of the twelve per-field
      specifications admits it. */
  lemma FullSpecificationIsConjunction(q: Query, s: ShipData)
    ensures Matches(FullSpecification(q), s) <==>
      && Matches(NameSpec(q.name), s) && Matches(PlanetSpec(q.planet), s)
      && Matches(ShipTypeSpec(q.shipType), s)
      && Matches(DateAfterSpec(q.after), s) && Matches(DateBeforeSpec(q.before), s)
      && Matches(UsedSpec(q.isUsed), s)
      && Matches(SpeedMinSpec(q.minSpeed), s) && Matches(SpeedMaxSpec(q.maxSpeed), s)
      && Matches(CrewMinSpec(q.minCrewSize), s) && Matches(CrewMaxSpec(q.maxCrewSize), s)
      && Matches(RatingMinSpec(q.minRating), s) && Matches(RatingMaxSpec(q.maxRating), s)
  {
  }

  /** A ship satisfying every non-null input is admitted; when the text inputs hold no `%`,
      the full specification admits exactly the ships satisfying every non-null input. */
  lemma FullSpecificationMeaning(q: Query, s: ShipData)
    ensures Satisfies(q, s) ==> Matches(FullSpecification(q), s)
    ensures NoWildcards(q) ==> (Matches(FullSpecification(q), s) <==> Satisfies(q, s))
  {
    FullSpecificationIsConjunction(q, s);
    if q.name.Some? && s.name.Some? {
      ContainsPatternMeaning(q.name.value, s.name.value);
    }
    if q.planet.Some? && s.planet.Some? {
      ContainsPatternMeaning(q.planet.value, s.planet.value);
    }
  }

  /** With all twelve inputs null there is no condition at all, and every ship is admitted. */
  lemma NoFilterMatchesAll(s: ShipData)
    ensures FullSpecification(NoFilter).None?
    ensures Matches(FullSpecification(NoFilter), s)
  {
  }

  /** The full specification yields no condition only when every input is null. */
  lemma NullSpecificationOnlyWithoutInputs(q: Query)
    requires FullSpecification(q).None?
    ensures q == NoFilter
  {
  }

  /** Adding non-null inputs never admits more ships. */
  lemma NarrowingNeverEnlarges(q2: Query, q1: Query, s: ShipData)
    requires Narrows(q2, q1)
    requires Matches(FullSpecification(q2), s)
    ensures Matches(FullSpecification(q1), s)
  {
    FullSpecificationIsConjunction(q1, s);
    FullSpecificationIsConjunction(q2, s);
  }

  /** Conjunction of specifications is commutative and associative, so the order of the chain
      does not change which ships are admitted. */
  lemma ConjoinOrderIrrelevant(a: Option<Predicate>, b: Option<Predicate>, c: Option<Predicate>, s: ShipData)
    ensures Matches(Conjoin(a, b), s) <==> Matches(Conjoin(b, a), s)
    ensures Matches(Conjoin(Conjoin(a, b), c), s) <==> Matches(Conjoin(a, Conjoin(b, c)), s)
  {
  }
}
