/** The markers of the side-by-side comparison table: the best-price badge,
    the most-seats highlight, the "unique feature" tag, and the shape of the
    spec rows. `Math.min`/`Math.max` of an empty list are infinities in the
    application; here they are `None`, which, like an infinity, equals no
    car's price or seat count. */
module Comparison {
  import opened Wrappers
  import opened Text
  import opened Domain

  /** `Math.min(...cars.map(c => c.pricePerDay))`. */
  function LowestPrice(cars: seq<Car>): (r: Option<int>)
    ensures r.None? <==> |cars| == 0
    ensures r.Some? ==> forall i :: 0 <= i < |cars| ==> r.value <= cars[i].pricePerDay
    ensures r.Some? ==> exists i :: 0 <= i < |cars| && cars[i].pricePerDay == r.value
  {
    if |cars| == 0 then None
    else
      match LowestPrice(cars[1..])
      case None => Some(cars[0].pricePerDay)
      case Some(m) =>
        if cars[0].pricePerDay <= m then Some(cars[0].pricePerDay)
        else
          assert exists i :: 1 <= i < |cars| && cars[i].pricePerDay == m by {
            var k :| 0 <= k < |cars[1..]| && cars[1..][k].pricePerDay == m;
            assert cars[k + 1].pricePerDay == m;
          }
          Some(m)
  }

  /** `Math.max(...cars.map(c => c.seats))`. */
  function HighestSeats(cars: seq<Car>): (r: Option<int>)
    ensures r.None? <==> |cars| == 0
    ensures r.Some? ==> forall i :: 0 <= i < |cars| ==> cars[i].seats <= r.value
    ensures r.Some? ==> exists i :: 0 <= i < |cars| && cars[i].seats == r.value
  {
    if |cars| == 0 then None
    else
      match HighestSeats(cars[1..])
      case None => Some(cars[0].seats)
      case Some(m) =>
        if cars[0].seats >= m then Some(cars[0].seats)
        else
          assert exists i :: 1 <= i < |cars| && cars[i].seats == m by {
            var k :| 0 <= k < |cars[1..]| && cars[1..][k].seats == m;
            assert cars[k + 1].seats == m;
          }
          Some(m)
  }

  /** The price row of `car` carries the "Best price" badge: its price is the
      lowest and more than one car is compared. */
  function ShowsBestPrice(cars: seq<Car>, car: Car): (b: bool)
    ensures b <==> |cars| > 1
                   && (forall i :: 0 <= i < |cars| ==> car.pricePerDay <= cars[i].pricePerDay)
                   && (exists i :: 0 <= i < |cars| && cars[i].pricePerDay == car.pricePerDay)
  {
    LowestPrice(cars) == Some(car.pricePerDay) && |cars| > 1
  }

  /** The seats cell of `car` is highlighted: its seat count is the highest. */
  function SeatsHighlighted(cars: seq<Car>, car: Car): (b: bool)
    ensures b <==> (forall i :: 0 <= i < |cars| ==> cars[i].seats <= car.seats)
                   && (exists i :: 0 <= i < |cars| && cars[i].seats == car.seats)
  {
    HighestSeats(cars) == Some(car.seats)
  }

  /** With more than one car some car shows the badge, and cars with equal
      prices either all show it or none does; a lone car never shows it. */
  lemma BestPriceBadgeCoverage(cars: seq<Car>)
    ensures |cars| <= 1 ==> forall c :: !ShowsBestPrice(cars, c)
    ensures |cars| > 1 ==> exists i :: 0 <= i < |cars| && ShowsBestPrice(cars, cars[i])
    ensures forall i, j :: 0 <= i < |cars| && 0 <= j < |cars| && cars[i].pricePerDay == cars[j].pricePerDay ==>
      ShowsBestPrice(cars, cars[i]) == ShowsBestPrice(cars, cars[j])
  {
    if |cars| > 1 {
      var k :| 0 <= k < |cars| && cars[k].pricePerDay == LowestPrice(cars).value;
      assert ShowsBestPrice(cars, cars[k]);
    }
  }

  /** Some car always has its seats highlighted, even a lone one, and ties are
      all highlighted. */
  lemma SeatsHighlightCoverage(cars: seq<Car>)
    ensures |cars| > 0 ==> exists i :: 0 <= i < |cars| && SeatsHighlighted(cars, cars[i])
    ensures forall i, j :: 0 <= i < |cars| && 0 <= j < |cars| && cars[i].seats == cars[j].seats ==>
      SeatsHighlighted(cars, cars[i]) == SeatsHighlighted(cars, cars[j])
  {
    if |cars| > 0 {
      var k :| 0 <= k < |cars| && cars[k].seats == HighestSeats(cars).value;
      assert SeatsHighlighted(cars, cars[k]);
    }
  }

  // ---------------------------------------------------------------------------
  // Unique features
  // ---------------------------------------------------------------------------

  /** `cars.filter(c => c.id !== id)`. */
  function OtherCars(cars: seq<Car>, id: string): (r: seq<Car>)
    ensures forall c :: c in r <==> c in cars && c.id != id
  {
    if |cars| == 0 then []
    else
      var rest := OtherCars(cars[1..], id);
      assert forall c :: c in cars <==> c == cars[0] || c in cars[1..];
      if cars[0].id != id then [cars[0]] + rest else rest
  }

  /** `cars.some(c => c.features.includes(feature))`. */
  function SomeListsFeature(cars: seq<Car>, feature: string): (b: bool)
    ensures b <==> exists c :: c in cars && feature in c.features
  {
    if |cars| == 0 then false
    else
      assert forall c :: c in cars <==> c == cars[0] || c in cars[1..];
      feature in cars[0].features || SomeListsFeature(cars[1..], feature)
  }

  /** `isUnique(feature, car)`: no car with a different id lists the feature.
      Cars sharing `car`'s id, including `car` itself, never count against it. */
  function IsUnique(cars: seq<Car>, feature: string, car: Car): (b: bool)
    ensures b <==> forall i :: 0 <= i < |cars| && cars[i].id != car.id ==> feature !in cars[i].features
  {
    !SomeListsFeature(OtherCars(cars, car.id), feature)
  }

  /** Adding a car with the same id never cancels uniqueness, and adding a car
      with another id that lists the feature always does. */
  lemma UniquenessIsKeyedOnId(cars: seq<Car>, feature: string, car: Car, extra: Car)
    ensures extra.id == car.id ==> IsUnique(cars + [extra], feature, car) == IsUnique(cars, feature, car)
    ensures extra.id != car.id && feature in extra.features ==> !IsUnique(cars + [extra], feature, car)
  {
    var all := cars + [extra];
    if extra.id == car.id {
      assert forall i :: 0 <= i < |cars| ==> all[i] == cars[i];
    } else if feature in extra.features {
      assert all[|cars|] == extra;
    }
  }

  // ---------------------------------------------------------------------------
  // Table shape
  // ---------------------------------------------------------------------------

  /** A cell of a spec row: plain text, or the seats cell with its highlight. */
  datatype Cell = TextCell(text: string) | SeatsCell(seats: int, best: bool)

  /** The spec rows shown here, in order (the rating row is left out). */
  const SpecLabels := ["Category", "Year", "Seats", "Mileage Policy", "Location"]

  function RenderSpec(row: nat, cars: seq<Car>, car: Car): Cell
    requires row < |SpecLabels|
  {
    if row == 0 then TextCell(car.category)
    else if row == 1 then TextCell(IntToDecimal(car.year))
    else if row == 2 then SeatsCell(car.seats, SeatsHighlighted(cars, car))
    else if row == 3 then TextCell(car.range)
    else TextCell(car.location)
  }

  /** Every spec row has exactly one cell per car, in list order, and each cell
      shows that car's own field. */
  function SpecRows(cars: seq<Car>): (rows: seq<seq<Cell>>)
    ensures |rows| == |SpecLabels|
    ensures forall r :: 0 <= r < |rows| ==> |rows[r]| == |cars|
    ensures forall i :: 0 <= i < |cars| ==>
      && rows[0][i] == TextCell(cars[i].category)
      && rows[1][i] == TextCell(IntToDecimal(cars[i].year))
      && rows[2][i].SeatsCell? && rows[2][i].seats == cars[i].seats
      && rows[3][i] == TextCell(cars[i].range)
      && rows[4][i] == TextCell(cars[i].location)
    ensures forall i :: 0 <= i < |cars| ==>
      (rows[2][i].best <==> forall j :: 0 <= j < |cars| ==> cars[j].seats <= cars[i].seats)
  {
    seq(|SpecLabels|, r requires 0 <= r < |SpecLabels| =>
      seq(|cars|, i requires 0 <= i < |cars| => RenderSpec(r, cars, cars[i])))
  }

  /** The features row: for each car, one tag per listed feature, in order,
      marked when the feature is unique to that car. */
  function FeatureTags(cars: seq<Car>): (tags: seq<seq<(string, bool)>>)
    ensures |tags| == |cars|
    ensures forall i :: 0 <= i < |cars| ==> |tags[i]| == |cars[i].features|
    ensures forall i, j :: 0 <= i < |cars| && 0 <= j < |cars[i].features| ==>
      && tags[i][j].0 == cars[i].features[j]
      && (tags[i][j].1 <==> forall k :: 0 <= k < |cars| && cars[k].id != cars[i].id ==>
            cars[i].features[j] !in cars[k].features)
  {
    seq(|cars|, i requires 0 <= i < |cars| =>
      seq(|cars[i].features|, j requires 0 <= j < |cars[i].features| =>
        (cars[i].features[j], IsUnique(cars, cars[i].features[j], cars[i]))))
  }
}
