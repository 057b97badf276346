/**
 * Building the spots of one floor (src/factories/ParkingSpotFactory.java):
 * four counted loops, one per spot type, in the order STANDARD, CHARGING,
 * LARGE, CHARGING_LARGE, with ids F<floor>-S001, F<floor>-C001,
 * F<floor>-L001 and F<floor>-CL01 counting up from 1.
 */
module SpotFactory {
  import opened Wrappers
  import opened Enums
  import opened Spots
  import opened Decimal

  /** The base price every factory-made spot carries. */
  const BasePrice: real := 2.0

  /** The letters after the floor in an id. */
  function Tag(t: SpotType): string {
    match t
    case STANDARD => "S"
    case CHARGING => "C"
    case LARGE => "L"
    case CHARGING_LARGE => "CL"
  }

  /** The zero-padded width of the running number in an id. */
  function Width(t: SpotType): nat {
    if t == CHARGING_LARGE then 2 else 3
  }

  function Prefix(floor: int): string {
    "F" + FormatInt(floor) + "-"
  }

  /** The id of the `i`-th spot of type `t` on `floor`. */
  function SpotId(floor: int, t: SpotType, i: nat): string {
    Prefix(floor) + (Tag(t) + ZeroPadded(i, Width(t)))
  }

  /** Different tags followed by digits never give the same text: only C and CL share a first letter. */
  lemma TagsDiffer(t1: SpotType, t2: SpotType, d1: string, d2: string)
    requires t1 != t2
    requires |d1| >= 1 && |d2| >= 1 && AllDigits(d1) && AllDigits(d2)
    ensures Tag(t1) + d1 != Tag(t2) + d2
  {
    var x, y := Tag(t1) + d1, Tag(t2) + d2;
    if t1 == CHARGING && t2 == CHARGING_LARGE {
      assert x[1] == d1[0] && IsDigit(d1[0]) && y[1] == 'L';
    } else if t1 == CHARGING_LARGE && t2 == CHARGING {
      assert y[1] == d2[0] && IsDigit(d2[0]) && x[1] == 'L';
    } else {
      assert x[0] != y[0];
    }
  }

  /** Ids are unambiguous: the id determines the type and the running number. */
  lemma SpotIdInjective(floor: int, t1: SpotType, i1: nat, t2: SpotType, i2: nat)
    requires SpotId(floor, t1, i1) == SpotId(floor, t2, i2)
    ensures t1 == t2 && i1 == i2
  {
    var p := Prefix(floor);
    var d1, d2 := ZeroPadded(i1, Width(t1)), ZeroPadded(i2, Width(t2));
    var x, y := Tag(t1) + d1, Tag(t2) + d2;
    assert x == SpotId(floor, t1, i1)[|p|..];
    assert y == SpotId(floor, t2, i2)[|p|..];
    if t1 != t2 {
      TagsDiffer(t1, t2, d1, d2);
    } else {
      assert d1 == x[|Tag(t1)|..];
      assert d2 == y[|Tag(t2)|..];
      ZeroPaddedRoundTrip(i1, Width(t1));
      ZeroPaddedRoundTrip(i2, Width(t2));
    }
  }

  /** What the factory is to build: an id and a type per spot, in list order. */
  datatype SpotPlan = SpotPlan(id: string, spotType: SpotType)

  /** The first `n` spots of type `t`. */
  function Block(floor: int, t: SpotType, n: nat): (b: seq<SpotPlan>)
    ensures |b| == n
  {
    if n == 0 then [] else Block(floor, t, n - 1) + [SpotPlan(SpotId(floor, t, n), t)]
  }

  lemma {:induction false} BlockAt(floor: int, t: SpotType, n: nat, k: nat)
    requires k < n
    ensures Block(floor, t, n)[k] == SpotPlan(SpotId(floor, t, k + 1), t)
  {
    if k < n - 1 {
      BlockAt(floor, t, n - 1, k);
    }
  }

  /** A loop `for (i = 1; i <= count; i++)` runs max(0, count) times. */
  function Times(count: int): nat {
    if count < 0 then 0 else count
  }

  /** The whole floor: the four blocks one after the other. */
  function Layout(floor: int, standard: int, charging: int, large: int, chargingLarge: int): seq<SpotPlan> {
    Block(floor, STANDARD, Times(standard)) + Block(floor, CHARGING, Times(charging)) +
    Block(floor, LARGE, Times(large)) + Block(floor, CHARGING_LARGE, Times(chargingLarge))
  }

  /** Where the block of type `t` begins in the layout. */
  function BlockStart(t: SpotType, standard: int, charging: int, large: int): nat {
    match t
    case STANDARD => 0
    case CHARGING => Times(standard)
    case LARGE => Times(standard) + Times(charging)
    case CHARGING_LARGE => Times(standard) + Times(charging) + Times(large)
  }

  /** The type of the spot at position `k` of the layout: the block `k` falls in. */
  function TypeAt(k: nat, standard: int, charging: int, large: int): SpotType {
    if k < Times(standard) then STANDARD
    else if k < Times(standard) + Times(charging) then CHARGING
    else if k < Times(standard) + Times(charging) + Times(large) then LARGE
    else CHARGING_LARGE
  }

  /** Each position of the layout holds the spot its block and offset say. */
  lemma LayoutAt(floor: int, standard: int, charging: int, large: int, chargingLarge: int, k: nat)
    requires k < |Layout(floor, standard, charging, large, chargingLarge)|
    ensures var t := TypeAt(k, standard, charging, large);
            var start := BlockStart(t, standard, charging, large);
            start <= k && Layout(floor, standard, charging, large, chargingLarge)[k] == SpotPlan(SpotId(floor, t, k - start + 1), t)
  {
    var n1, n2, n3, n4 := Times(standard), Times(charging), Times(large), Times(chargingLarge);
    var b1, b2, b3, b4 := Block(floor, STANDARD, n1), Block(floor, CHARGING, n2), Block(floor, LARGE, n3), Block(floor, CHARGING_LARGE, n4);
    var l12 := b1 + b2;
    var l123 := l12 + b3;
    var l := Layout(floor, standard, charging, large, chargingLarge);
    var t := TypeAt(k, standard, charging, large);
    var offset := k - BlockStart(t, standard, charging, large);
    assert l == l123 + b4;
    if k < n1 + n2 + n3 {
      assert l[k] == l123[k];
      if k < n1 + n2 {
        assert l123[k] == l12[k];
        if k < n1 {
          assert t == STANDARD && offset == k;
          BlockAt(floor, STANDARD, n1, offset);
          assert l12[k] == b1[offset];
        } else {
          assert t == CHARGING && offset == k - n1;
          BlockAt(floor, CHARGING, n2, offset);
          assert l12[k] == b2[offset];
        }
      } else {
        assert t == LARGE && offset == k - (n1 + n2);
        BlockAt(floor, LARGE, n3, offset);
        assert l123[k] == b3[offset];
      }
    } else {
      assert t == CHARGING_LARGE && offset == k - (n1 + n2 + n3);
      BlockAt(floor, CHARGING_LARGE, n4, offset);
      assert l[k] == b4[offset];
    }
  }

  /** The layout has one entry per requested spot, and no two share an id. */
  lemma LayoutIdsDistinct(floor: int, standard: int, charging: int, large: int, chargingLarge: int)
    ensures var l := Layout(floor, standard, charging, large, chargingLarge);
            |l| == Times(standard) + Times(charging) + Times(large) + Times(chargingLarge) &&
            forall j, k :: 0 <= j < k < |l| ==> l[j].id != l[k].id
  {
    var l := Layout(floor, standard, charging, large, chargingLarge);
    forall j, k | 0 <= j < k < |l|
      ensures l[j].id != l[k].id
    {
      LayoutAt(floor, standard, charging, large, chargingLarge, j);
      LayoutAt(floor, standard, charging, large, chargingLarge, k);
      var tj, tk := TypeAt(j, standard, charging, large), TypeAt(k, standard, charging, large);
      if l[j].id == l[k].id {
        SpotIdInjective(floor, tj, j - BlockStart(tj, standard, charging, large) + 1,
                        tk, k - BlockStart(tk, standard, charging, large) + 1);
      }
    }
  }

  /** `s` is an empty, AVAILABLE spot on `floor` at the base price, with the id and type `plan` says. */
  ghost predicate BuiltAsPlanned(s: ParkingSpot, plan: SpotPlan, floor: int)
    reads s
  {
    s.spotId == plan.id && s.spotType == plan.spotType &&
    s.floor == floor && s.basePrice == BasePrice &&
    s.status == AVAILABLE && s.currentVehicle == None
  }

  /** `spots` are built as `plans` say, position by position. */
  ghost predicate BuiltAs(spots: seq<ParkingSpot>, plans: seq<SpotPlan>, floor: int)
    reads spots
  {
    |spots| == |plans| &&
    forall k :: 0 <= k < |spots| ==> BuiltAsPlanned(spots[k], plans[k], floor)
  }

  /** `createSpot`: a new spot at the base price. */
  method CreateSpot(spotId: string, floor: int, spotType: SpotType) returns (s: ParkingSpot)
    ensures fresh(s)
    ensures s.spotId == spotId && s.floor == floor && s.spotType == spotType && s.basePrice == BasePrice
    ensures s.status == AVAILABLE && s.currentVehicle == None
  {
    s := new ParkingSpot(spotId, floor, spotType, BasePrice);
  }

  /** One of the four counted loops: appends spots 1..count of type `t`. */
  method AppendBlock(spots: seq<ParkingSpot>, ghost plans: seq<SpotPlan>, floor: int, t: SpotType, count: int)
    returns (result: seq<ParkingSpot>)
    requires BuiltAs(spots, plans, floor)
    ensures BuiltAs(result, plans + Block(floor, t, Times(count)), floor)
    ensures result[..|spots|] == spots
    ensures forall k :: |spots| <= k < |result| ==> fresh(result[k])
  {
    result := spots;
    var i := 1;
    while i <= count
      invariant 1 <= i <= Times(count) + 1
      invariant BuiltAs(result, plans + Block(floor, t, i - 1), floor)
      invariant result[..|spots|] == spots
      invariant forall k :: |spots| <= k < |result| ==> fresh(result[k])
    {
      var s := CreateSpot(SpotId(floor, t, i), floor, t);
      ghost var before := plans + Block(floor, t, i - 1);
      assert plans + Block(floor, t, i) == before + [SpotPlan(SpotId(floor, t, i), t)];
      assert BuiltAsPlanned(s, SpotPlan(SpotId(floor, t, i), t), floor);
      result := result + [s];
      i := i + 1;
    }
  }

  /**
   * `createSpotsForFloor`: the spots of the layout, all new, on `floor`,
   * AVAILABLE, empty and at the base price (ids distinct by LayoutIdsDistinct).
   */
  method CreateSpotsForFloor(floor: int, standardSpots: int, chargingSpots: int, largeSpots: int, chargingLargeSpots: int)
    returns (spots: seq<ParkingSpot>)
    ensures BuiltAs(spots, Layout(floor, standardSpots, chargingSpots, largeSpots, chargingLargeSpots), floor)
    ensures forall k :: 0 <= k < |spots| ==> fresh(spots[k])
  {
    ghost var b1 := Block(floor, STANDARD, Times(standardSpots));
    ghost var b2 := Block(floor, CHARGING, Times(chargingSpots));
    ghost var b3 := Block(floor, LARGE, Times(largeSpots));
    ghost var b4 := Block(floor, CHARGING_LARGE, Times(chargingLargeSpots));

    spots := AppendBlock([], [], floor, STANDARD, standardSpots);
    assert [] + b1 == b1;
    assert BuiltAs(spots, b1, floor);

    var prior := spots;
    spots := AppendBlock(spots, b1, floor, CHARGING, chargingSpots);
    assert forall k :: 0 <= k < |prior| ==> spots[k] == prior[k];

    prior := spots;
    spots := AppendBlock(spots, b1 + b2, floor, LARGE, largeSpots);
    assert forall k :: 0 <= k < |prior| ==> spots[k] == prior[k];

    prior := spots;
    spots := AppendBlock(spots, b1 + b2 + b3, floor, CHARGING_LARGE, chargingLargeSpots);
    assert forall k :: 0 <= k < |prior| ==> spots[k] == prior[k];
  }
}
