/** Pure decision functions of the particle controller
    (src/scenes/ParticleSystem.js): the continent test for globe dots, the
    region colour of map targets, and the shuffle of text points. */
module ParticleGeo {
  import opened ParticleCommon
  import opened RealArith

  // ---------------------------------------------------------------------------
  // isOnContinent

  predicate NorthAmericaBox(lat: real, lon: real) { 15.0 < lat < 75.0 && -170.0 < lon < -50.0 }
  predicate SouthAmericaBox(lat: real, lon: real) { -60.0 < lat < 15.0 && -85.0 < lon < -35.0 }
  predicate AfricaBox(lat: real, lon: real) { -35.0 < lat < 40.0 && -20.0 < lon < 55.0 }
  predicate EuropeBox(lat: real, lon: real) { 35.0 < lat < 72.0 && -10.0 < lon < 60.0 }
  predicate AsiaBand(lat: real, lon: real) {
    -10.0 < lat < 75.0 && ((25.0 < lon < 180.0) || (-180.0 < lon < -140.0 && lat > 50.0))
  }
  predicate AustraliaBox(lat: real, lon: real) { -45.0 < lat < -10.0 && 110.0 < lon < 155.0 }

  /** `isOnContinent(lat, lon)`: the boxes are tried in source order, and the
      first box whose inner test returns decides. */
  function IsOnContinent(lat: real, lon: real): bool {
    if NorthAmericaBox(lat, lon) && (lat > 50.0 || (lat > 25.0 && lon > -130.0 && lon < -70.0)) then true
    else if SouthAmericaBox(lat, lon) then !(lat < -50.0 && lon < -70.0)
    else if AfricaBox(lat, lon) then !(lat > 30.0 && lon < 10.0)
    else if EuropeBox(lat, lon) then !(lat < 40.0 && lon > 40.0)
    else if AsiaBand(lat, lon) then true
    else AustraliaBox(lat, lon)
  }

  /** Land lies inside one of the six boxes; everything else is ocean. */
  lemma LandInBoxes(lat: real, lon: real)
    ensures IsOnContinent(lat, lon) ==>
              NorthAmericaBox(lat, lon) || SouthAmericaBox(lat, lon) || AfricaBox(lat, lon)
              || EuropeBox(lat, lon) || AsiaBand(lat, lon) || AustraliaBox(lat, lon)
  {
  }

  /** The Mediterranean gap: 30 < lat < 40 and -20 < lon < 10 is ocean, and
      because Africa's box returns before Europe's is tried, this also holds
      for the part of Europe's box it covers (southern Spain, Sicily). */
  lemma MediterraneanGap(lat: real, lon: real)
    requires 30.0 < lat < 40.0 && -20.0 < lon < 10.0
    ensures !IsOnContinent(lat, lon)
    ensures 35.0 < lat && -10.0 < lon ==> EuropeBox(lat, lon)
  {
  }

  /** Europe's Middle-East gap only bites east of Africa's box: for
      40 < lon < 55 the Africa test has already returned land. */
  lemma MiddleEastGapShadowed(lat: real, lon: real)
    requires 35.0 < lat < 40.0 && 40.0 < lon < 55.0
    ensures IsOnContinent(lat, lon)
    ensures EuropeBox(lat, lon) && lat < 40.0 && lon > 40.0
  {
  }

  /** Australia's box is land, and so is all of Asia's band outside the other boxes. */
  lemma LandBoxes(lat: real, lon: real)
    ensures AustraliaBox(lat, lon) ==> IsOnContinent(lat, lon)
    ensures (AsiaBand(lat, lon) && !NorthAmericaBox(lat, lon) && !SouthAmericaBox(lat, lon)
             && !AfricaBox(lat, lon) && !EuropeBox(lat, lon))
            ==> IsOnContinent(lat, lon)
  {
  }

  // ---------------------------------------------------------------------------
  // getRegionColor

  const Americas := Rgb(0.2, 0.5, 1.0)
  const AsiaPacific := Rgb(1.0, 0.6, 0.2)
  const Europe := Rgb(0.2, 0.8, 0.4)
  const Africa := Rgb(1.0, 0.8, 0.2)

  /** `getRegionColor(position)`: by x first, then by y. */
  function RegionColour(p: Vec3): (c: Rgb)
    ensures c == Americas <==> p.x < -20.0
    ensures c == AsiaPacific <==> p.x > 20.0
    ensures c == Europe <==> -20.0 <= p.x <= 20.0 && p.y > 10.0
    ensures c == Africa <==> -20.0 <= p.x <= 20.0 && p.y <= 10.0
  {
    if p.x < -20.0 then Americas
    else if p.x > 20.0 then AsiaPacific
    else if p.y > 10.0 then Europe
    else Africa
  }

  // ---------------------------------------------------------------------------
  // Shuffle of the text points

  /** `Math.floor(r * n)` for a draw `r` in [0, 1) is an index below `n`. */
  lemma FloorIndex(r: real, n: nat)
    requires 0.0 <= r < 1.0 && n >= 1
    ensures 0 <= (r * n as real).Floor < n
  {
    MulNonNeg(r, n as real);
    MulPositive(1.0 - r, n as real);
    assert (1.0 - r) * n as real == n as real - r * n as real;
  }

  function Swap<T>(a: seq<T>, i: nat, j: nat): (b: seq<T>)
    requires i < |a| && j < |a|
    ensures |b| == |a| && b[i] == a[j] && b[j] == a[i]
    ensures forall m | 0 <= m < |a| && m != i && m != j :: b[m] == a[m]
    ensures multiset(b) == multiset(a)
  {
    a[i := a[j]][j := a[i]]
  }

  /** The Fisher-Yates shuffle of `createTextGeometry`: for i from the last
      index down to 1 it swaps entry i with entry `floor(random * (i + 1))`.
      It reads one draw per swap, starting at `k`. */
  method Shuffle<T>(a: seq<T>, rand: nat -> real, k: nat) returns (b: seq<T>, next: nat)
    requires UnitDraws(rand)
    ensures multiset(b) == multiset(a)
    ensures |b| == |a|
    ensures next == k + (if |a| == 0 then 0 else |a| - 1)
  {
    b := a;
    next := k;
    if |a| == 0 {
      return;
    }
    var i := |a| - 1;
    while i > 0
      invariant 0 <= i < |a|
      invariant |b| == |a| && multiset(b) == multiset(a)
      invariant next == k + (|a| - 1 - i)
      decreases i
    {
      FloorIndex(rand(next), i + 1);
      var j := (rand(next) * (i + 1) as real).Floor;
      assert 0 <= j <= i < |b|;
      b := Swap(b, i, j);
      next := next + 1;
      i := i - 1;
    }
  }
}
