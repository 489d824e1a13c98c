/**
 * The victim's shelter list: the empty state, and per shelter the "Full"
 * badge and the colour of the occupancy figure. The occupancy rate
 * `currentOccupancy / capacity * 100` is kept as an exact fraction, so the
 * colour thresholds at 75 and 100 percent are integer comparisons.
 */
module ShelterList {
  import opened Types
  import opened ShelterManagementTable

  /** A rate `num / den` percent, with a positive denominator. */
  datatype Rate = Rate(num: int, den: int)

  /** `capacity > 0 ? occupancy / capacity * 100 : 0`. */
  function OccupancyRate(s: Shelter): (r: Rate)
    ensures r.den > 0
    ensures s.capacity <= 0 ==> r.num == 0
    ensures s.capacity > 0 ==> r.num * s.capacity == r.den * s.currentOccupancy * 100
  {
    if s.capacity > 0 then Rate(s.currentOccupancy * 100, s.capacity) else Rate(0, 1)
  }

  /** `rate > pct`. */
  predicate Above(r: Rate, pct: int)
    requires r.den > 0
  {
    r.num > pct * r.den
  }

  /** `rate >= pct`. */
  predicate AtLeast(r: Rate, pct: int)
    requires r.den > 0
  {
    r.num >= pct * r.den
  }

  datatype CapacityColor = Green | Yellow | Red

  /** Green, then yellow above 75 percent, then red from 100 percent on (the later test wins). */
  function Color(s: Shelter): (c: CapacityColor)
    ensures c == Red <==> s.capacity > 0 && s.currentOccupancy >= s.capacity
    ensures c == Yellow <==> s.capacity > 0 && 75 * s.capacity < 100 * s.currentOccupancy < 100 * s.capacity
    ensures c == Green <==> s.capacity <= 0 || 100 * s.currentOccupancy <= 75 * s.capacity
  {
    var rate := OccupancyRate(s);
    var c := Green;
    var c := if Above(rate, 75) then Yellow else c;
    if AtLeast(rate, 100) then Red else c
  }

  /** For a positive capacity the colour is red exactly when the shelter shows "Full". */
  lemma RedIffFull(s: Shelter)
    requires s.capacity > 0
    ensures Color(s) == Red <==> IsFull(s)
  {
  }

  /** A shelter without capacity shows the "Full" badge in green. */
  lemma ZeroCapacityFullButGreen(s: Shelter)
    requires s.capacity == 0 && s.currentOccupancy >= 0
    ensures IsFull(s) && Color(s) == Green
  {
  }

  function Severity(c: CapacityColor): nat {
    match c
    case Green => 0
    case Yellow => 1
    case Red => 2
  }

  /** At a fixed capacity the colour only moves from green towards red as occupancy grows. */
  lemma ColorMonotone(s: Shelter, more: int)
    requires s.currentOccupancy <= more
    ensures Severity(Color(s)) <= Severity(Color(s.(currentOccupancy := more)))
  {
  }

  datatype ShelterView = NoShelters | Cards(cards: seq<ShelterCard>)
  datatype ShelterCard = ShelterCard(name: string, location: string, full: bool, color: CapacityColor)

  function ShelterListView(shelters: seq<Shelter>): (v: ShelterView)
    ensures v == NoShelters <==> shelters == []
    ensures v.Cards? ==> |v.cards| == |shelters| && forall i :: 0 <= i < |shelters| ==>
      v.cards[i] == ShelterCard(shelters[i].name, shelters[i].location, IsFull(shelters[i]), Color(shelters[i]))
  {
    if shelters == [] then NoShelters
    else Cards(seq(|shelters|, i requires 0 <= i < |shelters| =>
      ShelterCard(shelters[i].name, shelters[i].location, IsFull(shelters[i]), Color(shelters[i]))))
  }
}
