/**
 * What both snapshots of the water clock share about the time shown: the
 * wall-clock reading, the four displayed digits (the tens and units of the
 * hour, then of the minute), the four digit slots and the list of slots whose
 * digit changed.
 */
module Display {
  import opened Glyphs

  /** A digit slot: 0 and 1 show the hour, 2 and 3 the minute. */
  predicate IsSlot(pos: int) { 0 <= pos < 4 }

  // ---------------------------------------------------------------- time

  /** What `datetime.now()` contributes: hour, minute and second. */
  datatype Time = Time(hour: int, minute: int, second: int)

  predicate IsTime(t: Time) { 0 <= t.hour < 24 && 0 <= t.minute < 60 && 0 <= t.second < 60 }

  /** The four digits shown. */
  predicate IsDisplay(ds: seq<int>) { |ds| == 4 && forall p | 0 <= p < 4 :: IsDigit(ds[p]) }

  /** The tens and units digits of the hour, then of the minute. */
  function DigitsOf(t: Time): (ds: seq<int>)
    requires IsTime(t)
    ensures IsDisplay(ds)
    ensures ds[0] * 10 + ds[1] == t.hour && ds[2] * 10 + ds[3] == t.minute
  {
    [t.hour / 10, t.hour % 10, t.minute / 10, t.minute % 10]
  }

  // ---------------------------------------------------------------- changed slots

  predicate IsSlotList(ps: seq<int>) { forall i | 0 <= i < |ps| :: IsSlot(ps[i]) }

  /** The slot indices below n whose digit differs, in the order the loop appends them. */
  function ChangedBelow(ds: seq<int>, shown: seq<int>, n: nat): seq<int>
    requires n <= |ds| && n <= |shown|
  {
    if n == 0 then [] else ChangedBelow(ds, shown, n - 1) + (if ds[n - 1] != shown[n - 1] then [n - 1] else [])
  }

  /** The pending slots of a digit change. */
  function ChangedSlots(ds: seq<int>, shown: seq<int>): seq<int>
    requires IsDisplay(ds) && IsDisplay(shown)
  {
    ChangedBelow(ds, shown, 4)
  }

  /** The pending list holds exactly the differing indices, in ascending order. */
  lemma {:induction false} ChangedBelowExact(ds: seq<int>, shown: seq<int>, n: nat)
    requires n <= |ds| && n <= |shown|
    ensures var c := ChangedBelow(ds, shown, n);
      && (forall p :: p in c <==> 0 <= p < n && ds[p] != shown[p])
      && (forall i, j | 0 <= i < j < |c| :: c[i] < c[j])
  {
    if n > 0 {
      ChangedBelowExact(ds, shown, n - 1);
      var c := ChangedBelow(ds, shown, n - 1);
      assert forall i | 0 <= i < |c| :: c[i] in c;
    }
  }

  lemma ChangedSlotsExact(ds: seq<int>, shown: seq<int>)
    requires IsDisplay(ds) && IsDisplay(shown)
    ensures var c := ChangedSlots(ds, shown);
      && IsSlotList(c)
      && (forall p :: p in c <==> 0 <= p < 4 && ds[p] != shown[p])
      && (forall i, j | 0 <= i < j < |c| :: c[i] < c[j])
      && (c == [] <==> forall p | 0 <= p < 4 :: ds[p] == shown[p])
  {
    var c := ChangedSlots(ds, shown);
    ChangedBelowExact(ds, shown, 4);
    forall i | 0 <= i < |c|
      ensures IsSlot(c[i])
    {
      assert c[i] in c;
    }
    if c == [] {
      forall p | 0 <= p < 4
        ensures ds[p] == shown[p]
      {
        assert p !in c;
      }
    } else {
      assert c[0] in c;
    }
  }

}
