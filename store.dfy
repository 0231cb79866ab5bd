/**
 The itinerary store: the one mutable array of destinations, with the two
 operations that change it, `addDestination` and `removeDestination`.

 The array only ever grows by a validated push followed by a re-sort, and
 shrinks by `splice(index, 1)`, so it stays sorted by (date, time) for the
 whole session.
 */
module Store {
  import opened Order
  import opened Validation

  /** What `addDestination` ends in: the record it stored, or the notice it raised. */
  datatype AddResult = Added(stored: Destination) | Refused(reason: AddError)

  /** Where `splice(index, 1)` starts on an array of length `n`: a negative
      index counts from the end (clamped at 0), a large one is clamped at `n`. */
  function SpliceStart(n: nat, index: int): (k: nat)
    ensures k <= n
    ensures 0 <= index < n ==> k == index
    ensures n <= index ==> k == n
    ensures -(n as int) <= index < 0 ==> k == n + index
  {
    if index < 0 then (if n + index < 0 then 0 else n + index)
    else if index < n then index
    else n
  }

  /** `s` with the element at `k` deleted; `k == |s|` deletes nothing. */
  function RemoveAt(s: seq<Destination>, k: nat): (r: seq<Destination>)
    requires k <= |s|
    ensures k < |s| ==> |r| == |s| - 1 && multiset(r) + multiset{s[k]} == multiset(s)
    ensures k == |s| ==> r == s
  {
    if k < |s| then
      assert s == s[..k] + [s[k]] + s[k + 1..];
      s[..k] + s[k + 1..]
    else s
  }

  /** Removing index `i` deletes exactly that entry: one fewer, the entries
      before `i` unmoved, the entries after it shifted down by one. */
  lemma RemoveAtDeletesOne(s: seq<Destination>, i: nat)
    requires i < |s|
    ensures |RemoveAt(s, i)| == |s| - 1
    ensures forall j :: 0 <= j < i ==> RemoveAt(s, i)[j] == s[j]
    ensures forall j :: i <= j < |s| - 1 ==> RemoveAt(s, i)[j] == s[j + 1]
    ensures multiset(RemoveAt(s, i)) + multiset{s[i]} == multiset(s)
  {
    assert s == s[..i] + [s[i]] + s[i + 1..];
  }

  /** Removing an entry keeps the rest in sorted order. */
  lemma RemoveAtSorted(s: seq<Destination>, k: nat)
    requires k <= |s| && Sorted(s)
    ensures Sorted(RemoveAt(s, k))
  {
    if k < |s| {
      var r := RemoveAt(s, k);
      RemoveAtDeletesOne(s, k);
      forall i, j | 0 <= i < j < |r| ensures InOrder(r[i], r[j]) {
        var i', j' := if i < k then i else i + 1, if j < k then j else j + 1;
        assert r[i] == s[i'] && r[j] == s[j'];
      }
    }
  }

  /** A splice index the page can render (`0 <= index < n`) removes that entry;
      an index at or past the end changes nothing; a negative index removes
      the entry that many places from the end (`-1` the last), and one
      reaching before the start removes the first. */
  lemma SpliceRemoves(s: seq<Destination>, index: int)
    ensures 0 <= index < |s| ==> RemoveAt(s, SpliceStart(|s|, index)) == s[..index] + s[index + 1..]
    ensures |s| <= index ==> RemoveAt(s, SpliceStart(|s|, index)) == s
    ensures -|s| <= index < 0 ==>
              RemoveAt(s, SpliceStart(|s|, index)) == s[..|s| + index] + s[|s| + index + 1..]
    ensures s != [] ==> RemoveAt(s, SpliceStart(|s|, -1)) == s[..|s| - 1]
    ensures s != [] && index < -|s| ==> RemoveAt(s, SpliceStart(|s|, index)) == s[1..]
  {
  }

  class Itinerary {
    /** The global `destinations` array. */
    var destinations: seq<Destination>

    ghost predicate Valid()
      reads this
    {
      Sorted(destinations)
    }

    /** A session starts with an empty itinerary. */
    constructor ()
      ensures Valid() && destinations == []
    {
      destinations := [];
    }

    /** `addDestination`: run the validation chain; on success push the record
        (time defaulting to 12:00) and re-sort the whole array. */
    method AddDestination(name: string, date: string, time: string,
                          today: string, maxDate: string, endDate: string)
      returns (result: AddResult)
      requires Valid()
      modifies this
      ensures Valid()
      ensures result.Added? <==> Validate(name, date, today, maxDate, endDate) == Accepted
      ensures result.Refused? ==>
                Validate(name, date, today, maxDate, endDate) == Rejected(result.reason) &&
                destinations == old(destinations)
      ensures result.Added? ==>
                result.stored == Destination(name, date, TimeOrDefault(time)) &&
                destinations == Insert(old(destinations), result.stored)
      ensures result.Added? && time == "" ==> result.stored.time == DefaultTime
    {
      var verdict := Validate(name, date, today, maxDate, endDate);
      if verdict.Rejected? {
        return Refused(verdict.reason);
      }
      var d := Destination(name, date, TimeOrDefault(time));
      PushThenSort(destinations, d);
      destinations := destinations + [d];
      destinations := StableSort(destinations);
      result := Added(d);
    }

    /** `removeDestination`: `splice(index, 1)`. */
    method RemoveDestination(index: int)
      requires Valid()
      modifies this
      ensures Valid()
      ensures destinations == RemoveAt(old(destinations), SpliceStart(|old(destinations)|, index))
    {
      var k := SpliceStart(|destinations|, index);
      RemoveAtSorted(destinations, k);
      destinations := RemoveAt(destinations, k);
    }
  }

  /** After a successful add the itinerary holds one more record: the old
      records plus the new one, sorted, the new one after every record with
      the same date and time. */
  lemma AddedShape(s: seq<Destination>, x: Destination)
    requires Sorted(s)
    ensures |Insert(s, x)| == |s| + 1
    ensures multiset(Insert(s, x)) == multiset(s + [x])
    ensures Sorted(Insert(s, x))
    ensures exists k :: 0 <= k <= |s| && Insert(s, x) == s[..k] + [x] + s[k..] &&
                        (forall i :: 0 <= i < k ==> InOrder(s[i], x)) &&
                        (forall i :: k <= i < |s| ==> Cmp(s[i], x) > 0)
  {
    InsertSorted(s, x);
    InsertPermutes(s, x);
    var k := InsertSplits(s, x);
  }

  /** Adding two records in either order gives the same multiset, sorted both
      ways, and the very same itinerary when their (date, time) differ. */
  lemma InsertionOrderIrrelevant(s: seq<Destination>, a: Destination, b: Destination)
    requires Sorted(s)
    ensures multiset(Insert(Insert(s, a), b)) == multiset(Insert(Insert(s, b), a))
    ensures Sorted(Insert(Insert(s, a), b)) && Sorted(Insert(Insert(s, b), a))
    ensures Cmp(a, b) != 0 ==> Insert(Insert(s, a), b) == Insert(Insert(s, b), a)
  {
    InsertSorted(s, a);
    InsertSorted(s, b);
    InsertPermutes(s, a);
    InsertPermutes(s, b);
    InsertPermutes(Insert(s, a), b);
    InsertPermutes(Insert(s, b), a);
    InsertSorted(Insert(s, a), b);
    InsertSorted(Insert(s, b), a);
    if Cmp(a, b) != 0 {
      InsertCommutes(s, a, b);
    }
  }

  /** Records with the same date and time stay in the order they were added,
      so adding two of them in the other order gives a different itinerary. */
  lemma SameKeyKeepsAdditionOrder(s: seq<Destination>, a: Destination, b: Destination)
    requires Sorted(s) && Cmp(a, b) == 0
    ensures WithKey(Insert(Insert(s, a), b), a.date, a.time) == WithKey(s, a.date, a.time) + [a, b]
    ensures a != b ==> Insert(Insert(s, a), b) != Insert(Insert(s, b), a)
  {
    var w := WithKey(s, a.date, a.time);
    TwoInsertsWithKey(s, a, b);
    TwoInsertsWithKey(s, b, a);
    if a != b {
      assert (w + [a, b])[|w|] == a;
      assert (w + [b, a])[|w|] == b;
    }
  }

  lemma TwoInsertsWithKey(s: seq<Destination>, a: Destination, b: Destination)
    requires Sorted(s) && a.date == b.date && a.time == b.time
    ensures WithKey(Insert(Insert(s, a), b), a.date, a.time) == WithKey(s, a.date, a.time) + [a, b]
  {
    InsertSorted(s, a);
    InsertStable(s, a, a.date, a.time);
    InsertStable(Insert(s, a), b, a.date, a.time);
  }

  /** Two stops on the same day are ordered by time:
      Paris at 09:00 then Rome at 08:00 gives [Rome, Paris]. */
  method SameDayScenario() returns (names: seq<string>)
    ensures names == ["Rome", "Paris"]
  {
    var it := new Itinerary();
    var r1 := it.AddDestination("Paris", "2025-06-01", "09:00", "2025-05-01", "2026-05-01", "");
    var r2 := it.AddDestination("Rome", "2025-06-01", "08:00", "2025-05-01", "2026-05-01", "");
    assert r1.Added? && r2.Added?;
    names := [it.destinations[0].name, it.destinations[1].name];
  }

  /** The date decides before the time: A on 2025-07-01 (no time) then B on
      2025-06-01 at 10:00 gives [B, A], with A at the default 12:00. */
  method DateFirstScenario() returns (stops: seq<Destination>)
    ensures stops == [Destination("B", "2025-06-01", "10:00"), Destination("A", "2025-07-01", "12:00")]
  {
    var it := new Itinerary();
    var r1 := it.AddDestination("A", "2025-07-01", "", "2025-05-01", "2026-05-01", "");
    var r2 := it.AddDestination("B", "2025-06-01", "10:00", "2025-05-01", "2026-05-01", "");
    assert r1.Added? && r2.Added?;
    stops := it.destinations;
  }

  /** Two stops with the same date and time keep the order they were added in:
      Paris then Rome, both on 2025-06-01 at 09:00, gives [Paris, Rome]. */
  method SameKeyScenario() returns (stops: seq<Destination>)
    ensures |stops| == 2 && stops[0].name == "Paris" && stops[1].name == "Rome"
    ensures Cmp(stops[0], stops[1]) == 0
  {
    var it := new Itinerary();
    var r1 := it.AddDestination("Paris", "2025-06-01", "09:00", "2025-05-01", "2026-05-01", "");
    var r2 := it.AddDestination("Rome", "2025-06-01", "09:00", "2025-05-01", "2026-05-01", "");
    assert r1.Added? && r2.Added?;
    stops := it.destinations;
  }
}
