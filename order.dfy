/**
 Destination records and the order the itinerary keeps them in.

 The store sorts with a comparator that compares dates and, on equal dates,
 times (both as strings). JavaScript's `Array.prototype.sort` is stable, so
 records whose date and time coincide keep the order they had before the
 sort. `StableSort` is a stable insertion sort: its result is proved sorted,
 a permutation of its input and per key in input order.
 */
module Order {
  import opened Lex

  /** One itinerary stop. */
  datatype Destination = Destination(name: string, date: string, time: string)

  /** The sort comparator: date first, time on equal dates. */
  function Cmp(a: Destination, b: Destination): (r: int)
    ensures -1 <= r <= 1
    ensures r == 0 <==> a.date == b.date && a.time == b.time
  {
    CompareZero(a.time, b.time);
    CompareZero(a.date, b.date);
    if a.date == b.date then Compare(a.time, b.time) else Compare(a.date, b.date)
  }

  /** `a` may stand before `b` in a sorted itinerary. */
  predicate InOrder(a: Destination, b: Destination) {
    Cmp(a, b) <= 0
  }

  lemma CmpFlip(a: Destination, b: Destination)
    ensures Cmp(b, a) == -Cmp(a, b)
  {
    CompareFlip(a.time, b.time);
    CompareFlip(a.date, b.date);
  }

  /** The comparator is a total preorder on records: transitive, and strict
      when either step is strict. */
  lemma CmpTrans(a: Destination, b: Destination, c: Destination)
    requires Cmp(a, b) <= 0 && Cmp(b, c) <= 0
    ensures Cmp(a, c) <= 0
    ensures Cmp(a, b) < 0 || Cmp(b, c) < 0 ==> Cmp(a, c) < 0
  {
    if a.date == b.date == c.date {
      CompareTrans(a.time, b.time, c.time);
    } else if a.date == b.date {
      CompareZero(b.date, c.date);
    } else if b.date == c.date {
      CompareZero(a.date, b.date);
    } else {
      CompareZero(a.date, b.date);
      CompareZero(b.date, c.date);
      CompareTrans(a.date, b.date, c.date);
      if a.date == c.date {
        CompareFlip(a.date, b.date);
      }
    }
  }

  /** Ascending by (date, time). */
  predicate Sorted(s: seq<Destination>) {
    forall i, j :: 0 <= i < j < |s| ==> InOrder(s[i], s[j])
  }

  /** The records of `s` that have the given date and time, in order. */
  function WithKey(s: seq<Destination>, date: string, time: string): (r: seq<Destination>)
    ensures |r| <= |s|
  {
    if s == [] then []
    else
      WithKey(s[..|s| - 1], date, time) +
      (if s[|s| - 1].date == date && s[|s| - 1].time == time then [s[|s| - 1]] else [])
  }

  lemma {:induction false} WithKeyAppend(s: seq<Destination>, t: seq<Destination>, date: string, time: string)
    ensures WithKey(s + t, date, time) == WithKey(s, date, time) + WithKey(t, date, time)
    decreases |t|
  {
    if t == [] {
      assert s + t == s;
    } else {
      var u := t[..|t| - 1];
      assert (s + t)[..|s + t| - 1] == s + u;
      WithKeyAppend(s, u, date, time);
    }
  }

  lemma {:induction false} WithKeyNone(s: seq<Destination>, date: string, time: string)
    requires forall i :: 0 <= i < |s| ==> s[i].date != date || s[i].time != time
    ensures WithKey(s, date, time) == []
    decreases |s|
  {
    if s != [] {
      WithKeyNone(s[..|s| - 1], date, time);
    }
  }

  /** In a sorted array, places `x` after every record that is not greater
      than it (it stops at the first greater record). */
  function Insert(s: seq<Destination>, x: Destination): (r: seq<Destination>)
    ensures |r| == |s| + 1
    ensures x in r
    decreases |s|
  {
    if s == [] then [x]
    else if Cmp(s[0], x) > 0 then [x] + s
    else [s[0]] + Insert(s[1..], x)
  }

  /** Inserting adds exactly the one record. */
  lemma {:induction false} InsertPermutes(s: seq<Destination>, x: Destination)
    ensures multiset(Insert(s, x)) == multiset(s) + multiset{x}
    decreases |s|
  {
    if s != [] {
      assert s == [s[0]] + s[1..];
      if Cmp(s[0], x) <= 0 {
        InsertPermutes(s[1..], x);
      }
    }
  }

  lemma SortedTail(s: seq<Destination>)
    requires Sorted(s) && s != []
    ensures Sorted(s[1..])
  {
    var t := s[1..];
    forall i, j | 0 <= i < j < |t| ensures InOrder(t[i], t[j]) {
      assert t[i] == s[i + 1] && t[j] == s[j + 1];
    }
  }

  /** When the first record of a sorted itinerary is greater than `x`, all are. */
  lemma AllGreater(s: seq<Destination>, x: Destination)
    requires Sorted(s) && s != [] && Cmp(s[0], x) > 0
    ensures forall i :: 0 <= i < |s| ==> Cmp(s[i], x) > 0
  {
    forall i | 0 <= i < |s| ensures Cmp(s[i], x) > 0 {
      if Cmp(s[i], x) <= 0 {
        CmpTrans(s[0], s[i], x);
      }
    }
  }

  /** In a sorted itinerary the new record lands at some position `k`: after
      all records with a smaller or equal key, before all with a greater key. */
  lemma {:induction false} InsertSplits(s: seq<Destination>, x: Destination) returns (k: nat)
    requires Sorted(s)
    ensures k <= |s|
    ensures Insert(s, x) == s[..k] + [x] + s[k..]
    ensures forall i :: 0 <= i < k ==> InOrder(s[i], x)
    ensures forall i :: k <= i < |s| ==> Cmp(s[i], x) > 0
    decreases |s|
  {
    if s == [] {
      k := 0;
    } else if Cmp(s[0], x) > 0 {
      AllGreater(s, x);
      k := 0;
    } else {
      var t := s[1..];
      SortedTail(s);
      var j := InsertSplits(t, x);
      InsertShift(s, x, j);
      InOrderShift(s, x, j);
      GreaterShift(s, x, j);
      k := j + 1;
    }
  }

  lemma InsertShift(s: seq<Destination>, x: Destination, k: nat)
    requires s != [] && Cmp(s[0], x) <= 0 && k <= |s| - 1
    requires Insert(s[1..], x) == s[1..][..k] + [x] + s[1..][k..]
    ensures Insert(s, x) == s[..k + 1] + [x] + s[k + 1..]
  {
    InsertPast(s, x);
    ShiftSplice(s, x, k);
  }

  lemma ShiftSplice(s: seq<Destination>, x: Destination, k: nat)
    requires s != [] && k <= |s| - 1
    ensures [s[0]] + (s[1..][..k] + [x] + s[1..][k..]) == s[..k + 1] + [x] + s[k + 1..]
  {
    var t := s[1..];
    assert s[..k + 1] == [s[0]] + t[..k];
    assert s[k + 1..] == t[k..];
  }

  lemma InOrderShift(s: seq<Destination>, x: Destination, k: nat)
    requires s != [] && Cmp(s[0], x) <= 0 && k <= |s| - 1
    requires forall i :: 0 <= i < k ==> InOrder(s[1..][i], x)
    ensures forall i :: 0 <= i < k + 1 ==> InOrder(s[i], x)
  {
    forall i | 0 < i < k + 1 ensures InOrder(s[i], x) {
      assert s[i] == s[1..][i - 1];
    }
  }

  lemma GreaterShift(s: seq<Destination>, x: Destination, k: nat)
    requires s != [] && k <= |s| - 1
    requires forall i :: k <= i < |s| - 1 ==> Cmp(s[1..][i], x) > 0
    ensures forall i :: k + 1 <= i < |s| ==> Cmp(s[i], x) > 0
  {
    forall i | k + 1 <= i < |s| ensures Cmp(s[i], x) > 0 {
      assert s[i] == s[1..][i - 1];
    }
  }

  /** Inserting into a sorted itinerary keeps it sorted. */
  lemma InsertSorted(s: seq<Destination>, x: Destination)
    requires Sorted(s)
    ensures Sorted(Insert(s, x))
  {
    var k := InsertSplits(s, x);
    SpliceSorted(s, x, k);
  }

  lemma SpliceSorted(s: seq<Destination>, x: Destination, k: nat)
    requires Sorted(s) && k <= |s|
    requires forall i :: 0 <= i < k ==> InOrder(s[i], x)
    requires forall i :: k <= i < |s| ==> Cmp(s[i], x) > 0
    ensures Sorted(s[..k] + [x] + s[k..])
  {
    var r := s[..k] + [x] + s[k..];
    forall i, j | 0 <= i < j < |r| ensures InOrder(r[i], r[j]) {
      if i < k && j == k {
        assert r[i] == s[i];
      } else if i == k && j > k {
        assert r[j] == s[j - 1];
        CmpFlip(s[j - 1], x);
      } else if i < k && j > k {
        assert r[i] == s[i] && r[j] == s[j - 1];
      } else if j < k {
        assert r[i] == s[i] && r[j] == s[j];
      } else {
        assert r[i] == s[i - 1] && r[j] == s[j - 1];
      }
    }
  }

  /** Appending a record that is not smaller than any other sorts nothing. */
  lemma {:induction false} InsertLast(s: seq<Destination>, x: Destination)
    requires forall i :: 0 <= i < |s| ==> InOrder(s[i], x)
    ensures Insert(s, x) == s + [x]
    decreases |s|
  {
    if s != [] {
      InsertLast(s[1..], x);
      assert s == [s[0]] + s[1..];
    }
  }

  /** Inserting a record keeps the records of each key in their order, the
      new one after the old ones of its own key. */
  lemma InsertStable(s: seq<Destination>, x: Destination, date: string, time: string)
    requires Sorted(s)
    ensures WithKey(Insert(s, x), date, time) ==
            WithKey(s, date, time) + (if x.date == date && x.time == time then [x] else [])
  {
    var k := InsertSplits(s, x);
    forall i | k <= i < |s| ensures s[i].date != x.date || s[i].time != x.time {
      assert Cmp(s[i], x) > 0;
    }
    SpliceStable(s, x, k, date, time);
  }

  lemma SpliceStable(s: seq<Destination>, x: Destination, k: nat, date: string, time: string)
    requires k <= |s|
    requires forall i :: k <= i < |s| ==> s[i].date != x.date || s[i].time != x.time
    ensures WithKey(s[..k] + [x] + s[k..], date, time) ==
            WithKey(s, date, time) + (if x.date == date && x.time == time then [x] else [])
  {
    var front, back := s[..k], s[k..];
    assert s == front + back;
    WithKeyAppend(front + [x], back, date, time);
    WithKeyAppend(front, [x], date, time);
    WithKeyAppend(front, back, date, time);
    assert WithKey([x], date, time) == (if x.date == date && x.time == time then [x] else []) by {
      assert [x][..0] == [];
    }
    if x.date == date && x.time == time {
      forall i | 0 <= i < |back| ensures back[i].date != date || back[i].time != time {
        assert back[i] == s[k + i];
      }
      WithKeyNone(back, date, time);
    }
  }

  /** Model of the engine's stable sort: insertion sort, one record at a time
      in array order. */
  function StableSort(s: seq<Destination>): (r: seq<Destination>)
    ensures Sorted(r)
    ensures multiset(r) == multiset(s)
    decreases |s|
  {
    if s == [] then []
    else
      var init := s[..|s| - 1];
      assert s == init + [s[|s| - 1]];
      var r := StableSort(init);
      InsertSorted(r, s[|s| - 1]);
      InsertPermutes(r, s[|s| - 1]);
      Insert(r, s[|s| - 1])
  }

  /** The sort is stable: the records of each key keep their relative order. */
  lemma {:induction false} StableSortStable(s: seq<Destination>, date: string, time: string)
    ensures WithKey(StableSort(s), date, time) == WithKey(s, date, time)
    decreases |s|
  {
    if s != [] {
      var init := s[..|s| - 1];
      StableSortStable(init, date, time);
      InsertStable(StableSort(init), s[|s| - 1], date, time);
    }
  }

  /** Sorting an already sorted itinerary leaves it as it is. */
  lemma {:induction false} StableSortOfSorted(s: seq<Destination>)
    requires Sorted(s)
    ensures StableSort(s) == s
    decreases |s|
  {
    if s != [] {
      var init := s[..|s| - 1];
      StableSortOfSorted(init);
      InsertLast(init, s[|s| - 1]);
      assert init + [s[|s| - 1]] == s;
    }
  }

  /** Pushing a record onto a sorted itinerary and sorting the whole array
      amounts to inserting the record after all records not greater than it. */
  lemma PushThenSort(s: seq<Destination>, x: Destination)
    requires Sorted(s)
    ensures StableSort(s + [x]) == Insert(s, x)
  {
    assert (s + [x])[..|s|] == s;
    StableSortOfSorted(s);
  }

  /** Two records with different keys can be added in either order: the
      itinerary ends up the same. (This holds whether or not `s` is sorted.) */
  lemma {:induction false} InsertCommutes(s: seq<Destination>, a: Destination, b: Destination)
    requires Cmp(a, b) != 0
    ensures Insert(Insert(s, a), b) == Insert(Insert(s, b), a)
    decreases |s|
  {
    CmpFlip(a, b);
    if s == [] {
    } else if Cmp(s[0], a) > 0 && Cmp(s[0], b) > 0 {
      if Cmp(a, b) < 0 {
        BothInFront(s, a, b);
      } else {
        BothInFront(s, b, a);
      }
    } else if Cmp(s[0], a) > 0 {
      OneInFront(s, a, b);
    } else if Cmp(s[0], b) > 0 {
      OneInFront(s, b, a);
    } else {
      InsertCommutes(s[1..], a, b);
      InsertPast(s, a);
      InsertPast(s, b);
      InsertPast(Insert(s, a), b);
      InsertPast(Insert(s, b), a);
    }
  }

  lemma InsertPast(s: seq<Destination>, x: Destination)
    requires s != [] && Cmp(s[0], x) <= 0
    ensures Insert(s, x) == [s[0]] + Insert(s[1..], x)
  {
  }

  lemma InsertFront(s: seq<Destination>, x: Destination)
    requires s != [] && Cmp(s[0], x) > 0
    ensures Insert(s, x) == [x] + s
  {
  }

  /** Both records go before the head; the smaller one first. */
  lemma BothInFront(s: seq<Destination>, a: Destination, b: Destination)
    requires s != [] && Cmp(s[0], a) > 0 && Cmp(s[0], b) > 0 && Cmp(a, b) < 0
    ensures Insert(Insert(s, a), b) == [a, b] + s
    ensures Insert(Insert(s, b), a) == [a, b] + s
  {
    CmpFlip(a, b);
    InsertFront(s, a);
    InsertFront(s, b);
    var sa, sb := [a] + s, [b] + s;
    assert sa[1..] == s;
    InsertPast(sa, b);
    InsertFront(sb, a);
    assert [a] + ([b] + s) == [a, b] + s;
  }

  /** Only `a` goes before the head, so it stays first either way. */
  lemma OneInFront(s: seq<Destination>, a: Destination, b: Destination)
    requires s != [] && Cmp(s[0], a) > 0 && Cmp(s[0], b) <= 0
    ensures Insert(Insert(s, a), b) == Insert(Insert(s, b), a)
  {
    var h := s[0];
    assert Cmp(a, b) < 0 by {
      CmpFlip(h, a);
      CmpTrans(a, h, b);
    }
    var u := Insert(s[1..], b);
    InsertFront(s, a);
    var sa := [a] + s;
    assert sa[1..] == s;
    InsertPast(sa, b);
    InsertPast(s, b);
    var hu := [h] + u;
    assert hu[0] == h;
    InsertFront(hu, a);
  }
}
