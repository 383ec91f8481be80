/**
 Hotel capacity check (run.py, `check_capacity`).

 Guests are sorted in place by check-in date; then a min-heap of at most
 `maxCapacity` check-out dates is kept while the guests are scanned in that
 order. A guest who arrives while the heap is full either takes over the room
 whose occupant leaves first (that occupant's check-out is on or before the
 arrival) or makes the check fail.

 Dates are day numbers. A stay occupies the half-open interval
 [checkIn, checkOut).
 */
module Capacity {

  datatype Guest = Guest(name: string, checkIn: int, checkOut: int)

  /** Guest `g` occupies a room at time `t`: stays are half-open. */
  predicate Present(g: Guest, t: int)
  {
    g.checkIn <= t < g.checkOut
  }

  /** How many guests of `s` occupy a room at time `t`. */
  function Occupancy(s: seq<Guest>, t: int): (n: nat)
  {
    if s == [] then 0
    else Occupancy(s[..|s| - 1], t) + (if Present(s[|s| - 1], t) then 1 else 0)
  }

  /** At no instant are more than `k` guests present. */
  ghost predicate WithinCapacity(s: seq<Guest>, k: int)
  {
    forall t :: Occupancy(s, t) <= k
  }

  /**
   Scanning `s` in order, every guest finds fewer than `k` of the guests
   before them still present at their arrival.
   */
  predicate ArrivalsFit(s: seq<Guest>, k: int)
  {
    forall i :: 0 <= i < |s| ==> Occupancy(s[..i], s[i].checkIn) < k
  }

  predicate SortedByCheckIn(s: seq<Guest>)
  {
    forall i, j :: 0 <= i < j < |s| ==> s[i].checkIn <= s[j].checkIn
  }

  /** The guests of `s` who check in on day `c`, in their order in `s`. */
  function ArrivingOn(s: seq<Guest>, c: int): (r: seq<Guest>)
    ensures forall g :: g in r ==> g in s && g.checkIn == c
  {
    if s == [] then []
    else (if s[0].checkIn == c then [s[0]] else []) + ArrivingOn(s[1..], c)
  }

  /**
   `t` lists the guests of `s` who check in on the same day in the same
   order as `s` does: what a stable sort keeps.
   */
  ghost predicate SameTies(s: seq<Guest>, t: seq<Guest>)
  {
    forall c :: ArrivingOn(s, c) == ArrivingOn(t, c)
  }

  /** Every stay lasts at least one day. */
  predicate NonEmptyStays(s: seq<Guest>)
  {
    forall g :: g in s ==> g.checkIn < g.checkOut
  }

  // ---------------------------------------------------------------------
  // Occupancy facts

  lemma {:induction false} OccupancyAppend(s: seq<Guest>, u: seq<Guest>, t: int)
    ensures Occupancy(s + u, t) == Occupancy(s, t) + Occupancy(u, t)
    decreases |u|
  {
    if u == [] {
      assert s + u == s;
    } else {
      var u' := u[..|u| - 1];
      assert (s + u)[..|s + u| - 1] == s + u';
      OccupancyAppend(s, u', t);
    }
  }

  /** Removing the guest at `j` removes one copy of it from the multiset. */
  lemma MultisetRemoveAt(u: seq<Guest>, j: nat)
    requires j < |u|
    ensures multiset(u[..j] + u[j + 1..]) == multiset(u) - multiset{u[j]}
  {
    assert u == u[..j] + [u[j]] + u[j + 1..];
  }

  /** The guest at `j` counts once towards the occupancy, if present. */
  lemma OccupancyRemoveAt(u: seq<Guest>, j: nat, t: int)
    requires j < |u|
    ensures Occupancy(u, t) == Occupancy(u[..j] + u[j + 1..], t) + (if Present(u[j], t) then 1 else 0)
  {
    var g := u[j];
    assert u == u[..j] + [g] + u[j + 1..];
    OccupancyAppend(u[..j] + [g], u[j + 1..], t);
    OccupancyAppend(u[..j], [g], t);
    OccupancyAppend(u[..j], u[j + 1..], t);
    assert [g][..0] == [];
  }

  /** Occupancy depends only on which guests there are, not on their order. */
  lemma {:induction false} OccupancyPermutation(s: seq<Guest>, u: seq<Guest>, t: int)
    requires multiset(s) == multiset(u)
    ensures Occupancy(s, t) == Occupancy(u, t)
    decreases |s|
  {
    if s != [] {
      var g := s[|s| - 1];
      var s' := s[..|s| - 1];
      assert s == s' + [g];
      assert multiset(s') == multiset(s) - multiset{g};
      assert g in multiset(u);
      var j :| 0 <= j < |u| && u[j] == g;
      MultisetRemoveAt(u, j);
      OccupancyPermutation(s', u[..j] + u[j + 1..], t);
      OccupancyRemoveAt(u, j, t);
    }
  }

  /** Adding guests never lowers the occupancy. */
  lemma OccupancyPrefix(s: seq<Guest>, i: nat, t: int)
    requires i <= |s|
    ensures Occupancy(s[..i], t) <= Occupancy(s, t)
  {
    assert s == s[..i] + s[i..];
    OccupancyAppend(s[..i], s[i..], t);
  }

  /**
   When every guest of `s` has arrived by `u`, anyone still present at a
   later `t` was also present at `u`.
   */
  lemma {:induction false} OccupancyLater(s: seq<Guest>, u: int, t: int)
    requires forall g :: g in s ==> g.checkIn <= u
    requires u <= t
    ensures Occupancy(s, t) <= Occupancy(s, u)
    decreases |s|
  {
    if s != [] {
      OccupancyLater(s[..|s| - 1], u, t);
    }
  }

  // ---------------------------------------------------------------------
  // The overlap characterisation

  /**
   For guests in check-in order, the arrival test is enough: nobody is ever
   over capacity.
   */
  lemma {:induction false} ArrivalsFitWithinCapacity(s: seq<Guest>, k: int)
    requires k >= 0
    requires SortedByCheckIn(s)
    requires ArrivalsFit(s, k)
    ensures WithinCapacity(s, k)
    decreases |s|
  {
    if s != [] {
      var n := |s| - 1;
      var s' := s[..n];
      assert SortedByCheckIn(s');
      assert ArrivalsFit(s', k) by {
        forall i | 0 <= i < |s'|
          ensures Occupancy(s'[..i], s'[i].checkIn) < k
        {
          assert s'[..i] == s[..i];
        }
      }
      ArrivalsFitWithinCapacity(s', k);
      forall t
        ensures Occupancy(s, t) <= k
      {
        LastArrivalFits(s, k, t);
      }
    }
  }

  /**
   The last guest to arrive, who found fewer than `k` others present, adds
   nobody over capacity at any later instant.
   */
  lemma LastArrivalFits(s: seq<Guest>, k: int, t: int)
    requires s != [] && SortedByCheckIn(s)
    requires Occupancy(s[..|s| - 1], s[|s| - 1].checkIn) < k
    requires Occupancy(s[..|s| - 1], t) <= k
    ensures Occupancy(s, t) <= k
  {
    var s', g := s[..|s| - 1], s[|s| - 1];
    if Present(g, t) {
      forall h | h in s' ensures h.checkIn <= g.checkIn {
        var j :| 0 <= j < |s'| && s'[j] == h;
      }
      OccupancyLater(s', g.checkIn, t);
    }
  }

  /**
   Conversely, when nobody is ever over capacity, every guest with a stay of
   at least a day finds a free room on arrival; the order does not matter.
   */
  lemma WithinCapacityArrivalsFit(s: seq<Guest>, k: int)
    requires NonEmptyStays(s)
    requires WithinCapacity(s, k)
    ensures ArrivalsFit(s, k)
  {
    forall i | 0 <= i < |s|
      ensures Occupancy(s[..i], s[i].checkIn) < k
    {
      var t := s[i].checkIn;
      assert s[..i + 1][..i] == s[..i];
      assert Present(s[i], t);
      OccupancyPrefix(s, i + 1, t);
    }
  }

  /** A list no longer than the capacity always fits. */
  lemma ShortListFits(s: seq<Guest>, k: int)
    requires |s| <= k
    ensures ArrivalsFit(s, k)
  {
    forall i | 0 <= i < |s|
      ensures Occupancy(s[..i], s[i].checkIn) < k
    {
      OccupancyBound(s[..i], s[i].checkIn);
    }
  }

  lemma {:induction false} OccupancyBound(s: seq<Guest>, t: int)
    ensures Occupancy(s, t) <= |s|
    decreases |s|
  {
    if s != [] {
      OccupancyBound(s[..|s| - 1], t);
    }
  }

  /**
   Back-to-back stays share one room: guests who each check in no earlier
   than the previous one checks out fit in a single room, because a guest is
   gone on their check-out day.
   */
  lemma BackToBackFits(s: seq<Guest>)
    requires forall i :: 0 <= i < |s| ==> s[i].checkIn <= s[i].checkOut
    requires forall i :: 0 < i < |s| ==> s[i - 1].checkOut <= s[i].checkIn
    ensures ArrivalsFit(s, 1)
  {
    forall i | 0 <= i < |s|
      ensures Occupancy(s[..i], s[i].checkIn) < 1
    {
      forall g | g in s[..i] ensures g.checkOut <= s[i].checkIn {
        var j :| 0 <= j < i && s[j] == g;
        LeftBefore(s, j, i);
      }
      NobodyPresent(s[..i], s[i].checkIn);
    }
  }

  lemma {:induction false} LeftBefore(s: seq<Guest>, j: nat, i: nat)
    requires forall i :: 0 <= i < |s| ==> s[i].checkIn <= s[i].checkOut
    requires forall i :: 0 < i < |s| ==> s[i - 1].checkOut <= s[i].checkIn
    requires j < i < |s|
    ensures s[j].checkOut <= s[i].checkIn
    decreases i
  {
    if j < i - 1 {
      LeftBefore(s, j, i - 1);
    }
  }

  lemma {:induction false} NobodyPresent(s: seq<Guest>, t: int)
    requires forall g :: g in s ==> g.checkOut <= t
    ensures Occupancy(s, t) == 0
    decreases |s|
  {
    if s != [] {
      assert s[|s| - 1] in s;
      NobodyPresent(s[..|s| - 1], t);
    }
  }

  /**
   With a stay of no length, the order of two guests arriving on the same
   day changes the answer; this is why the sort must keep ties in order.
   */
  lemma TieOrderMatters()
    ensures var a, b := Guest("a", 0, 0), Guest("b", 0, 5);
      ArrivalsFit([a, b], 1) && !ArrivalsFit([b, a], 1)
  {
    var a, b := Guest("a", 0, 0), Guest("b", 0, 5);
    assert [a, b][..1] == [a] && [a, b][..0] == [];
    assert [b, a][..1] == [b] && [b][..0] == [] && [a][..0] == [];
    assert Occupancy([b], 0) == 1;
  }

  /** Order-independence of the capacity property. */
  lemma WithinCapacityPermutation(s: seq<Guest>, u: seq<Guest>, k: int)
    requires multiset(s) == multiset(u)
    ensures WithinCapacity(s, k) <==> WithinCapacity(u, k)
  {
    forall t ensures Occupancy(s, t) == Occupancy(u, t) {
      OccupancyPermutation(s, u, t);
    }
  }

  // ---------------------------------------------------------------------
  // The heap of check-out dates (heapq), kept as an ascending sequence so
  // that element 0 is the smallest entry, as heap[0] is in a binary heap.
  // Entries are compared by check-out date only.

  predicate Ascending(h: seq<int>)
  {
    forall i, j :: 0 <= i < j < |h| ==> h[i] <= h[j]
  }

  /** heapq.heappush */
  function HeapPush(h: seq<int>, x: int): (r: seq<int>)
    requires Ascending(h)
    ensures Ascending(r) && |r| == |h| + 1
    ensures multiset(r) == multiset(h) + multiset{x}
    ensures r[0] == if h != [] && h[0] < x then h[0] else x
  {
    if h == [] || x <= h[0] then [x] + h
    else
      assert h == [h[0]] + h[1..];
      [h[0]] + HeapPush(h[1..], x)
  }

  /**
   heapq.heappushpop: push `x`, then remove the smallest entry. When `x` is
   no larger than the current minimum it is the one removed.
   */
  function HeapPushPop(h: seq<int>, x: int): (r: seq<int>)
    requires Ascending(h) && h != []
    ensures Ascending(r) && |r| == |h|
    ensures multiset(r) + multiset{if h[0] < x then h[0] else x} == multiset(h) + multiset{x}
  {
    if h[0] < x then
      assert h == [h[0]] + h[1..];
      HeapPush(h[1..], x)
    else h
  }

  /** Number of heap entries later than `t`: guests still present at `t`. */
  function Above(h: seq<int>, t: int): (n: nat)
  {
    if h == [] then 0 else (if h[0] > t then 1 else 0) + Above(h[1..], t)
  }

  lemma {:induction false} AbovePush(h: seq<int>, x: int, t: int)
    requires Ascending(h)
    ensures Above(HeapPush(h, x), t) == Above(h, t) + (if x > t then 1 else 0)
    decreases |h|
  {
    if h != [] && x > h[0] {
      AbovePush(h[1..], x, t);
    }
  }

  /** In an ascending heap, all entries are later than `t` iff the first is. */
  lemma {:induction false} AboveAll(h: seq<int>, t: int)
    requires Ascending(h)
    ensures Above(h, t) <= |h|
    ensures h != [] ==> (Above(h, t) == |h| <==> h[0] > t)
    decreases |h|
  {
    if h != [] {
      AboveAll(h[1..], t);
    }
  }

  // ---------------------------------------------------------------------
  // The algorithm

  /**
   The heap mirrors the guests scanned so far: at any time from the last
   arrival on, the guests present are exactly those whose check-out is
   still in the heap.
   */
  ghost predicate HeapMirrors(guests: seq<Guest>, i: nat, heap: seq<int>)
    requires i <= |guests|
  {
    && Ascending(heap)
    && (i == 0 ==> heap == [])
    && (i > 0 ==> forall t :: guests[i - 1].checkIn <= t ==>
          Occupancy(guests[..i], t) == Above(heap, t))
  }

  /** At the next arrival the heap counts the guests already present. */
  lemma ArrivalSeesHeap(guests: seq<Guest>, i: nat, heap: seq<int>)
    requires SortedByCheckIn(guests) && i < |guests|
    requires HeapMirrors(guests, i, heap)
    ensures Occupancy(guests[..i], guests[i].checkIn) == Above(heap, guests[i].checkIn)
  {
  }

  /** Admitting guest `i` into a heap with room (heappush) keeps the mirror. */
  lemma PushKeepsMirror(guests: seq<Guest>, i: nat, heap: seq<int>)
    requires SortedByCheckIn(guests) && i < |guests|
    requires HeapMirrors(guests, i, heap)
    ensures HeapMirrors(guests, i + 1, HeapPush(heap, guests[i].checkOut))
  {
    var g := guests[i];
    assert guests[..i + 1][..i] == guests[..i];
    forall t | g.checkIn <= t
      ensures Occupancy(guests[..i + 1], t) == Above(HeapPush(heap, g.checkOut), t)
    {
      AbovePush(heap, g.checkOut, t);
    }
  }

  /**
   Admitting guest `i` into a full heap whose earliest check-out is on or
   before the arrival (heappushpop) keeps the mirror.
   */
  lemma ReplaceKeepsMirror(guests: seq<Guest>, i: nat, heap: seq<int>)
    requires SortedByCheckIn(guests) && i < |guests|
    requires HeapMirrors(guests, i, heap)
    requires heap != [] && heap[0] <= guests[i].checkIn
    ensures HeapMirrors(guests, i + 1, HeapPushPop(heap, guests[i].checkOut))
  {
    var g := guests[i];
    var after := HeapPushPop(heap, g.checkOut);
    assert guests[..i + 1][..i] == guests[..i];
    assert guests[i - 1].checkIn <= g.checkIn;
    forall t | g.checkIn <= t
      ensures Occupancy(guests[..i + 1], t) == Above(after, t)
    {
      assert Occupancy(guests[..i], t) == Above(heap, t);
      assert Above(heap, t) == Above(heap[1..], t);
      if heap[0] < g.checkOut {
        AbovePush(heap[1..], g.checkOut, t);
      } else {
        assert !Present(g, t);
      }
    }
  }

  /**
   The heap scan of `check_capacity`, over guests already in check-in order.
   A guest is refused exactly when the heap is full and its earliest
   check-out is after the guest's check-in.
   */
  method ScanSorted(k: int, guests: seq<Guest>) returns (ok: bool)
    requires SortedByCheckIn(guests)
    requires k >= 1 || guests == []
    ensures ok <==> ArrivalsFit(guests, k)
    ensures |guests| <= k ==> ok
  {
    var heap: seq<int> := [];
    for i := 0 to |guests|
      invariant HeapMirrors(guests, i, heap)
      invariant |heap| <= i
      invariant i > 0 ==> |heap| <= k
      invariant ArrivalsFit(guests[..i], k)
    {
      var g := guests[i];
      ArrivalSeesHeap(guests, i, heap);
      AboveAll(heap, g.checkIn);
      if |heap| < k {
        PushKeepsMirror(guests, i, heap);
        heap := HeapPush(heap, g.checkOut);
      } else if g.checkIn >= heap[0] {
        ReplaceKeepsMirror(guests, i, heap);
        heap := HeapPushPop(heap, g.checkOut);
      } else {
        assert Occupancy(guests[..i], guests[i].checkIn) >= k;
        return false;
      }
      PrefixArrivalsFit(guests, i, k);
    }
    assert guests[..|guests|] == guests;
    if |guests| <= k {
      ShortListFits(guests, k);
    }
    return true;
  }

  lemma PrefixArrivalsFit(guests: seq<Guest>, i: nat, k: int)
    requires i < |guests|
    requires ArrivalsFit(guests[..i], k)
    requires Occupancy(guests[..i], guests[i].checkIn) < k
    ensures ArrivalsFit(guests[..i + 1], k)
  {
    var s := guests[..i + 1];
    forall j | 0 <= j < |s|
      ensures Occupancy(s[..j], s[j].checkIn) < k
    {
      assert s[..j] == guests[..j];
      if j < i {
        assert guests[..i][..j] == guests[..j];
      }
    }
  }

  /** Stable insertion sort of the guests by check-in date, in place. */
  method SortByCheckIn(a: array<Guest>)
    modifies a
    ensures SortedByCheckIn(a[..])
    ensures multiset(a[..]) == old(multiset(a[..]))
    ensures SameTies(old(a[..]), a[..])
  {
    for i := 0 to a.Length
      invariant SortedByCheckIn(a[..i])
      invariant multiset(a[..]) == old(multiset(a[..]))
      invariant SameTies(old(a[..]), a[..])
    {
      InsertAt(a, i);
    }
    assert a[..a.Length] == a[..];
  }

  /**
   Sinks `a[i]` into the sorted prefix `a[..i]` by adjacent swaps, past every
   guest arriving strictly later, so that `a[..i + 1]` is sorted.
   */
  method InsertAt(a: array<Guest>, i: nat)
    requires i < a.Length && SortedByCheckIn(a[..i])
    modifies a
    ensures SortedByCheckIn(a[..i + 1])
    ensures multiset(a[..]) == old(multiset(a[..]))
    ensures SameTies(old(a[..]), a[..])
    ensures a[i + 1..] == old(a[i + 1..])
  {
    var j := i;
    while j > 0 && a[j - 1].checkIn > a[j].checkIn
      invariant 0 <= j <= i
      invariant SortedExcept(a[..], i, j)
      invariant multiset(a[..]) == old(multiset(a[..]))
      invariant SameTies(old(a[..]), a[..])
      invariant a[i + 1..] == old(a[i + 1..])
    {
      ghost var before := a[..];
      a[j - 1], a[j] := a[j], a[j - 1];
      assert a[..] == before[j - 1 := before[j]][j := before[j - 1]];
      assert a[i + 1..] == before[i + 1..];
      SwapStep(before, a[..], i, j);
      SwapKeepsTies(before, a[..], j);
      j := j - 1;
    }
    InsertDone(a[..], i, j);
  }

  /**
   `s[..i + 1]` is in check-in order except that the guest at `j`, which is
   being moved towards the front, may arrive earlier than those before it.
   */
  ghost predicate SortedExcept(s: seq<Guest>, i: nat, j: nat)
    requires i < |s|
  {
    forall p, q :: 0 <= p < q <= i && q != j ==> s[p].checkIn <= s[q].checkIn
  }

  /** Swapping the moving guest with an earlier, later-arriving one moves the exception one place forward. */
  lemma SwapStep(s: seq<Guest>, t: seq<Guest>, i: nat, j: nat)
    requires 0 < j <= i < |s| && SortedExcept(s, i, j)
    requires s[j - 1].checkIn > s[j].checkIn
    requires t == s[j - 1 := s[j]][j := s[j - 1]]
    ensures SortedExcept(t, i, j - 1)
    ensures multiset(t) == multiset(s)
  {
    forall p, q | 0 <= p < q <= i && q != j - 1 ensures t[p].checkIn <= t[q].checkIn {
      if q == j {
        assert t[q] == s[j - 1];
        if p < j - 1 {
          assert s[p].checkIn <= s[j - 1].checkIn;
        }
      } else if p == j - 1 {
        assert t[p] == s[j];
        assert s[j - 1].checkIn <= s[q].checkIn;
      } else if p == j {
        assert t[p] == s[j - 1];
      }
    }
  }

  /** When the moving guest stops, the whole prefix is in order. */
  lemma InsertDone(s: seq<Guest>, i: nat, j: nat)
    requires j <= i < |s| && SortedExcept(s, i, j)
    requires j > 0 ==> s[j - 1].checkIn <= s[j].checkIn
    ensures SortedByCheckIn(s[..i + 1])
  {
    forall p, q | 0 <= p < q <= i ensures s[p].checkIn <= s[q].checkIn {
      if q == j && p < j - 1 {
        assert s[p].checkIn <= s[j - 1].checkIn;
      }
    }
  }

  lemma {:induction false} ArrivingOnAppend(s: seq<Guest>, u: seq<Guest>, c: int)
    ensures ArrivingOn(s + u, c) == ArrivingOn(s, c) + ArrivingOn(u, c)
    decreases |s|
  {
    if s == [] {
      assert s + u == u;
    } else {
      assert (s + u)[1..] == s[1..] + u;
      ArrivingOnAppend(s[1..], u, c);
    }
  }

  /** Swapping neighbours who check in on different days keeps the ties in order. */
  lemma SwapKeepsTies(s: seq<Guest>, t: seq<Guest>, j: nat)
    requires 0 < j < |s| && s[j - 1].checkIn != s[j].checkIn
    requires t == s[j - 1 := s[j]][j := s[j - 1]]
    ensures SameTies(s, t)
  {
    var pre, x, y, post := s[..j - 1], s[j - 1], s[j], s[j + 1..];
    assert s == pre + [x, y] + post;
    assert t == pre + [y, x] + post;
    forall c ensures ArrivingOn(s, c) == ArrivingOn(t, c) {
      SwapKeepsTiesOn(pre, x, y, post, c);
    }
  }

  lemma SwapKeepsTiesOn(pre: seq<Guest>, x: Guest, y: Guest, post: seq<Guest>, c: int)
    requires x.checkIn != y.checkIn
    ensures ArrivingOn(pre + [x, y] + post, c) == ArrivingOn(pre + [y, x] + post, c)
  {
    ArrivingOnAppend(pre + [x, y], post, c);
    ArrivingOnAppend(pre, [x, y], c);
    ArrivingOnAppend(pre + [y, x], post, c);
    ArrivingOnAppend(pre, [y, x], c);
    PairTies(x, y, c);
  }

  lemma PairTies(x: Guest, y: Guest, c: int)
    requires x.checkIn != y.checkIn
    ensures ArrivingOn([x, y], c) == ArrivingOn([y, x], c)
  {
    assert [x, y][1..] == [y] && [y, x][1..] == [x];
    assert [y][1..] == [] && [x][1..] == [];
  }

  /**
   Sorting by check-in while keeping the ties in order has only one outcome:
   two such results of the same guest list are equal. So the heap scan sees
   the same list as it would after Python's stable sort.
   */
  lemma StableSortUnique(s: seq<Guest>, t: seq<Guest>, u: seq<Guest>)
    requires SortedByCheckIn(t) && SameTies(s, t)
    requires SortedByCheckIn(u) && SameTies(s, u)
    ensures t == u
  {
    TiesDetermineOrder(t, u);
  }

  lemma {:induction false} TiesDetermineOrder(t: seq<Guest>, u: seq<Guest>)
    requires SortedByCheckIn(t) && SortedByCheckIn(u) && SameTies(t, u)
    ensures t == u
    decreases |t|
  {
    if t != [] && u != [] {
      FirstTied(t, u);
      assert SortedByCheckIn(t[1..]) && SortedByCheckIn(u[1..]);
      TiesDetermineOrder(t[1..], u[1..]);
      assert t == [t[0]] + t[1..] && u == [u[0]] + u[1..];
    } else if t != [] {
      FirstArrivalListed(t);
    } else if u != [] {
      FirstArrivalListed(u);
    }
  }

  /** Two sorted lists with the same ties start with the same guest, and so do their tails' ties. */
  lemma FirstTied(t: seq<Guest>, u: seq<Guest>)
    requires t != [] && u != []
    requires SortedByCheckIn(t) && SortedByCheckIn(u) && SameTies(t, u)
    ensures t[0] == u[0] && SameTies(t[1..], u[1..])
  {
    EarliestDay(t, u);
    EarliestDay(u, t);
    var m := t[0].checkIn;
    assert ArrivingOn(t, m)[0] == t[0] && ArrivingOn(u, m)[0] == u[0];
    forall c ensures ArrivingOn(t[1..], c) == ArrivingOn(u[1..], c) {
      ArrivingOnTail(t, c);
      ArrivingOnTail(u, c);
    }
  }

  /** The first day of `u` is no later than the first day of `t`. */
  lemma EarliestDay(t: seq<Guest>, u: seq<Guest>)
    requires t != [] && u != [] && SortedByCheckIn(u) && SameTies(t, u)
    ensures u[0].checkIn <= t[0].checkIn
  {
    var m := t[0].checkIn;
    FirstArrivalListed(t);
    assert ArrivingOn(u, m) == ArrivingOn(t, m);
    var g := ArrivingOn(u, m)[0];
    assert g in u;
    var j :| 0 <= j < |u| && u[j] == g;
  }

  lemma ArrivingOnTail(s: seq<Guest>, c: int)
    requires s != []
    ensures ArrivingOn(s[1..], c) == if s[0].checkIn == c then ArrivingOn(s, c)[1..] else ArrivingOn(s, c)
  {
  }

  lemma FirstArrivalListed(s: seq<Guest>)
    requires s != []
    ensures ArrivingOn(s, s[0].checkIn) != []
  {
  }

  /**
   check_capacity: sorts the caller's guests by check-in, then answers
   whether the hotel's `maxCapacity` rooms suffice.
   */
  method CheckCapacity(maxCapacity: int, guests: array<Guest>) returns (ok: bool)
    requires maxCapacity >= 1 || guests.Length == 0
    modifies guests
    ensures SortedByCheckIn(guests[..])
    ensures multiset(guests[..]) == multiset(old(guests[..]))
    ensures SameTies(old(guests[..]), guests[..])
    ensures ok <==> ArrivalsFit(guests[..], maxCapacity)
    ensures maxCapacity >= 0 && ok ==> WithinCapacity(old(guests[..]), maxCapacity)
    ensures maxCapacity >= 0 && NonEmptyStays(old(guests[..])) ==>
      (ok <==> WithinCapacity(old(guests[..]), maxCapacity))
    ensures guests.Length <= maxCapacity ==> ok
  {
    SortByCheckIn(guests);
    ok := ScanSorted(maxCapacity, guests[..]);
    ghost var before := old(guests[..]);
    ghost var after := guests[..];
    WithinCapacityPermutation(before, after, maxCapacity);
    if ok && maxCapacity >= 0 {
      ArrivalsFitWithinCapacity(after, maxCapacity);
    }
    if NonEmptyStays(before) {
      forall g | g in after ensures g.checkIn < g.checkOut {
        assert g in multiset(after);
      }
      if WithinCapacity(before, maxCapacity) {
        WithinCapacityArrivalsFit(after, maxCapacity);
      }
    }
  }
}
