// Suppression windows and their lookup (pkg/anomaly/calendar.go). Times are
// instants counted from any epoch.

module SuppressionCalendar {
  import opened Sorting

  datatype Window = Window(start: int, end: int, reason: string)

  // Half-open: the start is inside, the end is not.
  predicate Covers(w: Window, t: int) {
    w.start <= t < w.end
  }

  predicate Covered(ws: seq<Window>, t: int) {
    exists i :: 0 <= i < |ws| && Covers(ws[i], t)
  }

  // w is a window covering t, and none that covers t starts later.
  ghost predicate LatestCovering(ws: seq<Window>, t: int, w: Window) {
    && w in ws && Covers(w, t)
    && forall v :: v in ws && Covers(v, t) ==> v.start <= w.start
  }

  predicate StartLeq(v: Window, w: Window) {
    v.start <= w.start
  }

  lemma StartOrder()
    ensures TotalOrder(StartLeq)
  {
  }

  // The library sort, in place. It is not stable, so all a caller learns is
  // that the entries are rearranged and ordered by start.
  method SortByStart(a: array<Window>)
    modifies a
    ensures Sorted(a[..], StartLeq) && multiset(a[..]) == multiset(old(a[..]))
  {
    var s := Sort(a[..], StartLeq);
    StartOrder();
    SortSorts(a[..], StartLeq);
    forall i | 0 <= i < a.Length {
      a[i] := s[i];
    }
    assert a[..] == s;
  }

  class Calendar {
    const windows: array<Window>

    ghost predicate Valid()
      reads windows
    {
      Sorted(windows[..], StartLeq)
    }

    // A sorted copy of the windows given.
    constructor (ws: seq<Window>)
      ensures Valid() && fresh(windows) && multiset(windows[..]) == multiset(ws)
    {
      var dup := new Window[|ws|](i requires 0 <= i < |ws| => ws[i]);
      assert dup[..] == ws;
      SortByStart(dup);
      windows := dup;
    }

    // The number of windows that start no later than t.
    method Search(t: int) returns (idx: int)
      requires Valid()
      ensures 0 <= idx <= windows.Length
      ensures forall k :: 0 <= k < idx ==> windows[k].start <= t
      ensures forall k :: idx <= k < windows.Length ==> t < windows[k].start
    {
      var lo, hi := 0, windows.Length;
      while lo < hi
        invariant 0 <= lo <= hi <= windows.Length
        invariant forall k :: 0 <= k < lo ==> windows[k].start <= t
        invariant forall k :: hi <= k < windows.Length ==> t < windows[k].start
      {
        var mid := (lo + hi) / 2;
        if windows[mid].start > t {
          forall k | mid <= k < windows.Length ensures t < windows[k].start {
            assert k == mid || StartLeq(windows[..][mid], windows[..][k]);
          }
          hi := mid;
        } else {
          forall k | 0 <= k <= mid ensures windows[k].start <= t {
            assert k == mid || StartLeq(windows[..][k], windows[..][mid]);
          }
          lo := mid + 1;
        }
      }
      return lo;
    }

    method Suppresses(t: int) returns (suppressed: bool, reason: string)
      requires Valid()
      ensures suppressed <==> Covered(windows[..], t)
      ensures suppressed ==> exists w :: LatestCovering(windows[..], t, w) && reason == w.reason
      ensures !suppressed ==> reason == ""
    {
      if windows.Length == 0 {
        return false, "";
      }
      var idx := Search(t);
      if idx == 0 {
        return false, "";
      }
      var w := windows[idx - 1];
      if t < w.end {
        LatestBelow(windows[..], t, idx, idx - 1);
        return true, w.reason;
      }
      var j := idx - 2;
      while j >= 0
        invariant -1 <= j <= idx - 2
        invariant forall k :: j < k < idx ==> windows[k].end <= t
      {
        if t < windows[j].end {
          LatestBelow(windows[..], t, idx, j);
          return true, windows[j].reason;
        }
        j := j - 1;
      }
      return false, "";
    }
  }

  // Walking down from the last window that has started, the first one that
  // has not ended yet is a covering window with the latest start.
  lemma LatestBelow(ws: seq<Window>, t: int, idx: nat, j: nat)
    requires Sorted(ws, StartLeq) && j < idx <= |ws|
    requires forall k :: 0 <= k < idx ==> ws[k].start <= t
    requires forall k :: idx <= k < |ws| ==> t < ws[k].start
    requires t < ws[j].end && forall k :: j < k < idx ==> ws[k].end <= t
    ensures Covered(ws, t) && LatestCovering(ws, t, ws[j])
  {
    forall v | v in ws && Covers(v, t) ensures v.start <= ws[j].start {
      var k :| 0 <= k < |ws| && ws[k] == v;
      assert k == j || (k < j && StartLeq(ws[k], ws[j]));
    }
    assert Covers(ws[j], t);
  }

  lemma CoveredPermuted(ws: seq<Window>, vs: seq<Window>, t: int)
    requires multiset(ws) == multiset(vs)
    ensures Covered(ws, t) <==> Covered(vs, t)
    ensures forall w :: LatestCovering(ws, t, w) <==> LatestCovering(vs, t, w)
  {
    SameElements(ws, vs);
    if Covered(ws, t) {
      var i :| 0 <= i < |ws| && Covers(ws[i], t);
      assert ws[i] in vs;
    }
    if Covered(vs, t) {
      var i :| 0 <= i < |vs| && Covers(vs[i], t);
      assert vs[i] in ws;
    }
  }

  // Lookup in a calendar built from any list: overlapping, nested, empty or
  // unordered.
  method Suppression(ws: seq<Window>, t: int) returns (suppressed: bool, reason: string)
    ensures suppressed <==> Covered(ws, t)
    ensures suppressed ==> exists w :: LatestCovering(ws, t, w) && reason == w.reason
    ensures !suppressed ==> reason == ""
  {
    var cal := new Calendar(ws);
    suppressed, reason := cal.Suppresses(t);
    CoveredPermuted(ws, cal.windows[..], t);
  }
}
