/** Ascending sequences of time stamps, the deque prune every sliding window uses, and the
    step from "any m+1 consecutive stamps are spread out" to "no window holds more than m". */
module Windows {

  ghost predicate Ascending(ts: seq<real>) {
    forall i, j :: 0 <= i <= j < |ts| ==> ts[i] <= ts[j]
  }

  /** The stamps left after popping the front while it is not newer than the cutoff. */
  function NewerThan(ts: seq<real>, cutoff: real): seq<real> {
    if ts != [] && ts[0] <= cutoff then NewerThan(ts[1..], cutoff) else ts
  }

  /** How many stamps fall in the half-open interval [lo, hi). */
  function CountIn(ts: seq<real>, lo: real, hi: real): nat {
    if ts == [] then 0
    else CountIn(ts[..|ts| - 1], lo, hi) + (if lo <= ts[|ts| - 1] < hi then 1 else 0)
  }

  /** Stamps at least m places apart are at least width apart. */
  ghost predicate Spread(ts: seq<real>, m: nat, width: real) {
    forall i, j :: 0 <= i <= j < |ts| && j - i >= m ==> ts[j] - ts[i] >= width
  }

  /** A prune keeps a suffix; what it drops is not newer than the cutoff and, in an ascending
      sequence, what it keeps is exactly the stamps that are. */
  lemma {:induction false} NewerThanIsSuffix(ts: seq<real>, cutoff: real)
    ensures var kept := NewerThan(ts, cutoff);
            && |kept| <= |ts|
            && kept == ts[|ts| - |kept|..]
            && (forall i :: 0 <= i < |ts| - |kept| ==> ts[i] <= cutoff)
            && (kept != [] ==> kept[0] > cutoff)
            && (Ascending(ts) ==> forall t :: t in kept ==> t > cutoff)
  {
    if ts != [] && ts[0] <= cutoff {
      NewerThanIsSuffix(ts[1..], cutoff);
      var kept := NewerThan(ts, cutoff);
      assert forall i :: 0 < i < |ts| - |kept| ==> ts[i] == ts[1..][i - 1];
    }
  }

  /** Pruning twice is pruning once with the later cutoff. */
  lemma {:induction false} NewerThanTwice(ts: seq<real>, c: real, d: real)
    requires c <= d
    ensures NewerThan(NewerThan(ts, c), d) == NewerThan(ts, d)
  {
    if ts != [] && ts[0] <= c {
      NewerThanTwice(ts[1..], c, d);
    }
  }

  lemma {:induction false} NewerThanAppend(ts: seq<real>, x: real, cutoff: real)
    requires x > cutoff
    ensures NewerThan(ts + [x], cutoff) == NewerThan(ts, cutoff) + [x]
  {
    if ts == [] {
      assert ts + [x] == [x];
    } else if ts[0] <= cutoff {
      assert (ts + [x])[1..] == ts[1..] + [x];
      NewerThanAppend(ts[1..], x, cutoff);
    }
  }

  /** Stamps before index p lie below the interval, so at most the rest are counted. */
  lemma {:induction false} CountAfter(ts: seq<real>, p: nat, lo: real, hi: real)
    requires p <= |ts|
    requires forall i :: 0 <= i < p ==> ts[i] < lo
    ensures CountIn(ts, lo, hi) <= |ts| - p
  {
    if ts != [] {
      var init := ts[..|ts| - 1];
      if p == |ts| {
        CountAfter(init, p - 1, lo, hi);
      } else {
        CountAfter(init, p, lo, hi);
      }
    }
  }

  /** The counting form of Spread: no half-open window of the given width holds more than m. */
  lemma {:induction false} SpreadBoundsCount(ts: seq<real>, m: nat, width: real, lo: real)
    requires Ascending(ts) && Spread(ts, m, width) && width > 0.0
    ensures CountIn(ts, lo, lo + width) <= m
  {
    if ts != [] {
      var last := |ts| - 1;
      if ts[last] < lo + width {
        if last - m >= 0 {
          assert ts[last] - ts[last - m] >= width;
          CountAfter(ts, last - m + 1, lo, lo + width);
        }
        else {
          CountAfter(ts, 0, lo, lo + width);
        }
      } else {
        SpreadBoundsCount(ts[..last], m, width, lo);
      }
    }
  }

  lemma AscendingAppend(ts: seq<real>, x: real)
    requires Ascending(ts) && (ts != [] ==> ts[|ts| - 1] <= x)
    ensures Ascending(ts + [x])
  {
    assert forall i :: 0 <= i < |ts| ==> ts[i] <= ts[|ts| - 1];
  }

  /** Appending a stamp keeps the spread when at most m stamps are newer than x - width. */
  lemma SpreadAppend(ts: seq<real>, x: real, m: nat, width: real)
    requires Ascending(ts + [x]) && Spread(ts, m, width) && width > 0.0
    requires |NewerThan(ts + [x], x - width)| <= m
    ensures Spread(ts + [x], m, width)
  {
    var all := ts + [x];
    NewerThanIsSuffix(all, x - width);
    var kept := NewerThan(all, x - width);
    forall i, j | 0 <= i <= j < |all| && j - i >= m ensures all[j] - all[i] >= width {
      if j < |ts| {
        assert ts[j] - ts[i] >= width;
      } else {
        assert i < |all| - |kept|;
      }
    }
  }
}
