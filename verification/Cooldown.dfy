// What one cooldown key grants over a sequence of attempts, and why no other choice grants more.

module Cooldown {
  ghost predicate Ascending(ts: seq<int>) {
    forall i, j :: 0 <= i < j < |ts| ==> ts[i] <= ts[j]
  }

  /** Consecutive times are at least c apart. */
  ghost predicate Spaced(ts: seq<int>, c: int) {
    forall i :: 0 < i < |ts| ==> ts[i] - ts[i-1] >= c
  }

  /** The times at which a key with time-to-live c is granted when attempted at the times ts. */
  function Granted(ts: seq<int>, c: int): (g: seq<int>)
    ensures |g| <= |ts|
    ensures ts != [] ==> g != []
  {
    if ts == [] then []
    else
      var g := Granted(ts[..|ts|-1], c);
      var t := ts[|ts|-1];
      if g == [] || t >= g[|g|-1] + c then g + [t] else g
  }

  function Last(ts: seq<int>): int
    requires ts != []
  {
    ts[|ts|-1]
  }

  /** One time more, not before the others and c after the last of them. */
  lemma SpacedMore(ts: seq<int>, t: int, c: int)
    requires Ascending(ts) && Spaced(ts, c)
    requires ts != [] ==> t >= Last(ts) && t >= Last(ts) + c
    ensures Ascending(ts + [t]) && Spaced(ts + [t], c)
  {
  }

  lemma {:induction false} GrantedIsSpaced(ts: seq<int>, c: int)
    requires Ascending(ts)
    ensures Spaced(Granted(ts, c), c)
    ensures Ascending(Granted(ts, c))
    ensures ts != [] ==> Last(Granted(ts, c)) <= Last(ts)
  {
    if ts != [] {
      var front := ts[..|ts|-1];
      assert Ascending(front);
      GrantedIsSpaced(front, c);
      var g := Granted(front, c);
      if g == [] || Last(ts) >= Last(g) + c {
        assert g != [] ==> Last(g) <= Last(front) <= Last(ts);
        SpacedMore(g, Last(ts), c);
      } else {
        assert Last(g) <= Last(front) <= Last(ts);
      }
    }
  }

  // ---- Maximality --------------------------------------------------------------------------

  /** A choice of attempts, as indices, that are pairwise at least c apart. */
  ghost predicate Apart(ts: seq<int>, choice: set<nat>, c: int) {
    && (forall i :: i in choice ==> i < |ts|)
    && (forall i, j :: i in choice && j in choice && i < j ==> ts[j] - ts[i] >= c)
  }

  /** Some chosen attempt lies at or after t. */
  ghost predicate Reaches(ts: seq<int>, choice: set<nat>, t: int) {
    exists i :: i in choice && i < |ts| && ts[i] >= t
  }

  lemma ApartFront(ts: seq<int>, choice: set<nat>, c: int)
    requires ts != [] && Apart(ts, choice, c)
    ensures Apart(ts[..|ts|-1], choice - {|ts|-1}, c)
  {
  }

  lemma ReachesFront(ts: seq<int>, choice: set<nat>, t: int)
    requires ts != [] && Reaches(ts[..|ts|-1], choice - {|ts|-1}, t)
    ensures Reaches(ts, choice, t)
  {
  }

  /** The exchange argument: no choice is larger than the greedy one, and a choice as large
      reaches at least as far. */
  lemma {:induction false} GreedyIsMaximum(ts: seq<int>, choice: set<nat>, c: int)
    requires Ascending(ts) && Apart(ts, choice, c)
    ensures |choice| <= |Granted(ts, c)|
    ensures |choice| == |Granted(ts, c)| && ts != [] ==> Reaches(ts, choice, Last(Granted(ts, c)))
  {
    if ts == [] {
      assert choice == {};
      return;
    }
    var n := |ts| - 1;
    var front := ts[..n];
    var rest := choice - {n};
    ApartFront(ts, choice, c);
    GreedyIsMaximum(front, rest, c);
    GrantedIsSpaced(ts, c);
    if n in choice {
      LastChosen(ts, choice, c);
    } else {
      assert rest == choice;
      if front != [] && |choice| == |Granted(front, c)| == |Granted(ts, c)| {
        ReachesFront(ts, choice, Last(Granted(front, c)));
      }
    }
  }

  /** The step of the exchange argument for a choice that contains the last attempt. */
  lemma LastChosen(ts: seq<int>, choice: set<nat>, c: int)
    requires Ascending(ts) && Apart(ts, choice, c) && ts != [] && |ts| - 1 in choice
    requires |choice - {|ts|-1}| <= |Granted(ts[..|ts|-1], c)|
    requires |choice - {|ts|-1}| == |Granted(ts[..|ts|-1], c)| && |ts| > 1 ==>
               Reaches(ts[..|ts|-1], choice - {|ts|-1}, Last(Granted(ts[..|ts|-1], c)))
    requires Last(Granted(ts, c)) <= Last(ts)
    ensures |choice| <= |Granted(ts, c)|
    ensures Reaches(ts, choice, Last(Granted(ts, c)))
  {
    var n := |ts| - 1;
    var rest := choice - {n};
    var g := Granted(ts[..n], c);
    assert |choice| == |rest| + 1;
    if g != [] && ts[n] < Last(g) + c {
      // every other chosen attempt lies a cooldown before the refused one, so before the last grant
      forall i | i in rest && i < n ensures ts[..n][i] < Last(g) {
        assert ts[n] - ts[i] >= c;
      }
    }
  }

  // ---- Rates -------------------------------------------------------------------------------

  /** The elements of ts inside the closed window that starts at lo and has length w. */
  function Within(ts: seq<int>, lo: int, w: nat): seq<int> {
    if ts == [] then []
    else
      var rest := Within(ts[..|ts|-1], lo, w);
      if lo <= ts[|ts|-1] <= lo + w then rest + [ts[|ts|-1]] else rest
  }

  lemma {:induction false} SpacedApart(ts: seq<int>, c: int, i: nat, j: nat)
    requires Spaced(ts, c) && c > 0 && i < j < |ts|
    ensures ts[j] - ts[i] >= c
    decreases j
  {
    if i < j - 1 {
      SpacedApart(ts, c, i, j - 1);
    }
  }

  lemma {:induction false} WithinSpaced(ts: seq<int>, c: int, lo: int, w: nat)
    requires Spaced(ts, c) && c > 0
    ensures var v := Within(ts, lo, w);
            Spaced(v, c) && (forall x :: x in v ==> x in ts && lo <= x <= lo + w)
  {
    if ts != [] {
      var n := |ts| - 1;
      var front := ts[..n];
      assert ts == front + [ts[n]];
      WithinSpaced(front, c, lo, w);
      var v := Within(front, lo, w);
      if v != [] && lo <= ts[n] <= lo + w {
        assert v[|v|-1] in v;
        var i :| 0 <= i < n && front[i] == v[|v|-1];
        SpacedApart(ts, c, i, n);
      }
    }
  }

  lemma {:induction false} SpacedSpan(ts: seq<int>, c: int)
    requires Spaced(ts, c) && ts != []
    ensures Last(ts) - ts[0] >= (|ts| - 1) * c
  {
    if |ts| > 1 {
      var front := ts[..|ts|-1];
      SpacedSpan(front, c);
      assert (|ts| - 1) * c == (|front| - 1) * c + c;
    }
  }

  lemma QuotientBound(n: nat, c: int, w: nat)
    requires c > 0 && n * c <= w
    ensures n <= w / c
  {
    assert w == (w / c) * c + w % c;
    assert n * c < (w / c + 1) * c;
  }

  /** At most w/c + 1 members of a spaced sequence fall into any window of length w. */
  lemma WindowBound(ts: seq<int>, c: int, lo: int, w: nat)
    requires Spaced(ts, c) && c > 0
    ensures |Within(ts, lo, w)| <= w / c + 1
  {
    var v := Within(ts, lo, w);
    if v != [] {
      WithinSpaced(ts, c, lo, w);
      SpacedSpan(v, c);
      assert v[0] in v && v[|v|-1] in v;
      QuotientBound(|v| - 1, c, w);
    } else {
      QuotientBound(0, c, w);
    }
  }

  /** Consecutive times never go back and never lie more than gap apart. */
  ghost predicate Paced(ts: seq<int>, gap: nat) {
    forall i :: 0 < i < |ts| ==> 0 <= ts[i] - ts[i-1] <= gap
  }

  /** The latest attempt is less than one cooldown after the latest grant. */
  lemma LastGrantReaches(ts: seq<int>, c: int)
    requires c > 0 && ts != []
    ensures Last(ts) < Last(Granted(ts, c)) + c
  {
  }

  /** Whatever was attempted before: while attempts are never more than gap apart, the next grant
      comes at least c and less than c + gap after the previous one. */
  lemma {:induction false} GrantCadence(before: seq<int>, ts: seq<int>, c: int, gap: nat, k: nat)
    requires Paced(ts, gap) && c > 0
    requires |Granted(before, c)| < k < |Granted(before + ts, c)|
    ensures c <= Granted(before + ts, c)[k] - Granted(before + ts, c)[k-1] < c + gap
  {
    assert before + [] == before;
    var front := ts[..|ts|-1];
    assert (before + ts)[..|before + ts|-1] == before + front;
    if k < |Granted(before + front, c)| {
      GrantCadence(before, front, c, gap, k);
    } else {
      LastGrantReaches(before + front, c);
      assert Last(before + front) == ts[|ts|-2];
    }
  }
}
