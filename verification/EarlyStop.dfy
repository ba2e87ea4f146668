/** Stopping a search early: when the leader can no longer be caught, more search is idle. */
module EarlyStop {

  /** `i` is the first index of a largest count: what std::max_element picks. */
  ghost predicate IsChoice(v: seq<int>, i: nat) {
    && i < |v|
    && (forall j :: 0 <= j < |v| ==> v[j] <= v[i])
    && (forall j :: 0 <= j < i ==> v[j] < v[i])
  }

  /** GetBestMove, mode 0. */
  method MaxElement(v: seq<int>) returns (i: nat)
    requires |v| > 0
    ensures IsChoice(v, i)
    ensures i < |v| && (forall j :: 0 <= j < |v| ==> v[j] <= v[i]) && (forall j :: 0 <= j < i ==> v[j] != v[i])
  {
    i := 0;
    for j := 1 to |v|
      invariant i < |v| && i <= j
      invariant forall k :: 0 <= k < j ==> v[k] <= v[i]
      invariant forall k :: 0 <= k < i ==> v[k] < v[i]
    {
      if v[i] < v[j] { i := j; }
    }
  }

  /** `a` is the largest count and `b` the largest of the others; an absent count is zero. */
  ghost predicate TopTwo(v: seq<int>, a: int, b: int) {
    if |v| == 0 then a == b == 0
    else exists i: nat :: Leads(v, i, a, b)
  }

  ghost predicate Leads(v: seq<int>, i: nat, a: int, b: int) {
    && i < |v| && v[i] == a && b <= a
    && (forall j :: 0 <= j < |v| && j != i ==> v[j] <= b)
    && (if |v| == 1 then b == 0 else exists j :: 0 <= j < |v| && j != i && v[j] == b)
  }

  lemma TopTwoIsUnique(v: seq<int>, a: int, b: int, x: int, y: int)
    requires TopTwo(v, a, b) && TopTwo(v, x, y)
    ensures a == x && b == y
  {
    if v != [] {
      var i: nat :| Leads(v, i, a, b);
      var j: nat :| Leads(v, j, x, y);
      assert v[i] <= v[j] && v[j] <= v[i];
    }
  }

  lemma Extend(v: seq<int>, n: nat, a: int, b: int)
    requires n < |v| && v[n] >= 0 && TopTwo(v[..n], a, b) && (forall j :: 0 <= j < n ==> v[j] >= 0) && 0 <= b <= a
    ensures var c := v[n];
            TopTwo(v[..n + 1], if c > b && c > a then c else a, if c > b then (if c > a then a else c) else b)
  {
    var c, w := v[n], v[..n + 1];
    assert forall j :: 0 <= j < n ==> w[j] == v[..n][j];
    if n == 0 {
      assert Leads(w, 0, c, 0);
    } else {
      var i: nat :| Leads(v[..n], i, a, b);
      if c > b && c > a {
        assert w[i] == a;
        assert Leads(w, n, c, a);
      } else if c > b {
        assert w[n] == c;
        assert Leads(w, i, a, c);
      } else if n == 1 {
        assert w[n] == c && c == b;
        assert Leads(w, i, a, b);
      } else {
        var j :| 0 <= j < n && j != i && v[..n][j] == b;
        assert w[j] == b;
        assert Leads(w, i, a, b);
      }
    }
  }

  /** The scan over the children of the root. */
  method ScanTopTwo(v: seq<int>) returns (a: int, b: int)
    requires forall j :: 0 <= j < |v| ==> v[j] >= 0
    ensures TopTwo(v, a, b) && 0 <= b <= a
  {
    a, b := 0, 0;
    for n := 0 to |v|
      invariant TopTwo(v[..n], a, b) && 0 <= b <= a
    {
      Extend(v, n, a, b);
      if v[n] > b {
        if v[n] > a {
          b := a;
          a := v[n];
        } else {
          b := v[n];
        }
      }
    }
    assert v[..|v|] == v;
  }

  // ---------- what more search can change ----------

  /** One backup more at child `i`. */
  function Visit(v: seq<int>, i: nat): seq<int>
    requires i < |v|
  {
    v[i := v[i] + 1]
  }

  function Visits(v: seq<int>, run: seq<nat>): (w: seq<int>)
    requires forall k :: 0 <= k < |run| ==> run[k] < |v|
    ensures |w| == |v|
  {
    if run == [] then v else Visit(Visits(v, run[..|run| - 1]), run[|run| - 1])
  }

  lemma {:induction false} VisitsBound(v: seq<int>, run: seq<nat>, i: nat, j: nat)
    requires i < |v| && j < |v| && i != j && forall k :: 0 <= k < |run| ==> run[k] < |v|
    ensures v[i] <= Visits(v, run)[i] && Visits(v, run)[j] - Visits(v, run)[i] <= v[j] - v[i] + |run|
  {
    if run != [] { VisitsBound(v, run[..|run| - 1], i, j); }
  }

  lemma {:induction false} VisitMany(v: seq<int>, i: nat, n: nat)
    requires i < |v|
    ensures Visits(v, seq(n, _ => i)) == v[i := v[i] + n]
  {
    if n > 0 {
      VisitMany(v, i, n - 1);
      assert seq(n, _ => i)[..n - 1] == seq(n - 1, _ => i);
    }
  }

  ghost predicate ValidRun(v: seq<int>, run: seq<nat>) {
    forall k :: 0 <= k < |run| ==> run[k] < |v|
  }

  /** No other child can catch up with `i` in `n` backups; a tie is won by the earlier child. */
  ghost predicate Unbeatable(v: seq<int>, n: nat, i: nat)
    requires i < |v|
  {
    forall j :: 0 <= j < |v| && j != i ==> v[j] + n < v[i] || (v[j] + n == v[i] && i < j)
  }

  /** Every run of at most `n` backups leaves the choice at `i`. */
  ghost predicate Settled(v: seq<int>, n: nat, i: nat) {
    forall run: seq<nat> :: |run| <= n && ValidRun(v, run) ==> IsChoice(Visits(v, run), i)
  }

  lemma UnbeatableStays(v: seq<int>, n: nat, i: nat, run: seq<nat>)
    requires i < |v| && Unbeatable(v, n, i) && |run| <= n && ValidRun(v, run)
    ensures IsChoice(Visits(v, run), i)
  {
    var w := Visits(v, run);
    forall j | 0 <= j < |v| && j != i ensures w[j] < w[i] || (w[j] == w[i] && i < j) {
      VisitsBound(v, run, i, j);
    }
  }

  /** A child that can catch up does so when all the backups go to it. */
  lemma BeatingRun(v: seq<int>, n: nat, i: nat, j: nat) returns (run: seq<nat>)
    requires i < |v| && j < |v| && i != j && !(v[j] + n < v[i] || (v[j] + n == v[i] && i < j))
    ensures |run| == n && ValidRun(v, run) && !IsChoice(Visits(v, run), i)
  {
    run := seq(n, _ => j);
    VisitMany(v, j, n);
    assert Visits(v, run)[j] == v[j] + n && Visits(v, run)[i] == v[i];
  }

  /** Exactly when the choice is settled, boundary included. */
  lemma ChoiceIsSettled(v: seq<int>, n: nat, i: nat)
    requires IsChoice(v, i)
    ensures Settled(v, n, i) <==> Unbeatable(v, n, i)
  {
    if Unbeatable(v, n, i) {
      forall run: seq<nat> | |run| <= n && ValidRun(v, run) ensures IsChoice(Visits(v, run), i) {
        UnbeatableStays(v, n, i, run);
      }
    } else {
      var j: nat :| j < |v| && j != i && !(v[j] + n < v[i] || (v[j] + n == v[i] && i < j));
      var run := BeatingRun(v, n, i, j);
    }
  }

  /** A lead larger than the number of backups still to come is kept, so is the choice. */
  lemma LeadIsKept(v: seq<int>, a: int, b: int, run: seq<nat>, i: nat, j: nat)
    requires TopTwo(v, a, b) && a - b > |run| && ValidRun(v, run)
    requires IsChoice(v, i) && IsChoice(Visits(v, run), j)
    ensures i == j
  {
    var l: nat :| Leads(v, l, a, b);
    assert i == l;
    UnbeatableStays(v, |run|, i, run);
    var w := Visits(v, run);
    assert w[i] <= w[j] && w[j] <= w[i];
  }

  /** The gap is needed: when it is smaller than the number of backups to come, some run of them
      changes the choice. */
  lemma SmallLeadCanBeLost(v: seq<int>, a: int, b: int, n: nat, i: nat) returns (run: seq<nat>)
    requires |v| >= 2 && TopTwo(v, a, b) && a - b < n && IsChoice(v, i)
    ensures |run| == n && ValidRun(v, run) && !IsChoice(Visits(v, run), i)
  {
    var l: nat :| Leads(v, l, a, b);
    var j: nat;
    if l == i {
      j :| j < |v| && j != i && v[j] == b;
    } else {
      j := l;
    }
    run := BeatingRun(v, n, i, j);
  }

  /** CheckEarlyStop on exact numbers: it says stop only when enabled, past the threshold, and
      the choice is settled for every run of at most the simulations that remain. */
  method CheckEarlyStop(v: seq<int>, enable: bool, threshold: int, simulations: nat, timeout: int, elapsed: int, factor: real)
    returns (stop: bool, remain: real)
    requires elapsed > 0 && forall j :: 0 <= j < |v| ==> v[j] >= 0
    ensures stop ==> forall run: seq<nat>, i: nat, j: nat ::
              (|run| as real <= remain && ValidRun(v, run) && IsChoice(v, i) && IsChoice(Visits(v, run), j)) ==> i == j
    ensures forall a, b :: TopTwo(v, a, b) ==> (stop <==> enable && simulations >= threshold && (a - b) as real > remain)
    ensures enable && simulations >= threshold ==>
              remain == simulations as real * (timeout - elapsed) as real / elapsed as real * if factor > 0.0 then factor else 1.0
  {
    if !enable || simulations < threshold {
      return false, 0.0;
    }
    var a, b := ScanTopTwo(v);
    remain := simulations as real * (timeout - elapsed) as real / elapsed as real;
    if factor > 0.0 { remain := remain * factor; }
    stop := (a - b) as real > remain;
    forall x, y | TopTwo(v, x, y) ensures x == a && y == b { TopTwoIsUnique(v, a, b, x, y); }
    if stop {
      forall run: seq<nat>, i: nat, j: nat |
        |run| as real <= remain && ValidRun(v, run) && IsChoice(v, i) && IsChoice(Visits(v, run), j)
        ensures i == j
      {
        LeadIsKept(v, a, b, run, i, j);
      }
    }
  }
}
