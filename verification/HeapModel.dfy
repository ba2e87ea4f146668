/** The heap and the search model agree: a backup, a new node and a new root do to the fields of heap
    nodes what they do to the counters of the model. */
module HeapModel {
  import opened GoRules
  import opened GoGame
  import opened SearchTree
  import opened SearchRun
  import opened SearchGame
  import TreeHeap

  /** The counters of node `n` as the fields of a heap node. */
  ghost function CountsAt(s: State, n: int): TreeHeap.Counts
    requires Sized(s) && Allocated(s.tree, n)
  {
    TreeHeap.Counts(s.sizes[n], match s.expand[n] case Unexpanded => 0 case Expanding => 1 case Expanded => 2,
                    s.visits[n], s.losses[n], s.totals[n])
  }

  ghost predicate AtNode(s: State, k: nat) {
    Sized(s) && k < |s.threads| && s.threads[k].Backing? && s.threads[k].field == 0 && Allocated(s.tree, s.threads[k].n)
  }

  /** Four steps of thread `k`. */
  ghost function Round(s: State, k: nat): State
    requires AtNode(s, k)
  {
    Backed(Backed(Backed(Backed(s, k), k), k), k)
  }

  /** Four steps of a thread alone do to its node what one round does on the heap, leave the other
      nodes as they are, and take the thread to the parent with the value for the other side. */
  lemma FourStepsAreOneRound(s: State, k: nat)
    requires AtNode(s, k)
    ensures var th := s.threads[k];
            var u := Round(s, k);
            && Sized(u) && u.tree == s.tree
            && CountsAt(u, th.n) == TreeHeap.BackedUp(CountsAt(s, th.n), th.len, th.value)
            && (forall m :: Allocated(s.tree, m) && m != th.n ==> CountsAt(u, m) == CountsAt(s, m))
            && u.threads == s.threads[k := var up := s.tree.links[th.n].fa;
                                           if up == NO_NODE then Idle else Backing(up, 0, -th.value, th.len)]
  {
    var a := Backed(s, k);
    var b := Backed(a, k);
    var d := Backed(b, k);
    var u := Backed(d, k);
    assert a.threads == s.threads[k := a.threads[k]];
    assert b.threads == s.threads[k := b.threads[k]];
    assert d.threads == s.threads[k := d.threads[k]];
  }

  // ---------- the whole climb ----------

  /** `rounds` times four steps of thread `k`, as long as it is backing up. */
  ghost function Climbed(s: State, k: nat, rounds: nat): State {
    if rounds == 0 then s
    else
      var u := Climbed(s, k, rounds - 1);
      if AtNode(u, k) then Round(u, k) else u
  }

  /** The nodes from one of them up to a root. */
  ghost predicate Upwards(t: Tree, path: seq<int>) {
    && |path| > 0
    && (forall i :: 0 <= i < |path| ==> Allocated(t, path[i]))
    && (forall i :: 0 <= i < |path| - 1 ==> t.links[path[i]].fa == path[i + 1])
    && t.links[path[|path| - 1]].fa == NO_NODE
    && (forall i, j :: 0 <= i < j < |path| ==> path[i] != path[j])
  }

  /** The value that belongs to the node `i` steps up: the sides alternate. */
  function Alternating(v: int, i: nat): int { if i % 2 == 0 then v else -v }

  /** One backup of value `v` with `len` new nodes went through a node. */
  ghost predicate Raised(before: TreeHeap.Counts, after: TreeHeap.Counts, len: int, v: int) {
    && after.size == before.size + len && after.visitCount == before.visitCount + 1
    && after.virtualLossCount == before.virtualLossCount - 1 && after.totalAction == before.totalAction + v
    && after.expandState == before.expandState
  }

  ghost predicate ClimbedTo(s: State, u: State, k: nat, path: seq<int>, v: int, len: nat, m: nat) {
    && Sized(s) && Sized(u) && u.tree == s.tree && Upwards(s.tree, path) && m <= |path| && k < |s.threads| == |u.threads|
    && (forall i :: 0 <= i < m ==> Raised(CountsAt(s, path[i]), CountsAt(u, path[i]), len, Alternating(v, i)))
    && (forall x :: Allocated(s.tree, x) && x !in path[..m] ==> CountsAt(u, x) == CountsAt(s, x))
    && (forall j :: 0 <= j < |s.threads| && j != k ==> u.threads[j] == s.threads[j])
    && u.threads[k] == if m == |path| then Idle else Backing(path[m], 0, Alternating(v, m), len)
  }

  lemma ClimbStep(s: State, u: State, k: nat, path: seq<int>, v: int, len: nat, m: nat)
    requires ClimbedTo(s, u, k, path, v, len, m) && m < |path|
    ensures AtNode(u, k) && ClimbedTo(s, Round(u, k), k, path, v, len, m + 1)
  {
    hide CountsAt, Round, Raised;
    FourStepsAreOneRound(u, k);
    assert path[..m + 1] == path[..m] + [path[m]];
    var w := Round(u, k);
    assert path[m] !in path[..m];
    assert CountsAt(u, path[m]) == CountsAt(s, path[m]);
    assert Raised(CountsAt(s, path[m]), CountsAt(w, path[m]), len, Alternating(v, m)) by {
      RoundRaises(CountsAt(s, path[m]), len, Alternating(v, m));
    }
    forall i | 0 <= i < m ensures CountsAt(w, path[i]) == CountsAt(u, path[i]) {
      assert path[i] != path[m];
    }
  }

  lemma RoundRaises(c: TreeHeap.Counts, len: int, v: int)
    ensures Raised(c, TreeHeap.BackedUp(c, len, v), len, v)
  {}

  /** Four steps for each node of the path bring a thread to the root and leave, at the node `i`
      steps up, the size and the visits raised, one virtual loss less and the value added with its
      sign; no other node changes. */
  lemma {:induction false} ClimbIsBackup(s: State, k: nat, path: seq<int>, v: int, len: nat, m: nat)
    requires Sized(s) && Upwards(s.tree, path) && m <= |path| && k < |s.threads| && s.threads[k] == Backing(path[0], 0, v, len)
    ensures ClimbedTo(s, Climbed(s, k, m), k, path, v, len, m)
  {
    if m > 0 {
      ClimbIsBackup(s, k, path, v, len, m - 1);
      ClimbStep(s, Climbed(s, k, m - 1), k, path, v, len, m - 1);
    }
  }

  /** The counters that the whole climb leaves are those that BackupFrom leaves on the heap. */
  lemma ClimbIsHeapBackup(s: State, k: nat, path: seq<int>, value: real, len: nat, i: nat)
    requires Sized(s) && Upwards(s.tree, path) && i < |path| && k < |s.threads|
    requires s.threads[k] == Backing(path[0], 0, TreeHeap.Fixed(value), len)
    ensures var u := Climbed(s, k, |path|);
            && Sized(u) && u.tree == s.tree && k < |u.threads| && u.threads[k] == Idle
            && CountsAt(u, path[i]) == TreeHeap.BackedUp(CountsAt(s, path[i]), len, TreeHeap.Signed(TreeHeap.Fixed(value), i))
  {
    ClimbIsBackup(s, k, path, TreeHeap.Fixed(value), len, |path|);
  }

  // ---------- new nodes and new roots ----------

  /** A new child and a fresh root have the counters of InitNode. */
  lemma NewNodesAgree(c: Config, s: State, n: int, moves: seq<int>, i: nat, board: Position, move: int)
    requires Sized(s) && Allocated(s.tree, n) && Playable(c.rules, s.tree.links[n].pos, moves) && i < |moves|
    ensures var u, id := Grown(c, s, n, moves), |s.tree.links| + i;
            Sized(u) && Allocated(u.tree, id) && CountsAt(u, id) == TreeHeap.FreshCounters() == TreeHeap.Counts(1, 0, 0, 0, 0)
    ensures var u := FreshState(s, board, move);
            Sized(u) && Allocated(u.tree, u.tree.root) && CountsAt(u, u.tree.root) == TreeHeap.FreshCounters()
  {}

  /** The new root of the model has every field of the node that ChangeRoot copies. */
  lemma NewRootAgrees(s: State, n: int)
    requires Sized(s) && Allocated(s.tree, n)
    ensures var u := ReparentedState(s, n);
            && TakesOver(s, n, u, u.tree.root) && CountsAt(u, u.tree.root) == CountsAt(s, n)
            && u.tree.links[u.tree.root].fa == NO_NODE
  {}
}
