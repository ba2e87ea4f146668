/** The incremental representation of groups: a list from head to tail and a forest rooted at the
    tail, both threaded through the stone records, and a block record per group. */
module Chains {
  import opened GoRules
  import opened Placement
  import opened Blocks

  /** The stones of every live block, in list order. */
  type Groups = map<int, seq<int>>

  ghost function Elems(s: seq<int>): set<int> { set x | x in s }

  function Last(s: seq<int>): int
    requires |s| > 0
  {
    s[|s| - 1]
  }

  ghost predicate NoDup(s: seq<int>) {
    forall i, j :: 0 <= i < j < |s| ==> s[i] != s[j]
  }

  lemma {:induction false} ElemsCount(s: seq<int>)
    requires NoDup(s)
    ensures |Elems(s)| == |s|
  {
    if s == [] {
      assert Elems(s) == {};
    } else {
      var t := s[..|s| - 1];
      ElemsCount(t);
      assert Elems(s) == Elems(t) + {Last(s)};
    }
  }

  lemma ElemsPrefix(s: seq<int>, k: nat)
    requires k < |s|
    ensures Elems(s[..k + 1]) == Elems(s[..k]) + {s[k]}
  {
    assert s[..k + 1] == s[..k] + [s[k]];
  }

  lemma ElemsEmpty()
    ensures Elems([]) == {}
  {}

  lemma ElemsHas(s: seq<int>, x: int)
    requires x in s
    ensures x in Elems(s)
  {}

  lemma NotInPrefix(s: seq<int>, k: nat)
    requires NoDup(s) && k < |s|
    ensures s[k] !in Elems(s[..k])
  {}

  lemma ElemsAppend(s: seq<int>, x: int)
    ensures Elems(s + [x]) == Elems(s) + {x}
  {}

  lemma ElemsConcat(s: seq<int>, t: seq<int>)
    ensures Elems(s + t) == Elems(s) + Elems(t)
  {}

  // ---------- lists and forest ----------

  /** The parent of a stone other than the tail comes later in the list. */
  ghost predicate ParentLater(st: seq<GoStone>, ord: seq<int>, k: int)
    requires 0 <= k < |ord| && 0 <= ord[k] < |st|
  {
    exists j :: k < j < |ord| && st[ord[k]].parentId == ord[j]
  }

  ghost predicate ListOk(st: seq<GoStone>, ord: seq<int>, id: int) {
    && |ord| > 0 && NoDup(ord)
    && (forall k :: 0 <= k < |ord| ==> 0 <= ord[k] < |st|)
    && (forall k :: 0 <= k < |ord| - 1 ==> st[ord[k]].nextId == ord[k + 1])
    && (forall k :: 0 <= k < |ord| - 1 ==> ParentLater(st, ord, k))
    && st[Last(ord)].nextId == Last(ord)
    && st[Last(ord)].parentId == Last(ord)
    && st[Last(ord)].blockId == id
  }

  ghost predicate Disjoint(F: Groups) {
    forall i, j, p :: i in F && j in F && p in F[i] && p in F[j] ==> i == j
  }

  ghost predicate Forest(st: seq<GoStone>, F: Groups) {
    && (forall p :: 0 <= p < |st| ==> st[p].selfId == p)
    && (forall id :: id in F ==> ListOk(st, F[id], id))
    && Disjoint(F)
  }

  lemma ForestDisjoint(st: seq<GoStone>, F: Groups)
    requires Forest(st, F)
    ensures Disjoint(F)
  {}

  /** Only parents differ. */
  ghost predicate SameLinks(s: seq<GoStone>, t: seq<GoStone>) {
    |s| == |t| && forall p :: 0 <= p < |s| ==> t[p] == s[p].(parentId := t[p].parentId)
  }

  lemma SameLinksSelf(s: seq<GoStone>)
    ensures SameLinks(s, s)
  {}

  lemma SameLinksTransitive(s: seq<GoStone>, t: seq<GoStone>, u: seq<GoStone>)
    requires SameLinks(s, t) && SameLinks(t, u)
    ensures SameLinks(s, u)
  {}

  /** Pointing one stone of a list at the tail keeps the list's union-find paths. */
  lemma CompressList(st: seq<GoStone>, ord: seq<int>, id: int, k: nat)
    requires ListOk(st, ord, id) && k < |ord| - 1
    ensures ListOk(st[ord[k] := st[ord[k]].(parentId := Last(ord))], ord, id)
  {
    var st' := st[ord[k] := st[ord[k]].(parentId := Last(ord))];
    forall m | 0 <= m < |ord| - 1 ensures ParentLater(st', ord, m) {
      if m == k {
        assert st'[ord[k]].parentId == ord[|ord| - 1];
      } else {
        assert ParentLater(st, ord, m);
        var j :| m < j < |ord| && st[ord[m]].parentId == ord[j];
        assert st'[ord[m]] == st[ord[m]];
      }
    }
  }

  lemma CompressKeepsForest(st: seq<GoStone>, F: Groups, id: int, k: nat)
    requires Forest(st, F) && id in F && k < |F[id]| - 1
    ensures Forest(st[F[id][k] := st[F[id][k]].(parentId := Last(F[id]))], F)
  {
    hide ListOk;
    ListInRange(st, F[id], id);
    var ord := F[id];
    var st' := st[ord[k] := st[ord[k]].(parentId := Last(ord))];
    forall i | i in F ensures ListOk(st', F[i], i) {
      if i == id {
        CompressList(st, ord, id, k);
      } else {
        assert ord[k] in ord && ord[k] !in F[i];
        ListInRange(st, F[i], i);
        forall p | p in F[i] ensures 0 <= p < |st| && st'[p] == st[p] {
          var m :| 0 <= m < |F[i]| && F[i][m] == p;
        }
        ListUntouched(st, st', F[i], i);
      }
    }
  }

  lemma ListInRange(st: seq<GoStone>, ord: seq<int>, id: int)
    requires ListOk(st, ord, id)
    ensures forall k :: 0 <= k < |ord| ==> 0 <= ord[k] < |st|
  {}

  lemma ListUntouched(st: seq<GoStone>, st': seq<GoStone>, ord: seq<int>, id: int)
    requires ListOk(st, ord, id) && |st| == |st'|
    requires forall p :: p in ord ==> st'[p] == st[p]
    ensures ListOk(st', ord, id)
  {
    assert forall k :: 0 <= k < |ord| ==> ord[k] in ord;
    forall m | 0 <= m < |ord| - 1 ensures ParentLater(st', ord, m) {
      assert ParentLater(st, ord, m);
    }
  }

  lemma DropKeepsForest(st: seq<GoStone>, F: Groups, id: int)
    requires Forest(st, F)
    ensures Forest(st, F - {id})
  {}

  lemma AddKeepsForest(st: seq<GoStone>, F: Groups, id: int, p: int)
    requires Forest(st, F) && id !in F && 0 <= p < |st|
    requires forall i :: i in F ==> p !in F[i]
    ensures Forest(st[p := st[p].Reset(id)], F[id := [p]])
  {
    var st' := st[p := st[p].Reset(id)];
    forall i | i in F ensures ListOk(st', F[i], i) {
      ListUntouched(st, st', F[i], i);
    }
  }

  /** Block `a` is put in front of block `id`: a's tail links to id's head and hangs under id's
      tail. */
  function Spliced(st: seq<GoStone>, aTail: int, head: int, tail: int): seq<GoStone>
    requires 0 <= aTail < |st|
  {
    st[aTail := st[aTail].(nextId := head, parentId := tail)]
  }

  lemma SpliceList(st: seq<GoStone>, a: seq<int>, b: seq<int>, ai: int, bi: int)
    requires ListOk(st, a, ai) && ListOk(st, b, bi) && Elems(a) !! Elems(b)
    ensures ListOk(Spliced(st, Last(a), b[0], Last(b)), a + b, bi)
  {
    var st' := Spliced(st, Last(a), b[0], Last(b));
    var ord := a + b;
    assert forall k :: 0 <= k < |a| ==> a[k] in Elems(a);
    assert forall k :: 0 <= k < |b| ==> b[k] in Elems(b);
    assert NoDup(ord);
    assert forall k :: 0 <= k < |ord| && k != |a| - 1 ==> st'[ord[k]] == st[ord[k]];
    forall k | 0 <= k < |ord| - 1 ensures ParentLater(st', ord, k) {
      if k < |a| - 1 {
        assert ParentLater(st, a, k);
        var j :| k < j < |a| && st[a[k]].parentId == a[j];
        assert ord[j] == a[j];
      } else if k == |a| - 1 {
        assert ord[|ord| - 1] == Last(b);
      } else {
        assert ParentLater(st, b, k - |a|);
        var j :| k - |a| < j < |b| && st[b[k - |a|]].parentId == b[j];
        assert ord[|a| + j] == b[j];
      }
    }
  }

  lemma SpliceKeepsForest(st: seq<GoStone>, F: Groups, a: int, id: int)
    requires Forest(st, F) && a in F && id in F && a != id
    ensures Forest(Spliced(st, Last(F[a]), F[id][0], Last(F[id])), (F - {a})[id := F[a] + F[id]])
  {
    var st' := Spliced(st, Last(F[a]), F[id][0], Last(F[id]));
    SpliceList(st, F[a], F[id], a, id);
    forall i | i in F && i != a && i != id ensures ListOk(st', F[i], i) {
      assert Last(F[a]) in F[a];
      assert Last(F[a]) !in F[i];
      ListUntouched(st, st', F[i], i);
    }
  }

  // ---------- block records ----------

  /** The record describes the list `ord` and the set of its stones. */
  ghost predicate Records(g: Graph, blk: GoBlock, ord: seq<int>) {
    && |ord| > 0 && blk.inUse && IsPlayer(blk.color)
    && blk.head == ord[0] && blk.tail == Last(ord)
    && blk.stoneCount == |ord|
    && blk.Stones() == Elems(ord)
    && blk.Virts() == Border(g, Elems(ord))
  }

  /** The record describes a group of board `b` with its liberties. */
  ghost predicate BlockOk(g: Graph, b: Board, blk: GoBlock, ord: seq<int>) {
    && Records(g, blk, ord)
    && IsGroup(g, b, Elems(ord), blk.color)
    && blk.Libs() == Liberties(g, b, Elems(ord))
  }

  ghost predicate BlocksOk(g: Graph, b: Board, pool: seq<GoBlock>, F: Groups) {
    forall id :: id in F ==> 0 <= id < |pool| && BlockOk(g, b, pool[id], F[id])
  }

  ghost predicate PoolShape(pool: seq<GoBlock>, words: nat) {
    forall i :: 0 <= i < |pool| ==> pool[i].selfId == i && pool[i].HasWords(words)
  }

  /** A block is in use exactly when it is live. */
  ghost predicate InUseExact(pool: seq<GoBlock>, F: Groups) {
    forall i :: 0 <= i < |pool| ==> (pool[i].inUse <==> i in F)
  }

  ghost predicate Owned(F: Groups, p: int) {
    exists id :: id in F && p in F[id]
  }

  /** Every stone belongs to a live block. */
  ghost predicate Covered(b: Board, F: Groups) {
    forall p :: 0 <= p < |b| && b[p] != Empty ==> Owned(F, p)
  }

  ghost predicate GroupsAlive(g: Graph, b: Board, F: Groups) {
    forall id :: id in F ==> Liberties(g, b, Elems(F[id])) != {}
  }

  /** Pools that differ at most in the cached liberty counts and in block `except`. */
  ghost predicate SamePool(pool: seq<GoBlock>, pool': seq<GoBlock>, except: int) {
    && |pool| == |pool'|
    && forall i :: 0 <= i < |pool| && i != except ==> pool'[i] == pool[i].(liberty := pool'[i].liberty)
  }

  lemma SamePoolKeepsBlocks(g: Graph, b: Board, pool: seq<GoBlock>, pool': seq<GoBlock>, F: Groups, except: int)
    requires BlocksOk(g, b, pool, F) && SamePool(pool, pool', except) && except !in F
    ensures BlocksOk(g, b, pool', F)
  {}

  /** A live block's stones are the plain group of each of its stones. */
  lemma BlockIsGroup(g: Graph, b: Board, pool: seq<GoBlock>, F: Groups, id: int, p: int)
    requires |b| == |g| && BlocksOk(g, b, pool, F) && id in F && p in F[id]
    ensures 0 <= p < |b| && b[p] == pool[id].color
    ensures Elems(F[id]) == GroupOf(g, b, p)
  {
    GroupIsChain(g, b, Elems(F[id]), pool[id].color, p);
  }

  /** The board is alive exactly when every live block has a liberty. */
  lemma BlocksAlive(g: Graph, b: Board, pool: seq<GoBlock>, F: Groups)
    requires |b| == |g| && BlocksOk(g, b, pool, F) && Covered(b, F)
    ensures GroupsAlive(g, b, F) <==> AllAlive(g, b)
  {
    hide GroupOf, Liberties, BlockOk, Elems;
    if GroupsAlive(g, b, F) {
      forall p | 0 <= p < |b| && b[p] != Empty ensures Liberties(g, b, GroupOf(g, b, p)) != {} {
        assert Owned(F, p);
        var id :| id in F && p in F[id];
        BlockIsGroup(g, b, pool, F, id, p);
      }
    }
    if AllAlive(g, b) {
      forall id | id in F ensures Liberties(g, b, Elems(F[id])) != {} {
        BlockHead(g, b, pool, F, id);
        BlockIsGroup(g, b, pool, F, id, F[id][0]);
      }
    }
  }

  lemma BlockHead(g: Graph, b: Board, pool: seq<GoBlock>, F: Groups, id: int)
    requires BlocksOk(g, b, pool, F) && id in F
    ensures |F[id]| > 0 && 0 <= F[id][0] < |b| && IsPlayer(b[F[id][0]])
  {
    assert F[id][0] in Elems(F[id]);
  }

  // ---------- neighbouring blocks ----------

  /** The live blocks next to point `p`. */
  ghost function Near(g: Graph, F: Groups, p: int): set<int> {
    set id | id in F && Touches(g, Elems(F[id]), p)
  }

  ghost predicate Meets(s: seq<int>, Q: set<int>) {
    exists q :: q in s && q in Q
  }

  /** The live blocks that own one of the points `Q`. */
  ghost function Owners(F: Groups, Q: set<int>): set<int> {
    set id | id in F && Meets(F[id], Q)
  }

  lemma NoOwners(F: Groups, Q: set<int>)
    requires Q == {}
    ensures Owners(F, Q) == {}
  {
    assert forall id :: id in F ==> !Meets(F[id], Q);
  }

  lemma MeetsStep(s: seq<int>, Q: set<int>, q: int)
    ensures Meets(s, Q + {q}) == (Meets(s, Q) || q in s)
  {
    if Meets(s, Q) {
      var x :| x in s && x in Q;
      assert x in Q + {q};
    }
    if q in s { assert q in Q + {q}; }
  }

  lemma OwnersStep(F: Groups, Q: set<int>, q: int, id: int)
    requires Disjoint(F) && id in F && q in F[id]
    ensures Owners(F, Q + {q}) == Owners(F, Q) + {id}
  {
    hide Meets;
    forall i | i in F ensures Meets(F[i], Q + {q}) == (Meets(F[i], Q) || i == id) {
      MeetsStep(F[i], Q, q);
    }
  }

  lemma OwnersSkip(F: Groups, Q: set<int>, q: int)
    requires !Owned(F, q)
    ensures Owners(F, Q + {q}) == Owners(F, Q)
  {
    hide Meets;
    forall i | i in F ensures Meets(F[i], Q + {q}) == Meets(F[i], Q) {
      MeetsStep(F[i], Q, q);
    }
  }

  lemma OwnersOfNeighbours(g: Graph, F: Groups, p: int)
    requires ValidGraph(g) && 0 <= p < |g|
    requires forall id, q :: id in F && q in F[id] ==> 0 <= q < |g|
    ensures Owners(F, Elems(g[p])) == Near(g, F, p)
  {
    forall id | id in F ensures Meets(F[id], Elems(g[p])) <==> Touches(g, Elems(F[id]), p) {
      if Meets(F[id], Elems(g[p])) {
        var q :| q in F[id] && q in Elems(g[p]);
        assert Adj(g, p, q) && Adj(g, q, p);
        assert q in Elems(F[id]);
      }
      if Touches(g, Elems(F[id]), p) {
        var q :| q in Elems(F[id]) && Adj(g, q, p);
        assert Adj(g, p, q);
      }
    }
  }

  lemma EmptyNotOwned(g: Graph, b: Board, pool: seq<GoBlock>, F: Groups, q: int)
    requires |b| == |g| && BlocksOk(g, b, pool, F) && 0 <= q < |b| && b[q] == Empty
    ensures !Owned(F, q)
  {
    forall id | id in F ensures q !in F[id] {
      assert Uniform(b, Elems(F[id]), pool[id].color);
    }
  }

  // ---------- the number of groups ----------

  /** The first stone of its group. */
  ghost predicate Leads(g: Graph, b: Board, p: int) {
    0 <= p < |b| && b[p] != Empty && forall q :: q in GroupOf(g, b, p) ==> p <= q
  }

  ghost function GroupCount(g: Graph, b: Board): nat {
    |set p | 0 <= p < |b| && Leads(g, b, p)|
  }

  lemma LeastOf(s: seq<int>) returns (m: int)
    requires |s| > 0
    ensures m in s && forall x :: x in s ==> m <= x
  {
    m := s[0];
    for i := 1 to |s|
      invariant m in s && forall j :: 0 <= j < i ==> m <= s[j]
    {
      if s[i] < m { m := s[i]; }
    }
  }

  /** Each of the blocks `ids` has one first stone. */
  lemma {:induction false} LeadersOf(g: Graph, b: Board, pool: seq<GoBlock>, F: Groups, ids: set<int>) returns (leaders: set<int>)
    requires |b| == |g| && BlocksOk(g, b, pool, F) && Disjoint(F) && ids <= F.Keys
    ensures |leaders| == |ids|
    ensures forall p :: p in leaders <==> Leads(g, b, p) && exists id :: id in ids && p in F[id]
  {
    hide BlocksOk, GroupOf;
    leaders := {};
    if id :| id in ids {
      var rest := LeadersOf(g, b, pool, F, ids - {id});
      BlockHead(g, b, pool, F, id);
      var m := LeastOf(F[id]);
      forall p | p in F[id] ensures Leads(g, b, p) <==> p == m {
        BlockIsGroup(g, b, pool, F, id, p);
        BlockStone(g, b, pool, F, id, p);
        assert m in Elems(F[id]) && forall q :: q in Elems(F[id]) <==> q in F[id];
      }
      leaders := rest + {m};
    } else {
      assert forall id :: id !in ids;
      assert ids == {};
    }
  }

  lemma BlockStone(g: Graph, b: Board, pool: seq<GoBlock>, F: Groups, id: int, p: int)
    requires |b| == |g| && BlocksOk(g, b, pool, F) && id in F && p in F[id]
    ensures 0 <= p < |b| && b[p] != Empty
  {
    BlockIsGroup(g, b, pool, F, id, p);
  }

  /** There are as many live blocks as groups on the board. */
  lemma BlocksCountGroups(g: Graph, b: Board, pool: seq<GoBlock>, F: Groups)
    requires |b| == |g| && BlocksOk(g, b, pool, F) && Disjoint(F) && Covered(b, F)
    ensures |F| == GroupCount(g, b)
  {
    hide BlocksOk, GroupOf;
    var leaders := LeadersOf(g, b, pool, F, F.Keys);
    forall p | Leads(g, b, p) ensures p in leaders {
      assert Owned(F, p);
    }
    assert leaders == set p | 0 <= p < |b| && Leads(g, b, p);
    assert |F| == |F.Keys|;
  }

  // ---------- sorted ids ----------

  ghost predicate Increasing(s: seq<int>) {
    forall i, j :: 0 <= i < j < |s| ==> s[i] < s[j]
  }

  function SortedInsert(s: seq<int>, x: int): (r: seq<int>)
    requires Increasing(s)
    ensures Increasing(r) && Elems(r) == Elems(s) + {x}
  {
    if s == [] || x < s[0] then [x] + s
    else if x == s[0] then s
    else
      var t := SortedInsert(s[1..], x);
      InsertBehind(s, t, x);
      [s[0]] + t
  }

  lemma InsertBehind(s: seq<int>, t: seq<int>, x: int)
    requires Increasing(s) && |s| > 0 && s[0] < x && Increasing(t) && Elems(t) == Elems(s[1..]) + {x}
    ensures Increasing([s[0]] + t) && Elems([s[0]] + t) == Elems(s) + {x}
  {
    forall k | 0 <= k < |t| ensures s[0] < t[k] {
      assert t[k] in Elems(t);
    }
    assert s == [s[0]] + s[1..];
    ElemsConcat([s[0]], t);
    ElemsConcat([s[0]], s[1..]);
  }

  /** sort, then unique */
  method SortUnique(s: seq<int>) returns (r: seq<int>)
    ensures Increasing(r) && Elems(r) == Elems(s)
  {
    r := [];
    for i := 0 to |s|
      invariant Increasing(r) && Elems(r) == Elems(s[..i])
    {
      ElemsPrefix(s, i);
      r := SortedInsert(r, s[i]);
    }
    assert s[..|s|] == s;
  }
}
