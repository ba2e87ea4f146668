/** The pool of block records: ids below the high-water mark are either live, free or checked out. */
module Allocator {
  import opened Chains

  ghost predicate AllocOk(recycled: seq<int>, used: int, F: Groups, out: set<int>, cap: nat) {
    && 0 <= used <= cap
    && used == |recycled| + |F| + |out|
    && NoDup(recycled)
    && (forall id :: id in recycled ==> 0 <= id < used && id !in F && id !in out)
    && (forall id :: id in F ==> 0 <= id < used && id !in out)
    && (forall id :: id in out ==> 0 <= id < used)
    && (forall id :: 0 <= id < used ==> id in recycled || id in F || id in out)
  }

  /** A record can be had exactly while there are fewer live and checked-out blocks than records. */
  lemma RoomIsExact(recycled: seq<int>, used: int, F: Groups, out: set<int>, cap: nat)
    requires AllocOk(recycled, used, F, out, cap)
    ensures |recycled| > 0 || used < cap <==> |F| + |out| < cap
  {}

  lemma PopRecycled(recycled: seq<int>, used: int, F: Groups, out: set<int>, cap: nat)
    requires AllocOk(recycled, used, F, out, cap) && |recycled| > 0
    ensures Last(recycled) !in F && Last(recycled) !in out
    ensures AllocOk(recycled[..|recycled| - 1], used, F, out + {Last(recycled)}, cap)
  {
    var id := Last(recycled);
    var rest := recycled[..|recycled| - 1];
    assert recycled == rest + [id];
    assert id in recycled;
    assert forall x :: x in recycled <==> x in rest || x == id;
    assert id !in rest;
  }

  lemma GrowUsed(used: int, F: Groups, out: set<int>, cap: nat)
    requires AllocOk([], used, F, out, cap) && |F| + |out| < cap
    ensures used !in F && used !in out
    ensures AllocOk([], used + 1, F, out + {used}, cap)
  {}

  /** A checked-out block goes back to the stack. */
  lemma PushRecycled(recycled: seq<int>, used: int, F: Groups, out: set<int>, cap: nat, id: int)
    requires AllocOk(recycled, used, F, out, cap) && id in out
    ensures AllocOk(recycled + [id], used, F, out - {id}, cap)
  {
    assert |out - {id}| == |out| - 1;
  }

  /** A checked-out block becomes live. */
  lemma MakeLive(recycled: seq<int>, used: int, F: Groups, out: set<int>, cap: nat, id: int, ord: seq<int>)
    requires AllocOk(recycled, used, F, out, cap) && id in out && id !in F
    ensures AllocOk(recycled, used, F[id := ord], out - {id}, cap)
    ensures |F[id := ord]| == |F| + 1
  {
    assert F[id := ord].Keys == F.Keys + {id};
    assert |out - {id}| == |out| - 1;
  }

  /** A live block is given up. */
  lemma Retire(recycled: seq<int>, used: int, F: Groups, out: set<int>, cap: nat, id: int)
    requires AllocOk(recycled, used, F, out, cap) && id in F
    ensures AllocOk(recycled, used, F - {id}, out + {id}, cap)
    ensures |F - {id}| == |F| - 1
  {
    assert (F - {id}).Keys == F.Keys - {id};
    assert |F.Keys - {id}| == |F.Keys| - 1;
  }

  /** Changing a live block's list changes nothing here. */
  lemma Relist(recycled: seq<int>, used: int, F: Groups, out: set<int>, cap: nat, id: int, ord: seq<int>)
    requires AllocOk(recycled, used, F, out, cap) && id in F
    ensures AllocOk(recycled, used, F[id := ord], out, cap)
    ensures |F[id := ord]| == |F|
  {
    assert F[id := ord].Keys == F.Keys;
  }
}
