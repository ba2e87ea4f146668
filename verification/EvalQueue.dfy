/** The evaluation queue, and the workers that take tasks from it in batches. */
module EvalQueue {

  datatype Option<T> = None | Some(value: T)

  /** A deque under a mutex.  A method that would block has the awaited condition as its
      precondition; `timedOut` tells Pop that its wait ended without it. */
  class TaskQueue<T> {
    var queue: seq<T>
    var capacity: int
    var size: int
    var isClose: bool

    ghost predicate Valid()
      reads this
    {
      size == |queue|
    }

    constructor (capacity: int)
      ensures Valid() && queue == [] && this.capacity == capacity && !isClose
    {
      this.capacity := capacity;
      queue, size, isClose := [], 0, false;
    }

    method Push(elem: T)
      requires Valid() && (capacity > 0 ==> |queue| < capacity)
      modifies this
      ensures Valid() && queue == old(queue) + [elem] && capacity == old(capacity) && isClose == old(isClose)
      ensures capacity > 0 ==> |queue| <= capacity
    {
      queue := queue + [elem];
      size := |queue|;
    }

    method PushFront(elem: T)
      requires Valid()
      modifies this
      ensures Valid() && queue == [elem] + old(queue) && capacity == old(capacity) && isClose == old(isClose)
    {
      queue := [elem] + queue;
      size := |queue|;
    }

    method Pop(timedOut: bool) returns (elem: Option<T>)
      requires Valid() && (timedOut || queue != [] || isClose)
      modifies this
      ensures Valid() && capacity == old(capacity) && isClose == old(isClose)
      ensures elem == if old(queue) == [] then None else Some(old(queue)[0])
      ensures queue == if old(queue) == [] then [] else old(queue)[1..]
    {
      if queue == [] { return None; }
      elem := Some(queue[0]);
      queue := queue[1..];
      size := |queue|;
    }

    method Close()
      requires Valid()
      modifies this
      ensures Valid() && isClose && queue == old(queue) && capacity == old(capacity)
    {
      isClose := true;
    }

    /** A batch whose evaluation timed out goes back in front of the queue, last task first. */
    method ReturnBatch(batch: seq<T>)
      requires Valid()
      modifies this
      ensures Valid() && capacity == old(capacity) && isClose == old(isClose)
      ensures |queue| == |batch| + |old(queue)| && queue[|batch|..] == old(queue)
      ensures forall k :: 0 <= k < |batch| ==> queue[k] == batch[|batch| - 1 - k]
    {
      for i := 0 to |batch|
        invariant Valid() && capacity == old(capacity) && isClose == old(isClose)
        invariant |queue| == i + |old(queue)| && queue[i..] == old(queue)
        invariant forall k :: 0 <= k < i ==> queue[k] == batch[i - 1 - k]
      {
        ghost var before := queue;
        PushFront(batch[i]);
        assert queue[i + 1..] == before[i..];
      }
    }

    /** Fills a batch: waits for the first task, then takes what comes until a wait times out;
        `arrived` says how many tasks come in time. */
    method TakeBatch(batchSize: nat, arrived: nat) returns (batch: seq<T>)
      requires Valid() && !isClose && (batchSize > 0 ==> queue != [])
      modifies this
      ensures Valid() && capacity == old(capacity) && isClose == old(isClose)
      ensures batch + queue == old(queue)
      ensures |batch| == Least(batchSize, Least(|old(queue)|, if arrived > 1 then arrived else 1))
    {
      batch := [];
      for i := 0 to batchSize
        invariant Valid() && !isClose && capacity == old(capacity)
        invariant batch + queue == old(queue) && |batch| == i
        invariant i <= |old(queue)| && (i <= 1 || i <= arrived)
      {
        if i > 0 && (i >= arrived || queue == []) { break; }
        var task := Pop(false);
        batch := batch + [task.value];
      }
    }
  }

  function Least(a: nat, b: nat): nat { if a < b then a else b }

  // ---------- many workers ----------

  /** Where a worker is in EvalRoutine_out, with the tasks in its hands. */
  datatype Worker =
    | Collecting(batch: seq<nat>)
    | Forwarding(batch: seq<nat>)
    | Returning(batch: seq<nat>, i: nat)
    | Replying(batch: seq<nat>, i: nat)

  /** Tasks are numbered as they are pushed; `answered` lists the tasks whose callback ran. */
  datatype State = State(queue: seq<nat>, pushed: nat, workers: seq<Worker>, answered: seq<nat>)

  datatype Config = Config(capacity: int, batchSize: nat)

  datatype Event =
    | Push | Pop(w: nat) | StopWaiting(w: nat) | ModelTimesOut(w: nat) | ModelAnswers(w: nat)
    | PushBack(w: nat) | Reply(w: nat) | Done(w: nat)

  ghost predicate Enabled(c: Config, s: State, e: Event) {
    match e
    case Push => c.capacity > 0 ==> |s.queue| < c.capacity
    case Pop(w) => w < |s.workers| && s.workers[w].Collecting? && |s.workers[w].batch| < c.batchSize && s.queue != []
    case StopWaiting(w) =>
      w < |s.workers| && s.workers[w].Collecting? && (|s.workers[w].batch| == c.batchSize || |s.workers[w].batch| > 0)
    case ModelTimesOut(w) => w < |s.workers| && s.workers[w].Forwarding?
    case ModelAnswers(w) => w < |s.workers| && s.workers[w].Forwarding?
    case PushBack(w) => w < |s.workers| && s.workers[w].Returning? && s.workers[w].i < |s.workers[w].batch|
    case Reply(w) => w < |s.workers| && s.workers[w].Replying? && s.workers[w].i < |s.workers[w].batch|
    case Done(w) =>
      && w < |s.workers| && (s.workers[w].Returning? || s.workers[w].Replying?)
      && s.workers[w].i == |s.workers[w].batch|
  }

  ghost function With(s: State, w: nat, x: Worker): State
    requires w < |s.workers|
  {
    s.(workers := s.workers[w := x])
  }

  ghost function After(c: Config, s: State, e: Event): State
    requires Enabled(c, s, e)
  {
    match e
    case Push => s.(queue := s.queue + [s.pushed], pushed := s.pushed + 1)
    case Pop(w) => With(s, w, Collecting(s.workers[w].batch + [s.queue[0]])).(queue := s.queue[1..])
    case StopWaiting(w) => With(s, w, Forwarding(s.workers[w].batch))
    case ModelTimesOut(w) => With(s, w, Returning(s.workers[w].batch, 0))
    case ModelAnswers(w) => With(s, w, Replying(s.workers[w].batch, 0))
    case PushBack(w) =>
      var x := s.workers[w];
      With(s, w, Returning(x.batch, x.i + 1)).(queue := [x.batch[x.i]] + s.queue)
    case Reply(w) =>
      var x := s.workers[w];
      With(s, w, Replying(x.batch, x.i + 1)).(answered := s.answered + [x.batch[x.i]])
    case Done(w) => With(s, w, Collecting([]))
  }

  ghost function InitialState(workers: nat): State {
    State([], 0, seq(workers, _ => Collecting([])), [])
  }

  /** The tasks a worker is still responsible for. */
  ghost function InHand(x: Worker): seq<nat> {
    match x
    case Collecting(b) => b
    case Forwarding(b) => b
    case Returning(b, i) => if i <= |b| then b[i..] else []
    case Replying(b, i) => if i <= |b| then b[i..] else []
  }

  ghost function Count(s: seq<nat>, id: nat): nat { multiset(s)[id] }

  /** How often `id` is in the workers' hands. */
  ghost function Hands(ws: seq<Worker>, id: nat): nat {
    if ws == [] then 0 else Hands(ws[..|ws| - 1], id) + Count(InHand(ws[|ws| - 1]), id)
  }

  /** How many tasks are in the workers' hands. */
  ghost function Load(ws: seq<Worker>): nat {
    if ws == [] then 0 else Load(ws[..|ws| - 1]) + |InHand(ws[|ws| - 1])|
  }

  lemma {:induction false} HandsUpdate(ws: seq<Worker>, w: nat, x: Worker, id: nat)
    requires w < |ws|
    ensures Hands(ws[w := x], id) == Hands(ws, id) - Count(InHand(ws[w]), id) + Count(InHand(x), id)
    ensures Load(ws[w := x]) == Load(ws) - |InHand(ws[w])| + |InHand(x)|
  {
    hide InHand, Count;
    var init, vs := ws[..|ws| - 1], ws[w := x];
    if w < |ws| - 1 {
      assert vs[..|vs| - 1] == init[w := x];
      HandsUpdate(init, w, x, id);
    } else {
      assert vs[..|vs| - 1] == init;
    }
  }

  /** In how many places task `id` is. */
  ghost function Places(s: State, id: nat): nat {
    Count(s.queue, id) + Hands(s.workers, id) + Count(s.answered, id)
  }

  /** Every task is somewhere, once, and batches are never too large. */
  ghost predicate Inv(c: Config, s: State) {
    && (forall id: nat :: Places(s, id) == if id < s.pushed then 1 else 0)
    && (forall w :: 0 <= w < |s.workers| ==> |InHand(s.workers[w])| <= c.batchSize)
    && (c.capacity > 0 ==> |s.queue| + Load(s.workers) <= c.capacity + |s.workers| * c.batchSize)
  }

  lemma {:induction false} LoadBound(ws: seq<Worker>, b: nat)
    requires forall w :: 0 <= w < |ws| ==> |InHand(ws[w])| <= b
    ensures Load(ws) <= |ws| * b
  {
    if ws != [] {
      LoadBound(ws[..|ws| - 1], b);
      assert |ws| * b == (|ws| - 1) * b + b;
    }
  }

  lemma {:induction false} EmptyHands(ws: seq<Worker>, id: nat)
    requires forall w :: 0 <= w < |ws| ==> InHand(ws[w]) == []
    ensures Hands(ws, id) == 0
  {
    if ws != [] { EmptyHands(ws[..|ws| - 1], id); }
  }

  lemma InvInitially(c: Config, n: nat)
    ensures Inv(c, InitialState(n))
  {
    var s := InitialState(n);
    forall id: nat ensures Places(s, id) == 0 { EmptyHands(s.workers, id); }
    LoadBound(s.workers, c.batchSize);
  }

  /** A worker's step: it holds `x` afterwards, and the queue and the answers change so that no
      task appears or disappears. */
  lemma WorkerKeeps(c: Config, s: State, u: State, w: nat, x: Worker)
    requires Inv(c, s) && w < |s.workers| && u.workers == s.workers[w := x] && u.pushed == s.pushed
    requires forall id: nat :: Count(u.queue, id) + Count(InHand(x), id) + Count(u.answered, id) ==
                               Count(s.queue, id) + Count(InHand(s.workers[w]), id) + Count(s.answered, id)
    requires |InHand(x)| <= c.batchSize && |u.queue| + |InHand(x)| <= |s.queue| + |InHand(s.workers[w])|
    ensures Inv(c, u)
  {
    hide InHand, Count;
    forall id: nat ensures Places(u, id) == Places(s, id) { HandsUpdate(s.workers, w, x, id); }
    HandsUpdate(s.workers, w, x, 0);
  }

  lemma CountSplit(s: seq<nat>, t: seq<nat>, id: nat)
    ensures Count(s + t, id) == Count(s, id) + Count(t, id)
  {}

  lemma CountSplits(s: seq<nat>, t: seq<nat>)
    ensures forall id: nat :: Count(s + t, id) == Count(s, id) + Count(t, id)
  {
    forall id: nat ensures Count(s + t, id) == Count(s, id) + Count(t, id) { CountSplit(s, t, id); }
  }

  lemma PopKeeps(c: Config, s: State, w: nat)
    requires Inv(c, s) && Enabled(c, s, Event.Pop(w))
    ensures Inv(c, After(c, s, Event.Pop(w)))
  {
    hide Inv, Count;
    var b, first, rest := s.workers[w].batch, [s.queue[0]], s.queue[1..];
    assert s.queue == first + rest;
    CountSplits(b, first);
    CountSplits(first, rest);
    WorkerKeeps(c, s, After(c, s, Event.Pop(w)), w, Collecting(b + first));
  }

  lemma PushBackKeeps(c: Config, s: State, w: nat)
    requires Inv(c, s) && Enabled(c, s, PushBack(w))
    ensures Inv(c, After(c, s, PushBack(w)))
  {
    var b, i := s.workers[w].batch, s.workers[w].i;
    assert |InHand(s.workers[w])| <= c.batchSize;
    hide Inv, Count;
    assert b[i..] == [b[i]] + b[i + 1..];
    CountSplits([b[i]], b[i + 1..]);
    CountSplits([b[i]], s.queue);
    WorkerKeeps(c, s, After(c, s, PushBack(w)), w, Returning(b, i + 1));
  }

  lemma ReplyKeeps(c: Config, s: State, w: nat)
    requires Inv(c, s) && Enabled(c, s, Reply(w))
    ensures Inv(c, After(c, s, Reply(w)))
  {
    var b, i := s.workers[w].batch, s.workers[w].i;
    assert |InHand(s.workers[w])| <= c.batchSize;
    hide Inv, Count;
    assert b[i..] == [b[i]] + b[i + 1..];
    CountSplits([b[i]], b[i + 1..]);
    CountSplits(s.answered, [b[i]]);
    WorkerKeeps(c, s, After(c, s, Reply(w)), w, Replying(b, i + 1));
  }

  /** A step that moves no task. */
  lemma QuietKeeps(c: Config, s: State, w: nat, x: Worker)
    requires Inv(c, s) && w < |s.workers| && InHand(x) == InHand(s.workers[w])
    ensures Inv(c, With(s, w, x))
  {
    assert |InHand(s.workers[w])| <= c.batchSize;
    WorkerKeeps(c, s, With(s, w, x), w, x);
  }

  lemma PushKeeps(c: Config, s: State)
    requires Inv(c, s) && Enabled(c, s, Push)
    ensures Inv(c, After(c, s, Push))
  {
    var u := After(c, s, Push);
    LoadBound(s.workers, c.batchSize);
    forall id: nat ensures Places(u, id) == if id < u.pushed then 1 else 0 {
      assert Places(s, id) == if id < s.pushed then 1 else 0;
      CountSplit(s.queue, [s.pushed], id);
      assert Count([s.pushed], id) == if id == s.pushed then 1 else 0;
    }
  }

  lemma StepKeeps(c: Config, s: State, e: Event)
    requires Inv(c, s) && Enabled(c, s, e)
    ensures Inv(c, After(c, s, e))
  {
    hide Inv;
    match e
    case Push => PushKeeps(c, s);
    case Pop(w) => PopKeeps(c, s, w);
    case StopWaiting(w) => QuietKeeps(c, s, w, After(c, s, e).workers[w]);
    case ModelTimesOut(w) => QuietKeeps(c, s, w, After(c, s, e).workers[w]);
    case ModelAnswers(w) => QuietKeeps(c, s, w, After(c, s, e).workers[w]);
    case PushBack(w) => PushBackKeeps(c, s, w);
    case Reply(w) => ReplyKeeps(c, s, w);
    case Done(w) => QuietKeeps(c, s, w, After(c, s, e).workers[w]);
  }

  ghost predicate IsRun(c: Config, states: seq<State>, events: seq<Event>) {
    && |states| == |events| + 1
    && (exists n: nat :: states[0] == InitialState(n))
    && forall i :: 0 <= i < |events| ==> Enabled(c, states[i], events[i]) && states[i + 1] == After(c, states[i], events[i])
  }

  lemma {:induction false} RunIsSafe(c: Config, states: seq<State>, events: seq<Event>, i: nat)
    requires IsRun(c, states, events) && i < |states|
    ensures Inv(c, states[i])
  {
    hide Inv, Enabled, After, InitialState;
    if i == 0 {
      var n: nat :| states[0] == InitialState(n);
      InvInitially(c, n);
    } else {
      RunIsSafe(c, states, events, i - 1);
      StepKeeps(c, states[i - 1], events[i - 1]);
    }
  }

  /** At every moment each task pushed so far is in exactly one place: once in the queue, once in
      one worker's hands, or answered once; timeouts lose none and repeat none. */
  lemma TasksAreConserved(c: Config, states: seq<State>, events: seq<Event>, i: nat, id: nat)
    requires IsRun(c, states, events) && i < |states|
    ensures var s := states[i];
            multiset(s.queue)[id] + Hands(s.workers, id) + multiset(s.answered)[id] == if id < s.pushed then 1 else 0
  {
    RunIsSafe(c, states, events, i);
    assert Places(states[i], id) == if id < states[i].pushed then 1 else 0;
  }

  /** No task is in the hands of two workers. */
  lemma OneWorkerEach(c: Config, states: seq<State>, events: seq<Event>, i: nat, v: nat, w: nat, id: nat)
    requires IsRun(c, states, events) && i < |states| && v < w < |states[i].workers|
    requires id in InHand(states[i].workers[v])
    ensures id !in InHand(states[i].workers[w])
  {
    hide InHand;
    TasksAreConserved(c, states, events, i, id);
    TwoHands(states[i].workers, v, w, id);
    InCounts(InHand(states[i].workers[v]), id);
    InCounts(InHand(states[i].workers[w]), id);
  }

  lemma InCounts(s: seq<nat>, id: nat)
    ensures id in s <==> Count(s, id) > 0
  {
    assert id in s <==> id in multiset(s);
  }

  lemma {:induction false} OneHand(ws: seq<Worker>, w: nat, id: nat)
    requires w < |ws|
    ensures Hands(ws, id) >= Count(InHand(ws[w]), id)
  {
    hide Count, InHand;
    if w < |ws| - 1 { OneHand(ws[..|ws| - 1], w, id); }
  }

  lemma {:induction false} TwoHands(ws: seq<Worker>, v: nat, w: nat, id: nat)
    requires v < w < |ws|
    ensures Hands(ws, id) >= Count(InHand(ws[v]), id) + Count(InHand(ws[w]), id)
  {
    hide Count, InHand;
    if w < |ws| - 1 { TwoHands(ws[..|ws| - 1], v, w, id); } else { OneHand(ws[..|ws| - 1], v, id); }
  }

  /** Push waits for room, so it never takes the queue above a positive capacity; batches pushed
      back can, but by no more than the workers hold. */
  lemma QueueBound(c: Config, states: seq<State>, events: seq<Event>, i: nat)
    requires IsRun(c, states, events) && i < |states| && c.capacity > 0
    ensures |states[i].queue| <= c.capacity + |states[i].workers| * c.batchSize
    ensures i < |events| && events[i] == Push ==> |states[i + 1].queue| <= c.capacity
  {
    RunIsSafe(c, states, events, i);
  }

  // ---------- what becomes of a batch ----------

  /** `n` times the step `e`, as long as it can be taken. */
  ghost function Times(c: Config, s: State, e: Event, n: nat): State {
    if n == 0 then s
    else
      var u := Times(c, s, e, n - 1);
      if Enabled(c, u, e) then After(c, u, e) else u
  }

  lemma {:induction false} PushBackTimes(c: Config, s: State, w: nat, b: seq<nat>, n: nat)
    requires w < |s.workers| && s.workers[w] == Returning(b, 0) && n <= |b|
    ensures var u := Times(c, s, PushBack(w), n);
            && u.workers == s.workers[w := Returning(b, n)] && u.answered == s.answered && u.pushed == s.pushed
            && |u.queue| == n + |s.queue| && u.queue[n..] == s.queue
            && forall k :: 0 <= k < n ==> u.queue[k] == b[n - 1 - k]
  {
    if n > 0 {
      PushBackTimes(c, s, w, b, n - 1);
      var v := Times(c, s, PushBack(w), n - 1);
      var u := After(c, v, PushBack(w));
      assert u.queue == [b[n - 1]] + v.queue;
      assert u.queue[n..] == v.queue[n - 1..];
    }
  }

  lemma {:induction false} ReplyTimes(c: Config, s: State, w: nat, b: seq<nat>, n: nat)
    requires w < |s.workers| && s.workers[w] == Replying(b, 0) && n <= |b|
    ensures var u := Times(c, s, Reply(w), n);
            && u.workers == s.workers[w := Replying(b, n)] && u.answered == s.answered + b[..n]
            && u.pushed == s.pushed && u.queue == s.queue
  {
    if n > 0 { ReplyTimes(c, s, w, b, n - 1); }
  }

  /** A batch whose evaluation times out is back at the front of the queue, last task first, with
      nobody answered, when its worker starts anew. */
  lemma TimeoutReturnsBatch(c: Config, s: State, w: nat)
    requires w < |s.workers| && s.workers[w].Forwarding?
    ensures var b := s.workers[w].batch;
            var u := Times(c, After(c, s, ModelTimesOut(w)), PushBack(w), |b|);
            && Enabled(c, u, Done(w)) && After(c, u, Done(w)).workers == s.workers[w := Collecting([])]
            && u.answered == s.answered && |u.queue| == |b| + |s.queue| && u.queue[|b|..] == s.queue
            && forall k :: 0 <= k < |b| ==> u.queue[k] == b[|b| - 1 - k]
  {
    PushBackTimes(c, After(c, s, ModelTimesOut(w)), w, s.workers[w].batch, |s.workers[w].batch|);
  }

  /** A batch that is answered has each callback run in order, and the queue is as it was. */
  lemma AnswerReachesBatch(c: Config, s: State, w: nat)
    requires w < |s.workers| && s.workers[w].Forwarding?
    ensures var b := s.workers[w].batch;
            var u := Times(c, After(c, s, ModelAnswers(w)), Reply(w), |b|);
            && Enabled(c, u, Done(w)) && After(c, u, Done(w)).workers == s.workers[w := Collecting([])]
            && u.answered == s.answered + b && u.queue == s.queue
  {
    var b := s.workers[w].batch;
    ReplyTimes(c, After(c, s, ModelAnswers(w)), w, b, |b|);
    assert b[..|b|] == b;
  }

  // ---------- when the queue itself stays within a bound ----------

  lemma QueueGrows(c: Config, s: State, e: Event)
    requires Enabled(c, s, e)
    ensures |After(c, s, e).queue| <= |s.queue| + 1 && |After(c, s, e).workers| == |s.workers|
    ensures !e.Push? && !e.PushBack? ==> |After(c, s, e).queue| <= |s.queue|
    ensures e.PushBack? ==> |After(c, s, e).queue| == |s.queue| + 1
  {}

  lemma {:induction false} WithinUpTo(c: Config, states: seq<State>, events: seq<Event>, i: nat)
    requires IsRun(c, states, events) && c.capacity > 0 && i < |states|
    requires forall k :: 0 <= k < |events| && events[k].PushBack? ==> |states[k].queue| < c.capacity
    ensures |states[i].queue| <= c.capacity
  {
    if i > 0 {
      WithinUpTo(c, states, events, i - 1);
      QueueGrows(c, states[i - 1], events[i - 1]);
      assert states[i] == After(c, states[i - 1], events[i - 1]);
    }
  }

  /** A run keeps the queue within its capacity if and only if each PushFront finds room, which
      is the test that Push makes and PushFront does not. */
  lemma WithinCapacity(c: Config, states: seq<State>, events: seq<Event>)
    requires IsRun(c, states, events) && c.capacity > 0
    ensures (forall i :: 0 <= i < |states| ==> |states[i].queue| <= c.capacity) <==>
            (forall k :: 0 <= k < |events| && events[k].PushBack? ==> |states[k].queue| < c.capacity)
  {
    if forall k :: 0 <= k < |events| && events[k].PushBack? ==> |states[k].queue| < c.capacity {
      forall i | 0 <= i < |states| ensures |states[i].queue| <= c.capacity { WithinUpTo(c, states, events, i); }
    }
    if forall i :: 0 <= i < |states| ==> |states[i].queue| <= c.capacity {
      forall k | 0 <= k < |events| && events[k].PushBack? ensures |states[k].queue| < c.capacity {
        QueueGrows(c, states[k], events[k]);
        assert |states[k + 1].queue| <= c.capacity;
      }
    }
  }

  /** Some run with `n` workers ends in `s`. */
  ghost predicate Reaches(c: Config, n: nat, s: State) {
    exists states: seq<State>, events: seq<Event> :: EndsIn(c, n, states, events, s)
  }

  ghost predicate EndsIn(c: Config, n: nat, states: seq<State>, events: seq<Event>, s: State) {
    IsRun(c, states, events) && states[0] == InitialState(n) && states[|events|] == s
  }

  lemma StartReaches(c: Config, n: nat)
    ensures Reaches(c, n, InitialState(n))
  {
    assert EndsIn(c, n, [InitialState(n)], [], InitialState(n));
  }

  lemma Go(c: Config, n: nat, s: State, e: Event) returns (u: State)
    requires Reaches(c, n, s) && Enabled(c, s, e)
    ensures u == After(c, s, e) && Reaches(c, n, u)
  {
    hide Enabled, After, InitialState;
    u := After(c, s, e);
    var states: seq<State>, events: seq<Event> :| EndsIn(c, n, states, events, s);
    assert states[0] == InitialState(n);
    assert EndsIn(c, n, states + [u], events + [e], u);
  }

  /** The first `w` workers hold full batches that timed out, the others have nothing. */
  ghost predicate Loaded(c: Config, s: State, n: nat, w: nat) {
    && |s.workers| == n && s.queue == [] && w <= n
    && (forall v :: 0 <= v < w ==> s.workers[v].Returning? && s.workers[v].i == 0 && |s.workers[v].batch| == c.batchSize)
    && (forall v :: w <= v < n ==> s.workers[v] == Collecting([]))
  }

  lemma LoadOne(c: Config, n: nat, w: nat, s0: State) returns (s: State)
    requires Reaches(c, n, s0) && Loaded(c, s0, n, w) && w < n && c.capacity > 0
    ensures Reaches(c, n, s) && Loaded(c, s, n, w + 1)
  {
    hide Reaches;
    s := s0;
    for k := 0 to c.batchSize
      invariant Reaches(c, n, s) && |s.workers| == n && s.queue == []
      invariant s.workers[w].Collecting? && |s.workers[w].batch| == k
      invariant forall v :: 0 <= v < n && v != w ==> s.workers[v] == s0.workers[v]
    {
      s := Go(c, n, s, Push);
      s := Go(c, n, s, Event.Pop(w));
    }
    s := Go(c, n, s, StopWaiting(w));
    s := Go(c, n, s, ModelTimesOut(w));
  }

  /** The worst run: every worker's full batch times out, the queue is filled again, and then all
      batches are pushed back. */
  lemma WorstRun(c: Config, n: nat) returns (s: State)
    requires c.capacity > 0
    ensures Reaches(c, n, s) && |s.queue| == c.capacity + n * c.batchSize
  {
    hide Reaches;
    StartReaches(c, n);
    s := InitialState(n);
    for w := 0 to n
      invariant Reaches(c, n, s) && Loaded(c, s, n, w)
    {
      s := LoadOne(c, n, w, s);
    }
    while |s.queue| < c.capacity
      invariant Reaches(c, n, s) && |s.queue| <= c.capacity && Loaded(c, s.(queue := []), n, n)
      decreases c.capacity - |s.queue|
    {
      s := Go(c, n, s, Push);
    }
    for w := 0 to n
      invariant Reaches(c, n, s) && |s.workers| == n && |s.queue| == c.capacity + w * c.batchSize
      invariant forall v :: w <= v < n ==> s.workers[v].Returning? && s.workers[v].i == 0 && |s.workers[v].batch| == c.batchSize
    {
      var before := s;
      for i := 0 to c.batchSize
        invariant Reaches(c, n, s) && |s.workers| == n && |s.queue| == |before.queue| + i
        invariant s.workers[w].Returning? && s.workers[w].i == i && |s.workers[w].batch| == c.batchSize
        invariant forall v :: w < v < n ==> s.workers[v] == before.workers[v]
      {
        s := Go(c, n, s, PushBack(w));
      }
      assert (w + 1) * c.batchSize == w * c.batchSize + c.batchSize;
    }
  }

  lemma {:induction false} WorkersStay(c: Config, n: nat, states: seq<State>, events: seq<Event>, i: nat)
    requires IsRun(c, states, events) && states[0] == InitialState(n) && i < |states|
    ensures |states[i].workers| == n
  {
    if i > 0 {
      WorkersStay(c, n, states, events, i - 1);
      QueueGrows(c, states[i - 1], events[i - 1]);
      assert states[i] == After(c, states[i - 1], events[i - 1]);
    }
  }

  /** Every run with `n` workers keeps the queue within `limit`. */
  ghost predicate AlwaysWithin(c: Config, n: nat, limit: int) {
    forall states: seq<State>, events: seq<Event>, i ::
      IsRun(c, states, events) && states[0] == InitialState(n) && 0 <= i < |states| ==> |states[i].queue| <= limit
  }

  /** The exact bound: a positive capacity, and one full batch for each worker. */
  lemma QueueBoundIsExact(c: Config, n: nat, limit: int)
    requires c.capacity > 0
    ensures AlwaysWithin(c, n, limit) <==> c.capacity + n * c.batchSize <= limit
  {
    if c.capacity + n * c.batchSize <= limit {
      forall states: seq<State>, events: seq<Event>, i |
        IsRun(c, states, events) && states[0] == InitialState(n) && 0 <= i < |states|
        ensures |states[i].queue| <= limit
      {
        QueueBound(c, states, events, i);
        WorkersStay(c, n, states, events, i);
      }
    }
    if AlwaysWithin(c, n, limit) {
      var s := WorstRun(c, n);
      var states: seq<State>, events: seq<Event> :| EndsIn(c, n, states, events, s);
      assert |states[|events|].queue| <= limit;
    }
  }

  /** So a positive capacity is a bound on the queue only when no worker ever holds a task. */
  lemma TimeoutsOverfill(c: Config, n: nat)
    requires c.capacity > 0
    ensures AlwaysWithin(c, n, c.capacity) <==> n == 0 || c.batchSize == 0
  {
    QueueBoundIsExact(c, n, c.capacity);
    assert n > 0 && c.batchSize > 0 ==> n * c.batchSize > 0;
  }
}
