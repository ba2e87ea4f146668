/** The pause and resume protocol between the engine and its search threads.

    One controller, any number of workers.  A critical section of the conductor's mutex, an
    operation of a wait group and a read of the state are one step each; a blocked wait is a step
    that is not enabled yet. */
module Conductor {

  datatype Mode = Paused | Running | Terminated

  /** Where the controller is.  `ToAdd` to `ToRun` are inside the mutex in Resume. */
  datatype Controller =
    | Quiet                                             // between SearchPause and SearchResume
    | ToAddResume | ToAddPause | ToRun | ResumeWaits    // Resume
    | Searching
    | PauseWaits(last: bool) | ToPause(last: bool) | Joins(last: bool)   // Pause, Join; `last` in Terminate
    | ToTerminate | Ended

  /** Where a worker is in SearchRoutine.  `first` marks the Wait before the loop, after which the
      loop reads the state; after a Wait inside the loop the body follows at once.  In one round of
      the search body a worker may call Pause twice: `left` says how often it still may. */
  datatype Step =
    | Waiting(first: bool) | Resuming(first: bool) | Checking(first: bool) | Looping | Searches(left: nat)
    | BodyWaits(left: nat) | BodyPauses(left: nat) | Acking | Exited

  /** The two debts are history: the counts a worker still has to take back. */
  datatype Worker = Worker(at: Step, owesResume: bool, owesAck: bool)

  datatype State = State(mode: Mode, resume: int, pause: int, control: Controller, workers: seq<Worker>)

  datatype Event =
    | CallResume | AddResume | AddPause | Run | ResumeReturns
    | CallPause(last: bool) | PauseReady | SetPause | JoinReturns | Terminate
    | Wake(w: nat) | ResumeDone(w: nat) | Check(w: nat) | Loop(w: nat)
    | BodyPause(w: nat) | BodyReady(w: nat) | BodySet(w: nat) | BodyEnds(w: nat) | Ack(w: nat)

  /** In Resume the controller holds the mutex that Wait and Pause need. */
  predicate Locked(s: State) { s.control.ToAddResume? || s.control.ToAddPause? || s.control.ToRun? }

  predicate Is(s: State, w: nat, at: Step) { w < |s.workers| && s.workers[w].at == at }

  predicate Enabled(s: State, e: Event) {
    match e
    case CallResume => s.control.Quiet? && s.mode.Paused?
    case AddResume => s.control.ToAddResume?
    case AddPause => s.control.ToAddPause?
    case Run => s.control.ToRun?
    case ResumeReturns => s.control.ResumeWaits? && s.resume == 0
    case CallPause(last) => s.control.Searching? || (last && s.control.Quiet?)
    case PauseReady => s.control.PauseWaits? && s.resume == 0
    case SetPause => s.control.ToPause?
    case JoinReturns => s.control.Joins? && s.pause == 0
    case Terminate => s.control.ToTerminate?
    case Wake(w) => w < |s.workers| && s.workers[w].at.Waiting? && !s.mode.Paused? && !Locked(s)
    case ResumeDone(w) => w < |s.workers| && s.workers[w].at.Resuming?
    case Check(w) => w < |s.workers| && s.workers[w].at.Checking?
    case Loop(w) => Is(s, w, Looping)
    case BodyPause(w) => w < |s.workers| && s.workers[w].at.Searches? && s.workers[w].at.left > 0
    case BodyReady(w) => w < |s.workers| && s.workers[w].at.BodyWaits? && s.resume == 0
    case BodySet(w) => w < |s.workers| && s.workers[w].at.BodyPauses? && !Locked(s)
    case BodyEnds(w) => w < |s.workers| && s.workers[w].at.Searches?
    case Ack(w) => Is(s, w, Acking)
  }

  function Goes(s: State, w: nat, at: Step): State
    requires w < |s.workers|
  {
    s.(workers := s.workers[w := s.workers[w].(at := at)])
  }

  function AllOweResume(ws: seq<Worker>): seq<Worker> {
    seq(|ws|, w requires 0 <= w < |ws| => ws[w].(owesResume := true))
  }

  function AllOweAck(ws: seq<Worker>): seq<Worker> {
    seq(|ws|, w requires 0 <= w < |ws| => ws[w].(owesAck := true))
  }

  function After(s: State, e: Event): State
    requires Enabled(s, e)
  {
    match e
    case CallResume => s.(control := ToAddResume)
    case AddResume => s.(control := ToAddPause, resume := s.resume + |s.workers|, workers := AllOweResume(s.workers))
    case AddPause => s.(control := ToRun, pause := s.pause + |s.workers|, workers := AllOweAck(s.workers))
    case Run => s.(control := ResumeWaits, mode := Running)
    case ResumeReturns => s.(control := Searching)
    case CallPause(last) => s.(control := PauseWaits(last))
    case PauseReady => s.(control := ToPause(s.control.last))
    case SetPause => s.(control := Joins(s.control.last), mode := Paused)
    case JoinReturns => s.(control := if s.control.last then ToTerminate else Quiet)
    case Terminate => s.(control := Ended, mode := Terminated)
    case Wake(w) =>
      var first := s.workers[w].at.first;
      Goes(s, w, if s.mode.Terminated? then Checking(first) else Resuming(first))
    case ResumeDone(w) =>
      s.(resume := s.resume - 1,
         workers := s.workers[w := s.workers[w].(at := Checking(s.workers[w].at.first), owesResume := false)])
    case Check(w) =>
      Goes(s, w, if s.mode.Terminated? then Exited else if s.workers[w].at.first then Looping else Searches(2))
    case Loop(w) => Goes(s, w, if s.mode.Running? then Searches(2) else Acking)
    case BodyPause(w) => Goes(s, w, BodyWaits(s.workers[w].at.left - 1))
    case BodyReady(w) => Goes(s, w, BodyPauses(s.workers[w].at.left))
    case BodySet(w) => Goes(s, w, Searches(s.workers[w].at.left)).(mode := Paused)
    case BodyEnds(w) => Goes(s, w, Looping)
    case Ack(w) =>
      s.(pause := s.pause - 1, workers := s.workers[w := s.workers[w].(at := Waiting(false), owesAck := false)])
  }

  function InitialState(n: nat): State {
    State(Paused, 0, 0, Quiet, seq(n, _ => Worker(Waiting(true), false, false)))
  }

  // ---------- debts ----------

  function ResumeDebt(ws: seq<Worker>): nat {
    if ws == [] then 0 else ResumeDebt(ws[..|ws| - 1]) + if ws[|ws| - 1].owesResume then 1 else 0
  }

  function AckDebt(ws: seq<Worker>): nat {
    if ws == [] then 0 else AckDebt(ws[..|ws| - 1]) + if ws[|ws| - 1].owesAck then 1 else 0
  }

  lemma {:induction false} DebtUpdate(ws: seq<Worker>, w: nat, x: Worker)
    requires w < |ws|
    ensures ResumeDebt(ws[w := x]) == ResumeDebt(ws) - (if ws[w].owesResume then 1 else 0) + (if x.owesResume then 1 else 0)
    ensures AckDebt(ws[w := x]) == AckDebt(ws) - (if ws[w].owesAck then 1 else 0) + (if x.owesAck then 1 else 0)
  {
    var init, last := ws[..|ws| - 1], ws[|ws| - 1];
    var vs := ws[w := x];
    if w < |ws| - 1 {
      assert vs[..|vs| - 1] == init[w := x];
      DebtUpdate(init, w, x);
    } else {
      assert vs[..|vs| - 1] == init;
    }
  }

  lemma {:induction false} NoResumeDebt(ws: seq<Worker>)
    ensures ResumeDebt(ws) == 0 <==> forall w :: 0 <= w < |ws| ==> !ws[w].owesResume
  {
    if ws != [] { NoResumeDebt(ws[..|ws| - 1]); }
  }

  lemma {:induction false} NoAckDebt(ws: seq<Worker>)
    ensures AckDebt(ws) == 0 <==> forall w :: 0 <= w < |ws| ==> !ws[w].owesAck
  {
    if ws != [] { NoAckDebt(ws[..|ws| - 1]); }
  }

  lemma {:induction false} FullResumeDebt(ws: seq<Worker>)
    requires ResumeDebt(ws) == 0
    ensures ResumeDebt(AllOweResume(ws)) == |ws| && AckDebt(AllOweResume(ws)) == AckDebt(ws)
  {
    if ws != [] {
      var vs := AllOweResume(ws);
      assert vs[..|vs| - 1] == AllOweResume(ws[..|ws| - 1]);
      FullResumeDebt(ws[..|ws| - 1]);
    }
  }

  lemma {:induction false} FullAckDebt(ws: seq<Worker>)
    requires AckDebt(ws) == 0
    ensures AckDebt(AllOweAck(ws)) == |ws| && ResumeDebt(AllOweAck(ws)) == ResumeDebt(ws)
  {
    if ws != [] {
      var vs := AllOweAck(ws);
      assert vs[..|vs| - 1] == AllOweAck(ws[..|ws| - 1]);
      FullAckDebt(ws[..|ws| - 1]);
    }
  }

  // ---------- what every step keeps ----------

  ghost predicate NoneOwesResume(s: State) {
    forall w :: 0 <= w < |s.workers| ==> !s.workers[w].owesResume
  }

  ghost predicate NoneOwesAck(s: State) {
    forall w :: 0 <= w < |s.workers| ==> !s.workers[w].owesAck
  }

  /** A worker outside Wait owes its acknowledgement, and its resume until it has given it. */
  ghost predicate WorkerOk(s: State, x: Worker) {
    match x.at
    case Waiting(_) =>
      && (x.owesResume ==> x.owesAck || s.control.ToAddPause?)
      && (x.owesAck ==> x.owesResume)
      && (s.mode.Running? ==> x.owesResume)
    case Resuming(_) => x.owesResume && x.owesAck && s.mode.Running?
    case Checking(_) => if s.mode.Terminated? then !x.owesResume && !x.owesAck else !x.owesResume && x.owesAck
    case Looping => !x.owesResume && x.owesAck
    case Searches(_) => !x.owesResume && x.owesAck
    case BodyWaits(_) => !x.owesResume && x.owesAck
    case BodyPauses(_) => !x.owesResume && x.owesAck && NoneOwesResume(s)
    case Acking => !x.owesResume && x.owesAck && !s.mode.Running? && NoneOwesResume(s)
    case Exited => s.mode.Terminated? && !x.owesResume && !x.owesAck
  }

  ghost predicate ControlOk(s: State) {
    match s.control
    case Quiet => s.mode.Paused? && NoneOwesResume(s) && NoneOwesAck(s)
    case ToAddResume => s.mode.Paused? && NoneOwesResume(s) && NoneOwesAck(s)
    case ToAddPause =>
      s.mode.Paused? && NoneOwesAck(s) && forall w :: 0 <= w < |s.workers| ==> s.workers[w].owesResume
    case ToRun =>
      s.mode.Paused? && forall w :: 0 <= w < |s.workers| ==> s.workers[w].owesResume && s.workers[w].owesAck
    case ResumeWaits => s.mode.Running? || (s.mode.Paused? && NoneOwesResume(s))
    case Searching => !s.mode.Terminated? && NoneOwesResume(s)
    case PauseWaits(_) => !s.mode.Terminated? && NoneOwesResume(s)
    case ToPause(_) => !s.mode.Terminated? && NoneOwesResume(s)
    case Joins(_) => s.mode.Paused? && NoneOwesResume(s)
    case ToTerminate => s.mode.Paused? && NoneOwesResume(s) && NoneOwesAck(s)
    case Ended => s.mode.Terminated? && NoneOwesResume(s) && NoneOwesAck(s)
  }

  ghost predicate Inv(s: State) {
    && s.resume == ResumeDebt(s.workers) && s.pause == AckDebt(s.workers)
    && ControlOk(s)
    && forall w :: 0 <= w < |s.workers| ==> WorkerOk(s, s.workers[w])
  }

  lemma InvInitially(n: nat)
    ensures Inv(InitialState(n))
  {
    NoResumeDebt(InitialState(n).workers);
    NoAckDebt(InitialState(n).workers);
  }

  lemma ControllerKeeps(s: State, e: Event)
    requires Inv(s) && Enabled(s, e)
    requires e in {CallResume, AddResume, AddPause, Run, ResumeReturns, CallPause(true), CallPause(false), PauseReady, SetPause,
                   JoinReturns, Terminate}
    ensures Inv(After(s, e))
  {
    NoResumeDebt(s.workers);
    NoAckDebt(s.workers);
    if e.AddResume? { FullResumeDebt(s.workers); }
    if e.AddPause? { FullAckDebt(s.workers); }
    var u := After(s, e);
    forall w | 0 <= w < |u.workers| ensures WorkerOk(u, u.workers[w]) {
      assert WorkerOk(s, s.workers[w]);
    }
  }

  /** A worker's step keeps the invariant. */
  lemma WorkerKeeps(s: State, e: Event, w: nat, x: Worker)
    requires Inv(s) && Enabled(s, e) && w < |s.workers| && After(s, e).workers == s.workers[w := x]
    requires e in {Wake(w), ResumeDone(w), Check(w), Loop(w), BodyPause(w), BodyReady(w), BodySet(w), BodyEnds(w), Ack(w)}
    ensures Inv(After(s, e))
  {
    NoResumeDebt(s.workers);
    NoAckDebt(s.workers);
    DebtUpdate(s.workers, w, x);
    var u := After(s, e);
    assert x == u.workers[w];
    assert u.resume == ResumeDebt(u.workers) && u.pause == AckDebt(u.workers);
    assert WorkerOk(s, s.workers[w]);
    assert NoneOwesResume(s) ==> NoneOwesResume(u);
    assert NoneOwesAck(s) ==> NoneOwesAck(u);
    forall j | 0 <= j < |u.workers| ensures WorkerOk(u, u.workers[j]) {
      assert WorkerOk(s, s.workers[j]);
    }
  }

  lemma StepKeeps(s: State, e: Event)
    requires Inv(s) && Enabled(s, e)
    ensures Inv(After(s, e))
  {
    hide Inv;
    match e
    case Wake(w) => WorkerKeeps(s, e, w, After(s, e).workers[w]);
    case ResumeDone(w) => WorkerKeeps(s, e, w, After(s, e).workers[w]);
    case Check(w) => WorkerKeeps(s, e, w, After(s, e).workers[w]);
    case Loop(w) => WorkerKeeps(s, e, w, After(s, e).workers[w]);
    case BodyPause(w) => WorkerKeeps(s, e, w, After(s, e).workers[w]);
    case BodyReady(w) => WorkerKeeps(s, e, w, After(s, e).workers[w]);
    case BodySet(w) => WorkerKeeps(s, e, w, After(s, e).workers[w]);
    case BodyEnds(w) => WorkerKeeps(s, e, w, After(s, e).workers[w]);
    case Ack(w) => WorkerKeeps(s, e, w, After(s, e).workers[w]);
    case _ => ControllerKeeps(s, e);
  }

  // ---------- runs ----------

  ghost predicate IsRun(states: seq<State>, events: seq<Event>) {
    && |states| == |events| + 1
    && (exists n: nat :: states[0] == InitialState(n))
    && forall i :: 0 <= i < |events| ==> Enabled(states[i], events[i]) && states[i + 1] == After(states[i], events[i])
  }

  lemma {:induction false} RunIsSafe(states: seq<State>, events: seq<Event>, i: nat)
    requires IsRun(states, events) && i < |states|
    ensures Inv(states[i])
  {
    hide Inv, Enabled, After, InitialState;
    if i == 0 {
      var n: nat :| states[0] == InitialState(n);
      InvInitially(n);
    } else {
      RunIsSafe(states, events, i - 1);
      StepKeeps(states[i - 1], events[i - 1]);
    }
  }

  /** The search body, from the read that lets a worker in to its acknowledgement. */
  predicate InBody(x: Worker) {
    x.at.Searches? || x.at.BodyWaits? || x.at.BodyPauses? || x.at.Looping? || x.at.Acking?
  }

  /** From the moment Join returns until the next Resume starts the workers again, every worker
      is outside the search body, both counters are zero, and no step takes a worker inside. */
  lemma JoinedMeansOutside(states: seq<State>, events: seq<Event>, i: nat, w: nat)
    requires IsRun(states, events) && i < |states| && w < |states[i].workers|
    requires states[i].control.Quiet? || states[i].control.ToTerminate?
    ensures states[i].workers[w].at.Waiting? && !InBody(states[i].workers[w])
    ensures states[i].resume == 0 && states[i].pause == 0
    ensures !Enabled(states[i], Wake(w))
  {
    RunIsSafe(states, events, i);
    var s := states[i];
    NoResumeDebt(s.workers);
    NoAckDebt(s.workers);
    assert WorkerOk(s, s.workers[w]);
  }

  /** WaitGroup::Add never finds its counter below zero. */
  lemma CountersNeverNegative(states: seq<State>, events: seq<Event>, i: nat)
    requires IsRun(states, events) && i < |states|
    ensures 0 <= states[i].resume <= |states[i].workers| && 0 <= states[i].pause <= |states[i].workers|
  {
    RunIsSafe(states, events, i);
    DebtBound(states[i].workers);
  }

  lemma {:induction false} DebtBound(ws: seq<Worker>)
    ensures ResumeDebt(ws) <= |ws| && AckDebt(ws) <= |ws|
  {
    if ws != [] { DebtBound(ws[..|ws| - 1]); }
  }

  // ---------- no deadlock ----------

  /** Whether worker `w` can take a step. */
  ghost predicate CanStep(s: State, w: nat) {
    exists e :: e in {Wake(w), ResumeDone(w), Check(w), Loop(w), BodyEnds(w), BodyReady(w), BodySet(w), Ack(w)} && Enabled(s, e)
  }

  /** Any wait that is not over is a wait for workers that can go on: whoever waits for resumes
      or acknowledgements, each worker that still owes one has a step to take, or waits itself
      for a resume that another worker can give. */
  lemma DebtorsCanStep(states: seq<State>, events: seq<Event>, i: nat, w: nat)
    requires IsRun(states, events) && i < |states| && w < |states[i].workers| && !Locked(states[i])
    ensures states[i].workers[w].owesResume ==> CanStep(states[i], w)
    ensures states[i].workers[w].owesAck && states[i].resume == 0 ==> CanStep(states[i], w)
  {
    RunIsSafe(states, events, i);
    var s := states[i];
    NoResumeDebt(s.workers);
    assert WorkerOk(s, s.workers[w]);
    match s.workers[w].at
    case Waiting(_) => assert Enabled(s, Wake(w)) || (!s.workers[w].owesResume && !s.workers[w].owesAck);
    case Resuming(_) => assert Enabled(s, ResumeDone(w));
    case Checking(_) => assert Enabled(s, Check(w));
    case Looping => assert Enabled(s, Loop(w));
    case Searches(_) => assert Enabled(s, BodyEnds(w));
    case BodyWaits(_) => assert s.resume == 0 ==> Enabled(s, BodyReady(w));
    case BodyPauses(_) => assert Enabled(s, BodySet(w));
    case Acking => assert Enabled(s, Ack(w));
    case Exited =>
  }

  /** Everyone has left. */
  ghost predicate Over(s: State) {
    s.control.Ended? && forall w :: 0 <= w < |s.workers| ==> s.workers[w].at.Exited?
  }

  /** No reachable state is stuck, even if the engine never decides to pause, resume or end. */
  lemma NoDeadlock(states: seq<State>, events: seq<Event>, i: nat)
    requires IsRun(states, events) && i < |states|
    requires !Over(states[i]) && !states[i].control.Quiet? && !states[i].control.Searching?
    ensures exists e :: Enabled(states[i], e) && !e.BodyPause? && !e.CallPause? && !e.CallResume?
  {
    RunIsSafe(states, events, i);
    var s := states[i];
    NoResumeDebt(s.workers);
    NoAckDebt(s.workers);
    match s.control
    case ToAddResume => assert Enabled(s, AddResume);
    case ToAddPause => assert Enabled(s, AddPause);
    case ToRun => assert Enabled(s, Run);
    case ResumeWaits =>
      if s.resume == 0 { assert Enabled(s, ResumeReturns); } else {
        var w: nat :| w < |s.workers| && s.workers[w].owesResume;
        DebtorsCanStep(states, events, i, w);
      }
    case PauseWaits(_) => assert Enabled(s, PauseReady);
    case ToPause(_) => assert Enabled(s, SetPause);
    case Joins(_) =>
      if s.pause == 0 { assert Enabled(s, JoinReturns); } else {
        var w: nat :| w < |s.workers| && s.workers[w].owesAck;
        DebtorsCanStep(states, events, i, w);
      }
    case ToTerminate => assert Enabled(s, Terminate);
    case Ended =>
      var w: nat :| w < |s.workers| && !s.workers[w].at.Exited?;
      assert WorkerOk(s, s.workers[w]);
      if s.workers[w].at.Waiting? { assert Enabled(s, Wake(w)); } else { assert Enabled(s, Check(w)); }
    case _ =>
  }

  // ---------- Join comes to an end ----------

  /** How many steps a worker may still take before it acknowledges a pause. */
  function Distance(at: Step): nat {
    match at
    case Waiting(_) => 0
    case Exited => 0
    case Acking => 1
    case Looping => 2
    case Checking(_) => 11
    case Searches(left) => 3 * left + 4
    case BodyWaits(left) => 3 * left + 6
    case BodyPauses(left) => 3 * left + 5
    case Resuming(_) => 12
  }

  function TotalDistance(ws: seq<Worker>): nat {
    if ws == [] then 0 else TotalDistance(ws[..|ws| - 1]) + Distance(ws[|ws| - 1].at)
  }

  lemma {:induction false} DistanceUpdate(ws: seq<Worker>, w: nat, x: Worker)
    requires w < |ws|
    ensures TotalDistance(ws[w := x]) == TotalDistance(ws) - Distance(ws[w].at) + Distance(x.at)
  {
    var init, vs := ws[..|ws| - 1], ws[w := x];
    if w < |ws| - 1 {
      assert vs[..|vs| - 1] == init[w := x];
      DistanceUpdate(init, w, x);
    } else {
      assert vs[..|vs| - 1] == init;
    }
  }

  lemma WorkerApproaches(s: State, e: Event, w: nat)
    requires Enabled(s, e) && w < |s.workers| && WorkerOk(s, s.workers[w]) && s.mode.Paused? && NoneOwesResume(s)
    requires e in {Wake(w), ResumeDone(w), Check(w), Loop(w), BodyPause(w), BodyReady(w), BodySet(w), BodyEnds(w), Ack(w)}
    ensures After(s, e).control == s.control && |After(s, e).workers| == |s.workers|
    ensures TotalDistance(After(s, e).workers) < TotalDistance(s.workers)
  {
    assert After(s, e).workers == s.workers[w := After(s, e).workers[w]];
    hide TotalDistance;
    DistanceUpdate(s.workers, w, After(s, e).workers[w]);
  }

  /** After Pause, each step but the return of Join brings the workers closer to their
      acknowledgements, so Join returns after boundedly many steps. */
  lemma JoinApproaches(states: seq<State>, events: seq<Event>, i: nat)
    requires IsRun(states, events) && i < |events| && states[i].control.Joins? && !events[i].JoinReturns?
    ensures states[i + 1].control == states[i].control
    ensures TotalDistance(states[i + 1].workers) < TotalDistance(states[i].workers)
  {
    hide TotalDistance, WorkerOk, NoneOwesResume, ResumeDebt, AckDebt, After;
    RunIsSafe(states, events, i);
    var s, e := states[i], events[i];
    match e
    case Wake(w) => WorkerApproaches(s, e, w);
    case ResumeDone(w) => WorkerApproaches(s, e, w);
    case Check(w) => WorkerApproaches(s, e, w);
    case Loop(w) => WorkerApproaches(s, e, w);
    case BodyPause(w) => WorkerApproaches(s, e, w);
    case BodyReady(w) => WorkerApproaches(s, e, w);
    case BodySet(w) => WorkerApproaches(s, e, w);
    case BodyEnds(w) => WorkerApproaches(s, e, w);
    case Ack(w) => WorkerApproaches(s, e, w);
  }

  // ---------- the objects ----------

  class WaitGroup {
    var counter: int

    constructor ()
      ensures counter == 0
    {
      counter := 0;
    }

    /** Add; `ok` is false where the source throws. */
    method Add(v: int) returns (ok: bool)
      modifies this
      ensures counter == old(counter) + v && (ok <==> counter >= 0)
    {
      counter := counter + v;
      ok := counter >= 0;
    }

    method Done() returns (ok: bool)
      modifies this
      ensures counter == old(counter) - 1 && (ok <==> counter >= 0)
    {
      ok := Add(-1);
    }
  }

  /** The shared object.  Its methods are the critical sections; each is one or more steps of the
      transition system, and none of them ever throws. */
  class ThreadConductor {
    var mode: Mode
    const resumeGroup: WaitGroup
    const pauseGroup: WaitGroup

    /** The fields have the values of state `s`. */
    ghost predicate Shows(s: State)
      reads this, resumeGroup, pauseGroup
    {
      mode == s.mode && resumeGroup.counter == s.resume && pauseGroup.counter == s.pause && resumeGroup != pauseGroup
    }

    constructor ()
      ensures Shows(InitialState(0)) && fresh(resumeGroup) && fresh(pauseGroup)
    {
      mode := Paused;
      resumeGroup := new WaitGroup();
      pauseGroup := new WaitGroup();
    }

    /** The part of Resume under the mutex; a running conductor is left as it is. */
    method Resume(numThreads: nat, ghost s: State) returns (ok: bool)
      requires Shows(s) && Inv(s) && (s.mode.Running? || (Enabled(s, AddResume) && numThreads == |s.workers|))
      modifies this, resumeGroup, pauseGroup
      ensures ok
      ensures if s.mode.Running? then Shows(s) else Shows(After(After(After(s, AddResume), AddPause), Run))
    {
      if mode == Running { return true; }
      DebtBound(s.workers);
      ok := resumeGroup.Add(numThreads);
      var ok2 := pauseGroup.Add(numThreads);
      ok := ok && ok2;
      mode := Running;
    }

    /** The part of Pause under the mutex, called by the controller. */
    method Pause(ghost s: State)
      requires Shows(s) && Enabled(s, SetPause)
      modifies this
      ensures Shows(After(s, SetPause))
    {
      mode := Paused;
    }

    /** The same, called by a worker from the search body. */
    method PauseFromBody(ghost s: State, ghost w: nat)
      requires Shows(s) && Enabled(s, BodySet(w))
      modifies this
      ensures Shows(After(s, BodySet(w)))
    {
      mode := Paused;
    }

    /** The end of Wait, when the state is running. */
    method FinishWait(ghost s: State, ghost w: nat) returns (ok: bool)
      requires Shows(s) && Inv(s) && Enabled(s, ResumeDone(w))
      modifies resumeGroup
      ensures ok && Shows(After(s, ResumeDone(w)))
    {
      StepKeeps(s, ResumeDone(w));
      ok := resumeGroup.Done();
    }

    method AckPause(ghost s: State, ghost w: nat) returns (ok: bool)
      requires Shows(s) && Inv(s) && Enabled(s, Ack(w))
      modifies pauseGroup
      ensures ok && Shows(After(s, Ack(w)))
    {
      StepKeeps(s, Ack(w));
      ok := pauseGroup.Done();
    }

    /** The last part of Terminate. */
    method Terminate(ghost s: State)
      requires Shows(s) && Enabled(s, Event.Terminate)
      modifies this
      ensures Shows(After(s, Event.Terminate))
    {
      mode := Terminated;
    }

    method IsRunning(ghost s: State) returns (r: bool)
      requires Shows(s)
      ensures r <==> s.mode.Running?
    {
      r := mode == Running;
    }
  }
}
