/** The pause protocol and the search together: what the search model takes for granted about
    threads and controller is what the protocol provides. */
module EngineRun {
  import K = Conductor
  import S = SearchRun
  import opened GoRules
  import opened GoGame
  import SearchTree
  import SearchSafety

  /** Worker w of the protocol is thread w of the search. */
  datatype State = State(pause: K.State, search: S.State)

  datatype Event =
    | Protocol(p: K.Event)      // a step of the conductor, of Resume, Pause or Join
    | Thread(t: S.Event)        // a step of a simulation
    | Engine(t: S.Event)        // the controller works on the tree

  predicate OfThread(e: S.Event) {
    e.Enter? || e.Look? || e.Descend? || e.Claim? || e.EvalFails? || e.EvalScored? || e.Publish? || e.Finish?
    || e.BackStep? || e.UndoStep?
  }

  predicate OfEngine(e: S.Event) {
    e.InitScored? || e.InitExpand? || e.PlayMove? || e.Restart? || e.ClearTree?
  }

  function Mover(e: S.Event): nat
    requires OfThread(e)
  {
    match e
    case Enter(k) => k case Look(k) => k case Descend(k, i) => k case Claim(k) => k case EvalFails(k) => k
    case EvalScored(k) => k case Publish(k, moves, v) => k case Finish(k) => k case BackStep(k) => k case UndoStep(k) => k
  }

  /** A worker leaves the search body, or pauses from it, after its simulation. */
  ghost predicate SimulationOver(u: State, e: K.Event) {
    match e
    case BodyEnds(w) => w < |u.search.threads| && u.search.threads[w].Idle?
    case BodyPause(w) => w < |u.search.threads| && u.search.threads[w].Idle?
    case _ => true
  }

  /** No step asks whether other threads are idle: threads search while they are in the search
      body, and the controller works on the tree between Join and Resume. */
  ghost predicate Guard(c: S.Config, u: State, e: Event) {
    match e
    case Protocol(p) => K.Enabled(u.pause, p) && SimulationOver(u, p) && (p.CallResume? ==> S.Guard(c, u.search, S.Resume))
    case Thread(t) =>
      && OfThread(t) && S.Guard(c, u.search, t)
      && Mover(t) < |u.pause.workers| && u.pause.workers[Mover(t)].at.Searches?
    case Engine(t) => OfEngine(t) && S.Guard(c, u.search, t) && u.pause.control.Quiet?
  }

  ghost function After(c: S.Config, u: State, e: Event): State
    requires Guard(c, u, e)
  {
    match e
    case Protocol(p) =>
      State(K.After(u.pause, p),
            if p.CallResume? then S.After(c, u.search, S.Resume)
            else if p.JoinReturns? then u.search.(searching := false)
            else u.search)
    case Thread(t) => u.(search := S.After(c, u.search, t))
    case Engine(t) => u.(search := S.After(c, u.search, t))
  }

  ghost predicate Coupled(u: State) {
    && K.Inv(u.pause) && |u.pause.workers| == |u.search.threads|
    && (forall w :: 0 <= w < |u.pause.workers| && !u.pause.workers[w].at.Searches? ==> u.search.threads[w].Idle?)
    && (forall w :: 0 <= w < |u.pause.workers| && u.pause.workers[w].owesAck ==> u.search.searching)
    && match u.pause.control
       case PauseWaits(_) => true
       case ToPause(_) => true
       case Joins(_) => true
       case Quiet => !u.search.searching
       case ToTerminate => !u.search.searching
       case Ended => !u.search.searching
       case _ => u.search.searching
  }

  lemma CoupledInitially(c: S.Config, n: nat)
    ensures Coupled(State(K.InitialState(n), S.InitialState(c, n)))
  {
    K.InvInitially(n);
  }

  /** When no worker owes an acknowledgement, every thread is idle. */
  lemma NoDebtIsIdle(u: State)
    requires Coupled(u) && K.NoneOwesAck(u.pause)
    ensures S.AllIdle(u.search)
  {
    forall w | 0 <= w < |u.search.threads| ensures u.search.threads[w].Idle? {
      assert K.WorkerOk(u.pause, u.pause.workers[w]);
    }
  }

  lemma QuietIsIdle(u: State)
    requires Coupled(u) && u.pause.control.Quiet?
    ensures S.AllIdle(u.search) && !u.search.searching
  {
    NoDebtIsIdle(u);
  }

  lemma JoinedIsIdle(u: State)
    requires Coupled(u) && K.Enabled(u.pause, K.JoinReturns)
    ensures S.AllIdle(u.search) && K.NoneOwesAck(u.pause)
  {
    K.NoAckDebt(u.pause.workers);
    NoDebtIsIdle(u);
  }

  /** A simulation step moves its own thread only. */
  lemma ThreadFrame(c: S.Config, s: S.State, e: S.Event)
    requires OfThread(e) && S.Guard(c, s, e)
    ensures var t := S.After(c, s, e);
            && |t.threads| == |s.threads| && t.searching == s.searching
            && forall j :: 0 <= j < |s.threads| && j != Mover(e) ==> t.threads[j] == s.threads[j]
  {
    hide S.Offer, S.Scored, S.ScoredValue, LegalMove, ValidPosition, Step;
  }

  lemma EngineFrame(c: S.Config, s: S.State, e: S.Event)
    requires OfEngine(e) && S.Guard(c, s, e)
    ensures S.After(c, s, e).threads == s.threads && S.After(c, s, e).searching == s.searching
  {
    hide S.Offer, S.Scored, S.ScoredValue, LegalMove, ValidPosition, Step;
  }

  lemma ProtocolKeeps(c: S.Config, u: State, p: K.Event)
    requires Coupled(u) && Guard(c, u, Protocol(p))
    ensures Coupled(After(c, u, Protocol(p)))
  {
    K.StepKeeps(u.pause, p);
    if p.JoinReturns? { JoinedIsIdle(u); }
    hide K.Inv, K.WorkerOk, S.Guard, S.Alone, K.ControlOk;
    var v := After(c, u, Protocol(p));
    assert v.search.threads == u.search.threads by { ProtocolThreads(c, u, p); }
    assert p.CallResume? ==> v.search.searching by { ProtocolThreads(c, u, p); }
    hide S.After;
  }

  lemma ProtocolThreads(c: S.Config, u: State, p: K.Event)
    requires Guard(c, u, Protocol(p))
    ensures After(c, u, Protocol(p)).search.threads == u.search.threads
    ensures p.CallResume? ==> After(c, u, Protocol(p)).search.searching
  {}

  lemma ThreadKeeps(c: S.Config, u: State, t: S.Event)
    requires Coupled(u) && Guard(c, u, Thread(t))
    ensures Coupled(After(c, u, Thread(t)))
  {
    hide K.Inv, S.Guard, S.After;
    ThreadFrame(c, u.search, t);
  }

  lemma EngineKeeps(c: S.Config, u: State, t: S.Event)
    requires Coupled(u) && Guard(c, u, Engine(t))
    ensures Coupled(After(c, u, Engine(t)))
  {
    hide K.Inv, S.Guard, S.After;
    EngineFrame(c, u.search, t);
  }

  lemma StepKeeps(c: S.Config, u: State, e: Event)
    requires Coupled(u) && Guard(c, u, e)
    ensures Coupled(After(c, u, e))
  {
    hide Coupled, Guard, After;
    match e
    case Protocol(p) => ProtocolKeeps(c, u, p);
    case Thread(t) => ThreadKeeps(c, u, t);
    case Engine(t) => EngineKeeps(c, u, t);
  }

  /** The search sees each step as nothing, or as one of its own steps with all that these demand. */
  ghost predicate SearchStep(c: S.Config, s: S.State, t: S.State) {
    s == t || exists e :: S.Enabled(c, s, e) && t == S.After(c, s, e)
  }

  lemma ProtocolStep(c: S.Config, u: State, p: K.Event)
    requires Coupled(u) && Guard(c, u, Protocol(p)) && S.Sized(u.search) && SearchTree.Allocated(u.search.tree, u.search.tree.root)
    ensures SearchStep(c, u.search, After(c, u, Protocol(p)).search)
  {
    if p.CallResume? {
      QuietIsIdle(u);
      assert S.Enabled(c, u.search, S.Resume);
    } else if p.JoinReturns? && u.search.searching {
      JoinedIsIdle(u);
      assert S.Enabled(c, u.search, S.Pause);
      assert S.After(c, u.search, S.Pause) == u.search.(searching := false);
    }
  }

  /** The threads' side conditions and the controller's come from the protocol. */
  lemma StepIsSearchStep(c: S.Config, u: State, e: Event)
    requires Coupled(u) && Guard(c, u, e) && S.Sized(u.search) && SearchTree.Allocated(u.search.tree, u.search.tree.root)
    ensures SearchStep(c, u.search, After(c, u, e).search)
  {
    match e
    case Protocol(p) => ProtocolStep(c, u, p);
    case Thread(t) =>
      assert u.search.searching by {
        assert K.WorkerOk(u.pause, u.pause.workers[Mover(t)]);
      }
      assert S.Enabled(c, u.search, t);
    case Engine(t) =>
      QuietIsIdle(u);
      assert S.Enabled(c, u.search, t);
  }

  // ---------- runs ----------

  ghost predicate IsRun(c: S.Config, states: seq<State>, events: seq<Event>) {
    && |states| == |events| + 1
    && (exists n: nat :: states[0] == State(K.InitialState(n), S.InitialState(c, n)))
    && forall i :: 0 <= i < |events| ==> Guard(c, states[i], events[i]) && states[i + 1] == After(c, states[i], events[i])
  }

  ghost predicate IsSearchRun(c: S.Config, ss: seq<S.State>, es: seq<S.Event>, s: S.State) {
    SearchSafety.IsRun(c, ss, es) && ss[|es|] == s
  }

  /** Every run of engine and threads together is, seen by the search alone, a run of the search
      model; so all that holds in every state of every run of that model holds here. */
  lemma {:induction false} RunProjects(c: S.Config, states: seq<State>, events: seq<Event>, i: nat)
    returns (ss: seq<S.State>, es: seq<S.Event>)
    requires ValidRules(c.rules) && IsRun(c, states, events) && i < |states|
    ensures Coupled(states[i]) && IsSearchRun(c, ss, es, states[i].search)
  {
    hide Coupled, Guard, After, S.Guard, S.After, S.InitialState, K.InitialState;
    if i == 0 {
      var n: nat :| states[0] == State(K.InitialState(n), S.InitialState(c, n));
      CoupledInitially(c, n);
      ss, es := [states[0].search], [];
    } else {
      ss, es := RunProjects(c, states, events, i - 1);
      var u, e := states[i - 1], events[i - 1];
      assert states[i] == After(c, u, e);
      StepKeeps(c, u, e);
      SearchSafety.RunIsSafe(c, ss, es, |es|);
      StateSized(c, u.search);
      StepIsSearchStep(c, u, e);
      if states[i].search != u.search {
        var t :| S.Enabled(c, u.search, t) && states[i].search == S.After(c, u.search, t);
        ss, es := Extended(c, ss, es, t);
      }
    }
  }

  lemma StateSized(c: S.Config, s: S.State)
    requires S.Inv(c, s)
    ensures S.Sized(s) && SearchTree.Allocated(s.tree, s.tree.root)
  {}

  lemma Extended(c: S.Config, ss: seq<S.State>, es: seq<S.Event>, t: S.Event) returns (ss': seq<S.State>, es': seq<S.Event>)
    requires SearchSafety.IsRun(c, ss, es) && S.Enabled(c, ss[|es|], t)
    ensures IsSearchRun(c, ss', es', S.After(c, ss[|es|], t))
  {
    hide S.Guard, S.Alone, S.After, S.InitialState;
    ss', es' := ss + [S.After(c, ss[|es|], t)], es + [t];
    assert ss'[0] == ss[0];
  }

  /** The controller changes the tree only while every thread is idle, and no thread ever fails a
      check of Select, although no step tests either. */
  lemma EngineIsAlone(c: S.Config, states: seq<State>, events: seq<Event>, i: nat)
    requires ValidRules(c.rules) && IsRun(c, states, events) && i < |states|
    ensures i < |events| && events[i].Engine? ==> S.AllIdle(states[i].search)
    ensures forall k :: 0 <= k < |states[i].search.threads| ==> states[i].search.threads[k] != S.Crashed
    ensures S.Inv(c, states[i].search)
  {
    hide Coupled, S.Inv, S.Guard, S.After, K.Enabled;
    var ss, es := RunProjects(c, states, events, i);
    SearchSafety.RunIsSafe(c, ss, es, |es|);
    forall k | 0 <= k < |states[i].search.threads| ensures states[i].search.threads[k] != S.Crashed {
      SearchSafety.SelectNeverFails(c, ss, es, |es|, k);
    }
    if i < |events| && events[i].Engine? {
      assert Guard(c, states[i], events[i]);
      QuietIsIdle(states[i]);
    }
  }
}
