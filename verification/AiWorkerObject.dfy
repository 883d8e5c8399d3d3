/**
 The AiWorker class itself. Each method performs the accesses of the source in order, and its contract says which
 schedule of the interleaving system that is; what holds of every schedule therefore holds of every use of the class.
 */
module AiWorkerObject {
  import opened Bytes
  import opened AiWorker

  /** The launched thread, if any, runs to its end. */
  function Exhausted(s: State, end: TaskEnd): State {
    if s.handle.Some? then Drive(s, s.handle.value, end, 4) else s
  }

  function MainSteps(s: State, n: nat): State
    decreases n
  {
    if n == 0 then s else MainSteps(DoMain(s), n - 1)
  }

  // ---- The schedules in closed form ----

  lemma StepKeeps(s: State, t: nat, end: TaskEnd, m: MainPc)
    requires t < |s.bodies|
    ensures
      var s' := DoBody(s, t, end);
      && |s'.bodies| == |s.bodies|
      && s' == s.(state := s'.state, error := s'.error, bodies := s'.bodies)
      && DoBody(s.(main := m), t, end) == s'.(main := m)
  {
  }

  lemma {:induction false} DriveKeeps(s: State, t: nat, end: TaskEnd, n: nat, m: MainPc)
    requires t < |s.bodies|
    ensures
      var s' := Drive(s, t, end, n);
      && |s'.bodies| == |s.bodies|
      && s' == s.(state := s'.state, error := s'.error, bodies := s'.bodies)
      && Drive(s.(main := m), t, end, n) == s'.(main := m)
    decreases n
  {
    if n > 0 {
      hide DoBody;
      StepKeeps(s, t, end, m);
      DriveKeeps(Do(s, BodyStep(t, end)), t, end, n - 1, m);
    }
  }

  lemma {:induction false} DriveOneMore(s: State, t: nat, end: TaskEnd, n: nat)
    requires t < |s.bodies|
    ensures t < |Drive(s, t, end, n).bodies| && Drive(s, t, end, n + 1) == DoBody(Drive(s, t, end, n), t, end)
    decreases n
  {
    hide DoBody;
    StepKeeps(s, t, end, s.main);
    if n == 0 {
      assert Drive(s, t, end, 1) == Drive(DoBody(s, t, end), t, end, 0);
    } else {
      DriveOneMore(DoBody(s, t, end), t, end, n - 1);
    }
  }

  lemma {:induction false} InvDrive(s: State, t: nat, end: TaskEnd, n: nat)
    requires Inv(s)
    ensures Inv(Drive(s, t, end, n))
    decreases n
  {
    if n > 0 {
      InvStep(s, BodyStep(t, end));
      InvDrive(Do(s, BodyStep(t, end)), t, end, n - 1);
    }
  }

  lemma InvExhausted(s: State, end: TaskEnd)
    requires Inv(s)
    ensures Inv(Exhausted(s, end)) && CanJoin(Exhausted(s, end))
  {
    hide Inv, OneThread;
    if s.handle.Some? {
      HandleInRange(s);
      InvDrive(s, s.handle.value, end, 4);
      DriveToExit(s, s.handle.value, end, 4);
    }
  }

  lemma HandleInRange(s: State)
    requires Inv(s) && s.handle.Some?
    ensures s.handle.value < |s.bodies|
    ensures Terminal(s.state) && !s.main.ResetStore? ==>
      s.bodies[s.handle.value].pc.AtReturn? || s.bodies[s.handle.value].pc.Exited?
  {
  }

  lemma {:induction false} DriveReturned(s: State, t: nat, end: TaskEnd, n: nat)
    requires t < |s.bodies| && (s.bodies[t].pc.AtReturn? || s.bodies[t].pc.Exited?)
    ensures Drive(s, t, end, n).state == s.state
    decreases n
  {
    if n > 0 {
      DriveReturned(Do(s, BodyStep(t, end)), t, end, n - 1);
    }
  }

  lemma ResetUnrolled(s: State, end: TaskEnd)
    requires Inv(s) && s.main.Ready? && Terminal(s.state)
    ensures
      var e := Exhausted(s, end);
      MainSteps(Do(e, CallReset), 3) == e.(handle := None, error := "", state := Idle)
  {
    hide Inv, OneThread, Drive;
    InvExhausted(s, end);
    if s.handle.Some? {
      HandleInRange(s);
      DriveReturned(s, s.handle.value, end, 4);
      DriveKeeps(s, s.handle.value, end, 4, s.main);
    }
    var r1 := Do(Exhausted(s, end), CallReset);
    var r2 := DoMain(r1);
    assert r2.main.ResetError?;
    assert MainSteps(r1, 3) == MainSteps(r2, 2) == MainSteps(DoMain(r2), 1) == MainSteps(DoMain(DoMain(r2)), 0);
  }

  /** A whole `run` from its start, undisturbed. */
  lemma RunUnrolled(s: State, t: nat, end: TaskEnd)
    requires t < |s.bodies| && s.bodies[t].pc.InTask?
    ensures
      var final := if !end.Returned? then Error else if s.cancel then Cancelled else Done;
      var looked := if end.Returned? then s.asked else s.bodies[t].asked;
      Drive(s, t, end, 4) == s.(state := final,
                                error := if end.Returned? then s.error else Message(end),
                                bodies := s.bodies[t := Body(Exited, end, final, looked)])
  {
    var b := s.bodies[t].(end := end);
    var s1 := DoBody(s, t, end);
    var s2 := DoBody(s1, t, end);
    var s3 := DoBody(s2, t, end);
    assert s1 == s.(bodies := s.bodies[t := b.(pc := if end.Returned? then AtCheck else AtError)]);
    assert s3.bodies[t].pc.AtReturn?;
    assert Drive(s, t, end, 4) == Drive(s1, t, end, 3) == Drive(s2, t, end, 2)
        == Drive(s3, t, end, 1) == Drive(DoBody(s3, t, end), t, end, 0);
  }

  lemma {:induction false} InvMainSteps(s: State, n: nat)
    requires Inv(s)
    ensures Inv(MainSteps(s, n))
    decreases n
  {
    if n > 0 {
      InvStep(s, MainStep);
      InvMainSteps(DoMain(s), n - 1);
    }
  }

  lemma StartUnrolled(s: State)
    requires Inv(s) && s.main.Ready? && s.state.Idle?
    ensures s.handle.None? && !s.terminated
    ensures MainSteps(Do(s, CallStart), 3)
         == s.(state := Running, asked := false, cancel := false,
               handle := Some(|s.bodies|), bodies := s.bodies + [Body(InTask, Returned, Done, false)])
  {
    var r1 := Do(s, CallStart);
    var r2 := DoMain(r1);
    assert MainSteps(r1, 3) == MainSteps(r2, 2) == MainSteps(DoMain(r2), 1) == MainSteps(DoMain(DoMain(r2)), 0);
  }

  class Worker {
    var state: WorkerState
    var cancelRequest: bool
    var errorMessage: string

    /** thread_ while joinable: the index of the body it runs. */
    var handle: Option<nat>

    /** The `run` bodies launched so far, and the two observations of the step system. */
    var bodies: seq<Body>
    var asked: bool
    var terminated: bool

    /** The object between two public calls. */
    function View(): State
      reads this
    {
      State(state, cancelRequest, errorMessage, handle, bodies, Ready, asked, terminated)
    }

    constructor ()
      ensures View() == INIT
    {
      state, cancelRequest, errorMessage, handle, bodies := WorkerState.Idle, false, "", None, [];
      asked, terminated := false, false;
    }

    /** `run` on thread t: the task, the check inside the try block, the catch clauses, the publication. */
    method Run(t: nat, end: TaskEnd)
      requires t < |bodies| && bodies[t].pc.InTask?
      modifies this`state, this`errorMessage, this`bodies
      ensures View() == Drive(old(View()), t, end, 4)
    {
      hide Drive;
      RunUnrolled(View(), t, end);
      var finalState, err := WorkerState.Done, "";
      var looked := bodies[t].asked;
      match end {
        case Returned =>
          if cancelRequest {
            finalState := WorkerState.Cancelled;
          }
          looked := asked;
        case Threw(what) =>
          finalState, err := WorkerState.Error, what;
        case ThrewUnknown =>
          finalState, err := WorkerState.Error, "Unknown exception in worker";
      }
      if finalState.Error? {
        errorMessage := err;
      }
      state := finalState;
      bodies := bodies[t := Body(Exited, end, finalState, looked)];
    }

    /** The next access of the body on thread t. */
    method BodyStep(t: nat, end: TaskEnd)
      requires t < |bodies|
      modifies this`state, this`errorMessage, this`bodies
      ensures View() == DoBody(old(View()), t, end)
    {
      var b := bodies[t];
      match b.pc {
        case InTask =>
          bodies := bodies[t := b.(pc := if end.Returned? then AtCheck else AtError, end := end)];
        case AtCheck =>
          var finalState := WorkerState.Done;
          if cancelRequest {
            finalState := WorkerState.Cancelled;
          }
          bodies := bodies[t := b.(pc := AtPublish, final := finalState, asked := asked)];
        case AtError =>
          errorMessage := Message(b.end);
          bodies := bodies[t := b.(pc := AtPublish, final := WorkerState.Error)];
        case AtPublish =>
          state := b.final;
          bodies := bodies[t := b.(pc := AtReturn)];
        case AtReturn =>
          bodies := bodies[t := b.(pc := Exited)];
        case Exited =>
      }
    }

    /** thread_.join() when joinable: meanwhile the thread runs to its end, however its task ends. */
    method JoinThread(end: TaskEnd)
      requires handle.Some? ==> handle.value < |bodies|
      modifies this
      ensures View() == Exhausted(old(View()), end).(handle := None)
    {
      if handle.None? {
        return;
      }
      var t := handle.value;
      if bodies[t].pc.InTask? {
        Run(t, end);
      } else {
        hide DoBody;
        for n := 0 to 4
          invariant t < |bodies| && View() == Drive(old(View()), t, end, n)
        {
          DriveOneMore(old(View()), t, end, n);
          DriveKeeps(old(View()), t, end, n + 1, Ready);
          BodyStep(t, end);
        }
      }
      handle := None;
    }

    /** Accepted exactly when Idle; the new thread's body has not yet taken a step. */
    method Start() returns (ok: bool)
      requires Inv(View())
      modifies this
      ensures ok <==> old(state).Idle?
      ensures View() == if ok then MainSteps(Do(old(View()), CallStart), 3) else old(View())
      ensures Inv(View())
    {
      hide Inv, MainSteps, Do;
      if !state.Idle? {
        return false;
      }
      ghost var s := View();
      StartUnrolled(s);
      InvStep(s, CallStart);
      InvMainSteps(Do(s, CallStart), 3);
      state := WorkerState.Running;
      asked := false;
      cancelRequest := false;
      if handle.Some? {
        assert false; // the defensive join has nothing to join
      }
      terminated := terminated || handle.Some?;
      handle, bodies := Some(|bodies|), bodies + [Body(InTask, Returned, WorkerState.Done, false)];
      return true;
    }

    method Cancel()
      modifies this`cancelRequest, this`asked
      ensures View() == Do(old(View()), CallCancel)
    {
      cancelRequest := true;
      asked := true;
    }

    method Join(end: TaskEnd)
      requires Inv(View())
      modifies this
      ensures View() == MainSteps(Do(Exhausted(old(View()), end), CallJoin), 1)
      ensures handle == None && Inv(View()) && NoLiveBody(View())
    {
      ghost var e := Exhausted(View(), end);
      JoinFromReady(View(), end);
      JoinThread(end);
    }

    /** Back to Idle from a finished run; nothing happens in Idle and Running. */
    method Reset(end: TaskEnd)
      requires Inv(View())
      modifies this
      ensures Terminal(old(state)) ==> View() == MainSteps(Do(Exhausted(old(View()), end), CallReset), 3)
      ensures Terminal(old(state)) ==> state.Idle? && errorMessage == "" && handle == None
      ensures !Terminal(old(state)) ==> View() == old(View())
      ensures Inv(View())
    {
      hide Inv, MainSteps, Do, Exhausted;
      if state.Idle? || state.Running? {
        return;
      }
      ghost var s := View();
      HandleInBounds(s);
      ResetUnrolled(s, end);
      InvExhausted(s, end);
      InvStep(Exhausted(s, end), CallReset);
      InvMainSteps(Do(Exhausted(s, end), CallReset), 3);
      JoinThread(end);
      errorMessage := "";
      state := WorkerState.Idle;
    }

    /** The destructor: cancel and wait, so no body outlives the object and no joinable handle is destroyed. */
    method Destroy(end: TaskEnd)
      requires Inv(View())
      modifies this
      ensures View().(main := Gone) == MainSteps(Exhausted(Do(old(View()), CallDestroy), end), 1)
      ensures handle == None && NoLiveBody(View()) && !terminated
    {
      ghost var s := View();
      DestroyFromReady(s, end);
      InvStep(s, CallCancel);
      Cancel();
      Join(end);
    }
  }

  lemma HandleInBounds(s: State)
    requires Inv(s)
    ensures s.handle.Some? ==> s.handle.value < |s.bodies|
  {
  }

  lemma ExhaustedKeeps(s: State, end: TaskEnd)
    requires Inv(s)
    ensures
      var e := Exhausted(s, end);
      && e == s.(state := e.state, error := e.error, bodies := e.bodies)
      && forall m :: Exhausted(s.(main := m), end) == e.(main := m)
  {
    HandleInBounds(s);
    if s.handle.Some? {
      DriveKeeps(s, s.handle.value, end, 4, s.main);
      forall m
        ensures Exhausted(s.(main := m), end) == Exhausted(s, end).(main := m)
      {
        DriveKeeps(s, s.handle.value, end, 4, m);
      }
    }
  }

  lemma JoinFromReady(s: State, end: TaskEnd)
    requires Inv(s) && s.main.Ready?
    ensures s.handle.Some? ==> s.handle.value < |s.bodies|
    ensures
      var e := Exhausted(s, end);
      var j := MainSteps(Do(e, CallJoin), 1);
      j == e.(handle := None) && Inv(j) && NoLiveBody(j)
  {
    hide Inv, OneThread;
    HandleInBounds(s);
    ExhaustedKeeps(s, end);
    InvExhausted(s, end);
    var e := Exhausted(s, end);
    InvStep(e, CallJoin);
    InvMainSteps(Do(e, CallJoin), 1);
    assert MainSteps(Do(e, CallJoin), 1) == MainSteps(DoMain(Do(e, CallJoin)), 0);
    UnjoinedNone(MainSteps(Do(e, CallJoin), 1));
  }

  lemma UnjoinedNone(s: State)
    requires Inv(s)
    ensures !s.terminated && (s.handle.None? ==> NoLiveBody(s))
  {
  }

  lemma DestroyFromReady(s: State, end: TaskEnd)
    requires Inv(s) && s.main.Ready?
    ensures
      var j := MainSteps(Do(Exhausted(Do(s, CallCancel), end), CallJoin), 1);
      MainSteps(Exhausted(Do(s, CallDestroy), end), 1) == j.(main := Gone) && !j.terminated
  {
    hide Inv, OneThread;
    InvStep(s, CallCancel);
    var c := Do(s, CallCancel);
    ExhaustedKeeps(c, end);
    JoinFromReady(c, end);
    InvExhausted(c, end);
    UnjoinedNone(c);
    var d := Exhausted(c.(main := DestroyJoin), end);
    assert d == Exhausted(c, end).(main := DestroyJoin);
    assert MainSteps(d, 1) == MainSteps(DoMain(d), 0);
  }
}
