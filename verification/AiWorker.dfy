/**
 AiWorker as an interleaving system: one main thread making the public calls, and the bodies of `run` on the
 threads it has launched. Every access to the shared atomics, the error string or the thread handle is one step,
 and a schedule is any sequence of steps. A step that cannot be taken (a join whose thread has not exited, a call
 made in the middle of another) leaves the state alone, so every sequence of actions is a run.
 */
module AiWorker {
  import opened Bytes

  datatype WorkerState = Idle | Running | Done | Error | Cancelled

  /** How a task ends. */
  datatype TaskEnd = Returned | Threw(what: string) | ThrewUnknown

  function Message(end: TaskEnd): string {
    match end
    case Returned => ""
    case Threw(what) => what
    case ThrewUnknown => "Unknown exception in worker"
  }

  /** Where a `run` body stands: in the task, before should_cancel, before storing the error,
      before publishing the final state, and published but not yet returned. */
  datatype Pc = InTask | AtCheck | AtError | AtPublish | AtReturn | Exited

  /** One `run` body. `asked` records whether cancel() had been called for this run when the body looked. */
  datatype Body = Body(pc: Pc, end: TaskEnd, final: WorkerState, asked: bool)

  /** Where the main thread stands. */
  datatype MainPc = Ready
                  | StartClear | StartJoin | StartSpawn
                  | Joining
                  | ResetJoin | ResetError | ResetStore
                  | DestroyJoin | Gone

  /** The object, its threads in launch order, and two observations: whether cancel() has been called since the
      last successful start(), and whether the C++ runtime has called std::terminate. */
  datatype State = State(state: WorkerState, cancel: bool, error: string, handle: Option<nat>,
                         bodies: seq<Body>, main: MainPc, asked: bool, terminated: bool)

  const INIT := State(Idle, false, "", None, [], Ready, false, false)

  datatype Action = CallStart | CallCancel | CallJoin | CallReset | CallDestroy
                  | MainStep
                  | BodyStep(t: nat, end: TaskEnd)

  predicate Terminal(w: WorkerState) {
    w.Done? || w.Error? || w.Cancelled?
  }

  /** thread_.join(): waits for the body, then the handle is no longer joinable. */
  predicate CanJoin(s: State) {
    s.handle.Some? && s.handle.value < |s.bodies| ==> s.bodies[s.handle.value].pc.Exited?
  }

  function DoMain(s: State): State {
    match s.main
    case StartClear => s.(cancel := false, main := StartJoin)
    case StartJoin => if CanJoin(s) then s.(handle := None, main := StartSpawn) else s
    case StartSpawn =>
      s.(terminated := s.terminated || s.handle.Some?,
         handle := Some(|s.bodies|),
         bodies := s.bodies + [Body(InTask, Returned, Done, false)],
         main := Ready)
    case Joining => if CanJoin(s) then s.(handle := None, main := Ready) else s
    case ResetJoin => if CanJoin(s) then s.(handle := None, main := ResetError) else s
    case ResetError => s.(error := "", main := ResetStore)
    case ResetStore => s.(state := Idle, main := Ready)
    case DestroyJoin => if CanJoin(s) then s.(handle := None, main := Gone) else s
    case Ready => s
    case Gone => s
  }

  function DoBody(s: State, t: nat, end: TaskEnd): State
    requires t < |s.bodies|
  {
    var b := s.bodies[t];
    match b.pc
    case InTask => s.(bodies := s.bodies[t := b.(pc := if end.Returned? then AtCheck else AtError, end := end)])
    case AtCheck =>
      var final := if s.cancel then Cancelled else Done;
      s.(bodies := s.bodies[t := b.(pc := AtPublish, final := final, asked := s.asked)])
    case AtError => s.(error := Message(b.end), bodies := s.bodies[t := b.(pc := AtPublish, final := Error)])
    case AtPublish => s.(state := b.final, bodies := s.bodies[t := b.(pc := AtReturn)])
    case AtReturn => s.(bodies := s.bodies[t := b.(pc := Exited)])
    case Exited => s
  }

  function Do(s: State, a: Action): State {
    match a
    case CallStart =>
      if s.main.Ready? && s.state.Idle? then s.(state := Running, asked := false, main := StartClear) else s
    case CallCancel => if s.main.Ready? then s.(cancel := true, asked := true) else s
    case CallJoin => if s.main.Ready? then s.(main := Joining) else s
    case CallReset => if s.main.Ready? && Terminal(s.state) then s.(main := ResetJoin) else s
    case CallDestroy => if s.main.Ready? then s.(cancel := true, asked := true, main := DestroyJoin) else s
    case MainStep => DoMain(s)
    case BodyStep(t, end) => if t < |s.bodies| then DoBody(s, t, end) else s
  }

  function Run(s: State, acts: seq<Action>): State {
    if acts == [] then s else Do(Run(s, acts[..|acts| - 1]), acts[|acts| - 1])
  }

  // ---- The inductive invariant ----

  predicate Launching(m: MainPc) {
    m.StartClear? || m.StartJoin? || m.StartSpawn?
  }

  predicate NoLiveBody(s: State) {
    forall t :: 0 <= t < |s.bodies| ==> s.bodies[t].pc.Exited?
  }

  /** Only the newest body can be live, and only while the handle still refers to it. */
  predicate OneThread(s: State) {
    && (forall t :: 0 <= t < |s.bodies| - 1 ==> s.bodies[t].pc.Exited?)
    && (s.handle.Some? ==> s.handle.value == |s.bodies| - 1)
    && (s.handle.None? ==> NoLiveBody(s))
  }

  /** What a body has decided agrees with how its task ended and whether it had been asked to cancel. */
  predicate Decided(b: Body) {
    b.final == if !b.end.Returned? then Error else if b.asked then Cancelled else Done
  }

  predicate BodyAgrees(s: State, b: Body) {
    match b.pc
    case InTask => s.state.Running? && s.error == ""
    case AtCheck => s.state.Running? && s.error == "" && b.end.Returned?
    case AtError => s.state.Running? && s.error == "" && !b.end.Returned?
    case AtPublish => s.state.Running? && Decided(b) && s.error == Message(b.end)
    case AtReturn => Terminal(s.state) && s.state == b.final && Decided(b) && s.error == Message(b.end)
    case Exited => Terminal(s.state) && s.state == b.final && Decided(b) && s.error == Message(b.end)
  }

  predicate Inv(s: State) {
    && !s.terminated
    && OneThread(s)
    && (Launching(s.main) ==> s.state.Running? && s.handle.None? && s.error == "" && !s.asked)
    && (s.main.StartJoin? || s.main.StartSpawn? ==> !s.cancel)
    && (s.main.ResetJoin? || s.main.ResetError? || s.main.ResetStore? ==> Terminal(s.state) && |s.bodies| > 0)
    && (s.main.ResetError? || s.main.ResetStore? || s.main.Gone? ==> s.handle.None?)
    && (s.main.ResetStore? ==> s.error == "")
    && (!Launching(s.main) && !s.state.Idle? ==> |s.bodies| > 0)
    && (!Launching(s.main) && !s.state.Idle? && !s.main.ResetStore? ==> BodyAgrees(s, s.bodies[|s.bodies| - 1]))
    && (s.main.ResetStore? ==> s.bodies[|s.bodies| - 1].pc.Exited?)
    && (s.state.Idle? ==> s.handle.None? && s.error == "")
    && (!Launching(s.main) && s.state.Running? ==> s.handle.Some? && s.cancel == s.asked)
  }

  lemma InvLaunch(s: State)
    requires Inv(s) && Launching(s.main)
    ensures Inv(DoMain(s))
  {
  }

  lemma OneThreadJoined(s: State)
    requires OneThread(s) && !Launching(s.main)
    ensures OneThread(DoMain(s))
  {
  }

  lemma HandleIsNewest(s: State)
    requires OneThread(s)
    ensures s.handle.Some? ==> s.handle.value == |s.bodies| - 1
  {
  }

  lemma ResetFindsExited(s: State)
    requires Inv(s) && s.main.ResetError?
    ensures s.bodies[|s.bodies| - 1].pc.Exited?
  {
  }

  lemma InvReset(s: State)
    requires Inv(s) && (s.main.ResetError? || s.main.ResetStore?)
    ensures Inv(DoMain(s))
  {
    hide OneThread;
    OneThreadJoined(s);
    if s.main.ResetError? {
      ResetFindsExited(s);
    }
  }

  lemma InvJoin(s: State)
    requires Inv(s) && !Launching(s.main)
    ensures Inv(DoMain(s))
  {
    if s.main.ResetError? || s.main.ResetStore? {
      InvReset(s);
    } else {
      hide OneThread;
      OneThreadJoined(s);
      HandleIsNewest(s);
    }
  }

  lemma LiveBodyIsNewest(s: State, t: nat)
    requires Inv(s) && t < |s.bodies| && !s.bodies[t].pc.Exited?
    ensures t == |s.bodies| - 1 && s.handle.Some?
    ensures !Launching(s.main) && !s.main.ResetStore? && !s.state.Idle?
  {
  }

  lemma OneThreadKept(s: State, t: nat, end: TaskEnd)
    requires OneThread(s) && t < |s.bodies| && !s.bodies[t].pc.Exited?
    ensures OneThread(DoBody(s, t, end))
  {
  }

  lemma InvBody(s: State, t: nat, end: TaskEnd)
    requires Inv(s) && t < |s.bodies|
    ensures Inv(DoBody(s, t, end))
  {
    if !s.bodies[t].pc.Exited? {
      hide OneThread;
      LiveBodyIsNewest(s, t);
      OneThreadKept(s, t, end);
    }
  }

  lemma InvStep(s: State, a: Action)
    requires Inv(s)
    ensures Inv(Do(s, a))
  {
    match a {
      case MainStep => if Launching(s.main) { InvLaunch(s); } else { InvJoin(s); }
      case BodyStep(t, end) => if t < |s.bodies| { InvBody(s, t, end); }
      case _ =>
    }
  }

  lemma {:induction false} InvRun(acts: seq<Action>)
    ensures Inv(Run(INIT, acts))
  {
    if acts != [] {
      InvRun(acts[..|acts| - 1]);
      InvStep(Run(INIT, acts[..|acts| - 1]), acts[|acts| - 1]);
    }
  }

  // ---- What every run keeps ----

  predicate Live(b: Body) {
    !b.pc.Exited?
  }

  /** At most one `run` body is live, an Idle worker has none and nothing left to join, the join inside start()
      finds nothing to join, and the runtime never meets a joinable handle it would terminate on. */
  lemma AtMostOneBody(acts: seq<Action>)
    ensures
      var s := Run(INIT, acts);
      && (forall t, u ::
            0 <= t < |s.bodies| && 0 <= u < |s.bodies| && Live(s.bodies[t]) && Live(s.bodies[u]) ==> t == u)
      && (s.state.Idle? ==> s.handle.None? && NoLiveBody(s))
      && (s.main.StartJoin? ==> s.handle.None?)
      && (s.main.Gone? ==> s.handle.None? && NoLiveBody(s))
      && !s.terminated
  {
    hide Run;
    InvRun(acts);
  }

  predicate Moves(v: WorkerState, w: WorkerState) {
    v == w || (v.Idle? && w.Running?) || (v.Running? && Terminal(w)) || (Terminal(v) && w.Idle?)
  }

  lemma StepMoves(s: State, a: Action)
    requires Inv(s)
    ensures Moves(s.state, Do(s, a).state)
  {
    if a.BodyStep? && a.t < |s.bodies| && Live(s.bodies[a.t]) {
      LiveBodyIsNewest(s, a.t);
    }
  }

  /** The published state only goes round the documented cycle. */
  lemma StateOnlyCycles(acts: seq<Action>, a: Action)
    ensures Moves(Run(INIT, acts).state, Run(INIT, acts + [a]).state)
  {
    hide Do, Moves;
    assert (acts + [a])[..|acts|] == acts;
    InvRun(acts);
    StepMoves(Run(INIT, acts), a);
  }

  /** Whenever a finished run is visible and not being reset, the state tells exactly how it finished and the
      error string is that run's exception text, or empty. */
  lemma FinishedRunIsReported(acts: seq<Action>)
    ensures
      var s := Run(INIT, acts);
      && (s.state.Idle? ==> s.error == "")
      && (Terminal(s.state) ==>
          && |s.bodies| > 0
          && var b := s.bodies[|s.bodies| - 1];
          && (!s.main.ResetStore? ==>
              && (s.state.Error? <==> !b.end.Returned?)
              && (s.state.Cancelled? <==> b.end.Returned? && b.asked)
              && (s.state.Done? <==> b.end.Returned? && !b.asked)
              && s.error == match b.end
                            case Returned => ""
                            case Threw(what) => what
                            case ThrewUnknown => "Unknown exception in worker"))
  {
    hide Run;
    InvRun(acts);
  }

  /** The call is taken: the main thread is in no other call. Destroying the object cancels too. */
  predicate Cancels(s: State, a: Action) {
    s.main.Ready? && (a.CallCancel? || a.CallDestroy?)
  }

  predicate Starts(s: State, a: Action) {
    s.main.Ready? && s.state.Idle? && a.CallStart?
  }

  /** Step j of the schedule is a cancel() with no start() accepted after it. */
  ghost predicate CancelAt(acts: seq<Action>, j: int) {
    && 0 <= j < |acts| && Cancels(Run(INIT, acts[..j]), acts[j])
    && forall k :: j < k < |acts| ==> !Starts(Run(INIT, acts[..k]), acts[k])
  }

  ghost predicate CancelledSinceStart(acts: seq<Action>) {
    exists j :: CancelAt(acts, j)
  }

  lemma CancelAtBefore(acts: seq<Action>, j: nat)
    requires j < |acts| - 1
    ensures
      var m := |acts| - 1;
      CancelAt(acts, j) <==> CancelAt(acts[..m], j) && !Starts(Run(INIT, acts[..m]), acts[m])
  {
    hide Run, Starts, Cancels;
    var m := |acts| - 1;
    assert forall k :: 0 <= k < m ==> acts[..m][..k] == acts[..k] && acts[..m][k] == acts[k];
  }

  lemma CancelledStep(acts: seq<Action>)
    requires acts != []
    ensures
      var m := |acts| - 1;
      var s := Run(INIT, acts[..m]);
      CancelledSinceStart(acts) <==> Cancels(s, acts[m]) || (CancelledSinceStart(acts[..m]) && !Starts(s, acts[m]))
  {
    hide Run, Starts, Cancels;
    var m := |acts| - 1;
    forall j | 0 <= j < m
      ensures CancelAt(acts, j) <==> CancelAt(acts[..m], j) && !Starts(Run(INIT, acts[..m]), acts[m])
    {
      CancelAtBefore(acts, j);
    }
    assert CancelAt(acts, m) <==> Cancels(Run(INIT, acts[..m]), acts[m]);
  }

  lemma DoAsked(s: State, a: Action)
    ensures Do(s, a).asked == if Cancels(s, a) then true else if Starts(s, a) then false else s.asked
  {
  }

  /** The flag of the model says just that. */
  lemma {:induction false} AskedIffCancelled(acts: seq<Action>)
    ensures Run(INIT, acts).asked <==> CancelledSinceStart(acts)
  {
    hide Do, Cancels, Starts;
    if acts == [] {
      assert !CancelledSinceStart(acts);
    } else {
      hide CancelledSinceStart;
      var m := |acts| - 1;
      AskedIffCancelled(acts[..m]);
      DoAsked(Run(INIT, acts[..m]), acts[m]);
      CancelledStep(acts);
      NotBoth(Run(INIT, acts[..m]), acts[m]);
    }
  }

  lemma NotBoth(s: State, a: Action)
    ensures !(Cancels(s, a) && Starts(s, a))
  {
  }

  /** A body that reaches its check after cancel() was called for its run goes on to publish Cancelled, and one
      that reaches it before goes on to publish Done. */
  lemma CancelBeforeCheckDecides(acts: seq<Action>, t: nat, end: TaskEnd)
    requires
      var s := Run(INIT, acts);
      t < |s.bodies| && s.bodies[t].pc.AtCheck?
    ensures
      var s := Run(INIT, acts);
      var s' := Do(s, BodyStep(t, end));
      s'.bodies[t].pc.AtPublish? && s'.bodies[t].final == if CancelledSinceStart(acts) then Cancelled else Done
  {
    hide Run, CancelledSinceStart;
    InvRun(acts);
    LiveBodyIsNewest(Run(INIT, acts), t);
    AskedIffCancelled(acts);
  }

  function Rank(pc: Pc): nat {
    match pc
    case InTask => 4
    case AtCheck => 3
    case AtError => 3
    case AtPublish => 2
    case AtReturn => 1
    case Exited => 0
  }

  /** The state after n more steps of one body. */
  function Drive(s: State, t: nat, end: TaskEnd, n: nat): State
    decreases n
  {
    if n == 0 then s else Drive(Do(s, BodyStep(t, end)), t, end, n - 1)
  }

  lemma {:induction false} DriveToExit(s: State, t: nat, end: TaskEnd, n: nat)
    requires t < |s.bodies| && Rank(s.bodies[t].pc) <= n
    ensures
      var s' := Drive(s, t, end, n);
      |s'.bodies| == |s.bodies| && s'.bodies[t].pc.Exited? && s'.handle == s.handle && s'.main == s.main
    decreases n
  {
    if n > 0 {
      DriveToExit(Do(s, BodyStep(t, end)), t, end, n - 1);
    }
  }

  /** A blocked join is never stuck: however the task ends, four steps of the thread alone let the main thread go on. */
  lemma JoinCompletes(acts: seq<Action>, end: TaskEnd)
    requires Run(INIT, acts).handle.Some?
    ensures var s := Run(INIT, acts); CanJoin(Drive(s, s.handle.value, end, 4))
  {
    hide Run;
    InvRun(acts);
    var s := Run(INIT, acts);
    DriveToExit(s, s.handle.value, end, 4);
  }
}
