/** The worker of the bake machine is the two-thread worker: sessions move it as schedules of AiWorker do. */
module SmartFillWorker {
  import opened Bytes
  import opened SmartFill
  import W = AiWorker
  import O = AiWorkerObject

  /** Between two calls of the main thread; the task of a running worker has yet to end, and nobody has cancelled it. */
  ghost predicate Tracks(v: W.WorkerState, w: W.State) {
    && W.Inv(w) && w.main.Ready? && w.state == v
    && (v.Running? ==>
          && w.handle.Some? && w.handle.value < |w.bodies| && w.bodies[w.handle.value].pc.InTask?
          && !w.cancel && !w.asked)
  }

  /** How many calls of start() a schedule from w gets accepted. */
  ghost function Accepted(w: W.State, acts: seq<W.Action>): nat {
    if acts == [] then 0
    else
      var m := |acts| - 1;
      Accepted(w, acts[..m]) + if W.Starts(W.Run(w, acts[..m]), acts[m]) then 1 else 0
  }

  /** The schedule leads from w to w', with n calls of start() accepted. */
  ghost predicate Leads(w: W.State, acts: seq<W.Action>, w': W.State, n: nat) {
    W.Run(w, acts) == w' && Accepted(w, acts) == n
  }

  lemma LeadsNowhere(w: W.State)
    ensures Leads(w, [], w, 0)
  {
  }

  lemma LeadsOn(w: W.State, acts: seq<W.Action>, w': W.State, n: nat, a: W.Action)
    requires Leads(w, acts, w', n)
    ensures Leads(w, acts + [a], W.Do(w', a), n + if W.Starts(w', a) then 1 else 0)
  {
    assert (acts + [a])[..|acts|] == acts;
  }

  lemma {:induction false} LeadsDriven(w: W.State, acts: seq<W.Action>, w': W.State, n: nat, t: nat,
                                         end: W.TaskEnd, k: nat)
    returns (acts': seq<W.Action>)
    requires Leads(w, acts, w', n)
    ensures Leads(w, acts', W.Drive(w', t, end, k), n)
    decreases k
  {
    acts' := acts;
    if k > 0 {
      hide W.Do, Leads;
      LeadsOn(w, acts, w', n, W.BodyStep(t, end));
      acts' := LeadsDriven(w, acts + [W.BodyStep(t, end)], W.Do(w', W.BodyStep(t, end)), n, t, end, k - 1);
    }
  }

  lemma {:induction false} LeadsMain(w: W.State, acts: seq<W.Action>, w': W.State, n: nat, k: nat)
    returns (acts': seq<W.Action>)
    requires Leads(w, acts, w', n)
    ensures Leads(w, acts', O.MainSteps(w', k), n)
    decreases k
  {
    acts' := acts;
    if k > 0 {
      hide W.DoMain, Leads;
      LeadsOn(w, acts, w', n, W.MainStep);
      acts' := LeadsMain(w, acts + [W.MainStep], W.DoMain(w'), n, k - 1);
    }
  }

  /** A running task can end in each of the three ways, the last after a cancel. */
  lemma TaskEnds(w: W.State, v: W.WorkerState) returns (acts: seq<W.Action>, w': W.State)
    requires Tracks(W.Running, w) && W.Terminal(v)
    ensures Leads(w, acts, w', 0) && Tracks(v, w') && |w'.bodies| == |w.bodies|
  {
    hide W.Inv, W.Do, W.Drive, Leads;
    var end := if v.Error? then W.Threw("") else W.Returned;
    var w1 := w;
    acts := [];
    LeadsNowhere(w);
    if v.Cancelled? {
      LeadsOn(w, [], w, 0, W.CallCancel);
      W.InvStep(w, W.CallCancel);
      CancelOnly(w);
      acts, w1 := [] + [W.CallCancel], W.Do(w, W.CallCancel);
    }
    var t := w.handle.value;
    O.RunUnrolled(w1, t, end);
    O.InvDrive(w1, t, end, 4);
    acts := LeadsDriven(w, acts, w1, 0, t, end, 4);
    w' := W.Drive(w1, t, end, 4);
  }

  lemma CancelOnly(w: W.State)
    requires w.main.Ready?
    ensures W.Do(w, W.CallCancel) == w.(cancel := true, asked := true) && !W.Starts(w, W.CallCancel)
  {
  }

  lemma Resets(w: W.State, v: W.WorkerState) returns (acts: seq<W.Action>, w': W.State)
    requires Tracks(v, w) && W.Terminal(v)
    ensures Leads(w, acts, w', 0) && Tracks(W.Idle, w') && |w'.bodies| == |w.bodies|
  {
    hide W.Inv, W.Do, W.Drive, Leads, O.MainSteps;
    O.ResetUnrolled(w, W.Returned);
    O.InvExhausted(w, W.Returned);
    O.ExhaustedKeeps(w, W.Returned);
    var e := O.Exhausted(w, W.Returned);
    acts := [];
    LeadsNowhere(w);
    if w.handle.Some? {
      O.HandleInBounds(w);
      O.DriveKeeps(w, w.handle.value, W.Returned, 4, w.main);
      acts := LeadsDriven(w, acts, w, 0, w.handle.value, W.Returned, 4);
    }
    LeadsOn(w, acts, e, 0, W.CallReset);
    W.InvStep(e, W.CallReset);
    acts := LeadsMain(w, acts + [W.CallReset], W.Do(e, W.CallReset), 0, 3);
    O.InvMainSteps(W.Do(e, W.CallReset), 3);
    w' := O.MainSteps(W.Do(e, W.CallReset), 3);
  }

  /** A press continues a schedule that has reached Idle with one accepted call of start(). */
  lemma Starts(w0: W.State, acts0: seq<W.Action>, w: W.State) returns (acts: seq<W.Action>, w': W.State)
    requires Leads(w0, acts0, w, 0) && Tracks(W.Idle, w)
    ensures Leads(w0, acts, w', 1) && Tracks(W.Running, w') && |w'.bodies| == |w.bodies| + 1
  {
    hide W.Inv, W.Do, Leads, O.MainSteps;
    O.StartUnrolled(w);
    LeadsOn(w0, acts0, w, 0, W.CallStart);
    W.InvStep(w, W.CallStart);
    acts := LeadsMain(w0, acts0 + [W.CallStart], W.Do(w, W.CallStart), 1, 3);
    O.InvMainSteps(W.Do(w, W.CallStart), 3);
    w' := O.MainSteps(W.Do(w, W.CallStart), 3);
  }

  // ---- How events move the worker ----

  predicate Ended(v: W.WorkerState, v': W.WorkerState) {
    v == v' || (v.Running? && W.Terminal(v'))
  }

  lemma {:induction false} ActsMove(s: State, acts: seq<Act>)
    ensures Ended(s.worker, DoActs(s, acts).worker)
    decreases |acts|
  {
    if acts != [] {
      hide ResultPath;
      ActsMove(DoAct(s, acts[0]), acts[1..]);
    }
  }

  lemma TryLoadMoves(s: State, key: Key, acts: seq<Act>)
    ensures Ended(s.worker, TryLoad(s, key, acts).worker)
  {
    hide DoActs, ResultPath;
    ActsMove(s, acts);
  }

  lemma ValidateMoves(s: State, acts1: seq<Act>, acts2: seq<Act>)
    ensures
      var v := Validate(s, acts1, acts2).worker;
      if s.worker.Running? then Ended(s.worker, v) else v.Idle?
  {
    hide DoActs, TryLoad, KeyFor;
    ActsMove(PollWorker(s), acts1);
    var s1 := DoActs(PollWorker(s), acts1);
    TryLoadMoves(s1.(currentKey := KeyFor(s1.config)), KeyFor(s1.config), acts2);
  }

  predicate EventMoves(v: W.WorkerState, v': W.WorkerState) {
    Ended(v, v') || (!v.Running? && (v'.Idle? || v'.Running?))
  }

  lemma PressMoves(s: State, p: Press)
    ensures !s.worker.Running? ==> BeforeBake(s, p).worker.Idle?
    ensures EventMoves(s.worker, StartBake(s, p).worker)
  {
    hide DoActs, TryLoad, KeyFor, Hit, Validate, Launch;
    var s1 := if s.worker.Idle? then s else s.(worker := W.Idle, job := None);
    ValidateMoves(s1, p.acts1, p.acts2);
    var s2 := BeforeBake(s, p);
    TryLoadMoves(s2.(currentKey := KeyFor(s2.config)), KeyFor(s2.config), p.acts3);
    LaunchRuns(DoActs(s2, p.acts4), KeyFor(s2.config), p);
  }

  lemma LaunchRuns(s: State, key: Key, p: Press)
    ensures Launch(s, key, p).worker.Running?
  {
  }

  lemma HandleMoves(s: State, e: Event)
    ensures EventMoves(s.worker, Handle(s, e).worker)
  {
    hide Validate, StartBake, DoAct, InCacheDir;
    match e {
      case Validates(acts1, acts2) => ValidateMoves(s, acts1, acts2);
      case Bakes(p) => PressMoves(s, p);
      case Others(a) => ActsMove(s, [a]); ActsOfOne(s, a);
      case _ =>
    }
  }

  /** The event is a press that reaches worker_.start. */
  predicate Launching(s: State, e: Event) {
    e.Bakes? && Launches(s, e.press)
  }

  lemma PressRuns(s: State, p: Press)
    ensures Launches(s, p) <==> !s.worker.Running? && StartBake(s, p).worker.Running?
  {
    hide DoActs, TryLoad, KeyFor, Hit, Validate, Launch;
    PressMoves(s, p);
    var s2 := BeforeBake(s, p);
    TryLoadMoves(s2.(currentKey := KeyFor(s2.config)), KeyFor(s2.config), p.acts3);
    LaunchRuns(DoActs(s2, p.acts4), KeyFor(s2.config), p);
  }

  /** Nothing but such a press sets the worker running. */
  lemma LaunchingRuns(s: State, e: Event)
    ensures Launching(s, e) <==> !s.worker.Running? && Handle(s, e).worker.Running?
  {
    hide Validate, StartBake, DoAct, InCacheDir, Launches;
    match e {
      case Validates(acts1, acts2) => ValidateMoves(s, acts1, acts2);
      case Bakes(p) => PressRuns(s, p);
      case Others(a) => ActsMove(s, [a]); ActsOfOne(s, a);
      case _ =>
    }
  }

  /** The segment of one event. */
  lemma Follow(v: W.WorkerState, v': W.WorkerState, w: W.State) returns (acts: seq<W.Action>, w': W.State)
    requires Tracks(v, w) && EventMoves(v, v')
    ensures
      var n := if !v.Running? && v'.Running? then 1 else 0;
      Leads(w, acts, w', n) && Tracks(v', w') && |w'.bodies| == |w.bodies| + n
  {
    hide Leads, Tracks;
    LeadsNowhere(w);
    acts, w' := [], w;
    if v != v' {
      if v.Running? {
        acts, w' := TaskEnds(w, v');
      } else {
        if !v.Idle? {
          acts, w' := Resets(w, v);
        }
        if v'.Running? {
          acts, w' := Starts(w, acts, w');
        }
      }
    }
  }

  // ---- Sessions as schedules ----

  /** How many presses of a session reach the worker. */
  function Bakings(s0: State, events: seq<Event>): nat {
    if events == [] then 0
    else
      var m := |events| - 1;
      Bakings(s0, events[..m]) + if Launching(Run(s0, events[..m]), events[m]) then 1 else 0
  }

  /** The worker after the segments of the first k events. */
  ghost function WorkerAt(acts: seq<seq<W.Action>>, k: nat): W.State
    requires k <= |acts|
  {
    W.Run(W.INIT, Flatten(acts[..k]))
  }

  /** After k events the schedule has the main thread between calls, the state the session gives its worker, and as many
      `run` bodies as there were bakes. */
  ghost predicate AgreesAt(s0: State, events: seq<Event>, acts: seq<seq<W.Action>>, k: nat)
    requires k <= |events| == |acts|
  {
    var w := WorkerAt(acts, k);
    w.main.Ready? && w.state == Run(s0, events[..k]).worker && |w.bodies| == Bakings(s0, events[..k])
  }

  /** Segment k gets start() accepted once when event k is a press that reaches the worker, and never otherwise. */
  ghost predicate StartsAt(s0: State, events: seq<Event>, acts: seq<seq<W.Action>>, k: nat)
    requires k < |events| == |acts|
  {
    Accepted(WorkerAt(acts, k), acts[k]) == if Launching(Run(s0, events[..k]), events[k]) then 1 else 0
  }

  /** The segments, one for each event, carry out the session. */
  ghost predicate CarriesOut(s0: State, events: seq<Event>, acts: seq<seq<W.Action>>) {
    && |acts| == |events|
    && (forall k :: 0 <= k <= |events| ==> AgreesAt(s0, events, acts, k))
    && (forall k :: 0 <= k < |events| ==> StartsAt(s0, events, acts, k))
  }

  lemma {:induction false} RunOn(w: W.State, a: seq<W.Action>, b: seq<W.Action>)
    ensures W.Run(w, a + b) == W.Run(W.Run(w, a), b)
  {
    if b == [] {
      assert a + b == a;
    } else {
      hide W.Do;
      var m := |b| - 1;
      assert (a + b)[..|a| + m] == a + b[..m];
      RunOn(w, a, b[..m]);
    }
  }

  lemma FirstSegments(s0: State, events: seq<Event>, acts: seq<seq<W.Action>>, e: Event, seg: seq<W.Action>, k: nat)
    requires k <= |events| == |acts|
    ensures WorkerAt(acts + [seg], k) == WorkerAt(acts, k)
    ensures AgreesAt(s0, events + [e], acts + [seg], k) <==> AgreesAt(s0, events, acts, k)
    ensures k < |events| ==> (StartsAt(s0, events + [e], acts + [seg], k) <==> StartsAt(s0, events, acts, k))
  {
    hide Run, W.Run, Bakings, Launching, Accepted;
    assert (acts + [seg])[..k] == acts[..k] && (events + [e])[..k] == events[..k];
  }

  lemma OneMoreSegment(s0: State, events: seq<Event>, acts: seq<seq<W.Action>>, e: Event, seg: seq<W.Action>)
    requires CarriesOut(s0, events, acts)
    requires
      var m := |events|;
      var s, w := Run(s0, events), WorkerAt(acts, m);
      var w', n := W.Run(w, seg), if Launching(s, e) then 1 else 0;
      && Accepted(w, seg) == n
      && w'.main.Ready? && w'.state == Handle(s, e).worker && |w'.bodies| == Bakings(s0, events) + n
    ensures CarriesOut(s0, events + [e], acts + [seg])
  {
    hide W.Run, AgreesAt, StartsAt, Accepted, Handle, Launching;
    var m, events', acts' := |events|, events + [e], acts + [seg];
    forall k | 0 <= k <= m
      ensures AgreesAt(s0, events', acts', k) && (k < m ==> StartsAt(s0, events', acts', k))
    {
      FirstSegments(s0, events, acts, e, seg, k);
    }
    LastSegment(s0, events, acts, e, seg);
  }

  lemma LastSegment(s0: State, events: seq<Event>, acts: seq<seq<W.Action>>, e: Event, seg: seq<W.Action>)
    requires |acts| == |events|
    requires
      var m := |events|;
      var s, w := Run(s0, events), WorkerAt(acts, m);
      var w', n := W.Run(w, seg), if Launching(s, e) then 1 else 0;
      && Accepted(w, seg) == n
      && w'.main.Ready? && w'.state == Handle(s, e).worker && |w'.bodies| == Bakings(s0, events) + n
    ensures AgreesAt(s0, events + [e], acts + [seg], |events| + 1)
    ensures StartsAt(s0, events + [e], acts + [seg], |events|)
  {
    hide W.Run, Accepted, Handle, Launching;
    var m, events', acts' := |events|, events + [e], acts + [seg];
    assert events'[..m] == events && events'[..m + 1] == events' && acts'[..m + 1] == acts' && acts'[..m] == acts;
    assert acts[..m] == acts;
    FlattenMore(acts, seg);
    RunOn(W.INIT, Flatten(acts), seg);
  }

  lemma {:induction false} SessionFollowed(s0: State, events: seq<Event>) returns (acts: seq<seq<W.Action>>, w: W.State)
    requires Initial(s0)
    ensures CarriesOut(s0, events, acts) && w == WorkerAt(acts, |events|) && Tracks(Run(s0, events).worker, w)
  {
    if events == [] {
      acts, w := [], W.INIT;
      FlattenNone<W.Action>();
    } else {
      hide Handle, CarriesOut, Tracks, W.Run, Bakings, Accepted, Launching;
      var m := |events| - 1;
      var e, w0, seg := events[m], W.INIT, [];
      acts, w0 := SessionFollowed(s0, events[..m]);
      var s := Run(s0, events[..m]);
      HandleMoves(s, e);
      LaunchingRuns(s, e);
      SegmentsCount(s0, events[..m], acts);
      seg, w := Follow(s.worker, Handle(s, e).worker, w0);
      TracksReady(Handle(s, e).worker, w);
      OneMoreSegment(s0, events[..m], acts, e, seg);
      LastWorker(acts, seg);
      acts := acts + [seg];
      assert events == events[..m] + [e];
    }
  }

  lemma LastWorker(acts: seq<seq<W.Action>>, seg: seq<W.Action>)
    ensures WorkerAt(acts + [seg], |acts| + 1) == W.Run(WorkerAt(acts, |acts|), seg)
  {
    assert (acts + [seg])[..|acts| + 1] == acts + [seg] && acts[..|acts|] == acts;
    FlattenMore(acts, seg);
    RunOn(W.INIT, Flatten(acts), seg);
  }

  lemma SegmentsCount(s0: State, events: seq<Event>, acts: seq<seq<W.Action>>)
    requires CarriesOut(s0, events, acts)
    ensures |acts| == |events| && |WorkerAt(acts, |events|).bodies| == Bakings(s0, events)
  {
    assert AgreesAt(s0, events, acts, |events|);
    assert events[..|events|] == events;
  }

  lemma TracksReady(v: W.WorkerState, w: W.State)
    requires Tracks(v, w)
    ensures w.main.Ready? && w.state == v
  {
  }

  /** Every session is carried out by a schedule of the two threads, event by event: after each event the schedule has
      the worker in the session's state, it has launched exactly the session's bakes, and start() is accepted once for
      each press that reaches it and at no other time. */
  lemma SessionIsSchedule(s0: State, events: seq<Event>) returns (acts: seq<seq<W.Action>>)
    requires Initial(s0)
    ensures CarriesOut(s0, events, acts)
  {
    var w;
    acts, w := SessionFollowed(s0, events);
  }

  /** Step j of the segment is an accepted call of start(). */
  ghost predicate AcceptedAt(w: W.State, seg: seq<W.Action>, j: int) {
    0 <= j < |seg| && W.Starts(W.Run(w, seg[..j]), seg[j])
  }

  lemma AcceptedBefore(w: W.State, seg: seq<W.Action>, j: int)
    requires seg != []
    ensures j != |seg| - 1 ==> (AcceptedAt(w, seg, j) <==> AcceptedAt(w, seg[..|seg| - 1], j))
  {
    hide W.Run, W.Starts;
    if 0 <= j < |seg| - 1 {
      assert seg[..|seg| - 1][..j] == seg[..j];
    }
  }

  lemma {:induction false} NoneAccepted(w: W.State, seg: seq<W.Action>, j: int)
    requires Accepted(w, seg) == 0
    ensures !AcceptedAt(w, seg, j)
  {
    if seg != [] {
      hide W.Run, W.Starts;
      NoneAccepted(w, seg[..|seg| - 1], j);
      AcceptedBefore(w, seg, j);
    }
  }

  lemma {:induction false} OneAccepted(w: W.State, seg: seq<W.Action>) returns (j: int)
    requires Accepted(w, seg) == 1
    ensures AcceptedAt(w, seg, j) && forall i :: AcceptedAt(w, seg, i) ==> i == j
  {
    hide W.Run, W.Starts;
    var m := |seg| - 1;
    if W.Starts(W.Run(w, seg[..m]), seg[m]) {
      j := m;
      forall i | AcceptedAt(w, seg, i) ensures i == m {
        NoneAccepted(w, seg[..m], i);
        AcceptedBefore(w, seg, i);
      }
    } else {
      j := OneAccepted(w, seg[..m]);
      AcceptedBefore(w, seg, j);
      forall i | AcceptedAt(w, seg, i) ensures i == j {
        AcceptedBefore(w, seg, i);
      }
    }
  }

  /** In whatever schedule carries out a session, the press that reaches the worker has start() accepted at exactly one
      step, where the worker is Idle, nothing is left to join and no body is live. */
  lemma PressIsAccepted(s0: State, events: seq<Event>, p: Press, acts: seq<seq<W.Action>>)
    requires Launches(Run(s0, events), p) && CarriesOut(s0, events + [Bakes(p)], acts)
    ensures
      var m := |events|;
      exists j ::
        && AcceptedAt(WorkerAt(acts, m), acts[m], j)
        && (forall i :: AcceptedAt(WorkerAt(acts, m), acts[m], i) ==> i == j)
        && var w := W.Run(W.INIT, Flatten(acts[..m]) + acts[m][..j]);
           w.state.Idle? && w.handle.None? && W.NoLiveBody(w)
  {
    hide Run, W.Run, Launches, Accepted, W.Inv, W.OneThread, W.NoLiveBody;
    var m := |events|;
    assert (events + [Bakes(p)])[..m] == events;
    assert StartsAt(s0, events + [Bakes(p)], acts, m);
    var j := OneAccepted(WorkerAt(acts, m), acts[m]);
    var before := Flatten(acts[..m]) + acts[m][..j];
    RunOn(W.INIT, Flatten(acts[..m]), acts[m][..j]);
    W.InvRun(before);
    IdleHasNoHandle(W.Run(W.INIT, before));
  }

  lemma IdleHasNoHandle(w: W.State)
    requires W.Inv(w) && w.state.Idle?
    ensures w.handle.None? && W.NoLiveBody(w)
  {
  }
}
