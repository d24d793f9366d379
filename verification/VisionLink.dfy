/** The robot and the Jetson vision computer: their datagram protocol, the Jetson's mode loop and
    its cameras. Datagrams may be lost, duplicated and reordered. */
module VisionLink {
  datatype Option<T> = None | Some(value: T)

  /** Both directions send three integers. */
  datatype Message = Message(code: int, first: int, second: int)

  const NO_TARGET := 0
  const BOILER := 1
  const GEAR := 2
  const IDLE := 4
  const ERROR := 5

  /** Jetson modes; boiler and gear have the codes of their solution messages. */
  const MODE_IDLE := 0

  predicate IsSolution(m: Message) {
    m.code == BOILER || m.code == GEAR
  }

  // ------------------------------------------------------------------ what the robot knows

  datatype Vision = Vision(hasTarget: bool, azimuth: int, centerline: int, height: int)

  function Heard(v: Vision, m: Message): Vision {
    if m.code == NO_TARGET then v.(hasTarget := false)
    else if m.code == BOILER then v.(hasTarget := true, azimuth := m.first, centerline := m.second)
    else if m.code == GEAR then v.(hasTarget := true, azimuth := m.first, height := m.second)
    else if m.code == ERROR then v
    else v.(hasTarget := false)
  }

  function HeardAll(v: Vision, history: seq<Message>): Vision {
    if history == [] then v else Heard(HeardAll(v, history[..|history| - 1]), history[|history| - 1])
  }

  datatype Kind = NoError | AnySolution | BoilerSolution | GearSolution

  predicate Is(kind: Kind, m: Message) {
    match kind
    case NoError => m.code != 5
    case AnySolution => m.code == 1 || m.code == 2
    case BoilerSolution => m.code == 1
    case GearSolution => m.code == 2
  }

  /** `k` is the position of the last message of that kind. */
  ghost predicate IsLast(history: seq<Message>, kind: Kind, k: nat) {
    && k < |history| && Is(kind, history[k])
    && forall i | k < i < |history| :: !Is(kind, history[i])
  }

  ghost predicate HasNone(history: seq<Message>, kind: Kind) {
    forall i | 0 <= i < |history| :: !Is(kind, history[i])
  }

  /** The robot's picture is a function of the datagrams received: it has a target exactly when
      the last one that is no error report is a solution, and each number comes from the last
      datagram of the kind that carries it. */
  lemma {:induction false} VisionIsHistory(v: Vision, history: seq<Message>, k: nat)
    ensures IsLast(history, NoError, k) ==> (HeardAll(v, history).hasTarget <==> IsSolution(history[k]))
    ensures HasNone(history, NoError) ==> HeardAll(v, history).hasTarget == v.hasTarget
    ensures IsLast(history, AnySolution, k) ==> HeardAll(v, history).azimuth == history[k].first
    ensures HasNone(history, AnySolution) ==> HeardAll(v, history).azimuth == v.azimuth
    ensures IsLast(history, BoilerSolution, k) ==> HeardAll(v, history).centerline == history[k].second
    ensures HasNone(history, BoilerSolution) ==> HeardAll(v, history).centerline == v.centerline
    ensures IsLast(history, GearSolution, k) ==> HeardAll(v, history).height == history[k].second
    ensures HasNone(history, GearSolution) ==> HeardAll(v, history).height == v.height
  {
    if history != [] {
      VisionIsHistory(v, history[..|history| - 1], k);
    }
  }

  lemma VisionIs(v: Vision, history: seq<Message>)
    ensures forall k: nat | IsLast(history, NoError, k) :: HeardAll(v, history).hasTarget <==> IsSolution(history[k])
    ensures HasNone(history, NoError) ==> HeardAll(v, history).hasTarget == v.hasTarget
    ensures forall k: nat | IsLast(history, AnySolution, k) :: HeardAll(v, history).azimuth == history[k].first
    ensures HasNone(history, AnySolution) ==> HeardAll(v, history).azimuth == v.azimuth
    ensures forall k: nat | IsLast(history, BoilerSolution, k) :: HeardAll(v, history).centerline == history[k].second
    ensures HasNone(history, BoilerSolution) ==> HeardAll(v, history).centerline == v.centerline
    ensures forall k: nat | IsLast(history, GearSolution, k) :: HeardAll(v, history).height == history[k].second
    ensures HasNone(history, GearSolution) ==> HeardAll(v, history).height == v.height
  {
    VisionIsHistory(v, history, 0);
    forall k: nat
      ensures IsLast(history, NoError, k) ==> (HeardAll(v, history).hasTarget <==> IsSolution(history[k]))
      ensures IsLast(history, AnySolution, k) ==> HeardAll(v, history).azimuth == history[k].first
      ensures IsLast(history, BoilerSolution, k) ==> HeardAll(v, history).centerline == history[k].second
      ensures IsLast(history, GearSolution, k) ==> HeardAll(v, history).height == history[k].second
    {
      VisionIsHistory(v, history, k);
    }
  }

  // ------------------------------------------------------------------ cameras and modes

  datatype Camera = Camera(connected: bool, capturing: bool)

  function Started(c: Camera): Camera {
    if !c.connected || c.capturing then c else c.(capturing := true)
  }

  function Stopped(c: Camera): Camera {
    if !c.connected && !c.capturing then c else c.(capturing := false)
  }

  /** What the surroundings decide in one iteration: whether connecting the cameras works,
      whether a frame arrives, and the errors measured when targets are found in it. */
  datatype Surroundings = Surroundings(boilerConnects: bool, gearConnects: bool, frame: bool, target: Option<(int, int)>)

  datatype Jetson = Jetson(linkMode: int, currentMode: int, boiler: Camera, gearConnected: bool)

  function Switched(j: Jetson, mode: int, e: Surroundings): Jetson {
    if mode == BOILER then j.(boiler := Started(j.boiler.(connected := j.boiler.connected || e.boilerConnects)))
    else if mode == GEAR then j.(boiler := Stopped(j.boiler), gearConnected := j.gearConnected || e.gearConnects)
    else if mode == MODE_IDLE then j.(boiler := Stopped(j.boiler))
    else j
  }

  function Applied(j: Jetson, e: Surroundings): Jetson {
    if j.linkMode == j.currentMode then j else Switched(j, j.linkMode, e).(currentMode := j.linkMode)
  }

  const NOTHING := Message(NO_TARGET, 0, 0)

  /** The datagram of one iteration, after the mode has been applied. */
  function Processed(j: Jetson, e: Surroundings): Option<Message> {
    if j.currentMode == BOILER then
      if !j.boiler.connected && !j.boiler.capturing then Some(NOTHING)
      else if e.frame && e.target.Some? then Some(Message(BOILER, e.target.value.0, e.target.value.1))
      else Some(NOTHING)
    else if j.currentMode == GEAR then
      if j.gearConnected && e.target.Some? then Some(Message(GEAR, e.target.value.0, e.target.value.1))
      else Some(NOTHING)
    else None
  }

  // ------------------------------------------------------------------ the whole system

  /** `requested` and `sent` hold every datagram ever sent in each direction, so that delivery
      can lose, repeat and reorder them. `applied` is the last recognised mode switched to. */
  datatype System = System(
    jetson: Jetson, requested: set<Message>, sent: set<Message>, vision: Vision, history: seq<Message>, applied: int)

  datatype Step =
    | Request(mode: int)
    | HearRequest(m: Message)
    | Iterate(e: Surroundings)
    | HearAnswer(m: Message)

  predicate Recognised(mode: int) {
    mode == MODE_IDLE || mode == BOILER || mode == GEAR
  }

  predicate Enabled(s: System, step: Step) {
    match step
    case Request(mode) => mode == BOILER || mode == GEAR
    case HearRequest(m) => m in s.requested
    case Iterate(_) => true
    case HearAnswer(m) => m in s.sent
  }

  function Next(s: System, step: Step): System {
    match step
    case Request(mode) => s.(requested := s.requested + {Message(mode, 0, 0)})
    case HearRequest(m) => s.(jetson := s.jetson.(linkMode := m.code))
    case Iterate(e) =>
      var j := Applied(s.jetson, e);
      var answer := Processed(j, e);
      s.(jetson := j,
         sent := if answer.Some? then s.sent + {answer.value} else s.sent,
         applied := if j.currentMode != s.jetson.currentMode && Recognised(j.currentMode) then j.currentMode else s.applied)
    case HearAnswer(m) => s.(vision := Heard(s.vision, m), history := s.history + [m])
  }

  ghost predicate Initial(s: System, configured: int) {
    && Recognised(configured)
    && s.jetson == Jetson(configured, MODE_IDLE, Camera(false, false), false)
    && s.requested == {} && s.sent == {} && s.history == [] && s.applied == MODE_IDLE
  }

  ghost predicate IsRun(configured: int, steps: seq<Step>, trace: seq<System>) {
    && |trace| == |steps| + 1 && Initial(trace[0], configured)
    && forall k: nat | k < |steps| :: Enabled(trace[k], steps[k]) && trace[k + 1] == Next(trace[k], steps[k])
  }

  /** A mode the Jetson may be in: the configured one, idle at start-up, or one that the robot
      has requested. */
  ghost predicate Asked(s: System, configured: int, mode: int) {
    mode == configured || Message(mode, 0, 0) in s.requested
  }

  /** Capture runs exactly on a connected camera while boiler was the last recognised mode applied; in boiler mode it runs exactly when the camera is connected. */
  ghost predicate CaptureSafe(s: System) {
    && (s.jetson.boiler.capturing <==> s.jetson.boiler.connected && s.applied == BOILER)
    && (s.jetson.currentMode == BOILER ==> s.jetson.boiler.capturing == s.jetson.boiler.connected)
    && (Recognised(s.jetson.currentMode) ==> s.applied == s.jetson.currentMode)
  }

  ghost predicate ModesAsked(s: System, configured: int) {
    && (forall m | m in s.requested :: m == Message(BOILER, 0, 0) || m == Message(GEAR, 0, 0))
    && Asked(s, configured, s.jetson.linkMode)
    && (s.jetson.currentMode == MODE_IDLE || Asked(s, configured, s.jetson.currentMode))
  }

  /** Every answer ever sent is "no target" or a solution of a mode that was asked for. */
  ghost predicate AnswersAsked(s: System, configured: int) {
    forall m | m in s.sent :: m == NOTHING || (IsSolution(m) && Asked(s, configured, m.code))
  }

  ghost predicate HistorySent(s: System, start: Vision) {
    && (forall i | 0 <= i < |s.history| :: s.history[i] in s.sent)
    && s.vision == HeardAll(start, s.history)
  }

  lemma StepKeepsCapture(s: System, step: Step)
    requires Enabled(s, step) && CaptureSafe(s)
    ensures CaptureSafe(Next(s, step))
  {
  }

  lemma StepKeepsModes(s: System, configured: int, step: Step)
    requires Enabled(s, step) && ModesAsked(s, configured) && AnswersAsked(s, configured)
    ensures ModesAsked(Next(s, step), configured) && AnswersAsked(Next(s, step), configured)
  {
    var s' := Next(s, step);
    assert s.requested <= s'.requested;
  }

  lemma StepKeepsHistory(s: System, start: Vision, step: Step)
    requires Enabled(s, step) && HistorySent(s, start)
    ensures HistorySent(Next(s, step), start)
  {
    if step.HearAnswer? {
      var h := s.history + [step.m];
      assert h[..|h| - 1] == s.history;
    }
  }

  lemma {:induction false} RunIsSafe(configured: int, steps: seq<Step>, trace: seq<System>, n: nat)
    requires IsRun(configured, steps, trace) && n <= |steps|
    ensures CaptureSafe(trace[n])
    ensures ModesAsked(trace[n], configured) && AnswersAsked(trace[n], configured)
    ensures HistorySent(trace[n], trace[0].vision)
  {
    if n > 0 {
      RunIsSafe(configured, steps, trace, n - 1);
      StepKeepsCapture(trace[n - 1], steps[n - 1]);
      StepKeepsModes(trace[n - 1], configured, steps[n - 1]);
      StepKeepsHistory(trace[n - 1], trace[0].vision, steps[n - 1]);
    }
  }

  /** End to end, over every run: when the robot believes it has a target, the numbers it holds
      are those of a solution the Jetson really sent, in a mode that is configured or that the
      robot itself asked for. */
  lemma TargetIsReal(configured: int, steps: seq<Step>, trace: seq<System>, n: nat)
    requires IsRun(configured, steps, trace) && n <= |steps|
    requires trace[n].vision.hasTarget && !trace[0].vision.hasTarget
    ensures exists m | m in trace[n].sent ::
              && IsSolution(m) && Asked(trace[n], configured, m.code)
              && trace[n].vision.azimuth == m.first
              && (m.code == BOILER ==> trace[n].vision.centerline == m.second)
              && (m.code == GEAR ==> trace[n].vision.height == m.second)
  {
    RunIsSafe(configured, steps, trace, n);
    var k := LastSolution(trace[0].vision, trace[n].history);
    var m := trace[n].history[k];
    VisionIsHistory(trace[0].vision, trace[n].history, k);
    assert m in trace[n].sent;
  }

  lemma {:induction false} LastSolution(v: Vision, history: seq<Message>) returns (k: nat)
    requires HeardAll(v, history).hasTarget && !v.hasTarget
    ensures k < |history| && IsSolution(history[k])
    ensures IsLast(history, AnySolution, k)
    ensures history[k].code == BOILER ==> IsLast(history, BoilerSolution, k)
    ensures history[k].code == GEAR ==> IsLast(history, GearSolution, k)
  {
    var n := |history| - 1;
    if IsSolution(history[n]) {
      k := n;
    } else {
      k := LastSolution(v, history[..n]);
    }
  }

  /** In every reachable boiler iteration the camera guard, which only refuses when the camera
      is neither connected nor capturing, refuses exactly as if either were missing. */
  lemma CameraGuardSuffices(configured: int, steps: seq<Step>, trace: seq<System>, n: nat, e: Surroundings)
    requires IsRun(configured, steps, trace) && n <= |steps|
    ensures var c := Applied(trace[n].jetson, e);
            c.currentMode == BOILER ==>
              ((!c.boiler.connected && !c.boiler.capturing) <==> (!c.boiler.connected || !c.boiler.capturing))
  {
    RunIsSafe(configured, steps, trace, n);
    StepKeepsCapture(trace[n], Iterate(e));
  }

  /** In this iteration the Jetson sent `m`, in the mode the link held, and a boiler solution only
      with a connected and capturing camera. */
  ghost predicate SentAt(configured: int, before: System, step: Step, after: System, m: Message) {
    && step.Iterate?
    && Processed(after.jetson, step.e) == Some(m)
    && m.code == after.jetson.currentMode == before.jetson.linkMode
    && Asked(before, configured, m.code)
    && (m.code == BOILER ==> after.jetson.boiler == Camera(true, true))
  }

  /** Every solution ever sent comes from an iteration whose mode has the code of the solution,
      and that mode was configured or already requested by the robot at that time. */
  lemma {:induction false} SolutionsComeFromMode(configured: int, steps: seq<Step>, trace: seq<System>, n: nat, m: Message)
    requires IsRun(configured, steps, trace) && n <= |steps|
    requires m in trace[n].sent && IsSolution(m)
    ensures exists k: nat | k < n :: SentAt(configured, trace[k], steps[k], trace[k + 1], m)
  {
    if m in trace[n - 1].sent {
      SolutionsComeFromMode(configured, steps, trace, n - 1, m);
    } else {
      RunIsSafe(configured, steps, trace, n - 1);
      NewSolution(configured, trace[n - 1], steps[n - 1], m);
    }
  }

  lemma NewSolution(configured: int, s: System, step: Step, m: Message)
    requires CaptureSafe(s) && ModesAsked(s, configured)
    requires m !in s.sent && m in Next(s, step).sent && IsSolution(m)
    ensures SentAt(configured, s, step, Next(s, step), m)
  {
  }

  /** The iteration after the delivery of a request serves it: the Jetson is in the requested mode,
      which is boiler or gear, the boiler camera captures exactly in boiler mode and if connected,
      and the answer is a solution with the code of the request, or no target. */
  lemma RequestIsServed(configured: int, steps: seq<Step>, trace: seq<System>, n: nat)
    requires IsRun(configured, steps, trace) && n + 1 < |steps|
    requires steps[n].HearRequest? && steps[n + 1].Iterate?
    ensures var code := steps[n].m.code;
            var j := trace[n + 2].jetson;
            var answer := Processed(j, steps[n + 1].e);
            && (code == 1 || code == 2) && j.currentMode == code
            && (j.boiler.capturing <==> code == 1 && j.boiler.connected)
            && answer.Some? && (answer.value == NOTHING || answer.value.code == code)
  {
    RunIsSafe(configured, steps, trace, n);
    RunIsSafe(configured, steps, trace, n + 2);
    assert Enabled(trace[n], steps[n]);
    assert trace[n + 1] == Next(trace[n], steps[n]) && trace[n + 2] == Next(trace[n + 1], steps[n + 1]);
  }

  /** The channels in every run: what can reach the Jetson is exactly what the robot requested, and
      what the robot has heard is exactly what was delivered to it, in that order. */
  lemma {:induction false} ChannelsOverRun(configured: int, steps: seq<Step>, trace: seq<System>, n: nat, mode: int)
    requires IsRun(configured, steps, trace) && n <= |steps|
    ensures Message(mode, 0, 0) in trace[n].requested <==> exists k: nat | k < n :: steps[k] == Request(mode)
    ensures trace[n].history == Delivered(steps[..n])
  {
    if n > 0 {
      ChannelsOverRun(configured, steps, trace, n - 1, mode);
      assert steps[..n][..n - 1] == steps[..n - 1];
      assert trace[n] == Next(trace[n - 1], steps[n - 1]);
      assert Message(mode, 0, 0) in trace[n].requested
        <==> Message(mode, 0, 0) in trace[n - 1].requested || steps[n - 1] == Request(mode);
    }
  }

  /** The answers delivered to the robot. */
  function Delivered(steps: seq<Step>): seq<Message> {
    if steps == [] then []
    else
      var last := steps[|steps| - 1];
      Delivered(steps[..|steps| - 1]) + (if last.HearAnswer? then [last.m] else [])
  }

  // ------------------------------------------------------------------ when the camera connects

  /** Boiler mode is entered in this iteration and the hardware answers. */
  predicate ConnectsAt(s: System, step: Step) {
    step.Iterate? && step.e.boilerConnects && s.jetson.linkMode == BOILER && s.jetson.currentMode != BOILER
  }

  predicate GearConnectsAt(s: System, step: Step) {
    step.Iterate? && step.e.gearConnects && s.jetson.linkMode == GEAR && s.jetson.currentMode != GEAR
  }

  /** In every run a camera is connected exactly when its hardware answered in some iteration that
      entered its mode. Iterations that stay in the mode never try. */
  lemma {:induction false} ConnectedIff(configured: int, steps: seq<Step>, trace: seq<System>, n: nat)
    requires IsRun(configured, steps, trace) && n <= |steps|
    ensures trace[n].jetson.boiler.connected <==> exists k: nat | k < n :: ConnectsAt(trace[k], steps[k])
    ensures trace[n].jetson.gearConnected <==> exists k: nat | k < n :: GearConnectsAt(trace[k], steps[k])
  {
    if n > 0 {
      ConnectedIff(configured, steps, trace, n - 1);
      assert trace[n].jetson.gearConnected
        <==> trace[n - 1].jetson.gearConnected || GearConnectsAt(trace[n - 1], steps[n - 1]);
      assert trace[n].jetson.boiler.connected
        <==> trace[n - 1].jetson.boiler.connected || ConnectsAt(trace[n - 1], steps[n - 1]);
    }
  }

  /** A boiler iteration of any run reports the target in its frame exactly when some iteration up
      to this one connected the camera; otherwise it reports no target. */
  lemma BoilerAnswer(configured: int, steps: seq<Step>, trace: seq<System>, n: nat)
    requires IsRun(configured, steps, trace) && n < |steps|
    requires steps[n].Iterate? && trace[n].jetson.linkMode == BOILER
    ensures var e := steps[n].e;
            Processed(trace[n + 1].jetson, e)
            == Some(if e.frame && e.target.Some? && exists k: nat | k <= n :: ConnectsAt(trace[k], steps[k])
                    then Message(1, e.target.value.0, e.target.value.1)
                    else Message(0, 0, 0))
  {
    RunIsSafe(configured, steps, trace, n + 1);
    ConnectedIff(configured, steps, trace, n + 1);
  }

  /** A gear iteration likewise reports the azimuth and the height of its target exactly when some
      iteration up to this one connected the gear camera; otherwise it reports no target. */
  lemma GearAnswer(configured: int, steps: seq<Step>, trace: seq<System>, n: nat)
    requires IsRun(configured, steps, trace) && n < |steps|
    requires steps[n].Iterate? && trace[n].jetson.linkMode == GEAR
    ensures var e := steps[n].e;
            Processed(trace[n + 1].jetson, e)
            == Some(if e.target.Some? && exists k: nat | k <= n :: GearConnectsAt(trace[k], steps[k])
                    then Message(2, e.target.value.0, e.target.value.1)
                    else Message(0, 0, 0))
  {
    RunIsSafe(configured, steps, trace, n + 1);
    ConnectedIff(configured, steps, trace, n + 1);
  }

  /** Every iteration leaves the Jetson in the mode of the link, sends nothing in a mode other than
      boiler and gear, and otherwise adds its one answer to what was sent. */
  lemma IterationSends(configured: int, steps: seq<Step>, trace: seq<System>, n: nat)
    requires IsRun(configured, steps, trace) && n < |steps| && steps[n].Iterate?
    ensures trace[n + 1].jetson.currentMode == trace[n + 1].jetson.linkMode == trace[n].jetson.linkMode
    ensures var answer := Processed(trace[n + 1].jetson, steps[n].e);
            var mode := trace[n].jetson.linkMode;
            && (answer.Some? <==> mode == 1 || mode == 2)
            && trace[n + 1].sent == trace[n].sent + (if answer.Some? then {answer.value} else {})
  {
    assert trace[n + 1] == Next(trace[n], steps[n]);
  }

  /** A connection that fails when boiler mode is entered is not tried again: over any stretch in
      which no iteration sees another mode, whatever is requested in between, the camera stays
      unconnected and every iteration reports no target. */
  lemma {:induction false} FailedConnectionSticks(configured: int, steps: seq<Step>, trace: seq<System>, n: nat, t: nat)
    requires IsRun(configured, steps, trace) && n <= t <= |steps|
    requires trace[n].jetson.currentMode == BOILER && !trace[n].jetson.boiler.connected
    requires forall k: nat | n <= k < t && steps[k].Iterate? :: trace[k].jetson.linkMode == BOILER
    ensures trace[t].jetson.currentMode == BOILER && !trace[t].jetson.boiler.connected
    ensures forall k: nat | n <= k < t && steps[k].Iterate? :: Processed(trace[k + 1].jetson, steps[k].e) == Some(NOTHING)
  {
    if t > n {
      FailedConnectionSticks(configured, steps, trace, n, t - 1);
      RunIsSafe(configured, steps, trace, t);
    }
  }

  /** Such a run: the camera does not answer at start-up. The robot then asks for gear and for
      boiler again, both requests arrive before the next iteration, and although the camera would
      answer now and a target is in view, none is reported. */
  lemma OverwrittenRequestDoesNotReconnect() returns (steps: seq<Step>, trace: seq<System>)
    ensures IsRun(BOILER, steps, trace) && |steps| == 6
    ensures steps[3] == HearRequest(Message(GEAR, 0, 0)) && steps[4] == HearRequest(Message(BOILER, 0, 0))
    ensures steps[5] == Iterate(Surroundings(true, true, true, Some((3, 4))))
    ensures !trace[6].jetson.boiler.connected && Processed(trace[6].jetson, steps[5].e) == Some(NOTHING)
  {
    var start := System(Jetson(BOILER, MODE_IDLE, Camera(false, false), false), {}, {}, Vision(false, 0, 0, 0), [], MODE_IDLE);
    steps := [
      Iterate(Surroundings(false, false, true, None)),
      Request(GEAR), Request(BOILER),
      HearRequest(Message(GEAR, 0, 0)), HearRequest(Message(BOILER, 0, 0)),
      Iterate(Surroundings(true, true, true, Some((3, 4))))];
    var s1 := Next(start, steps[0]);
    var s2 := Next(s1, steps[1]);
    var s3 := Next(s2, steps[2]);
    var s4 := Next(s3, steps[3]);
    var s5 := Next(s4, steps[4]);
    trace := [start, s1, s2, s3, s4, s5, Next(s5, steps[5])];
    assert s1.jetson == Jetson(BOILER, BOILER, Camera(false, false), false);
    assert s5.jetson == s1.jetson;
  }

  // ------------------------------------------------------------------ the objects

  /** The robot's side. */
  class RobotDeadeye {
    var hasTarget: bool
    var azimuthError: int
    var centerlineError: int
    var targetHeight: int
    const azimuthCorrection: int
    /** The datagrams received, and the fields before the first of them. */
    ghost var history: seq<Message>
    ghost const start: Vision

    ghost predicate Valid()
      reads this
    {
      Picture() == HeardAll(start, history) && !start.hasTarget
    }

    ghost function Picture(): Vision
      reads this
    {
      Vision(hasTarget, azimuthError, centerlineError, targetHeight)
    }

    /** The numbers are not initialised: they start as whatever the memory holds. */
    constructor (azimuthCorrection: int, memory: Vision)
      ensures Valid() && history == [] && this.azimuthCorrection == azimuthCorrection
      ensures start == memory.(hasTarget := false)
    {
      hasTarget := false;
      azimuthError, centerlineError, targetHeight := memory.azimuth, memory.centerline, memory.height;
      this.azimuthCorrection := azimuthCorrection;
      history := [];
      start := memory.(hasTarget := false);
    }

    /** One turn of the receive loop. */
    method Receive(m: Message)
      requires Valid()
      modifies this
      ensures Valid() && history == old(history) + [m]
      ensures Picture() == Heard(old(Picture()), m)
    {
      history := history + [m];
      assert history[..|history| - 1] == old(history);
      if m.code == NO_TARGET {
        hasTarget := false;
      } else if m.code == BOILER {
        hasTarget := true;
        azimuthError := m.first;
        centerlineError := m.second;
      } else if m.code == GEAR {
        hasTarget := true;
        azimuthError := m.first;
        targetHeight := m.second;
      } else if m.code == ERROR {
      } else {
        hasTarget := false;
      }
    }

    /** Whether the last datagram that is no error report is a solution. */
    method HasTarget() returns (r: bool)
      requires Valid()
      ensures forall k: nat | IsLast(history, NoError, k) :: r <==> IsSolution(history[k])
      ensures HasNone(history, NoError) ==> !r
    {
      VisionIs(start, history);
      r := hasTarget;
    }

    /** The azimuth of the last solution received, corrected for the camera mount. */
    method GetAzimuthError() returns (r: int)
      requires Valid()
      ensures forall k: nat | IsLast(history, AnySolution, k) :: r == history[k].first + azimuthCorrection
      ensures HasNone(history, AnySolution) ==> r == start.azimuth + azimuthCorrection
    {
      VisionIs(start, history);
      r := azimuthError + azimuthCorrection;
    }

    method GetStrafeError() returns (r: int)
      requires Valid()
      ensures forall k: nat | IsLast(history, AnySolution, k) :: r == history[k].first
      ensures HasNone(history, AnySolution) ==> r == start.azimuth
    {
      VisionIs(start, history);
      r := azimuthError;
    }

    method GetCenterlineError() returns (r: int)
      requires Valid()
      ensures forall k: nat | IsLast(history, BoilerSolution, k) :: r == history[k].second
      ensures HasNone(history, BoilerSolution) ==> r == start.centerline
    {
      VisionIs(start, history);
      r := centerlineError;
    }

    method GetTargetHeight() returns (r: int)
      requires Valid()
      ensures forall k: nat | IsLast(history, GearSolution, k) :: r == history[k].second
      ensures HasNone(history, GearSolution) ==> r == start.height
    {
      VisionIs(start, history);
      r := targetHeight;
    }

    method EnableBoilerCamera() returns (m: Message)
      ensures m == Message(1, 0, 0)
    {
      m := Message(BOILER, 0, 0);
    }

    method EnableGearCamera() returns (m: Message)
      ensures m == Message(2, 0, 0)
    {
      m := Message(GEAR, 0, 0);
    }
  }

  class BoilerCamera {
    var connected: bool
    var captureStarted: bool

    ghost function Contents(): Camera
      reads this
    {
      Camera(connected, captureStarted)
    }

    constructor ()
      ensures Contents() == Camera(false, false)
    {
      connected, captureStarted := false, false;
    }

    /** `works` tells whether every hardware call on the way succeeds. */
    method Connect(works: bool)
      modifies this
      ensures Contents() == old(Contents()).(connected := old(connected) || works)
    {
      if connected {
        return;
      }
      if !works {
        return;
      }
      connected := true;
    }

    method StartCapture()
      modifies this
      ensures Contents() == Started(old(Contents()))
    {
      if !connected {
        return;
      }
      if captureStarted {
        return;
      }
      captureStarted := true;
    }

    method StopCapture()
      modifies this
      ensures Contents() == Stopped(old(Contents()))
    {
      if !connected && !captureStarted {
        return;
      }
      captureStarted := false;
    }

    method ProcessFrame(frame: bool, target: Option<(int, int)>) returns (found: Option<(int, int)>)
      ensures found == if (connected || captureStarted) && frame then target else None
    {
      if !connected && !captureStarted {
        return None;
      }
      if !frame {
        return None;
      }
      return target;
    }
  }

  /** The Jetson's side: the link thread writes `linkMode`, the main loop does the rest. */
  class JetsonDeadeye {
    var linkMode: int
    var currentMode: int
    const boilerCamera: BoilerCamera
    var gearConnected: bool

    ghost function Contents(): Jetson
      reads this, boilerCamera
    {
      Jetson(linkMode, currentMode, boilerCamera.Contents(), gearConnected)
    }

    constructor (configured: int)
      ensures Contents() == Jetson(configured, MODE_IDLE, Camera(false, false), false) && fresh(boilerCamera)
    {
      linkMode := configured;
      currentMode := MODE_IDLE;
      boilerCamera := new BoilerCamera();
      gearConnected := false;
    }

    /** One turn of the link thread. */
    method ReceiveMode(m: Message)
      modifies `linkMode
      ensures Contents() == old(Contents()).(linkMode := m.code)
    {
      linkMode := m.code;
    }

    method SwitchMode(mode: int, e: Surroundings)
      modifies `gearConnected, boilerCamera
      ensures Contents() == Switched(old(Contents()), mode, e)
    {
      if mode == BOILER {
        if !boilerCamera.connected {
          boilerCamera.Connect(e.boilerConnects);
        }
        boilerCamera.StartCapture();
      } else if mode == GEAR {
        boilerCamera.StopCapture();
        if !gearConnected {
          gearConnected := e.gearConnects;
        }
      } else if mode == MODE_IDLE {
        boilerCamera.StopCapture();
      }
    }

    /** One turn of the main loop; the mode is read once. */
    method Iterate(e: Surroundings) returns (answer: Option<Message>)
      modifies `currentMode, `gearConnected, boilerCamera
      ensures Contents() == Applied(old(Contents()), e)
      ensures answer == Processed(Contents(), e)
    {
      var mode := linkMode;
      if mode != currentMode {
        SwitchMode(mode, e);
        currentMode := mode;
      }
      if mode == BOILER {
        var found := boilerCamera.ProcessFrame(e.frame, e.target);
        if found.Some? {
          return Some(Message(BOILER, found.value.0, found.value.1));
        }
        return Some(NOTHING);
      } else if mode == GEAR {
        if gearConnected && e.target.Some? {
          return Some(Message(GEAR, e.target.value.0, e.target.value.1));
        }
        return Some(NOTHING);
      }
      return None;
    }
  }
}
