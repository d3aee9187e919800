/**
  Running a command under a supervisor. Three processes: the parent, a single-threaded supervisor it forks, and the
  command the supervisor forks. Data flows through FIFO pipes, the end of the command is announced by SIGCHLD, which the
  supervisor blocks before the fork and lets through only inside pselect. Every step of every process is an event here,
  so a run is any sequence of events; an event that is not possible in a state leaves it unchanged.
 */
module Subprocess {
  import opened Options
  import opened Strings

  type Byte = b: nat | b < 256
  type Bytes = seq<Byte>

  const SIZEOF_STATUS := 4
  const CHUNK := 1024

  /** The bytes of the int that waitpid reports. */
  type Status = s: Bytes | |s| == SIZEOF_STATUS witness [0, 0, 0, 0]

  /** A pipe towards the parent: all that was ever written, what is still in it, what the parent took out, and who can
      still write: the supervisor, or the command and whatever the command started. */
  datatype Pipe = Pipe(
    written: Bytes, buffer: Bytes, taken: Bytes, supervisorHolds: bool, commandHolds: bool, closed: bool)
  {
    predicate AtEnd() {
      buffer == [] && !supervisorHolds && !commandHolds
    }
  }

  datatype Which = Out | Err | Sta

  datatype Command = NotStarted | Running | Exited(status: Status)

  /** Where the supervisor is: its loop around pselect, asking waitpid, writing the status, or gone. */
  datatype Supervisor =
    | Starting
    | Blocking                                   // SIGCHLD is blocked, no child yet
    | Looping
    | Checking                                   // interrupted by a signal
    | Reporting(status: Status, rest: Bytes)     // the command is reaped
    | Gone(success: bool)

  /** The command's standard input: what the supervisor has still to send, what is in the pipe, what the command
      read. */
  datatype Input = Input(left: Bytes, buffer: Bytes, consumed: Bytes, open_: bool)

  /** Why cmd_run throws. */
  datatype Failure = SelectFailure | ChildFailure | RuntimeExpired | StatusReceivingFailure

  datatype Outcome = Pending | Returned(out: Bytes, err: Bytes, status: Bytes) | Threw(why: Failure)

  datatype State = State(
    command: Command, supervisor: Supervisor, outcome: Outcome,
    input: Input, out: Pipe, err: Pipe, sta: Pipe,
    signalBlocked: bool, signalPending: bool, timedOut: bool, reaped: Option<bool>)

  /** Whether the caller set a limit, and whether SIGCHLD is blocked before the fork, as it is in the code. */
  datatype Setup = Setup(hasTimeout: bool, blocks: bool)

  datatype Event =
    // the command and its descendants
    | CommandReads(count: nat)
    | CommandWrites(which: Which, data: Bytes)
    | CommandCloses(which: Which)
    | CommandExits(status: Status)
    // the supervisor
    | SupervisorBlocks
    | SupervisorForks
    | SupervisorWrites(count: nat)
    | SupervisorInterrupted(bySigchld: bool)
    | SupervisorChecks
    | SupervisorTimesOut(killed: Status)
    | SupervisorReports(count: nat)
    | SupervisorDone
    | SupervisorFails
    // the parent
    | ParentReads(which: Which, count: nat)
    | ParentSeesEnd(which: Which)
    | ParentInterrupted
    | ParentFails
    | ParentFinishes

  function FreshPipe(): Pipe {
    Pipe([], [], [], true, false, false)
  }

  function Initial(content: Bytes): State {
    State(NotStarted, Starting, Pending, Input(content, [], [], true), FreshPipe(), FreshPipe(), FreshPipe(),
          false, false, false, None)
  }

  function Get(s: State, which: Which): Pipe {
    match which
    case Out => s.out
    case Err => s.err
    case Sta => s.sta
  }

  function Put(s: State, which: Which, p: Pipe): State {
    match which
    case Out => s.(out := p)
    case Err => s.(err := p)
    case Sta => s.(sta := p)
  }

  /** The end of the command: SIGCHLD waits if it is blocked, and is gone if it is not. */
  function EndCommand(s: State, status: Status): State {
    s.(command := Exited(status), signalPending := s.signalPending || s.signalBlocked)
  }

  /** A process that ends closes its descriptors. */
  function EndSupervisor(s: State, success: bool): State {
    s.(supervisor := Gone(success), input := s.input.(open_ := false),
       out := s.out.(supervisorHolds := false), err := s.err.(supervisorHolds := false),
       sta := s.sta.(supervisorHolds := false))
  }

  function StepCommand(s: State, e: Event): State {
    match e
    case CommandReads(count) =>
      if s.command.NotStarted? || count > |s.input.buffer| then s
      else s.(input := s.input.(buffer := s.input.buffer[count..],
              consumed := s.input.consumed + s.input.buffer[..count]))
    case CommandWrites(which, data) =>
      // the command does not know the descriptor of the status pipe it inherited
      var p := Get(s, which);
      if which == Sta || !p.commandHolds then s
      else Put(s, which, p.(written := p.written + data, buffer := p.buffer + data))
    case CommandCloses(which) => Put(s, which, Get(s, which).(commandHolds := false))
    case CommandExits(status) => if s.command.Running? then EndCommand(s, status) else s
    case _ => s
  }

  function Forked(s: State): State {
    s.(command := Running, supervisor := Looping,
       out := s.out.(commandHolds := true), err := s.err.(commandHolds := true),
       sta := s.sta.(commandHolds := true), input := s.input.(open_ := s.input.left != []))
  }

  function SendInput(s: State, count: nat): State
    requires 0 < count <= |s.input.left|
  {
    var i := s.input;
    s.(input := Input(i.left[count..], i.buffer + i.left[..count], i.consumed, i.left[count..] != []))
  }

  function SendStatus(s: State, count: nat): State
    requires s.supervisor.Reporting? && count <= |s.supervisor.rest|
  {
    var rest := s.supervisor.rest;
    s.(supervisor := Reporting(s.supervisor.status, rest[count..]),
       sta := s.sta.(written := s.sta.written + rest[..count], buffer := s.sta.buffer + rest[..count]))
  }

  function StepSupervisor(s: State, e: Event, setup: Setup): State {
    match e
    case SupervisorBlocks =>
      if s.supervisor.Starting? then s.(supervisor := Blocking, signalBlocked := setup.blocks) else s
    case SupervisorForks => if s.supervisor.Blocking? then Forked(s) else s
    case SupervisorWrites(count) =>
      if s.supervisor.Looping? && s.input.open_ && 0 < count <= |s.input.left| then SendInput(s, count) else s
    case SupervisorInterrupted(bySigchld) =>
      if !s.supervisor.Looping? || (bySigchld && !s.signalPending) then s
      else s.(supervisor := Checking, signalPending := if bySigchld then false else s.signalPending)
    case SupervisorChecks =>
      if !s.supervisor.Checking? then s
      else if s.command.Exited? then s.(supervisor := Reporting(s.command.status, s.command.status))
      else s.(supervisor := Looping)
    case SupervisorTimesOut(killed) =>
      if !s.supervisor.Looping? || !setup.hasTimeout then s
      else
        var ended := if s.command.Running? then EndCommand(s, killed) else s;
        EndSupervisor(ended.(timedOut := true), true)
    case SupervisorReports(count) =>
      if s.supervisor.Reporting? && 0 < count <= |s.supervisor.rest| then SendStatus(s, count) else s
    case SupervisorDone =>
      if s.supervisor.Reporting? && s.supervisor.rest == [] then EndSupervisor(s, true) else s
    case SupervisorFails => if s.supervisor.Gone? then s else EndSupervisor(s, false)
    case _ => s
  }

  /** What the parent makes of three closed pipes and the supervisor's exit code. */
  function Finish(s: State, success: bool): State {
    if !success then s.(outcome := Threw(ChildFailure))
    else if s.sta.taken == [] then s.(outcome := Threw(RuntimeExpired))
    else if |s.sta.taken| != SIZEOF_STATUS then s.(outcome := Threw(StatusReceivingFailure))
    else s.(outcome := Returned(s.out.taken, s.err.taken, s.sta.taken))
  }

  function StepParent(s: State, e: Event): State {
    if !s.outcome.Pending? then s
    else
      match e
      case ParentReads(which, count) =>
        var p := Get(s, which);
        if p.closed || !(0 < count <= |p.buffer| && count <= CHUNK) then s
        else Put(s, which, p.(buffer := p.buffer[count..], taken := p.taken + p.buffer[..count]))
      case ParentSeesEnd(which) =>
        var p := Get(s, which);
        if p.closed || !p.AtEnd() then s else Put(s, which, p.(closed := true))
      case ParentInterrupted =>
        if s.supervisor.Gone? && s.reaped.None? then s.(reaped := Some(s.supervisor.success)) else s
      case ParentFails => s.(outcome := Threw(SelectFailure))
      case ParentFinishes =>
        if !(s.out.closed && s.err.closed && s.sta.closed) then s
        else if s.reaped.Some? then Finish(s, s.reaped.value)
        else if s.supervisor.Gone? then Finish(s.(reaped := Some(s.supervisor.success)), s.supervisor.success)
        else s
      case _ => s
  }

  function Step(s: State, e: Event, setup: Setup): State {
    StepParent(StepSupervisor(StepCommand(s, e), e, setup), e)
  }

  function Run(s: State, events: seq<Event>, setup: Setup): State
    decreases |events|
  {
    if events == [] then s else Run(Step(s, events[0], setup), events[1..], setup)
  }

  // ---- invariants ----

  /** Nothing is lost or reordered in a pipe, and the parent stops reading only at its end. */
  ghost predicate PipeGood(p: Pipe) {
    p.taken + p.buffer == p.written && (p.closed ==> p.AtEnd())
  }

  ghost predicate PipesGood(s: State) {
    && PipeGood(s.out) && PipeGood(s.err) && PipeGood(s.sta)
    && s.out.supervisorHolds == s.err.supervisorHolds == s.sta.supervisorHolds == !s.supervisor.Gone?
  }

  /** Bytes the command read, bytes in the pipe and bytes left to send are the content, in this order. */
  ghost predicate InputGood(s: State, content: Bytes) {
    s.input.consumed + s.input.buffer + s.input.left == content && (s.input.open_ <==> HasMoreInput(s))
  }

  /** Before the fork, or while there is something left to send. */
  predicate HasMoreInput(s: State) {
    !s.supervisor.Gone? && (s.supervisor.Starting? || s.supervisor.Blocking? || s.input.left != [])
  }

  /** The command runs from the supervisor's fork on. */
  ghost predicate StartGood(s: State) {
    && (s.supervisor.Starting? || s.supervisor.Blocking? ==> s.command.NotStarted?)
    && (s.supervisor.Looping? || s.supervisor.Checking? || s.supervisor.Reporting? ==> !s.command.NotStarted?)
  }

  /** With SIGCHLD blocked before the fork, the end of a command not yet noticed is still announced. */
  ghost predicate Announced(s: State) {
    && (!s.supervisor.Starting? && !s.supervisor.Gone? ==> s.signalBlocked)
    && (s.supervisor.Looping? && s.command.Exited? ==> s.signalPending)
  }

  /** The status pipe carries the status of the ended command and nothing else; a timed-out supervisor wrote none. */
  ghost predicate StatusGood(s: State) {
    match s.supervisor
    case Reporting(status, rest) =>
      s.command == Exited(status) && s.sta.written + rest == status && !s.timedOut
    case Gone(success) =>
      && (s.timedOut ==> success && s.sta.written == [] && s.command.Exited?)
      && (s.sta.written != [] ==> s.command.Exited? && s.sta.written <= s.command.status)
    case _ => s.sta.written == [] && !s.timedOut
  }

  /** A supervisor that ended well without timing out had reported the whole status. */
  ghost predicate SuccessGood(s: State) {
    && (s.supervisor == Gone(true) && !s.timedOut ==> s.command.Exited? && s.sta.written == s.command.status)
    && (s.reaped.Some? ==> s.supervisor == Gone(s.reaped.value))
  }

  /** Every way to end says what happened; the status is never received in part. */
  ghost predicate OutcomeGood(s: State) {
    match s.outcome
    case Pending => true
    case Returned(out, err, status) =>
      && s.out.closed && s.err.closed && s.sta.closed
      && s.reaped == Some(true) && |s.sta.taken| == SIZEOF_STATUS
      && out == s.out.taken && err == s.err.taken && status == s.sta.taken
    case Threw(why) =>
      && (why == ChildFailure ==> s.supervisor == Gone(false))
      && (why == RuntimeExpired ==> s.timedOut && s.supervisor == Gone(true))
      && why != StatusReceivingFailure
  }

  ghost predicate Inv(s: State, content: Bytes) {
    PipesGood(s) && InputGood(s, content) && StartGood(s) && StatusGood(s) && SuccessGood(s) && OutcomeGood(s)
  }

  // ---- every step keeps them ----

  lemma WritesKeepPipe(p: Pipe, data: Bytes)
    requires PipeGood(p) && p.commandHolds
    ensures PipeGood(p.(written := p.written + data, buffer := p.buffer + data))
  {
    Associative(p.taken, p.buffer, data);
  }

  lemma CommandReadsKeeps(s: State, count: nat, content: Bytes)
    requires Inv(s, content) && count <= |s.input.buffer|
    ensures Inv(StepCommand(s, CommandReads(count)), content)
  {
    var i := s.input;
    assert i.buffer == i.buffer[..count] + i.buffer[count..];
    Associative(i.consumed, i.buffer[..count], i.buffer[count..]);
  }

  lemma CommandWritesKeeps(s: State, which: Which, data: Bytes, content: Bytes)
    requires Inv(s, content) && Get(s, which).commandHolds
    ensures Inv(StepCommand(s, CommandWrites(which, data)), content)
  {
    WritesKeepPipe(Get(s, which), data);
  }

  lemma CommandKeeps(s: State, e: Event, content: Bytes)
    requires Inv(s, content)
    ensures Inv(StepCommand(s, e), content)
  {
    if e.CommandReads? && e.count <= |s.input.buffer| {
      CommandReadsKeeps(s, e.count, content);
    } else if e.CommandWrites? && Get(s, e.which).commandHolds {
      CommandWritesKeeps(s, e.which, e.data, content);
    }
  }

  lemma EndSupervisorKeeps(s: State, success: bool, content: Bytes)
    requires Inv(s, content) && !s.supervisor.Gone?
    requires success && !s.timedOut ==> s.supervisor.Reporting? && s.supervisor.rest == []
    ensures Inv(EndSupervisor(s, success), content)
  {
    if s.supervisor.Reporting? && s.supervisor.rest == [] {
      assert s.sta.written + [] == s.sta.written;
    }
  }

  lemma SendInputKeeps(s: State, count: nat, content: Bytes)
    requires Inv(s, content) && 0 < count <= |s.input.left| && s.supervisor.Looping?
    ensures Inv(SendInput(s, count), content)
  {
    var i := s.input;
    assert i.left == i.left[..count] + i.left[count..];
    Associative(i.consumed + i.buffer, i.left[..count], i.left[count..]);
    Associative(i.consumed, i.buffer, i.left[..count]);
  }

  lemma SendStatusKeeps(s: State, count: nat, content: Bytes)
    requires Inv(s, content) && s.supervisor.Reporting? && count <= |s.supervisor.rest|
    requires s.sta.supervisorHolds
    ensures Inv(SendStatus(s, count), content)
  {
    var rest := s.supervisor.rest;
    assert rest == rest[..count] + rest[count..];
    Associative(s.sta.written, rest[..count], rest[count..]);
    Associative(s.sta.taken, s.sta.buffer, rest[..count]);
  }

  lemma TimesOutKeeps(s: State, killed: Status, setup: Setup, content: Bytes)
    requires Inv(s, content) && setup.hasTimeout && s.supervisor.Looping?
    ensures Inv(StepSupervisor(s, SupervisorTimesOut(killed), setup), content)
  {
  }

  lemma SupervisorKeeps(s: State, e: Event, setup: Setup, content: Bytes)
    requires Inv(s, content)
    ensures Inv(StepSupervisor(s, e, setup), content)
  {
    match e {
      case SupervisorWrites(count) =>
        if s.supervisor.Looping? && s.input.open_ && 0 < count <= |s.input.left| {
          SendInputKeeps(s, count, content);
        }
      case SupervisorTimesOut(killed) =>
        if s.supervisor.Looping? && setup.hasTimeout {
          TimesOutKeeps(s, killed, setup, content);
        }
      case SupervisorReports(count) =>
        if s.supervisor.Reporting? && 0 < count <= |s.supervisor.rest| {
          SendStatusKeeps(s, count, content);
        }
      case SupervisorDone =>
        if s.supervisor.Reporting? && s.supervisor.rest == [] {
          EndSupervisorKeeps(s, true, content);
        }
      case SupervisorFails =>
        if !s.supervisor.Gone? {
          EndSupervisorKeeps(s, false, content);
        }
      case _ => SignalsKeep(s, e, setup, content);
    }
  }

  lemma SignalsKeep(s: State, e: Event, setup: Setup, content: Bytes)
    requires Inv(s, content)
    requires !e.SupervisorWrites? && !e.SupervisorTimesOut? && !e.SupervisorReports?
      && !e.SupervisorDone? && !e.SupervisorFails?
    ensures Inv(StepSupervisor(s, e, setup), content)
  {
    if e.SupervisorChecks? && s.supervisor.Checking? && s.command.Exited? {
      assert [] + s.command.status == s.command.status;
    }
  }

  lemma ParentReadsKeeps(s: State, which: Which, count: nat, content: Bytes)
    requires Inv(s, content) && s.outcome.Pending? && !Get(s, which).closed && count <= |Get(s, which).buffer|
    ensures Inv(StepParent(s, ParentReads(which, count)), content)
  {
    var p := Get(s, which);
    assert p.buffer == p.buffer[..count] + p.buffer[count..];
    Associative(p.taken, p.buffer[..count], p.buffer[count..]);
  }

  lemma ParentSeesEndKeeps(s: State, which: Which, content: Bytes)
    requires Inv(s, content) && s.outcome.Pending?
    ensures Inv(StepParent(s, ParentSeesEnd(which)), content)
  {
  }

  lemma ParentFinishesKeeps(s: State, content: Bytes)
    requires Inv(s, content) && s.outcome.Pending?
    ensures Inv(StepParent(s, ParentFinishes), content)
  {
  }

  lemma ParentKeeps(s: State, e: Event, content: Bytes)
    requires Inv(s, content)
    ensures Inv(StepParent(s, e), content)
  {
    if s.outcome.Pending? {
      if e.ParentReads? {
        if !Get(s, e.which).closed && e.count <= |Get(s, e.which).buffer| {
          ParentReadsKeeps(s, e.which, e.count, content);
        }
      } else if e.ParentSeesEnd? {
        ParentSeesEndKeeps(s, e.which, content);
      } else if e.ParentFinishes? {
        ParentFinishesKeeps(s, content);
      }
    }
  }

  lemma StepKeeps(s: State, e: Event, setup: Setup, content: Bytes)
    requires Inv(s, content)
    ensures Inv(Step(s, e, setup), content)
  {
    CommandKeeps(s, e, content);
    SupervisorKeeps(StepCommand(s, e), e, setup, content);
    ParentKeeps(StepSupervisor(StepCommand(s, e), e, setup), e, content);
  }

  lemma {:induction false} RunKeeps(s: State, events: seq<Event>, setup: Setup, content: Bytes)
    requires Inv(s, content)
    ensures Inv(Run(s, events, setup), content)
    decreases |events|
  {
    if events != [] {
      StepKeeps(s, events[0], setup, content);
      RunKeeps(Step(s, events[0], setup), events[1..], setup, content);
    }
  }

  lemma InitialIsGood(content: Bytes)
    ensures Inv(Initial(content), content)
  {
    assert [] + [] + content == content;
  }

  // ---- what cmd_run promises ----

  /** A normal return carries the status of the ended command and all that was ever written to its two outputs. */
  lemma ReturnsWhatHappened(content: Bytes, setup: Setup, events: seq<Event>)
    ensures var s := Run(Initial(content), events, setup);
      s.outcome.Returned? ==>
        && s.command.Exited? && s.command.status == s.outcome.status
        && s.outcome.out == s.out.written && s.outcome.err == s.err.written
        && !s.timedOut
  {
    InitialIsGood(content);
    RunKeeps(Initial(content), events, setup, content);
  }

  /** Once it has returned, nobody can write to the outputs any more. */
  lemma {:induction false} NothingIsWrittenAfterwards(content: Bytes, setup: Setup, events: seq<Event>,
      more: seq<Event>)
    ensures var s := Run(Initial(content), events, setup);
      var t := Run(s, more, setup);
      s.outcome.Returned? ==> t.outcome == s.outcome && t.out.written == s.out.written && t.err.written == s.err.written
  {
    var s := Run(Initial(content), events, setup);
    InitialIsGood(content);
    RunKeeps(Initial(content), events, setup, content);
    if s.outcome.Returned? {
      OutcomeStays(s, more, setup, content);
    }
  }

  lemma {:induction false} OutcomeStays(s: State, events: seq<Event>, setup: Setup, content: Bytes)
    requires Inv(s, content) && s.outcome.Returned?
    ensures var t := Run(s, events, setup);
      t.outcome == s.outcome && t.out.written == s.out.written && t.err.written == s.err.written
    decreases |events|
  {
    if events != [] {
      StepKeeps(s, events[0], setup, content);
      OutcomeStays(Step(s, events[0], setup), events[1..], setup, content);
    }
  }

  /** A run that timed out never returns normally, whatever happens later. */
  lemma TimedOutNeverReturns(content: Bytes, setup: Setup, events: seq<Event>, more: seq<Event>)
    ensures var s := Run(Initial(content), events, setup);
      s.timedOut ==> setup.hasTimeout && !Run(s, more, setup).outcome.Returned?
  {
    var s := Run(Initial(content), events, setup);
    InitialIsGood(content);
    RunKeeps(Initial(content), events, setup, content);
    TimeoutNeeded(Initial(content), events, setup);
    RunKeeps(s, more, setup, content);
    TimedOutStays(s, more, setup);
  }

  /** A command that is running when time is up ends by the kill; one that has ended keeps its own status. */
  lemma TimeoutKills(s: State, killed: Status, setup: Setup)
    requires setup.hasTimeout && s.supervisor.Looping? && !s.command.NotStarted?
    ensures var t := Step(s, SupervisorTimesOut(killed), setup);
      && t.timedOut && t.supervisor == Gone(true)
      && t.command == if s.command.Running? then Exited(killed) else s.command
  {
  }

  /** Over every run: where time was up the command has ended, and it stays ended as it is. */
  lemma TimedOutIsEnded(content: Bytes, setup: Setup, events: seq<Event>, more: seq<Event>)
    ensures var s := Run(Initial(content), events, setup);
      s.timedOut ==> s.command.Exited? && Run(s, more, setup).command == s.command
  {
    var s := Run(Initial(content), events, setup);
    InitialIsGood(content);
    RunKeeps(Initial(content), events, setup, content);
    if s.timedOut {
      EndedStays(s, more, setup);
    }
  }

  ghost predicate AfterTheEnd(s: State) {
    s.command.Exited? && !s.supervisor.Starting? && !s.supervisor.Blocking?
  }

  lemma EndedOneStep(s: State, e: Event, setup: Setup)
    requires AfterTheEnd(s)
    ensures AfterTheEnd(Step(s, e, setup)) && Step(s, e, setup).command == s.command
  {
    var t := StepSupervisor(StepCommand(s, e), e, setup);
    assert AfterTheEnd(t) && t.command == s.command;
    assert StepParent(t, e).supervisor == t.supervisor;
  }

  lemma {:induction false} EndedStays(s: State, events: seq<Event>, setup: Setup)
    requires AfterTheEnd(s)
    ensures Run(s, events, setup).command == s.command
    decreases |events|
  {
    if events != [] {
      EndedOneStep(s, events[0], setup);
      EndedStays(Step(s, events[0], setup), events[1..], setup);
    }
  }

  /** Over every run: the command outlives its supervisor only if that failed. */
  lemma OutlivesOnlyFailure(content: Bytes, setup: Setup, events: seq<Event>)
    ensures var s := Run(Initial(content), events, setup);
      s.command.Running? && s.supervisor.Gone? ==> s.supervisor == Gone(false)
  {
    InitialIsGood(content);
    RunKeeps(Initial(content), events, setup, content);
  }

  /**
    Over every run: of the failures, "command runtime expired" is reported exactly where time was up, unless the
    parent's own select fails, and "status receiving failure" never.
   */
  lemma ExpiredExactlyWhenTimedOut(content: Bytes, setup: Setup, events: seq<Event>)
    ensures var s := Run(Initial(content), events, setup);
      s.outcome.Threw? && s.outcome.why != SelectFailure ==>
        && (s.outcome.why == RuntimeExpired <==> s.timedOut)
        && (s.outcome.why == ChildFailure <==> s.supervisor == Gone(false))
        && s.outcome.why != StatusReceivingFailure
  {
    InitialIsGood(content);
    RunKeeps(Initial(content), events, setup, content);
  }

  /** Over every run: once started, the command finds its input open exactly as long as content is left to be sent by a
      living supervisor. */
  lemma InputEnds(content: Bytes, setup: Setup, events: seq<Event>)
    ensures var s := Run(Initial(content), events, setup);
      !s.command.NotStarted? ==> (s.input.open_ <==> s.input.left != [] && !s.supervisor.Gone?)
  {
    InitialIsGood(content);
    RunKeeps(Initial(content), events, setup, content);
  }

  lemma {:induction false} TimedOutStays(s: State, events: seq<Event>, setup: Setup)
    ensures s.timedOut ==> Run(s, events, setup).timedOut
    decreases |events|
  {
    if events != [] {
      TimedOutStays(Step(s, events[0], setup), events[1..], setup);
    }
  }

  lemma {:induction false} TimeoutNeeded(s: State, events: seq<Event>, setup: Setup)
    requires s.timedOut ==> setup.hasTimeout
    ensures Run(s, events, setup).timedOut ==> setup.hasTimeout
    decreases |events|
  {
    if events != [] {
      TimeoutNeeded(Step(s, events[0], setup), events[1..], setup);
    }
  }

  /** Bytes sent, in the order sent, and bytes left are always the content; what the command reads is a prefix of it. */
  lemma InputIsConserved(content: Bytes, setup: Setup, events: seq<Event>)
    ensures var i := Run(Initial(content), events, setup).input;
      (i.consumed + i.buffer) + i.left == content && i.consumed <= content
  {
    InitialIsGood(content);
    RunKeeps(Initial(content), events, setup, content);
    var i := Run(Initial(content), events, setup).input;
    Associative(i.consumed, i.buffer, i.left);
  }

  // ---- the end of the command is noticed ----

  lemma StepAnnounces(s: State, e: Event, setup: Setup)
    requires setup.blocks && StartGood(s) && Announced(s)
    ensures Announced(Step(s, e, setup))
  {
    assert Announced(StepCommand(s, e));
    assert Announced(StepSupervisor(StepCommand(s, e), e, setup));
  }

  lemma {:induction false} RunAnnounces(s: State, events: seq<Event>, setup: Setup, content: Bytes)
    requires setup.blocks && Inv(s, content) && Announced(s)
    ensures Announced(Run(s, events, setup))
    decreases |events|
  {
    if events != [] {
      StepKeeps(s, events[0], setup, content);
      StepAnnounces(s, events[0], setup);
      RunAnnounces(Step(s, events[0], setup), events[1..], setup, content);
    }
  }

  /** A supervisor in its loop whose command has ended can always be woken by the signal, and then reports the
      status. */
  lemma ExitIsNeverLost(content: Bytes, setup: Setup, events: seq<Event>)
    requires setup.blocks
    ensures var s := Run(Initial(content), events, setup);
      s.supervisor.Looping? && s.command.Exited? ==>
        var woken := Step(s, SupervisorInterrupted(true), setup);
        && woken.supervisor.Checking?
        && Step(woken, SupervisorChecks, setup).supervisor == Reporting(s.command.status, s.command.status)
  {
    InitialIsGood(content);
    RunKeeps(Initial(content), events, setup, content);
    RunAnnounces(Initial(content), events, setup, content);
  }

  /** The command ended unannounced, and no SIGCHLD will come any more. */
  ghost predicate Unannounced(s: State) {
    && s.command.Exited? && !s.supervisor.Starting? && !s.supervisor.Blocking?
    && !s.signalBlocked && !s.signalPending
  }

  /** Another signal, the time limit or a failed call. */
  predicate OtherwiseWoken(e: Event) {
    e == SupervisorInterrupted(false) || e.SupervisorTimesOut? || e.SupervisorFails?
  }

  ghost predicate Stuck(s: State) {
    && Unannounced(s) && s.supervisor.Looping? && !s.outcome.Returned?
    && s.out.supervisorHolds && !s.out.closed
  }

  lemma {:induction false} StaysUnannounced(s: State, events: seq<Event>, setup: Setup)
    requires !setup.blocks && Unannounced(s)
    ensures Unannounced(Run(s, events, setup))
    decreases |events|
  {
    if events != [] {
      assert Unannounced(StepCommand(s, events[0]));
      assert Unannounced(StepSupervisor(StepCommand(s, events[0]), events[0], setup));
      StaysUnannounced(Step(s, events[0], setup), events[1..], setup);
    }
  }

  lemma {:induction false} StaysStuck(s: State, events: seq<Event>, setup: Setup)
    requires !setup.blocks && Stuck(s)
    requires forall k :: 0 <= k < |events| ==> !OtherwiseWoken(events[k])
    ensures Stuck(Run(s, events, setup))
    decreases |events|
  {
    if events != [] {
      assert !OtherwiseWoken(events[0]);
      StuckOneStep(s, events[0], setup);
      StaysStuck(Step(s, events[0], setup), events[1..], setup);
    }
  }

  lemma StuckOneStep(s: State, e: Event, setup: Setup)
    requires !setup.blocks && Stuck(s) && !OtherwiseWoken(e)
    ensures Stuck(Step(s, e, setup))
  {
    assert Stuck(StepCommand(s, e));
    assert Stuck(StepSupervisor(StepCommand(s, e), e, setup));
  }

  /**
    Without the block it is lost in a run of three events: the supervisor forks and the command ends before pselect.
    Whatever follows, SIGCHLD never wakes the supervisor; if nothing else does, it loops for good and nothing is
    returned.
   */
  lemma LostWithoutTheBlock(content: Bytes, hasTimeout: bool, status: Status, more: seq<Event>)
    ensures var setup := Setup(hasTimeout, false);
      var s := Run(Initial(content), [SupervisorBlocks, SupervisorForks, CommandExits(status)], setup);
      var t := Run(s, more, setup);
      && s.supervisor.Looping? && s.command == Exited(status)
      && Step(t, SupervisorInterrupted(true), setup) == t
      && ((forall k :: 0 <= k < |more| ==> !OtherwiseWoken(more[k])) ==> t.supervisor.Looping? && !t.outcome.Returned?)
  {
    var setup := Setup(hasTimeout, false);
    var s := Run(Initial(content), [SupervisorBlocks, SupervisorForks, CommandExits(status)], setup);
    ThreeSteps(Initial(content), SupervisorBlocks, SupervisorForks, CommandExits(status), setup);
    ForkedWithoutTheBlock(content, setup, status);
    StaysUnannounced(s, more, setup);
    if forall k :: 0 <= k < |more| ==> !OtherwiseWoken(more[k]) {
      StaysStuck(s, more, setup);
    }
  }

  lemma ThreeSteps(s: State, a: Event, b: Event, c: Event, setup: Setup)
    ensures Run(s, [a, b, c], setup) == Step(Step(Step(s, a, setup), b, setup), c, setup)
  {
    assert [a, b, c][1..] == [b, c] && [b, c][1..] == [c] && [c][1..] == [];
    var t := Step(s, a, setup);
    assert Run(s, [a, b, c], setup) == Run(t, [b, c], setup);
    var u := Step(t, b, setup);
    assert Run(t, [b, c], setup) == Run(u, [c], setup);
    assert Run(Step(u, c, setup), [], setup) == Step(u, c, setup);
  }

  lemma ForkedWithoutTheBlock(content: Bytes, setup: Setup, status: Status)
    requires !setup.blocks
    ensures var forked := Step(Step(Initial(content), SupervisorBlocks, setup), SupervisorForks, setup);
      var s := Step(forked, CommandExits(status), setup);
      Stuck(s) && s.command == Exited(status)
  {
  }

  // ---- a normal return is always within reach ----

  ghost predicate Reaches(s: State, t: State, setup: Setup) {
    exists events :: Run(s, events, setup) == t
  }

  lemma {:induction false} RunThenStep(s: State, events: seq<Event>, e: Event, setup: Setup)
    ensures Run(s, events + [e], setup) == Step(Run(s, events, setup), e, setup)
    decreases |events|
  {
    if events == [] {
      assert Run(Step(s, e, setup), [], setup) == Step(s, e, setup);
      assert (events + [e])[1..] == [];
    } else {
      RunThenStep(Step(s, events[0], setup), events[1..], e, setup);
      assert (events + [e])[1..] == events[1..] + [e];
    }
  }

  lemma Stays(s: State, setup: Setup)
    ensures Reaches(s, s, setup)
  {
    assert Run(s, [], setup) == s;
  }

  lemma Next(s: State, t: State, e: Event, setup: Setup) returns (u: State)
    requires Reaches(s, t, setup)
    ensures u == Step(t, e, setup) && Reaches(s, u, setup)
  {
    u := Step(t, e, setup);
    var events :| Run(s, events, setup) == t;
    RunThenStep(s, events, e, setup);
    assert Run(s, events + [e], setup) == u;
  }

  /** On the way from one state to another: nothing returned or thrown yet, and nothing more was written. */
  ghost predicate Underway(s: State, t: State, setup: Setup) {
    && Reaches(s, t, setup)
    && t.outcome.Pending? && t.command == s.command && t.timedOut == s.timedOut
    && t.out.written == s.out.written && t.err.written == s.err.written && t.input.consumed == s.input.consumed
  }

  /** An ended command and a supervisor that neither failed nor ran into the limit. */
  ghost predicate Ended(s: State, content: Bytes) {
    && Inv(s, content) && Announced(s)
    && s.outcome.Pending? && s.command.Exited? && !s.timedOut && s.supervisor != Gone(false)
  }

  lemma StatusIsCollected(s: State, setup: Setup, content: Bytes) returns (t: State)
    requires Ended(s, content)
    ensures Underway(s, t, setup) && (t.supervisor.Reporting? || t.supervisor == Gone(true)) && Inv(t, content)
  {
    Stays(s, setup);
    t := s;
    if t.supervisor.Looping? {
      StepKeeps(t, SupervisorInterrupted(true), setup, content);
      t := Next(s, t, SupervisorInterrupted(true), setup);
    }
    if t.supervisor.Checking? {
      StepKeeps(t, SupervisorChecks, setup, content);
      t := Next(s, t, SupervisorChecks, setup);
    }
  }

  lemma StatusIsWritten(s: State, setup: Setup, content: Bytes) returns (t: State)
    requires Ended(s, content)
    ensures Underway(s, t, setup) && Inv(t, content)
    ensures (t.supervisor.Reporting? && t.supervisor.rest == []) || t.supervisor == Gone(true)
  {
    t := StatusIsCollected(s, setup, content);
    if t.supervisor.Reporting? && t.supervisor.rest != [] {
      var count := |t.supervisor.rest|;
      StepKeeps(t, SupervisorReports(count), setup, content);
      t := Next(s, t, SupervisorReports(count), setup);
    }
  }

  lemma SupervisorEnds(s: State, setup: Setup, content: Bytes) returns (t: State)
    requires Ended(s, content)
    ensures Underway(s, t, setup) && t.supervisor == Gone(true) && Inv(t, content)
  {
    t := StatusIsWritten(s, setup, content);
    if t.supervisor.Reporting? {
      StepKeeps(t, SupervisorDone, setup, content);
      t := Next(s, t, SupervisorDone, setup);
    }
  }

  /** On the way, with nobody left who could write. */
  ghost predicate Quiet(s: State, t: State, setup: Setup, content: Bytes) {
    && Underway(s, t, setup) && Inv(t, content) && t.supervisor == Gone(true)
    && !t.out.commandHolds && !t.err.commandHolds && !t.sta.commandHolds
  }

  lemma WriteEndsClose(s: State, t: State, setup: Setup, content: Bytes) returns (u: State)
    requires Underway(s, t, setup) && t.supervisor == Gone(true) && Inv(t, content)
    ensures Quiet(s, u, setup, content)
  {
    StepKeeps(t, CommandCloses(Out), setup, content);
    u := Next(s, t, CommandCloses(Out), setup);
    StepKeeps(u, CommandCloses(Err), setup, content);
    u := Next(s, u, CommandCloses(Err), setup);
    StepKeeps(u, CommandCloses(Sta), setup, content);
    u := Next(s, u, CommandCloses(Sta), setup);
  }

  /** The other two pipes are as they were. */
  ghost predicate OthersUntouched(t: State, u: State, which: Which) {
    forall other :: other != which ==> Get(u, other) == Get(t, other)
  }

  lemma {:induction false} PipeIsDrained(s: State, t: State, which: Which, setup: Setup, content: Bytes)
      returns (u: State)
    requires Quiet(s, t, setup, content)
    ensures Quiet(s, u, setup, content) && OthersUntouched(t, u, which) && Get(u, which).buffer == []
    decreases |Get(t, which).buffer|
  {
    if Get(t, which).buffer == [] {
      u := t;
    } else {
      u := ChunkIsRead(s, t, which, setup, content);
      u := PipeIsDrained(s, u, which, setup, content);
    }
  }

  lemma ChunkIsRead(s: State, t: State, which: Which, setup: Setup, content: Bytes) returns (u: State)
    requires Quiet(s, t, setup, content) && Get(t, which).buffer != []
    ensures Quiet(s, u, setup, content) && OthersUntouched(t, u, which)
    ensures |Get(u, which).buffer| < |Get(t, which).buffer|
  {
    var size := |Get(t, which).buffer|;
    var count := if size < CHUNK then size else CHUNK;
    StepKeeps(t, ParentReads(which, count), setup, content);
    u := Next(s, t, ParentReads(which, count), setup);
  }

  lemma PipeIsClosed(s: State, t: State, which: Which, setup: Setup, content: Bytes) returns (u: State)
    requires Quiet(s, t, setup, content)
    ensures Quiet(s, u, setup, content) && OthersUntouched(t, u, which) && Get(u, which).closed
  {
    u := PipeIsDrained(s, t, which, setup, content);
    StepKeeps(u, ParentSeesEnd(which), setup, content);
    u := Next(s, u, ParentSeesEnd(which), setup);
  }

  lemma AllAreClosed(s: State, setup: Setup, content: Bytes) returns (t: State)
    requires Ended(s, content)
    ensures Quiet(s, t, setup, content) && t.out.closed && t.err.closed && t.sta.closed
  {
    t := SupervisorEnds(s, setup, content);
    t := WriteEndsClose(s, t, setup, content);
    t := PipeIsClosed(s, t, Out, setup, content);
    assert Get(t, Out).closed;
    t := PipeIsClosed(s, t, Err, setup, content);
    assert Get(t, Out).closed && Get(t, Err).closed;
    t := PipeIsClosed(s, t, Sta, setup, content);
    assert Get(t, Out).closed && Get(t, Err).closed && Get(t, Sta).closed;
  }

  lemma ClosedPipesReturn(s: State, t: State, setup: Setup, content: Bytes)
    requires Quiet(s, t, setup, content) && t.out.closed && t.err.closed && t.sta.closed
    requires s.command.Exited? && !s.timedOut
    ensures var u := Step(t, ParentFinishes, setup);
      && u.outcome == Returned(s.out.written, s.err.written, s.command.status)
      && u.input.consumed == s.input.consumed
  {
    assert t.out.taken == t.out.written && t.err.taken == t.err.written && t.sta.taken == t.sta.written;
  }

  /**
    Progress: however far any run has come, once the command has ended and unless the supervisor failed or timed out,
    it can go on to a normal return, with the command's status and all that was written until then.
   */
  lemma EndedCommandCanReturn(content: Bytes, setup: Setup, events: seq<Event>) returns (more: seq<Event>)
    requires setup.blocks
    requires var s := Run(Initial(content), events, setup);
      s.outcome.Pending? && s.command.Exited? && !s.timedOut && s.supervisor != Gone(false)
    ensures var s := Run(Initial(content), events, setup);
      var t := Run(s, more, setup);
      t.outcome == Returned(s.out.written, s.err.written, s.command.status) && t.input.consumed == s.input.consumed
  {
    var s := Run(Initial(content), events, setup);
    InitialIsGood(content);
    RunKeeps(Initial(content), events, setup, content);
    RunAnnounces(Initial(content), events, setup, content);
    var t := AllAreClosed(s, setup, content);
    ClosedPipesReturn(s, t, setup, content);
    var u := Next(s, t, ParentFinishes, setup);
    more :| Run(s, more, setup) == u;
  }

  lemma RunUnfolds(s: State, e: Event, rest: seq<Event>, setup: Setup)
    ensures Run(s, [e] + rest, setup) == Run(Step(s, e, setup), rest, setup)
  {
    assert ([e] + rest)[1..] == rest;
  }

  lemma {:induction false} RunAppends(s: State, events: seq<Event>, more: seq<Event>, setup: Setup)
    ensures Run(s, events + more, setup) == Run(Run(s, events, setup), more, setup)
    decreases |events|
  {
    if events == [] {
      assert events + more == more;
    } else {
      var e, rest := events[0], events[1..];
      RunAppends(Step(s, e, setup), rest, more, setup);
      RunUnfolds(s, e, rest, setup);
      RunUnfolds(s, e, rest + more, setup);
      assert events == [e] + rest && events + more == [e] + (rest + more);
    }
  }

  /** Forked, with the whole input sent and read. */
  ghost predicate HasRead(s: State, content: Bytes) {
    && s.command.Running? && s.supervisor.Looping? && s.outcome.Pending? && !s.timedOut
    && s.input.consumed == content && s.out.written == [] == s.err.written
    && s.out.commandHolds && s.err.commandHolds
  }

  lemma InputIsRead(content: Bytes, setup: Setup) returns (s: State)
    ensures Reaches(Initial(content), s, setup) && HasRead(s, content)
  {
    Stays(Initial(content), setup);
    s := Next(Initial(content), Initial(content), SupervisorBlocks, setup);
    s := Next(Initial(content), s, SupervisorForks, setup);
    if content != [] {
      s := Next(Initial(content), s, SupervisorWrites(|content|), setup);
      assert content[..|content|] == content && [] + content == content;
      s := Next(Initial(content), s, CommandReads(|content|), setup);
    }
  }

  lemma OutputIsWritten(content: Bytes, out: Bytes, err: Bytes, status: Status, setup: Setup) returns (s: State)
    ensures Reaches(Initial(content), s, setup)
    ensures s.supervisor.Looping? && s.outcome.Pending? && !s.timedOut && s.command == Exited(status)
    ensures s.input.consumed == content && s.out.written == out && s.err.written == err
  {
    s := InputIsRead(content, setup);
    assert [] + out == out && [] + err == err;
    s := Next(Initial(content), s, CommandWrites(Out, out), setup);
    s := Next(Initial(content), s, CommandWrites(Err, err), setup);
    s := Next(Initial(content), s, CommandExits(status), setup);
  }

  /** Every input can be read in full and every pair of outputs and every status returned, with or without a limit. */
  lemma NormalReturnIsPossible(content: Bytes, out: Bytes, err: Bytes, status: Status, setup: Setup)
      returns (events: seq<Event>)
    requires setup.blocks
    ensures var t := Run(Initial(content), events, setup);
      t.outcome == Returned(out, err, status) && t.input.consumed == content
  {
    var s := OutputIsWritten(content, out, err, status, setup);
    var before :| Run(Initial(content), before, setup) == s;
    var more := EndedCommandCanReturn(content, setup, before);
    RunAppends(Initial(content), before, more, setup);
    events := before + more;
  }
}
