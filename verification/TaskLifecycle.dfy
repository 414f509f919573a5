/** The state of a task as its processes see it, from its creation to the removal of its files. */
module TaskLifecycle {
  import opened Bytes
  import opened TaskRecord

  const MONITOR_START_TIMEOUT := 10
  const HARVEST_TIMEOUT := 30

  datatype State = Starting | Compiling | BeforeRunning | Running | Retrieve | Stopped

  function Rank(s: State): nat {
    match s
    case Starting => 1
    case Compiling => 2
    case BeforeRunning => 3
    case Running => 4
    case Retrieve => 5
    case Stopped => 6
  }

  /** What is left of the task in the file system and among the processes. */
  datatype Facts = Facts(
    config: Option<Record>, compilation: bool, execution: bool, program: bool, dead: set<Pid>, now: Time)

  /** The answer, and whether giving it cleans the task. */
  datatype Answer = Answer(state: State, cleans: bool)

  predicate Alive(f: Facts, pid: Pid) {
    pid !in f.dead
  }

  function GetState(f: Facts): Answer {
    if f.config.None? || f.config.value.cleaning then Answer(Stopped, false)
    else
      var r := f.config.value;
      var elapsed := f.now - r.startTime;
      if r.compilerPid == 0 then Answer(Starting, false)
      else if r.startTime > f.now || r.startTime == 0 then Answer(Starting, false)
      else if r.startTime + r.limits.maxtime + HARVEST_TIMEOUT < f.now then Answer(Stopped, true)
      else if Alive(f, r.compilerPid) && r.runnerPid == 0 then Answer(Compiling, false)
      else if r.monitorPid == 0 && r.monitor != NO_MONITOR && elapsed > MONITOR_START_TIMEOUT then Answer(Stopped, true)
      else if r.runnerPid == 0 then
        if r.monitorPid == 0 && r.monitor == NO_MONITOR && elapsed > MONITOR_START_TIMEOUT then Answer(Stopped, true)
        else if r.interactive then Answer(BeforeRunning, false)
        else if f.compilation then Answer(if f.program then Compiling else Retrieve, false)
        else Answer(Stopped, false)
      else if Alive(f, r.runnerPid) then Answer(Running, false)
      else if r.interactive then Answer(Stopped, false)
      else if f.execution then Answer(Retrieve, false)
      else Answer(Stopped, false)
  }

  /** How far the process that compiles has come, in the order of its calls. */
  datatype Stage = New | Described | Compiles | Saved | Limited | Runs | Finished

  /**
   * A task with the process that compiles it, whether it is interactive, and the process that executes it:
   * the one that presented the execution ticket, whether it saw that the program can be run, and whether it registered.
   */
  datatype Life = Life(
    facts: Facts, compiler: Pid, wanted: bool, stage: Stage, executor: Option<Pid>, ready: bool, registered: bool)

  datatype Event =
    | Describe(limits: Limits, lang: string)
    | Compile
    | Program(present: bool)
    | SaveCompilation
    | Limit(limits: Limits, lang: string)
    | RunBatch
    | SaveExecution
    | Present(p: Pid)
    | Poll
    | Register
    | Other(update: Update)
    | GetResult
    | Observe
    | Mark
    | Remove
    | Die(p: Pid)
    | Tick(seconds: nat)

  predicate IsOpen(l: Life) {
    l.facts.config.Some? && !l.facts.config.value.cleaning
  }

  predicate Acts(l: Life) {
    Alive(l.facts, l.compiler) && IsOpen(l)
  }

  /**
   * When the events can happen: the setters want an open task, and each process follows its own order. The program
   * file can appear and disappear at any time: the processes of the user and updates of the files change it.
   */
  predicate CanHappen(l: Life, e: Event) {
    match e
    case Describe(_, _) => Acts(l) && l.stage == New
    case Compile => Acts(l) && l.stage == Described
    case SaveCompilation => Acts(l) && l.stage == Compiles && !l.facts.compilation
    case Limit(_, _) => Acts(l) && l.stage == Saved
    case RunBatch => Acts(l) && l.stage == Limited && !l.wanted && l.facts.program
    case SaveExecution => Acts(l) && l.stage == Runs && l.facts.compilation && !l.facts.execution
    case Present(p) => IsOpen(l) && l.executor.None? && p != 0 && Alive(l.facts, p)
    case Poll => l.executor.Some? && Alive(l.facts, l.executor.value) && !l.registered
    case Register => IsOpen(l) && l.executor.Some? && Alive(l.facts, l.executor.value) && l.ready && !l.registered
    case Other(u) => IsOpen(l) && (u.Monitorize? || u.SetLocalWebServer?) && !Refused(l.facts.config.value, u)
    case _ => true
  }

  function Recorded(l: Life, u: Update): Life {
    if l.facts.config.Some? then l.(facts := l.facts.(config := Some(Updated(l.facts.config.value, u)))) else l
  }

  function Marked(l: Life): Life {
    if l.facts.config.Some? then l.(facts := l.facts.(config := Some(l.facts.config.value.(cleaning := true)))) else l
  }

  function Happened(l: Life, e: Event): Life {
    match e
    case Describe(limits, lang) => Recorded(l, SetExtraInfo(limits, l.wanted, lang)).(stage := Described)
    case Compile => Recorded(l, SetCompiler(l.compiler, l.facts.now)).(stage := Compiles)
    case Program(b) => l.(facts := l.facts.(program := b))
    case SaveCompilation => l.(facts := l.facts.(compilation := true), stage := Saved)
    case Limit(limits, lang) => Recorded(l, SetExtraInfo(limits, l.wanted, lang)).(stage := Limited)
    case RunBatch => Recorded(l, SetRunner(l.compiler, l.facts.now)).(stage := Runs)
    case SaveExecution => l.(facts := l.facts.(execution := true), stage := Finished)
    case Present(p) => l.(executor := Some(p))
    case Poll =>
      var a := GetState(l.facts);
      (if a.cleans then Marked(l) else l).(ready := l.ready || a.state == BeforeRunning)
    case Register =>
      if l.executor.Some? then Recorded(l, SetRunner(l.executor.value, l.facts.now)).(registered := true) else l
    case Other(u) => Recorded(l, u)
    case GetResult => l.(facts := l.facts.(compilation := false, execution := false))
    case Observe => if GetState(l.facts).cleans then Marked(l) else l
    case Mark => Marked(l)
    case Remove => l.(facts := l.facts.(config := None, compilation := false, execution := false))
    case Die(p) => l.(facts := l.facts.(dead := l.facts.dead + {p}))
    case Tick(d) => l.(facts := l.facts.(now := l.facts.now + d))
  }

  /** The states of a task apart from the timeouts. */
  function Untimed(f: Facts): State {
    if f.config.None? || f.config.value.cleaning then Stopped
    else
      var r := f.config.value;
      if r.compilerPid == 0 then Starting
      else if r.runnerPid == 0 then
        if Alive(f, r.compilerPid) then Compiling
        else if r.interactive then BeforeRunning
        else if !f.compilation then Stopped
        else if f.program then Compiling
        else Retrieve
      else if Alive(f, r.runnerPid) then Running
      else if !r.interactive && f.execution then Retrieve
      else Stopped
  }

  predicate Earlier(s: Stage, t: Stage) {
    StageRank(s) < StageRank(t)
  }

  function StageRank(s: Stage): nat {
    match s
    case New => 0
    case Described => 1
    case Compiles => 2
    case Saved => 3
    case Limited => 4
    case Runs => 5
    case Finished => 6
  }

  /** What holds of a task throughout its life. */
  predicate Valid(l: Life) {
    && l.compiler != 0 && (l.executor.Some? ==> l.executor.value != 0)
    && (l.registered ==> l.ready) && (l.ready ==> l.executor.Some?)
    && (l.ready ==> !Alive(l.facts, l.compiler) && l.wanted)
    && (Earlier(Limited, l.stage) ==> !l.wanted)
    && (l.facts.config.Some? ==> ValidRecord(l, l.facts.config.value))
  }

  predicate ValidRecord(l: Life, r: Record) {
    && 0 < r.startTime <= l.facts.now
    && (r.compilerPid == if Earlier(l.stage, Compiles) then 0 else l.compiler)
    && (!Earlier(l.stage, Described) ==> r.interactive == l.wanted)
    && (Earlier(l.stage, Compiles) ==> r.runnerPid == 0 && !l.ready)
    && (r.runnerPid == if l.registered && l.executor.Some? then l.executor.value
                       else if Earlier(Limited, l.stage) then l.compiler
                       else 0)
  }

  /** A task as it is created: with a monitor ticket, or for direct execution. */
  ghost predicate Newborn(l: Life) {
    && l.compiler != 0 && l.stage == New && l.executor.None? && !l.ready && !l.registered
    && l.facts.now > 0 && !l.facts.compilation && !l.facts.execution
    && exists admin, monitor, execution :: l.facts.config == Some(Created(admin, monitor, execution, l.facts.now))
  }

  lemma NewbornIsValid(l: Life)
    requires Newborn(l)
    ensures Valid(l)
  {
  }

  /**
   * The task has been compiled or was going to be, and it is past its last limit; or it is past its compilation,
   * nobody monitors it in time, and somebody should: it has a monitor ticket, or it was never run.
   */
  predicate TimedOut(f: Facts) {
    f.config.Some? &&
    var r := f.config.value;
    && !r.cleaning && r.compilerPid != 0
    && (|| f.now > r.startTime + r.limits.maxtime + HARVEST_TIMEOUT
        || (&& (r.runnerPid != 0 || !Alive(f, r.compilerPid))
            && r.monitorPid == 0 && f.now > r.startTime + MONITOR_START_TIMEOUT
            && (r.monitor != NO_MONITOR || r.runnerPid == 0)))
  }

  /** The answer is the state apart from timeouts, except for a task out of time: that is stopped and cleaned. */
  lemma AnswerMeans(l: Life)
    requires Valid(l)
    ensures GetState(l.facts) == if TimedOut(l.facts) then Answer(Stopped, true) else Answer(Untimed(l.facts), false)
  {
  }

  /** An answer is the state apart from timeouts, or it is Stopped and the task is cleaned. */
  lemma AnswerIsUntimed(l: Life)
    requires Valid(l)
    ensures var a := GetState(l.facts);
            if a.cleans then a.state == Stopped && Untimed(Marked(l).facts) == Stopped else a.state == Untimed(l.facts)
  {
  }

  lemma SetterKeepsValid(l: Life, e: Event)
    requires Valid(l) && CanHappen(l, e)
    requires e.Describe? || e.Compile? || e.Limit? || e.RunBatch? || e.Register? || e.Other?
    ensures Valid(Happened(l, e)) && Rank(Untimed(l.facts)) <= Rank(Untimed(Happened(l, e).facts))
  {
  }

  lemma ObservationKeepsValid(l: Life, e: Event)
    requires Valid(l) && CanHappen(l, e) && (e.Poll? || e.Observe? || e.Mark?)
    ensures Valid(Happened(l, e)) && Rank(Untimed(l.facts)) <= Rank(Untimed(Happened(l, e).facts))
  {
    AnswerIsUntimed(l);
    hide GetState;
  }

  lemma OtherKeepsValid(l: Life, e: Event)
    requires Valid(l) && CanHappen(l, e)
    requires e.SaveCompilation? || e.SaveExecution? || e.Present? || e.GetResult? || e.Remove? || e.Die? || e.Tick?
    ensures Valid(Happened(l, e)) && Rank(Untimed(l.facts)) <= Rank(Untimed(Happened(l, e).facts))
  {
    hide GetState;
  }

  /** The compiler process has ended and left its output, and nothing was run of a task that is not interactive. */
  predicate OnlyCompiled(f: Facts) {
    && f.config.Some? && !f.config.value.cleaning
    && f.config.value.compilerPid != 0 && !Alive(f, f.config.value.compilerPid)
    && f.config.value.runnerPid == 0 && !f.config.value.interactive && f.compilation
  }

  /** The program file appears after a compilation that made none. */
  predicate Late(l: Life, e: Event) {
    e == Program(true) && OnlyCompiled(l.facts) && !l.facts.program
  }

  lemma ProgramStep(l: Life, present: bool)
    requires Valid(l)
    ensures Valid(Happened(l, Program(present)))
    ensures Rank(Untimed(l.facts)) <= Rank(Untimed(Happened(l, Program(present)).facts)) <==> !Late(l, Program(present))
  {
    hide GetState;
  }

  /** An event takes a task back exactly when it is a late program. */
  lemma EventGoesForward(l: Life, e: Event)
    requires Valid(l) && CanHappen(l, e)
    ensures Valid(Happened(l, e))
    ensures Rank(Untimed(l.facts)) <= Rank(Untimed(Happened(l, e).facts)) <==> !Late(l, e)
  {
    hide Happened, Valid, Untimed, CanHappen;
    match e
    case Describe(_, _) => SetterKeepsValid(l, e);
    case Compile => SetterKeepsValid(l, e);
    case Limit(_, _) => SetterKeepsValid(l, e);
    case RunBatch => SetterKeepsValid(l, e);
    case Register => SetterKeepsValid(l, e);
    case Other(_) => SetterKeepsValid(l, e);
    case Poll => ObservationKeepsValid(l, e);
    case Observe => ObservationKeepsValid(l, e);
    case Mark => ObservationKeepsValid(l, e);
    case Program(present) => ProgramStep(l, present);
    case _ => OtherKeepsValid(l, e);
  }

  ghost predicate Tenancy(events: seq<Event>, lives: seq<Life>) {
    && |lives| == |events| + 1
    && Newborn(lives[0])
    && forall k :: 0 <= k < |events| ==> CanHappen(lives[k], events[k]) && lives[k + 1] == Happened(lives[k], events[k])
  }

  lemma {:induction false} TenancyIsValid(events: seq<Event>, lives: seq<Life>, k: nat)
    requires Tenancy(events, lives) && k < |lives|
    ensures Valid(lives[k])
  {
    hide Newborn, Valid, Happened, CanHappen;
    if k == 0 {
      NewbornIsValid(lives[0]);
    } else {
      TenancyIsValid(events, lives, k - 1);
      EventGoesForward(lives[k - 1], events[k - 1]);
    }
  }

  lemma {:induction false} GoesForward(events: seq<Event>, lives: seq<Life>, i: nat, j: nat)
    requires Tenancy(events, lives) && i <= j < |lives|
    requires forall k :: i <= k < j ==> !Late(lives[k], events[k])
    ensures Rank(Untimed(lives[i].facts)) <= Rank(Untimed(lives[j].facts))
  {
    hide Newborn, Valid, Happened, CanHappen, Untimed, Late;
    if i < j {
      GoesForward(events, lives, i, j - 1);
      TenancyIsValid(events, lives, j - 1);
      EventGoesForward(lives[j - 1], events[j - 1]);
    }
  }

  predicate Asks(e: Event) {
    e.Observe? || e.Poll?
  }

  /**
   * Within one tenancy of a UID, the answers of successive calls of getState never move backwards, unless in between
   * the program file appears after a compilation that made none.
   */
  lemma AnswersNeverGoBack(events: seq<Event>, lives: seq<Life>, i: nat, j: nat)
    requires Tenancy(events, lives) && i < j < |events| && Asks(events[i]) && Asks(events[j])
    requires forall k :: i < k < j ==> !Late(lives[k], events[k])
    ensures Rank(GetState(lives[i].facts).state) <= Rank(GetState(lives[j].facts).state)
  {
    hide Newborn, Valid, CanHappen, Untimed, GetState, OnlyCompiled;
    TenancyIsValid(events, lives, i);
    TenancyIsValid(events, lives, j);
    AnswerIsUntimed(lives[i]);
    AnswerIsUntimed(lives[j]);
    assert lives[i + 1] == Happened(lives[i], events[i]);
    assert Rank(GetState(lives[i].facts).state) <= Rank(Untimed(lives[i + 1].facts)) by {
      AnswerReached(lives[i], events[i]);
    }
    GoesForward(events, lives, i + 1, j);
  }

  lemma AnswerReached(l: Life, e: Event)
    requires Valid(l) && Asks(e)
    ensures Rank(GetState(l.facts).state) <= Rank(Untimed(Happened(l, e).facts))
  {
    AnswerIsUntimed(l);
    hide GetState;
  }

  /**
   * The answers before and after a change of the program file move back exactly when it appears after a compilation
   * that made none, and the task is not out of time.
   */
  lemma LateProgram(l: Life, present: bool)
    requires Valid(l)
    ensures Rank(GetState(l.facts).state) <= Rank(GetState(Happened(l, Program(present)).facts).state)
       <==> !(Late(l, Program(present)) && !TimedOut(l.facts))
  {
    ProgramStep(l, present);
    AnswerMeans(l);
    AnswerMeans(Happened(l, Program(present)));
    hide GetState, Valid;
  }

  function After(l: Life, events: seq<Event>): (lives: seq<Life>)
    ensures |lives| == |events| + 1 && lives[0] == l
    decreases |events|
  {
    if events == [] then [l] else [l] + After(Happened(l, events[0]), events[1..])
  }

  /** The events that can happen one after another from a newborn task make a tenancy. */
  predicate AllCanHappen(l: Life, events: seq<Event>)
    decreases |events|
  {
    events == [] || (CanHappen(l, events[0]) && AllCanHappen(Happened(l, events[0]), events[1..]))
  }

  lemma {:induction false} FromLife(l: Life, events: seq<Event>)
    requires AllCanHappen(l, events)
    ensures var lives := After(l, events);
            && |lives| == |events| + 1 && lives[0] == l
            && forall k :: 0 <= k < |events| ==>
                 CanHappen(lives[k], events[k]) && lives[k + 1] == Happened(lives[k], events[k])
    decreases |events|
  {
    hide CanHappen, Happened;
    if events != [] {
      FromLife(Happened(l, events[0]), events[1..]);
      var rest := After(Happened(l, events[0]), events[1..]);
      forall k | 0 <= k < |events|
        ensures CanHappen(After(l, events)[k], events[k])
        ensures After(l, events)[k + 1] == Happened(After(l, events)[k], events[k])
      {
        if k > 0 {
          assert CanHappen(rest[k - 1], events[1..][k - 1]);
        }
      }
    }
  }

  function FirstLife(): Life {
    var record := Created("1", Some("2"), "3", 1);
    Life(Facts(Some(record), false, false, false, {}, 1), 5, false, New, None, false, false)
  }

  lemma FirstIsNewborn()
    ensures Newborn(FirstLife())
  {
    assert FirstLife().facts.config == Some(Created("1", Some("2"), "3", FirstLife().facts.now));
  }

  /** The states after describing, compiling, saving the output, the monitor, and the death of the compiler process. */
  lemma LateStates(l1: Life, l2: Life, l3: Life, l4: Life, late: Life)
    requires l1 == Happened(FirstLife(), Describe(Limits(100, 0, 0, 0), "en"))
    requires l2 == Happened(l1, Compile) && l3 == Happened(l2, SaveCompilation)
    requires l4 == Happened(l3, Other(Monitorize(7))) && late == Happened(l4, Die(5))
    ensures CanHappen(FirstLife(), Describe(Limits(100, 0, 0, 0), "en")) && CanHappen(l1, Compile)
    ensures CanHappen(l2, SaveCompilation) && CanHappen(l3, Other(Monitorize(7)))
    ensures OnlyCompiled(late.facts) && !late.facts.program && !TimedOut(late.facts)
  {
    hide GetState;
  }

  /** A batch task that compiled without making a program, was monitored, and lost its compiler process. */
  lemma LateLife() returns (born: Life, events: seq<Event>, late: Life)
    ensures Newborn(born) && |events| == 5 && AllCanHappen(born, events)
    ensures late == After(born, events)[5] && OnlyCompiled(late.facts) && !late.facts.program && !TimedOut(late.facts)
  {
    born := FirstLife();
    FirstIsNewborn();
    var e0, e1, e2 := Describe(Limits(100, 0, 0, 0), "en"), Compile, SaveCompilation;
    var e3, e4 := Other(Monitorize(7)), Die(5);
    hide TimedOut, OnlyCompiled, Newborn, FirstLife, Happened;
    var l1 := Happened(born, e0);
    var l2 := Happened(l1, e1);
    var l3 := Happened(l2, e2);
    var l4 := Happened(l3, e3);
    late := Happened(l4, e4);
    LateStates(l1, l2, l3, l4, late);
    events := [e0] + [e1] + [e2] + [e3] + [e4];
    assert CanHappen(l4, e4);
    hide CanHappen;
    Longer(born, [], e0);
    assert [] + [e0] == [e0];
    Longer(born, [e0], e1);
    Longer(born, [e0] + [e1], e2);
    Longer(born, [e0] + [e1] + [e2], e3);
    Longer(born, [e0] + [e1] + [e2] + [e3], e4);
  }

  /** One event more. */
  lemma Longer(l: Life, events: seq<Event>, e: Event)
    requires AllCanHappen(l, events)
    ensures var end := After(l, events)[|events|];
            && (AllCanHappen(l, events + [e]) <==> CanHappen(end, e))
            && After(l, events + [e])[|events| + 1] == Happened(end, e)
    decreases |events|
  {
    hide CanHappen, Happened;
    if events == [] {
      assert events + [e] == [e] && [e][1..] == [];
    } else {
      Longer(Happened(l, events[0]), events[1..], e);
      assert (events + [e])[1..] == events[1..] + [e];
    }
  }

  /** A tenancy in which getState answers Retrieve and then Compiling. */
  lemma LateProgramGoesBack() returns (events: seq<Event>, lives: seq<Life>)
    ensures Tenancy(events, lives) && |events| == 8 && events[5] == Observe && events[7] == Observe
    ensures GetState(lives[5].facts).state == Retrieve && GetState(lives[7].facts).state == Compiling
  {
    var born, first, late := LateLife();
    var last := [Observe, Program(true), Observe];
    events := first + last;
    FreeEvents(late);
    Appended(born, first, last);
    FromLife(born, first);
    lives := After(born, events);
    FromLife(born, events);
    assert lives[5] == late;
    assert Tenancy(events, lives);
    TenancyIsValid(events, lives, 5);
    LateAnswers(late);
    assert events[6] == Program(true);
    assert lives[6] == Happened(lives[5], events[5]) && lives[7] == Happened(lives[6], events[6]);
  }

  lemma FreeEvents(l: Life)
    ensures AllCanHappen(l, [Observe, Program(true), Observe])
  {
    hide Happened;
    assert [Observe, Program(true), Observe][1..] == [Program(true), Observe];
    assert [Program(true), Observe][1..] == [Observe];
  }

  lemma LateAnswers(late: Life)
    requires Valid(late) && OnlyCompiled(late.facts) && !late.facts.program && !TimedOut(late.facts)
    ensures GetState(late.facts) == Answer(Retrieve, false) && Happened(late, Observe) == late
    ensures GetState(Happened(late, Program(true)).facts) == Answer(Compiling, false)
  {
    AnswerMeans(late);
    ProgramStep(late, true);
    AnswerMeans(Happened(late, Program(true)));
    hide GetState, Valid;
  }

  lemma {:induction false} Appended(l: Life, first: seq<Event>, last: seq<Event>)
    requires AllCanHappen(l, first)
    ensures After(l, first) != [] && |After(l, first)| == |first| + 1
    ensures var end := After(l, first)[|first|];
            && (AllCanHappen(end, last) ==> AllCanHappen(l, first + last))
            && |After(l, first + last)| == |first| + |last| + 1
            && After(l, first + last)[|first|] == end
    decreases |first|
  {
    hide CanHappen, Happened;
    if first == [] {
      assert first + last == last;
    } else {
      Appended(Happened(l, first[0]), first[1..], last);
      assert (first + last)[1..] == first[1..] + last;
    }
  }
}
