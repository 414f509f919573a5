/** The time a task gets: counted from the registration of the process that compiles or runs it. */
module TaskTimes {
  import opened Bytes
  import opened TaskRecord
  import opened TaskLifecycle

  /** The limits described last. */
  function LimitsOf(events: seq<Event>): Limits {
    if events == [] then NO_LIMITS
    else
      match events[|events| - 1]
      case Describe(limits, _) => limits
      case Limit(limits, _) => limits
      case _ => LimitsOf(events[..|events| - 1])
  }

  lemma {:induction false} LimitsOnRecord(events: seq<Event>, lives: seq<Life>, k: nat)
    requires Tenancy(events, lives) && k < |lives| && lives[k].facts.config.Some?
    ensures lives[k].facts.config.value.limits == LimitsOf(events[..k])
  {
    hide CanHappen, Happened;
    if k == 0 {
      assert events[..0] == [];
    } else {
      assert events[..k][..k - 1] == events[..k - 1] && events[..k][k - 1] == events[k - 1];
      assert lives[k] == Happened(lives[k - 1], events[k - 1]);
      LimitsStep(lives[k - 1], events[k - 1]);
      if lives[k - 1].facts.config.Some? {
        LimitsOnRecord(events, lives, k - 1);
      }
    }
  }

  lemma LimitsStep(l: Life, e: Event)
    requires CanHappen(l, e) && Happened(l, e).facts.config.Some?
    ensures l.facts.config.Some?
    ensures Happened(l, e).facts.config.value.limits
         == if e.Describe? || e.Limit? then e.limits else l.facts.config.value.limits
  {
    hide Happened, CanHappen;
    NoneStays(l, e);
    RecordStep(l, e, l.facts.config.value);
  }

  lemma NoneStays(l: Life, e: Event)
    ensures l.facts.config.None? ==> Happened(l, e).facts.config.None?
  {
    hide GetState;
  }

  lemma RecordStep(l: Life, e: Event, r: Record)
    requires CanHappen(l, e) && l.facts.config == Some(r) && Happened(l, e).facts.config.Some?
    ensures Happened(l, e).facts.config.value.limits == if e.Describe? || e.Limit? then e.limits else r.limits
  {
    hide GetState;
    match e
    case Poll =>
    case Observe =>
    case Other(_) =>
    case _ =>
  }

  /** The process that registers as the runner at this event. */
  function Runner(l: Life, e: Event): Pid {
    if e.RunBatch? || l.executor.None? then l.compiler else l.executor.value
  }

  predicate Runs(e: Event) {
    e.RunBatch? || e.Register?
  }

  /** The program was registered at a time, and nothing else will be. */
  predicate Started(l: Life, time: Time, pid: Pid, limits: Limits) {
    && Valid(l) && (l.registered || Earlier(Limited, l.stage))
    && (l.facts.config.Some? ==>
          var r := l.facts.config.value;
          r.startTime == time && r.runnerPid == pid && pid != 0 && r.compilerPid != 0 && r.limits == limits)
  }

  lemma RunStarts(l: Life, e: Event)
    requires Valid(l) && CanHappen(l, e) && Runs(e) && IsOpen(l)
    ensures Started(Happened(l, e), l.facts.now, Runner(l, e), l.facts.config.value.limits)
  {
    EventGoesForward(l, e);
  }

  lemma StaysStarted(l: Life, e: Event, time: Time, pid: Pid, limits: Limits)
    requires Started(l, time, pid, limits) && CanHappen(l, e)
    ensures Started(Happened(l, e), time, pid, limits)
  {
    EventGoesForward(l, e);
    hide GetState;
  }

  lemma {:induction false} StartedSince(events: seq<Event>, lives: seq<Life>, i: nat, j: nat)
    requires Tenancy(events, lives) && i < j < |lives| && Runs(events[i])
    ensures IsOpen(lives[i])
    ensures Started(lives[j], lives[i].facts.now, Runner(lives[i], events[i]), lives[i].facts.config.value.limits)
    decreases j
  {
    hide Happened, Started, Newborn, Valid, Runner;
    TenancyIsValid(events, lives, i);
    assert CanHappen(lives[i], events[i]);
    if j == i + 1 {
      RunStarts(lives[i], events[i]);
    } else {
      StartedSince(events, lives, i, j - 1);
      StaysStarted(lives[j - 1], events[j - 1], lives[i].facts.now, Runner(lives[i], events[i]),
                   lives[i].facts.config.value.limits);
    }
  }

  /** A task with a monitor ticket that nobody monitors in time. */
  predicate Unmonitored(f: Facts, since: Time) {
    && f.config.Some? && f.config.value.monitor != NO_MONITOR && f.config.value.monitorPid == 0
    && f.now > since + 10
  }

  /**
   * From the moment a program is registered as running, an open task is answered to be running exactly as long as its
   * process lives, its time limit and 30 seconds have not passed since then, and a monitor it should have comes within
   * 10 seconds.
   */
  lemma ProgramGetsItsTime(events: seq<Event>, lives: seq<Life>, i: nat, j: nat)
    requires Tenancy(events, lives) && i < j < |lives| && Runs(events[i]) && IsOpen(lives[j])
    ensures
      var since, now := lives[i].facts.now, lives[j].facts.now;
      GetState(lives[j].facts).state == Running <==>
        && Alive(lives[j].facts, Runner(lives[i], events[i]))
        && now <= since + LimitsOf(events[..i]).maxtime + 30
        && !Unmonitored(lives[j].facts, since)
  {
    StartedSince(events, lives, i, j);
    LimitsOnRecord(events, lives, i);
    hide Tenancy, Newborn, LimitsOf, Runner;
  }

  /** The compilation was registered at a time, and no program yet. */
  predicate Compiled(l: Life, time: Time) {
    && Valid(l) && !Earlier(l.stage, Compiles)
    && (l.facts.config.Some? && l.facts.config.value.runnerPid == 0 ==>
          l.facts.config.value.startTime == time && l.facts.config.value.compilerPid == l.compiler)
  }

  lemma StaysCompiled(l: Life, e: Event, time: Time)
    requires Compiled(l, time) && CanHappen(l, e)
    ensures Compiled(Happened(l, e), time) && Happened(l, e).compiler == l.compiler
  {
    EventGoesForward(l, e);
    hide GetState;
  }

  lemma {:induction false} CompiledSince(events: seq<Event>, lives: seq<Life>, i: nat, j: nat)
    requires Tenancy(events, lives) && i < j < |lives| && events[i].Compile?
    ensures Compiled(lives[j], lives[i].facts.now) && lives[j].compiler == lives[i].compiler
    decreases j
  {
    hide Happened, Compiled, Newborn, Valid;
    TenancyIsValid(events, lives, i);
    assert CanHappen(lives[i], events[i]);
    if j == i + 1 {
      assert Compiled(Happened(lives[i], events[i]), lives[i].facts.now) by { CompileStarts(lives[i]); }
      assert Happened(lives[i], events[i]).compiler == lives[i].compiler by { CompileStarts(lives[i]); }
    } else {
      CompiledSince(events, lives, i, j - 1);
      StaysCompiled(lives[j - 1], events[j - 1], lives[i].facts.now);
    }
  }

  lemma CompileStarts(l: Life)
    requires Valid(l) && CanHappen(l, Compile)
    ensures Compiled(Happened(l, Compile), l.facts.now) && Happened(l, Compile).compiler == l.compiler
  {
    EventGoesForward(l, Compile);
  }

  /**
   * From the moment the compilation is registered until a program is, an open task is answered to be compiling as long
   * as the compiling process lives and the time limit and 30 seconds have not passed since then; once they have, it is
   * stopped.
   */
  lemma CompilationGetsItsTime(events: seq<Event>, lives: seq<Life>, i: nat, j: nat)
    requires Tenancy(events, lives) && i < j < |lives| && events[i].Compile? && IsOpen(lives[j])
    requires lives[j].facts.config.value.runnerPid == 0 && Alive(lives[j].facts, lives[j].compiler)
    ensures
      GetState(lives[j].facts)
      == if lives[j].facts.now <= lives[i].facts.now + LimitsOf(events[..j]).maxtime + 30 then Answer(Compiling, false)
         else Answer(Stopped, true)
  {
    CompiledSince(events, lives, i, j);
    LimitsOnRecord(events, lives, j);
    hide Tenancy, Newborn, LimitsOf;
  }
}
