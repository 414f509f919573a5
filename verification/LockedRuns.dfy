/** Runs that do happen: a process that is not interrupted finishes its critical sections. */
module LockedRuns {
  import opened Bytes
  import opened TaskRecord
  import opened TicketProtocol
  import opened LockedProtocol
  import opened LockedBlocks
  import opened LockedRefinement
  import opened LockedSafety

  /** Some moves lead from one state to the other. */
  ghost predicate Leads(s: System, s': System) {
    exists moves, states :: Path(s, moves, states) && states[|moves|] == s'
  }

  lemma LeadsByMove(s: System, m: Move)
    requires Possible(s, m)
    ensures Leads(s, Moved(s, m))
  {
    hide Moved, Possible;
    assert Path(s, [m], [s, Moved(s, m)]) && [s, Moved(s, m)][|[m]|] == Moved(s, m);
  }

  lemma LeadsOn(s: System, t: System, u: System)
    ensures Leads(s, t) && Leads(t, u) ==> Leads(s, u)
  {
    hide Moved, Possible;
    if Leads(s, t) && Leads(t, u) {
      var first, before :| Path(s, first, before) && before[|first|] == t;
      var second, behind :| Path(t, second, behind) && behind[|second|] == u;
      var moves, states := first + second, before + behind[1..];
      forall k | 0 <= k < |moves|
        ensures Possible(states[k], moves[k]) && states[k + 1] == Moved(states[k], moves[k])
      {
        if k < |first| {
          assert states[k] == before[k] && states[k + 1] == before[k + 1];
        } else {
          assert states[k] == behind[k - |first|] && states[k + 1] == behind[k + 1 - |first|];
        }
      }
      assert Path(s, moves, states) && states[|moves|] == u;
    }
  }

  /** At this step the operation of the process fails: a file is not as it should be, or a block is not possible. */
  predicate Fails(s: System, p: Pid) {
    ProcessOf(s, p).code != [] &&
    match ProcessOf(s, p).code[0]
    case Check(uid) => !Open(s.shared, uid)
    case Find(t, file) => !(t in s.shared.tickets && s.shared.tickets[t] == file)
    case Block(a) => ProcessOf(s, p).todo == [] && !Enabled(s.shared, a)
    case _ => false
  }

  /** Steps of one process, one after another. */
  predicate Steps(states: seq<System>, p: Pid) {
    forall k :: 0 <= k < |states| - 1 ==> CanStep(states[k], p) && states[k + 1] == Step(states[k], p)
  }

  /** Steps of one process alone, and whether none of them fails. */
  ghost predicate Alone(s: System, p: Pid, states: seq<System>, ok: bool) {
    && states != [] && states[0] == s
    && Steps(states, p)
    && (ok <==> forall k :: 0 <= k < |states| - 1 ==> !Fails(states[k], p))
  }

  /** The process, running alone, gets from one state to the other, with or without failing. */
  ghost predicate Goes(s: System, p: Pid, ok: bool, s': System) {
    exists states :: Alone(s, p, states, ok) && states[|states| - 1] == s'
  }

  lemma GoesByStep(s: System, p: Pid)
    requires CanStep(s, p)
    ensures Goes(s, p, !Fails(s, p), Step(s, p))
  {
    hide CanStep, Step, Fails;
    var states := [s, Step(s, p)];
    assert Alone(s, p, states, !Fails(s, p)) by {
      assert states[0] == s;
    }
    assert states[|states| - 1] == Step(s, p);
  }

  lemma SomeFails(first: seq<System>, second: seq<System>, states: seq<System>, p: Pid)
    requires first != [] && second != [] && first[|first| - 1] == second[0] && states == first + second[1..]
    ensures (forall k :: 0 <= k < |states| - 1 ==> !Fails(states[k], p))
       <==> && (forall k :: 0 <= k < |first| - 1 ==> !Fails(first[k], p))
            && (forall k :: 0 <= k < |second| - 1 ==> !Fails(second[k], p))
  {
    hide Fails;
    var n := |first| - 1;
    assert forall k :: 0 <= k <= n ==> states[k] == first[k];
    assert forall k :: 0 <= k < |second| ==> states[n + k] == second[k];
    if forall k :: 0 <= k < |states| - 1 ==> !Fails(states[k], p) {
      forall k | 0 <= k < |first| - 1 ensures !Fails(first[k], p) { assert states[k] == first[k]; }
      forall k | 0 <= k < |second| - 1 ensures !Fails(second[k], p) { assert states[n + k] == second[k]; }
    }
    if (forall k :: 0 <= k < |first| - 1 ==> !Fails(first[k], p))
       && (forall k :: 0 <= k < |second| - 1 ==> !Fails(second[k], p)) {
      forall k | 0 <= k < |states| - 1
        ensures !Fails(states[k], p)
      {
        if k < n {
          assert states[k] == first[k];
        } else {
          assert states[k] == second[k - n];
        }
      }
    }
  }

  lemma StepsOn(first: seq<System>, second: seq<System>, states: seq<System>, p: Pid)
    requires first != [] && second != [] && first[|first| - 1] == second[0] && states == first + second[1..]
    requires Steps(first, p) && Steps(second, p)
    ensures Steps(states, p)
  {
    hide CanStep, Step;
    var n := |first| - 1;
    assert forall k :: 0 <= k <= n ==> states[k] == first[k];
    assert forall k :: n <= k < |states| ==> states[k] == second[k - n];
    forall k | 0 <= k < |states| - 1
      ensures CanStep(states[k], p) && states[k + 1] == Step(states[k], p)
    {
      if k < n {
        assert CanStep(first[k], p);
      } else {
        assert CanStep(second[k - n], p);
      }
    }
  }

  lemma GoesOn(s: System, p: Pid, t: System, u: System, ok: bool, on: bool)
    requires Goes(s, p, ok, t) && Goes(t, p, on, u)
    ensures Goes(s, p, ok && on, u)
  {
    hide Steps, Fails;
    var first :| Alone(s, p, first, ok) && first[|first| - 1] == t;
    var second :| Alone(t, p, second, on) && second[|second| - 1] == u;
    var states := first + second[1..];
    StepsOn(first, second, states, p);
    assert ok && on <==> forall k :: 0 <= k < |states| - 1 ==> !Fails(states[k], p) by {
      SomeFails(first, second, states, p);
    }
    assert Alone(s, p, states, ok && on);
    assert states[|states| - 1] == u;
  }

  lemma GoesLeads(s: System, p: Pid, ok: bool, s': System)
    requires Goes(s, p, ok, s')
    ensures Leads(s, s')
  {
    hide CanStep, Step, Fails;
    var states :| Alone(s, p, states, ok) && states[|states| - 1] == s';
    var moves := seq(|states| - 1, k => Go(p));
    assert Path(s, moves, states);
  }

  /** The state with process `p` outside any block, at some code and with or without a task lock. */
  function Placed(s: System, p: Pid, code: seq<Instr>, task: Option<Uid>): System {
    WithProcess(s, p, Process(code, task, [], []))
  }

  lemma StepLock(s: System, p: Pid, i: Instr, rest: seq<Instr>, task: Option<Uid>)
    requires ProcessOf(s, p) == Process([i] + rest, task, [], [])
    requires (i == LockGlobal && s.global.None?) || i == UnlockGlobal
    ensures Goes(s, p, true, Placed(s, p, rest, task).(global := if i == LockGlobal then Some(p) else None))
  {
    hide Goes;
    assert ([i] + rest)[1..] == rest;
    GoesByStep(s, p);
  }

  lemma StepTask(s: System, p: Pid, i: Instr, rest: seq<Instr>, task: Option<Uid>)
    requires ProcessOf(s, p) == Process([i] + rest, task, [], [])
    requires (i.LockTask? && task.None? && i.uid !in s.tasks) || (i == UnlockTask && task.Some?)
    ensures i.LockTask? ==> Goes(s, p, true, Placed(s, p, rest, Some(i.uid)).(tasks := s.tasks[i.uid := p]))
    ensures i == UnlockTask ==> Goes(s, p, true, Placed(s, p, rest, None).(tasks := s.tasks - {task.value}))
  {
    hide Goes;
    assert ([i] + rest)[1..] == rest;
    GoesByStep(s, p);
  }

  /** The remaining file operations of a block. */
  lemma {:induction false} StepEffects(s: System, p: Pid, a: Action, rest: seq<Instr>, task: Option<Uid>,
                                       done: seq<Effect>, todo: seq<Effect>)
    requires ProcessOf(s, p) == Process([Block(a)] + rest, task, done, todo) && todo != []
    ensures Goes(s, p, true, Placed(s, p, rest, task).(shared := Fold(s.shared, todo), log := s.log + [a]))
    decreases |todo|
  {
    hide Goes, Apply;
    assert ([Block(a)] + rest)[1..] == rest;
    GoesByStep(s, p);
    var s1 := Step(s, p);
    FoldOne(s.shared, todo[0]);
    if |todo| == 1 {
      assert todo == [todo[0]];
    } else {
      FoldConcat(s.shared, [todo[0]], todo[1..]);
      assert [todo[0]] + todo[1..] == todo;
      StepEffects(s1, p, a, rest, task, done + [todo[0]], todo[1..]);
      var last := Placed(s1, p, rest, task).(shared := Fold(s.shared, todo), log := s.log + [a]);
      assert last == Placed(s, p, rest, task).(shared := Fold(s.shared, todo), log := s.log + [a]);
      GoesOn(s, p, s1, last, true, true);
    }
  }

  /** A block that is possible can be run to its end without interruption. */
  lemma StepBlock(s: System, p: Pid, a: Action, rest: seq<Instr>, task: Option<Uid>)
    requires ProcessOf(s, p) == Process([Block(a)] + rest, task, [], []) && Enabled(s.shared, a)
    ensures Goes(s, p, true, Placed(s, p, rest, task).(shared := Next(s.shared, a), log := s.log + [a]))
  {
    EffectsMakeTheBlock(s.shared, a);
    hide Goes, Effects, Enabled, Next, Fold, Apply;
    GoesByStep(s, p);
    var s1 := WithProcess(s, p, Process([Block(a)] + rest, task, [], Effects(s.shared, a)));
    assert Step(s, p) == s1;
    hide Step;
    StepEffects(s1, p, a, rest, task, [], Effects(s.shared, a));
    var last := Placed(s1, p, rest, task).(shared := Next(s.shared, a), log := s.log + [a]);
    assert last == Placed(s, p, rest, task).(shared := Next(s.shared, a), log := s.log + [a]);
    GoesOn(s, p, s1, last, true, true);
  }

  /** A whole critical section: the locks, the block, the releases. */
  function Section(a: Action, rest: seq<Instr>): seq<Instr> {
    var uid := NeedsTask(a);
    if uid.None? then [LockGlobal] + ([Block(a)] + ([UnlockGlobal] + rest))
    else [LockGlobal] + ([LockTask(uid.value)] + ([Block(a)] + ([UnlockTask] + ([UnlockGlobal] + rest))))
  }

  lemma GlobalSectionRuns(s: System, p: Pid, a: Action, rest: seq<Instr>)
    requires ProcessOf(s, p) == Process(Section(a, rest), None, [], []) && NeedsTask(a).None?
    requires s.global.None? && Enabled(s.shared, a)
    ensures Goes(s, p, true, Placed(s, p, rest, None).(shared := Next(s.shared, a), log := s.log + [a]))
  {
    hide Goes, Enabled, Next;
    var unlock := [UnlockGlobal] + rest;
    var s1 := Placed(s, p, [Block(a)] + unlock, None).(global := Some(p));
    var s2 := Placed(s1, p, unlock, None).(shared := Next(s.shared, a), log := s.log + [a]);
    var s3 := Placed(s2, p, rest, None).(global := None);
    StepLock(s, p, LockGlobal, [Block(a)] + unlock, None);
    StepBlock(s1, p, a, unlock, None);
    StepLock(s2, p, UnlockGlobal, rest, None);
    GoesOn(s, p, s1, s2, true, true);
    GoesOn(s, p, s2, s3, true, true);
    assert s3 == Placed(s, p, rest, None).(shared := Next(s.shared, a), log := s.log + [a]);
  }

  lemma TaskSectionRuns(s: System, p: Pid, a: Action, rest: seq<Instr>, u: Uid)
    requires ProcessOf(s, p) == Process(Section(a, rest), None, [], []) && NeedsTask(a) == Some(u)
    requires s.global.None? && u !in s.tasks && Enabled(s.shared, a)
    ensures Goes(s, p, true, Placed(s, p, rest, None).(shared := Next(s.shared, a), log := s.log + [a]))
  {
    hide Goes, Enabled, Next;
    var unlock := [UnlockTask] + ([UnlockGlobal] + rest);
    var s1 := Placed(s, p, [LockTask(u)] + ([Block(a)] + unlock), None).(global := Some(p));
    var s2 := Placed(s1, p, [Block(a)] + unlock, Some(u)).(tasks := s.tasks[u := p]);
    var s3 := Placed(s2, p, unlock, Some(u)).(shared := Next(s.shared, a), log := s.log + [a]);
    var s4 := Placed(s3, p, [UnlockGlobal] + rest, None).(tasks := s3.tasks - {u});
    var s5 := Placed(s4, p, rest, None).(global := None);
    StepLock(s, p, LockGlobal, [LockTask(u)] + ([Block(a)] + unlock), None);
    StepTask(s1, p, LockTask(u), [Block(a)] + unlock, None);
    StepBlock(s2, p, a, unlock, Some(u));
    StepTask(s3, p, UnlockTask, [UnlockGlobal] + rest, Some(u));
    StepLock(s4, p, UnlockGlobal, rest, None);
    GoesOn(s, p, s1, s2, true, true);
    GoesOn(s, p, s2, s3, true, true);
    GoesOn(s, p, s3, s4, true, true);
    GoesOn(s, p, s4, s5, true, true);
    assert s.tasks[u := p] - {u} == s.tasks;
    assert s5 == Placed(s, p, rest, None).(shared := Next(s.shared, a), log := s.log + [a]);
  }

  /** A critical section whose locks are free and whose block is possible can be run to its end. */
  lemma SectionRuns(s: System, p: Pid, a: Action, rest: seq<Instr>)
    requires ProcessOf(s, p) == Process(Section(a, rest), None, [], []) && Enabled(s.shared, a)
    requires s.global.None? && (NeedsTask(a).Some? ==> NeedsTask(a).value !in s.tasks)
    ensures Goes(s, p, true, Placed(s, p, rest, None).(shared := Next(s.shared, a), log := s.log + [a]))
  {
    hide Goes, Enabled, Next, Section;
    if NeedsTask(a).None? {
      GlobalSectionRuns(s, p, a, rest);
    } else {
      TaskSectionRuns(s, p, a, rest, NeedsTask(a).value);
    }
  }

  /** All locks are free, and a ticket file names a task that does not exist. */
  predicate HasLostTicket(s: System) {
    && s.global.None? && s.tasks == map[]
    && "1" in s.shared.tickets && Config(s.shared, 2000).None? && !AllLive(s.shared)
  }

  /** A run of file operations that ends so. */
  lemma LostDirectoryRun()
    ensures exists moves: seq<Move>, states: seq<System> :: Run(moves, states) && HasLostTicket(states[|moves|])
  {
    hide HasLostTicket;
    var s := LostDirectoryState();
    var moves, states :| Path(START, moves, states) && states[|moves|] == s;
    assert Run(moves, states);
  }

  lemma LostBlocks(select: Action, remove: Action, issue: Action)
    requires select == Select(1, 2000) && remove == Remove(2000)
    requires issue == Issue(1, 2000, "1", Some("2"), "3", 0)
    ensures Enabled(EMPTY, select) && Enabled(Next(EMPTY, select), remove)
    ensures Enabled(Next(Next(EMPTY, select), remove), issue)
    ensures var w := Next(Next(Next(EMPTY, select), remove), issue);
            "1" in w.tickets && Config(w, 2000).None? && !AllLive(w)
  {
    LostDirectory();
    Then([], select);
    Then([select], remove);
    Then([select] + [remove], issue);
    assert [] + [select] == [select];
    assert Legal([select] + [remove] + [issue]);
    hide Next, Enabled, AllLive;
  }

  lemma LostDirectoryState() returns (s: System)
    ensures Leads(START, s) && HasLostTicket(s)
  {
    hide Leads, Goes, Next, Enabled, AllLive;
    var select, remove := Select(1, 2000), Remove(2000);
    var issue := Issue(1, 2000, "1", Some("2"), "3", 0);
    var create := Create([], 2000, "1", Some("2"), "3", 0);
    LostBlocks(select, remove, issue);
    assert Code(1, create) == Section(select, Section(issue, []));
    assert Code(2, CleanZombie(2000)) == Section(remove, []);
    var s1 := Placed(START, 1, Section(select, Section(issue, [])), None);
    LeadsByMove(START, Begin(1, create));
    assert Moved(START, Begin(1, create)) == s1;
    var s2 := Placed(s1, 2, Section(remove, []), None);
    LeadsByMove(s1, Begin(2, CleanZombie(2000)));
    assert Moved(s1, Begin(2, CleanZombie(2000))) == s2;
    hide Section, Code, Moved;
    var w1 := Next(EMPTY, select);
    var w2 := Next(w1, remove);
    var s3 := Placed(s2, 1, Section(issue, []), None).(shared := w1, log := s2.log + [select]);
    SectionRuns(s2, 1, select, Section(issue, []));
    GoesLeads(s2, 1, true, s3);
    var s4 := Placed(s3, 2, [], None).(shared := w2, log := s3.log + [remove]);
    SectionRuns(s3, 2, remove, []);
    GoesLeads(s3, 2, true, s4);
    s := Placed(s4, 1, [], None).(shared := Next(w2, issue), log := s4.log + [issue]);
    SectionRuns(s4, 1, issue, []);
    GoesLeads(s4, 1, true, s);
    LeadsOn(START, s1, s2);
    LeadsOn(START, s2, s3);
    LeadsOn(START, s3, s4);
    LeadsOn(START, s4, s);
  }
}
