/** What each operation does when it is not interrupted: its blocks, one after another, as the source has them. */
module LockedAlone {
  import opened Bytes
  import opened TaskRecord
  import opened TicketProtocol
  import opened LockedProtocol
  import opened LockedBlocks
  import opened LockedRefinement
  import opened LockedSafety
  import opened LockedRuns
  import opened ProcessMonitor

  /** Whether code goes through, the files then, and the blocks completed; it stops at the first thing that fails. */
  type Result = (bool, World, Log)

  function Exec(w: World, code: seq<Instr>): Result
    decreases |code|
  {
    if code == [] then (true, w, [])
    else
      match code[0]
      case Check(uid) => if Open(w, uid) then Exec(w, code[1..]) else (false, w, [])
      case Find(t, file) => if t in w.tickets && w.tickets[t] == file then Exec(w, code[1..]) else (false, w, [])
      case Block(a) =>
        if Enabled(w, a) then
          var (ok, w', blocks) := Exec(Next(w, a), code[1..]);
          (ok, w', [a] + blocks)
        else (false, w, [])
      case _ => Exec(w, code[1..])
  }

  predicate Fallible(i: Instr) {
    i.Check? || i.Find? || i.Block?
  }

  predicate Failing(w: World, i: Instr)
    requires Fallible(i)
  {
    match i
    case Check(uid) => !Open(w, uid)
    case Find(t, file) => !(t in w.tickets && w.tickets[t] == file)
    case Block(a) => !Enabled(w, a)
  }

  /** The state after the operation: its files and history, and no lock of this process. */
  function Ended(s: System, p: Pid, w: World, blocks: Log, others: map<Uid, Pid>): System {
    Placed(s, p, [], None).(shared := w, log := s.log + blocks, global := None, tasks := others)
  }

  /** The locks of tasks, with the one this process holds. */
  function Locks(others: map<Uid, Pid>, p: Pid, task: Option<Uid>): map<Uid, Pid> {
    if task.Some? then others[task.value := p] else others
  }

  /** Nobody else holds a lock that the code takes or the process holds. */
  predicate Unhindered(s: System, p: Pid, code: seq<Instr>, task: Option<Uid>, others: map<Uid, Pid>) {
    && p in s.procs && s.procs[p] == Process(code, task, [], [])
    && (s.global.None? || s.global == Some(p)) && s.tasks == Locks(others, p, task)
    && (task.Some? ==> task.value !in others)
    && forall i <- code :: i.LockTask? ==> i.uid !in others
  }

  /** A look at a file: the process goes on, or releases its locks. */
  lemma StepLook(s: System, p: Pid, i: Instr, rest: seq<Instr>, task: Option<Uid>)
    requires ProcessOf(s, p) == Process([i] + rest, task, [], []) && (i.Check? || i.Find?)
    ensures var ok := if i.Check? then Open(s.shared, i.uid)
                      else i.t in s.shared.tickets && s.shared.tickets[i.t] == i.file;
            Goes(s, p, ok, Placed(s, p, if ok then rest else Unwind(HoldsGlobal(s, p), task), task))
  {
    hide Goes, Open;
    assert ([i] + rest)[1..] == rest;
    GoesByStep(s, p);
  }

  /** A block that is not possible. */
  lemma StepRefused(s: System, p: Pid, a: Action, rest: seq<Instr>, task: Option<Uid>)
    requires ProcessOf(s, p) == Process([Block(a)] + rest, task, [], []) && !Enabled(s.shared, a)
    ensures Goes(s, p, false, Placed(s, p, Unwind(HoldsGlobal(s, p), task), task))
  {
    hide Goes, Enabled;
    GoesByStep(s, p);
  }

  /** An operation that failed releases its locks. */
  lemma UnwindRuns(s: System, t: System, p: Pid, task: Option<Uid>, others: map<Uid, Pid>)
    requires Goes(s, p, false, t) && (t.global.None? || t.global == Some(p))
    requires p in t.procs && t.procs[p] == Process(Unwind(HoldsGlobal(t, p), task), task, [], [])
    requires t.tasks == Locks(others, p, task) && (task.Some? ==> task.value !in others)
    ensures Goes(s, p, false, Ended(t, p, t.shared, [], others))
  {
    hide Goes;
    var last: seq<Instr> := if HoldsGlobal(t, p) then [UnlockGlobal] + [] else [];
    var free := Placed(t, p, last, None).(tasks := others);
    assert t.log + [] == t.log;
    if task.Some? {
      assert Unwind(HoldsGlobal(t, p), task) == [UnlockTask] + last;
      StepTask(t, p, UnlockTask, last, task);
      assert t.tasks - {task.value} == others;
      GoesOn(s, p, t, free, false, true);
    } else {
      assert Unwind(HoldsGlobal(t, p), task) == last;
      assert free == t;
    }
    if HoldsGlobal(t, p) {
      StepLock(free, p, UnlockGlobal, [], None);
      var end := Placed(free, p, [], None).(global := None);
      GoesOn(s, p, free, end, false, true);
      assert end == Ended(t, p, t.shared, [], others);
    } else {
      assert free == Ended(t, p, t.shared, [], others);
    }
  }

  lemma TaskStepRuns(s: System, p: Pid, code: seq<Instr>, task: Option<Uid>, others: map<Uid, Pid>)
    returns (t: System, next: Option<Uid>)
    requires Unhindered(s, p, code, task, others) && Ordered(code, HoldsGlobal(s, p), task)
    requires code != [] && (code[0].LockTask? || code[0] == UnlockTask)
    ensures Goes(s, p, true, t) && Unhindered(t, p, code[1..], next, others)
    ensures Ordered(code[1..], HoldsGlobal(t, p), next) && t.shared == s.shared && t.log == s.log
    ensures forall w, blocks :: Ended(t, p, w, blocks, others) == Ended(s, p, w, blocks, others)
  {
    hide Goes;
    assert code == [code[0]] + code[1..];
    next := if code[0].LockTask? then Some(code[0].uid) else None;
    t := Placed(s, p, code[1..], next).(tasks := Locks(others, p, next));
    StepTask(s, p, code[0], code[1..], task);
    LessCode(code, others);
    hide Ordered;
    if code[0] == UnlockTask {
      assert s.tasks - {task.value} == others;
    }
  }

  lemma LessCode(code: seq<Instr>, others: map<Uid, Pid>)
    requires code != [] && forall i <- code :: i.LockTask? ==> i.uid !in others
    ensures forall i <- code[1..] :: i.LockTask? ==> i.uid !in others
    ensures code[0].LockTask? ==> code[0].uid !in others
  {
    assert code[0] in code && forall i <- code[1..] :: i in code;
  }

  lemma GlobalStepRuns(s: System, p: Pid, code: seq<Instr>, task: Option<Uid>, others: map<Uid, Pid>)
    returns (t: System)
    requires Unhindered(s, p, code, task, others) && Ordered(code, HoldsGlobal(s, p), task)
    requires code != [] && (code[0] == LockGlobal || code[0] == UnlockGlobal)
    ensures Goes(s, p, true, t) && Unhindered(t, p, code[1..], task, others)
    ensures Ordered(code[1..], HoldsGlobal(t, p), task) && t.shared == s.shared && t.log == s.log
    ensures forall w, blocks :: Ended(t, p, w, blocks, others) == Ended(s, p, w, blocks, others)
  {
    hide Goes;
    assert code == [code[0]] + code[1..] && forall i <- code[1..] :: i in code;
    StepLock(s, p, code[0], code[1..], task);
    t := Placed(s, p, code[1..], task).(global := if code[0] == LockGlobal then Some(p) else None);
  }

  lemma BlockRuns(s: System, p: Pid, code: seq<Instr>, task: Option<Uid>, others: map<Uid, Pid>) returns (t: System)
    requires Unhindered(s, p, code, task, others) && Ordered(code, HoldsGlobal(s, p), task)
    requires code != [] && code[0].Block? && Enabled(s.shared, code[0].action)
    ensures Goes(s, p, true, t) && Unhindered(t, p, code[1..], task, others)
    ensures Ordered(code[1..], HoldsGlobal(t, p), task) && t.shared == Next(s.shared, code[0].action)
    ensures forall w, blocks :: Ended(t, p, w, blocks, others) == Ended(s, p, w, [code[0].action] + blocks, others)
  {
    hide Goes, Next, Enabled;
    var a := code[0].action;
    assert code == [Block(a)] + code[1..] && forall i <- code[1..] :: i in code;
    StepBlock(s, p, a, code[1..], task);
    t := Placed(s, p, code[1..], task).(shared := Next(s.shared, a), log := s.log + [a]);
    forall w, blocks
      ensures Ended(t, p, w, blocks, others) == Ended(s, p, w, [a] + blocks, others)
    {
      assert s.log + [a] + blocks == s.log + ([a] + blocks);
    }
  }

  lemma LookRuns(s: System, p: Pid, code: seq<Instr>, task: Option<Uid>, others: map<Uid, Pid>) returns (t: System)
    requires Unhindered(s, p, code, task, others) && Ordered(code, HoldsGlobal(s, p), task)
    requires code != [] && (code[0].Check? || code[0].Find?) && !Failing(s.shared, code[0])
    ensures Goes(s, p, true, t) && Unhindered(t, p, code[1..], task, others)
    ensures Ordered(code[1..], HoldsGlobal(t, p), task) && t.shared == s.shared && t.log == s.log
    ensures forall w, blocks :: Ended(t, p, w, blocks, others) == Ended(s, p, w, blocks, others)
  {
    hide Goes, Open;
    assert code == [code[0]] + code[1..] && forall i <- code[1..] :: i in code;
    StepLook(s, p, code[0], code[1..], task);
    t := Placed(s, p, code[1..], task);
  }

  /** At something that fails the process goes on to release its locks, and has ended. */
  lemma FailureRuns(s: System, p: Pid, code: seq<Instr>, task: Option<Uid>, others: map<Uid, Pid>)
    requires Unhindered(s, p, code, task, others) && code != []
    requires Fallible(code[0]) && Failing(s.shared, code[0])
    ensures Goes(s, p, false, Ended(s, p, s.shared, [], others))
  {
    hide Goes, Open, Enabled, Unwind;
    assert code == [code[0]] + code[1..];
    var t := Placed(s, p, Unwind(HoldsGlobal(s, p), task), task);
    if code[0].Block? {
      StepRefused(s, p, code[0].action, code[1..], task);
    } else {
      StepLook(s, p, code[0], code[1..], task);
    }
    UnwindRuns(s, t, p, task, others);
    assert Ended(t, p, t.shared, [], others) == Ended(s, p, s.shared, [], others);
  }

  lemma NothingToRun(s: System, p: Pid, task: Option<Uid>, others: map<Uid, Pid>)
    requires Unhindered(s, p, [], task, others) && Ordered([], HoldsGlobal(s, p), task)
    ensures Goes(s, p, true, Ended(s, p, s.shared, [], others))
  {
    assert s.log + [] == s.log;
    assert Ended(s, p, s.shared, [], others) == s;
    assert Alone(s, p, [s], true) && [s][|[s]| - 1] == s;
  }

  /** A process that nothing hinders does what its code says, to its end or to the first thing that fails. */
  lemma {:induction false} CodeRuns(s: System, p: Pid, code: seq<Instr>, task: Option<Uid>, others: map<Uid, Pid>)
    requires Unhindered(s, p, code, task, others) && Ordered(code, HoldsGlobal(s, p), task)
    ensures var (ok, w, blocks) := Exec(s.shared, code); Goes(s, p, ok, Ended(s, p, w, blocks, others))
    decreases |code|
  {
    hide Goes, Ended, Unhindered, Ordered, Next, Enabled, Open;
    var (ok, w, blocks) := Exec(s.shared, code);
    if code == [] {
      NothingToRun(s, p, task, others);
    } else {
      var i := code[0];
      if Fallible(i) && Failing(s.shared, i) {
        FailureRuns(s, p, code, task, others);
      } else {
        var t, next := s, task;
        if i.LockTask? || i == UnlockTask {
          t, next := TaskStepRuns(s, p, code, task, others);
        } else if i == LockGlobal || i == UnlockGlobal {
          t := GlobalStepRuns(s, p, code, task, others);
        } else if i.Block? {
          t := BlockRuns(s, p, code, task, others);
        } else {
          t := LookRuns(s, p, code, task, others);
        }
        CodeRuns(t, p, code[1..], next, others);
        var (ok', w', blocks') := Exec(t.shared, code[1..]);
        GoesOn(s, p, t, Ended(t, p, w', blocks', others), true, ok');
      }
    }
  }

  /** An operation that is not interrupted, and finds the locks it takes free, does what its code says. */
  lemma OperationRuns(s: System, p: Pid, op: Operation)
    requires p in s.procs && s.procs[p] == Process(Code(p, op), None, [], []) && s.global.None?
    requires forall i <- Code(p, op) :: i.LockTask? ==> i.uid !in s.tasks
    ensures var (ok, w, blocks) := Exec(s.shared, Code(p, op)); Goes(s, p, ok, Ended(s, p, w, blocks, s.tasks))
  {
    CodeOrdered(p, op);
    CodeRuns(s, p, Code(p, op), None, s.tasks);
  }

  // ---------------------------------------------------------------- what the operations come to

  /** One block, if it is possible. */
  function Single(w: World, a: Action): Result {
    if Enabled(w, a) then (true, Next(w, a), [a]) else (false, w, [])
  }

  /** One result after another. */
  function Both(first: Result, second: Result): Result {
    if first.0 then (second.0, second.1, first.2 + second.2) else first
  }

  lemma {:induction false} ExecConcat(w: World, a: seq<Instr>, b: seq<Instr>)
    ensures Exec(w, a + b) == Both(Exec(w, a), Exec(Exec(w, a).1, b))
    decreases |a|
  {
    hide Enabled, Next, Open;
    if a == [] {
      assert a + b == b;
      BothWithNothing(w, Exec(w, b));
    } else {
      var next := if a[0].Block? then Next(w, a[0].action) else w;
      assert (a + b)[0] == a[0] && (a + b)[1..] == a[1..] + b;
      ExecConcat(next, a[1..], b);
      if a[0].Block? {
        var first := Exec(next, a[1..]);
        assert [a[0].action] + (first.2 + Exec(first.1, b).2) == ([a[0].action] + first.2) + Exec(first.1, b).2;
      }
    }
  }

  lemma BothWithNothing(w: World, r: Result)
    ensures Both((true, w, []), r) == r && Both(r, (true, r.1, [])) == r
  {
    assert [] + r.2 == r.2 && r.2 + [] == r.2;
  }

  /** Locks do nothing to the files; a block alone is one block. */
  lemma ExecOne(w: World, i: Instr)
    ensures !Fallible(i) ==> Exec(w, [i]) == (true, w, [])
    ensures i.Check? || i.Find? ==> Exec(w, [i]) == (!Failing(w, i), w, [])
    ensures i.Block? ==> Exec(w, [i]) == Single(w, i.action)
  {
    hide Enabled, Next, Open;
    assert [i][1..] == [];
    assert i.Block? ==> [i.action] + [] == [i.action];
  }

  /** What is between the locks of a task. */
  lemma ExecLocked(w: World, uid: Uid, i: Instr)
    ensures Exec(w, [LockTask(uid), i, UnlockTask]) == Exec(w, [i])
    ensures Exec(w, [LockGlobal, LockTask(uid), i, UnlockTask, UnlockGlobal]) == Exec(w, [i])
  {
    hide Exec;
    ExecOne(w, LockGlobal);
    ExecOne(w, LockTask(uid));
    var after := Exec(w, [i]).1;
    ExecOne(after, UnlockTask);
    ExecOne(after, UnlockGlobal);
    assert [LockTask(uid), i, UnlockTask] == [LockTask(uid)] + ([i] + [UnlockTask]);
    ExecConcat(w, [LockTask(uid)], [i] + [UnlockTask]);
    ExecConcat(w, [i], [UnlockTask]);
    assert [LockGlobal, LockTask(uid), i, UnlockTask, UnlockGlobal]
        == [LockGlobal] + ([LockTask(uid), i, UnlockTask] + [UnlockGlobal]);
    ExecConcat(w, [LockGlobal], [LockTask(uid), i, UnlockTask] + [UnlockGlobal]);
    ExecConcat(w, [LockTask(uid), i, UnlockTask], [UnlockGlobal]);
    BothWithNothing(w, Exec(w, [i]));
  }

  /** A setter updates its record; a passthrough ticket is added; a zombie is removed; a look changes nothing. */
  lemma SingleBlocks(w: World, p: Pid, uid: Uid, u: Update, t: Ticket)
    ensures Exec(w, Code(p, Set(uid, u))) == Single(w, Change(uid, u))
    ensures Exec(w, Code(p, GetPassthrough(uid, t))) == Single(w, Pass(uid, t))
    ensures Exec(w, Code(p, CleanZombie(uid))) == Single(w, Remove(uid))
    ensures Exec(w, Code(p, Look(uid))) == (Open(w, uid), w, [])
  {
    hide Exec, Enabled, Next, Open;
    ExecLocked(w, uid, Block(Change(uid, u)));
    ExecOne(w, Block(Change(uid, u)));
    ExecLocked(w, uid, Block(Pass(uid, t)));
    ExecOne(w, Block(Pass(uid, t)));
    ExecLocked(w, uid, Block(Remove(uid)));
    ExecOne(w, Block(Remove(uid)));
    ExecLocked(w, uid, Check(uid));
    ExecOne(w, Check(uid));
  }

  /** Cleaning marks the task, and removes it if its processes could be stopped. */
  lemma CleanOutcome(w: World, p: Pid, uid: Uid, held: seq<Ticket>, stopped: bool)
    requires |held| == 4
    ensures var marked := Next(w, Mark(uid, held));
            Exec(w, Code(p, Clean(uid, held, stopped)))
            == if stopped then (true, Next(marked, Remove(uid)), [Mark(uid, held), Remove(uid)])
               else (true, marked, [Mark(uid, held)])
  {
    hide Exec, Next;
    var marked := Next(w, Mark(uid, held));
    ExecLocked(w, uid, Block(Mark(uid, held)));
    ExecOne(w, Block(Mark(uid, held)));
    ExecLocked(marked, uid, Block(Remove(uid)));
    ExecOne(marked, Block(Remove(uid)));
    var last := if stopped then Removing(uid) else [];
    ExecConcat(w, [LockGlobal, LockTask(uid), Block(Mark(uid, held)), UnlockTask, UnlockGlobal], last);
    ExecNothing(marked);
    BothWithNothing(w, (true, marked, [Mark(uid, held)]));
    assert [Mark(uid, held)] + [Remove(uid)] == [Mark(uid, held), Remove(uid)];
  }

  lemma ExecNothing(w: World)
    ensures Exec(w, []) == (true, w, [])
  {
  }

  /** getState looks at the configuration, and cleans a task that is out of time. */
  lemma GetStateOutcome(w: World, p: Pid, uid: Uid, expired: bool, held: seq<Ticket>, stopped: bool)
    ensures Exec(w, Code(p, GetState(uid, expired, held, stopped)))
         == if !Open(w, uid) then (false, w, [])
            else if expired then Exec(w, Code(p, Clean(uid, held, stopped)))
            else (true, w, [])
  {
    hide Exec, Open;
    ExecLocked(w, uid, Check(uid));
    ExecOne(w, Check(uid));
    var last := if expired then Cleaning(uid, held, stopped) else [];
    ExecConcat(w, [LockTask(uid), Check(uid), UnlockTask], last);
    ExecNothing(w);
    var cleaned := Exec(w, last);
    assert [] + cleaned.2 == cleaned.2;
  }

  /** Directories that are made and given back leave nothing behind. */
  lemma {:induction false} TriesOutcome(w: World, p: Pid, stale: seq<Uid>) returns (blocks: Log)
    requires p !in w.creating && forall u <- stale :: u !in w.tasks
    ensures Exec(w, Tries(p, stale)) == (true, w, blocks)
  {
    if stale == [] {
      blocks := [];
    } else {
      var a, b := Select(p, stale[0]), Unselect(p, stale[0]);
      assert stale[0] in stale && forall u <- stale[1..] :: u in stale;
      var rest := TriesOutcome(w, p, stale[1..]);
      blocks := [a] + [b] + rest;
      assert Next(Next(w, a), b) == w by { GivenBack(w, p, stale[0]); }
      assert Enabled(w, a) && Enabled(Next(w, a), b);
      hide Exec, Next, Enabled;
      ExecOne(w, Block(a));
      ExecOne(Next(w, a), Block(b));
      ExecConcat(w, [Block(a)], [Block(b)]);
      ExecConcat(w, [Block(a)] + [Block(b)], Tries(p, stale[1..]));
      assert [Block(a), Block(b)] == [Block(a)] + [Block(b)];
    }
  }

  lemma GivenBack(w: World, p: Pid, uid: Uid)
    requires p !in w.creating && uid !in w.tasks
    ensures Next(Next(w, Select(p, uid)), Unselect(p, uid)) == w
  {
    assert w.tasks[uid := None] - {uid} == w.tasks;
    assert w.creating[p := uid] - {p} == w.creating;
  }

  function CreateEnd(uid: Uid, issue: Action): seq<Instr> {
    [LockGlobal, LockTask(uid), Block(issue), UnlockTask, UnlockGlobal]
  }

  /** A new task is the selection of its UID and then its tickets. */
  lemma CreateOutcome(w: World, p: Pid, op: Operation) returns (blocks: Log)
    requires op.Create? && p !in w.creating && op.uid !in w.tasks && forall u <- op.stale :: u !in w.tasks
    ensures var selected := Next(w, Select(p, op.uid));
            var issue := Issue(p, op.uid, op.admin, op.monitor, op.execution, op.now);
            Exec(w, Code(p, op)) == if Enabled(selected, issue) then (true, Next(selected, issue), blocks)
                                    else (false, selected, blocks)
  {
    var select := Select(p, op.uid);
    var selected := Next(w, select);
    var issue := Issue(p, op.uid, op.admin, op.monitor, op.execution, op.now);
    var tried := TriesOutcome(w, p, op.stale);
    assert Enabled(w, select);
    hide Exec, Next, Enabled, Tries;
    blocks := tried + [select] + if Enabled(selected, issue) then [issue] else [];
    BothWithNothing(w, Exec(w, Tries(p, op.stale) + ([Block(select)] + ([UnlockGlobal] + CreateEnd(op.uid, issue)))));
    BothWithNothing(selected, Exec(selected, CreateEnd(op.uid, issue)));
    assert tried + ([select] + [issue]) == tried + [select] + [issue];
    assert tried + ([select] + []) == tried + [select] + [];
    ExecOne(w, LockGlobal);
    ExecOne(w, Block(select));
    ExecOne(selected, UnlockGlobal);
    ExecOne(selected, Block(issue));
    ExecLocked(selected, op.uid, Block(issue));
    var last := CreateEnd(op.uid, issue);
    var middle := [Block(select)] + ([UnlockGlobal] + last);
    assert Code(p, op) == [LockGlobal] + (Tries(p, op.stale) + middle);
    ExecConcat(w, [LockGlobal], Tries(p, op.stale) + middle);
    ExecConcat(w, Tries(p, op.stale), middle);
    ExecConcat(w, [Block(select)], [UnlockGlobal] + last);
    ExecConcat(selected, [UnlockGlobal], last);
  }

  /** The blocks of an operation that presents a ticket, in the order of its code. */
  function EntryBlocks(w: World, t: Ticket, p: Pid): Log {
    if t !in w.tickets then []
    else
      (if OneTime(w.tickets[t].security) then [Use(t)] else [])
      + (if Entered(w, t, p, true).0 && w.tickets[t].security == Monitor
         then [Change(w.tickets[t].uid, Monitorize(p))] else [])
  }

  /** The end of the operation, from the task lock on. */
  function TailResult(w: World, file: TicketFile, p: Pid): Result {
    if !Open(w, file.uid) then (false, w, [])
    else if file.security != Monitor then (true, w, [])
    else Single(w, Change(file.uid, Monitorize(p)))
  }

  lemma TailOutcome(w: World, p: Pid, file: TicketFile)
    ensures Exec(w, EnterTail(p, file)) == TailResult(w, file, p)
  {
    hide Exec, Open, Single;
    var look: seq<Instr> := [LockTask(file.uid), Check(file.uid), UnlockTask];
    var a := Change(file.uid, Monitorize(p));
    var register: seq<Instr> := if file.security == Monitor then [LockTask(file.uid), Block(a), UnlockTask] else [];
    assert EnterTail(p, file) == look + (register + [UnlockGlobal]);
    ExecLocked(w, file.uid, Check(file.uid));
    ExecOne(w, Check(file.uid));
    ExecLocked(w, file.uid, Block(a));
    ExecOne(w, Block(a));
    ExecNothing(w);
    var registered := Exec(w, register);
    ExecOne(registered.1, UnlockGlobal);
    ExecConcat(w, look, register + [UnlockGlobal]);
    ExecConcat(w, register, [UnlockGlobal]);
    BothWithNothing(w, registered);
  }

  /** What the operation does, block by block, is what presenting the ticket does at once. */
  lemma EnteredByTail(w: World, t: Ticket, p: Pid)
    requires t in w.tickets && IsTicket(t) && p != 0
    ensures var file := w.tickets[t];
            var used := if OneTime(file.security) then Next(w, Use(t)) else w;
            var (ok, w', blocks) := TailResult(used, file, p);
            && Entered(w, t, p, true) == (ok, w')
            && EntryBlocks(w, t, p) == (if OneTime(file.security) then [Use(t)] else []) + blocks
  {
  }

  /** Entering comes to what presenting the ticket does. */
  lemma EnterOutcome(w: World, p: Pid, t: Ticket, file: TicketFile)
    requires p != 0 && (t in w.tickets ==> w.tickets[t] == file && IsTicket(t))
    ensures var (ok, w') := Entered(w, t, p, true); Exec(w, Code(p, Enter(t, file))) == (ok, w', EntryBlocks(w, t, p))
  {
    var use := if OneTime(file.security) then [Block(Use(t))] else [];
    var find := Find(t, file);
    assert Code(p, Enter(t, file)) == [LockGlobal] + ([find] + (use + EnterTail(p, file)));
    ExecOne(w, LockGlobal);
    ExecOne(w, find);
    if t !in w.tickets {
      assert Entered(w, t, p, true) == (false, w);
    } else {
      assert OneTime(file.security) ==> Enabled(w, Use(t));
      EnteredByTail(w, t, p);
    }
    hide Exec, Code, EnterTail, Entered, Enabled, TailResult, EntryBlocks;
    ExecConcat(w, [LockGlobal], [find] + (use + EnterTail(p, file)));
    ExecConcat(w, [find], use + EnterTail(p, file));
    ExecConcat(w, use, EnterTail(p, file));
    BothWithNothing(w, Exec(w, [find] + (use + EnterTail(p, file))));
    BothWithNothing(w, Exec(w, use + EnterTail(p, file)));
    ExecOne(w, Block(Use(t)));
    ExecNothing(w);
    TailOutcome(Exec(w, use).1, p, file);
    BothWithNothing(w, Exec(w, EnterTail(p, file)));
  }

  /**
   * An Enter operation that is not interrupted leads to what presenting the ticket does: it fails exactly when the
   * ticket is not accepted, its blocks are the removal of a one-time ticket and the registration of a monitor, and all
   * locks it took are free again.
   */
  lemma EnterRuns(s: System, p: Pid, t: Ticket, file: TicketFile)
    requires p in s.procs && s.procs[p] == Process(Code(p, Enter(t, file)), None, [], [])
    requires s.global.None? && file.uid !in s.tasks && p != 0
    requires t in s.shared.tickets ==> s.shared.tickets[t] == file && IsTicket(t)
    ensures var (ok, w) := Entered(s.shared, t, p, true);
            Goes(s, p, ok, Ended(s, p, w, EntryBlocks(s.shared, t, p), s.tasks))
  {
    EnterLocks(p, t, file);
    hide Code, Goes, Ended, Entered, EntryBlocks, Exec;
    EnterOutcome(s.shared, p, t, file);
    OperationRuns(s, p, Enter(t, file));
  }

  lemma EnterLocks(p: Pid, t: Ticket, file: TicketFile)
    ensures forall i <- Code(p, Enter(t, file)) :: i.LockTask? ==> i.uid == file.uid
  {
  }
}
