/** The code of the operations: its lock discipline, and blocks of file operations that do not disturb each other. */
module LockedBlocks {
  import opened Bytes
  import opened TaskRecord
  import opened TicketProtocol
  import opened LockedProtocol

  /**
   * The lock discipline of the code of a process, given what it holds: the global lock before a task lock, never two
   * task locks, no lock it holds already, every block under the locks it needs, and all released at the end.
   */
  predicate Ordered(code: seq<Instr>, global: bool, task: Option<Uid>) {
    if code == [] then !global && task.None?
    else
      match code[0]
      case LockGlobal => !global && task.None? && Ordered(code[1..], true, None)
      case UnlockGlobal => global && task.None? && Ordered(code[1..], false, None)
      case LockTask(uid) => task.None? && Ordered(code[1..], global, Some(uid))
      case UnlockTask => task.Some? && Ordered(code[1..], global, None)
      case Check(uid) => task == Some(uid) && Ordered(code[1..], global, task)
      case Find(_, _) => global && Ordered(code[1..], global, task)
      case Block(a) =>
        && (NeedsGlobal(a) ==> global) && (NeedsTask(a).Some? ==> task == NeedsTask(a))
        && Ordered(code[1..], global, task)
  }

  lemma UnwindOrdered(global: bool, task: Option<Uid>)
    ensures Ordered(Unwind(global, task), global, task)
  {
  }

  lemma {:induction false} TriesOrdered(p: Pid, stale: seq<Uid>, rest: seq<Instr>)
    requires Ordered(rest, true, None)
    ensures Ordered(Tries(p, stale) + rest, true, None)
  {
    if stale == [] {
      assert Tries(p, stale) + rest == rest;
    } else {
      var c := Tries(p, stale[1..]) + rest;
      var a, b := Block(Select(p, stale[0])), Block(Unselect(p, stale[0]));
      TriesOrdered(p, stale[1..], rest);
      assert Tries(p, stale) + rest == [a] + ([b] + c);
      assert ([a] + ([b] + c))[1..] == [b] + c && ([b] + c)[1..] == c;
    }
  }

  lemma TaskBlockOrdered(i: Instr, uid: Uid, rest: seq<Instr>, global: bool)
    requires i == Check(uid) || (i.Block? && NeedsTask(i.action) == Some(uid) && (NeedsGlobal(i.action) ==> global))
    requires Ordered(rest, global, None)
    ensures Ordered([LockTask(uid), i, UnlockTask] + rest, global, None)
  {
  }

  lemma GlobalBlockOrdered(a: Action, uid: Uid, rest: seq<Instr>)
    requires NeedsTask(a) == Some(uid)
    requires Ordered(rest, false, None)
    ensures Ordered([LockGlobal, LockTask(uid), Block(a), UnlockTask, UnlockGlobal] + rest, false, None)
  {
    var c := [LockGlobal, LockTask(uid), Block(a), UnlockTask, UnlockGlobal] + rest;
    var d := [UnlockGlobal] + rest;
    assert d[1..] == rest;
    TaskBlockOrdered(Block(a), uid, d, true);
    assert c[1..] == [LockTask(uid), Block(a), UnlockTask] + d;
  }

  lemma CleaningOrdered(uid: Uid, held: seq<Ticket>, stopped: bool)
    ensures Ordered(Removing(uid), false, None)
    ensures Ordered(Cleaning(uid, held, stopped), false, None)
  {
    assert Removing(uid) == Removing(uid) + [];
    GlobalBlockOrdered(Remove(uid), uid, []);
    GlobalBlockOrdered(Mark(uid, held), uid, if stopped then Removing(uid) else []);
  }

  lemma CreateOrdered(p: Pid, op: Operation)
    requires op.Create? || op.CreateFails?
    ensures Ordered(Code(p, op), false, None)
  {
    var u: seq<Instr> := [UnlockGlobal];
    if op.Create? {
      var issue := Issue(p, op.uid, op.admin, op.monitor, op.execution, op.now);
      GlobalBlockOrdered(issue, op.uid, []);
      var c: seq<Instr> := [LockGlobal, LockTask(op.uid), Block(issue), UnlockTask, UnlockGlobal];
      assert c + [] == c && (u + c)[1..] == c;
      var d := [Block(Select(p, op.uid))] + (u + c);
      assert d[1..] == u + c;
      TriesOrdered(p, op.stale, d);
      assert Code(p, op) == [LockGlobal] + (Tries(p, op.stale) + d);
    } else {
      assert u[1..] == [];
      var c: seq<Instr> := [Block(Abandon(p))] + u;
      assert c[1..] == u;
      var d := [Block(Select(p, op.uid))] + c;
      assert d[1..] == c;
      TriesOrdered(p, op.stale, d);
      assert Code(p, op) == [LockGlobal] + (Tries(p, op.stale) + d);
    }
  }

  function EnterTail(p: Pid, file: TicketFile): seq<Instr> {
    [LockTask(file.uid), Check(file.uid), UnlockTask]
    + ((if file.security == Monitor
        then [LockTask(file.uid), Block(Change(file.uid, Monitorize(p))), UnlockTask]
        else []) + [UnlockGlobal])
  }

  lemma EnterTailOrdered(p: Pid, file: TicketFile)
    ensures Ordered(EnterTail(p, file), true, None)
  {
    var c: seq<Instr> := [UnlockGlobal];
    assert c[1..] == [];
    var m := Change(file.uid, Monitorize(p));
    TaskBlockOrdered(Block(m), file.uid, c, true);
    var d := if file.security == Monitor then [LockTask(file.uid), Block(m), UnlockTask] else [];
    assert d + c == if file.security == Monitor then [LockTask(file.uid), Block(m), UnlockTask] + c else c;
    TaskBlockOrdered(Check(file.uid), file.uid, d + c, true);
  }

  lemma ConsOrdered(i: Instr, rest: seq<Instr>)
    requires i == LockGlobal && Ordered(rest, true, None)
    ensures Ordered([i] + rest, false, None)
  {
  }

  lemma ConsGlobalOrdered(i: Instr, rest: seq<Instr>)
    requires i.Find? || (i.Block? && NeedsTask(i.action).None?)
    requires Ordered(rest, true, None)
    ensures Ordered([i] + rest, true, None)
  {
  }

  lemma EnterOrdered(p: Pid, op: Operation)
    requires op.Enter?
    ensures Ordered(Code(p, op), false, None)
  {
    hide Ordered;
    var tail := EnterTail(p, op.file);
    EnterTailOrdered(p, op.file);
    ConsGlobalOrdered(Block(Use(op.t)), tail);
    var c := if OneTime(op.file.security) then [Block(Use(op.t))] + tail else tail;
    ConsGlobalOrdered(Find(op.t, op.file), c);
    ConsOrdered(LockGlobal, [Find(op.t, op.file)] + c);
    assert Code(p, op) == [LockGlobal] + ([Find(op.t, op.file)] + c);
  }

  /** Every operation keeps the lock discipline. */
  lemma CodeOrdered(p: Pid, op: Operation)
    ensures Ordered(Code(p, op), false, None)
  {
    match op
    case Create(_, _, _, _, _, _) => CreateOrdered(p, op);
    case CreateFails(_, _) => CreateOrdered(p, op);
    case Enter(_, _) => EnterOrdered(p, op);
    case Set(uid, u) =>
      TaskBlockOrdered(Block(Change(uid, u)), uid, [], false);
      assert Code(p, op) == Code(p, op) + [];
    case GetPassthrough(uid, t) =>
      GlobalBlockOrdered(Pass(uid, t), uid, []);
      assert Code(p, op) == Code(p, op) + [];
    case Clean(uid, held, stopped) => CleaningOrdered(uid, held, stopped);
    case GetState(uid, expired, held, stopped) =>
      CleaningOrdered(uid, held, stopped);
      TaskBlockOrdered(Check(uid), uid, if expired then Cleaning(uid, held, stopped) else [], false);
    case Look(uid) =>
      TaskBlockOrdered(Check(uid), uid, [], false);
      assert Code(p, op) == Code(p, op) + [];
    case CleanZombie(uid) => CleaningOrdered(uid, [], false);
  }

  // The file operations of a block amount to the whole block.

  lemma FoldLast(w: World, es: seq<Effect>, e: Effect)
    ensures Fold(w, es + [e]) == Apply(Fold(w, es), e)
  {
  }

  lemma {:induction false} FoldConcat(w: World, es: seq<Effect>, fs: seq<Effect>)
    ensures Fold(w, es + fs) == Fold(Fold(w, es), fs)
  {
    if fs == [] {
      assert es + fs == es;
    } else {
      var part := fs[..|fs| - 1];
      FoldConcat(w, es, part);
      assert (es + fs)[..|es + fs| - 1] == es + part;
    }
  }

  lemma {:induction false} FoldDrops(w: World, names: seq<Ticket>)
    ensures Fold(w, Drops(names)) == w.(tickets := Dropped(w.tickets, names))
  {
    if names == [] {
      assert Dropped(w.tickets, names) == w.tickets;
    } else {
      var part := names[..|names| - 1];
      var t := names[|names| - 1];
      FoldDrops(w, part);
      assert Drops(names) == Drops(part) + [DropTicket(t)];
      FoldLast(w, Drops(part), DropTicket(t));
      assert names == part + [t];
      assert Dropped(Dropped(w.tickets, part), [t]) == Dropped(w.tickets, names);
    }
  }

  lemma DropTwice(tickets: map<Ticket, TicketFile>, a: seq<Ticket>, b: seq<Ticket>)
    ensures Dropped(Dropped(tickets, a), b) == Dropped(tickets, a + b)
  {
  }

  function Marked(w: World, uid: Uid): World {
    if Config(w, uid).Some? then w.(tasks := w.tasks[uid := Some(Config(w, uid).value.(cleaning := true))]) else w
  }

  lemma FoldMarking(w: World, uid: Uid)
    ensures Fold(w, Marking(w, uid)) == Marked(w, uid)
  {
  }

  lemma MarkEffects(w: World, uid: Uid, held: seq<Ticket>)
    ensures Fold(w, Effects(w, Mark(uid, held))) == Next(w, Mark(uid, held))
  {
    var first, second, third := Marking(w, uid), Drops(TaskTickets(w, uid)), Drops(held);
    FoldConcat(w, first + second, third);
    FoldConcat(w, first, second);
    FoldMarking(w, uid);
    FoldDrops(Marked(w, uid), TaskTickets(w, uid));
    FoldDrops(Fold(w, first + second), held);
    DropTwice(w.tickets, TaskTickets(w, uid), held);
  }

  lemma RemoveEffects(w: World, uid: Uid)
    ensures Fold(w, Effects(w, Remove(uid))) == Next(w, Remove(uid))
  {
    var first, second := Marking(w, uid), Drops(TaskTickets(w, uid));
    FoldLast(w, first + second, DropDir(uid));
    FoldConcat(w, first, second);
    FoldMarking(w, uid);
    FoldDrops(Marked(w, uid), TaskTickets(w, uid));
    assert Marked(w, uid).tasks - {uid} == w.tasks - {uid};
  }

  lemma FoldOne(w: World, e: Effect)
    ensures Fold(w, [e]) == Apply(w, e)
  {
  }

  lemma FoldTwo(w: World, e: Effect, f: Effect)
    ensures Fold(w, [e, f]) == Apply(Apply(w, e), f)
  {
    FoldOne(w, e);
    FoldLast(w, [e], f);
    assert [e] + [f] == [e, f];
  }

  lemma IssueEffects(w: World, a: Action)
    requires a.Issue?
    ensures Fold(w, Effects(w, a)) == Next(w, a)
  {
    var e0 := PutTicket(a.admin, TicketFile(a.uid, Admin));
    var e2 := PutTicket(a.execution, TicketFile(a.uid, Execute));
    var e3 := NewConfig(a.p, a.uid, Created(a.admin, a.monitor, a.execution, a.now));
    if a.monitor.Some? {
      var e1 := PutTicket(a.monitor.value, TicketFile(a.uid, Monitor));
      assert Effects(w, a) == [e0, e1] + [e2, e3];
      FoldConcat(w, [e0, e1], [e2, e3]);
      FoldTwo(w, e0, e1);
      FoldTwo(Fold(w, [e0, e1]), e2, e3);
    } else {
      assert Effects(w, a) == [e0, e2] + [e3];
      FoldLast(w, [e0, e2], e3);
      FoldTwo(w, e0, e2);
    }
  }

  lemma SingleEffect(w: World, a: Action)
    requires Enabled(w, a) && (a.Select? || a.Unselect? || a.Abandon? || a.Use? || a.Change?)
    ensures |Effects(w, a)| == 1 && Fold(w, Effects(w, a)) == Next(w, a)
  {
    FoldOne(w, Effects(w, a)[0]);
  }

  /** Its file operations, done without interference, are the block. */
  lemma EffectsMakeTheBlock(w: World, a: Action)
    requires Enabled(w, a)
    ensures Effects(w, a) != [] && Fold(w, Effects(w, a)) == Next(w, a)
  {
    hide Next, Fold, Updated;
    match a
    case Issue(_, _, _, _, _, _) => IssueEffects(w, a);
    case Mark(uid, held) =>
      MarkEffects(w, uid, held);
      assert |Drops(held)| == 4;
    case Remove(uid) => RemoveEffects(w, uid);
    case Pass(uid, t) => PassEffects(w, uid, t);
    case _ => SingleEffect(w, a);
  }

  lemma PassEffects(w: World, uid: Uid, t: Ticket)
    requires Config(w, uid).Some? && !Config(w, uid).value.cleaning
    ensures Fold(w, Effects(w, Pass(uid, t))) == Next(w, Pass(uid, t))
  {
    FoldTwo(w, Effects(w, Pass(uid, t))[0], Effects(w, Pass(uid, t))[1]);
  }

  // Blocks under different locks do not disturb each other.

  /** The effect is on tickets, or on another task than `u`. */
  predicate Avoids(e: Effect, u: Uid) {
    match e
    case PutTicket(_, _) => true
    case DropTicket(_) => true
    case PutConfig(uid, _) => uid != u
    case NewConfig(_, uid, _) => uid != u
    case DropDir(uid) => uid != u
    case _ => false
  }

  lemma EffectsAvoid(w: World, a: Action, u: Uid)
    requires NeedsTask(a).Some? && NeedsTask(a) != Some(u)
    ensures forall e <- Effects(w, a) :: Avoids(e, u)
  {
  }

  lemma {:induction false} FoldAvoids(w: World, es: seq<Effect>, u: Uid)
    requires forall e <- es :: Avoids(e, u)
    ensures (u in Fold(w, es).tasks <==> u in w.tasks)
    ensures Config(Fold(w, es), u) == Config(w, u)
  {
    if es != [] {
      assert es[|es| - 1] in es;
      FoldAvoids(w, es[..|es| - 1], u);
    }
  }

  /** A configuration written meanwhile for another task commutes with the effects. */
  lemma {:induction false} FoldCommutes(w: World, es: seq<Effect>, u: Uid, r: Record)
    requires u in w.tasks
    requires forall e <- es :: Avoids(e, u)
    ensures Apply(Fold(w, es), PutConfig(u, r)) == Fold(Apply(w, PutConfig(u, r)), es)
  {
    if es != [] {
      var part := es[..|es| - 1];
      var e := es[|es| - 1];
      assert e in es;
      FoldCommutes(w, part, u, r);
      FoldAvoids(w, part, u);
      OneCommutes(Fold(w, part), e, u, r);
    }
  }

  lemma OneCommutes(w: World, e: Effect, u: Uid, r: Record)
    requires u in w.tasks && Avoids(e, u)
    ensures Apply(Apply(w, e), PutConfig(u, r)) == Apply(Apply(w, PutConfig(u, r)), e)
  {
  }

  /** A block that another process is about to do stays possible, with the same file operations. */
  lemma PlanStable(w: World, a: Action, b: Action)
    requires Enabled(w, a) && Enabled(w, b)
    requires !NeedsGlobal(a) || !NeedsGlobal(b)
    requires NeedsTask(a).None? || NeedsTask(a) != NeedsTask(b)
    ensures Enabled(Next(w, a), b) && Effects(Next(w, a), b) == Effects(w, b)
  {
    hide Updated, Created, Refused, IsTicket, Drops;
    if a.Change? {
      ChangeFrame(w, a, b);
    } else {
      OtherConfig(w, a, b.uid);
    }
  }

  lemma ChangeFrame(w: World, a: Action, b: Action)
    requires a.Change? && Enabled(w, a) && Enabled(w, b)
    requires NeedsTask(a) != NeedsTask(b)
    ensures Enabled(Next(w, a), b) && Effects(Next(w, a), b) == Effects(w, b)
  {
    var w' := Next(w, a);
    assert w'.tickets == w.tickets && w'.creating == w.creating && w'.tasks.Keys == w.tasks.Keys;
    assert forall u :: u != a.uid ==> Config(w', u) == Config(w, u);
  }

  /** What holds the global lock leaves the configurations of tasks locked by others alone. */
  lemma OtherConfig(w: World, a: Action, u: Uid)
    requires Enabled(w, a) && NeedsTask(a) != Some(u) && Config(w, u).Some?
    ensures Config(Next(w, a), u) == Config(w, u)
  {
  }
}
