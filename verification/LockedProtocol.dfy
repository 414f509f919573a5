/**
 * The task protocol as its processes run it: one file operation at a time, between acquiring and releasing the
 * global lock and the lock of a task. Every run is an interleaving of the atomic actions of TicketProtocol.
 */
module LockedProtocol {
  import opened Bytes
  import opened TaskRecord
  import opened TicketProtocol

  /** One operation on the shared files. A selected UID is remembered by the process that selected it. */
  datatype Effect =
    | PutTicket(t: Ticket, file: TicketFile)
    | DropTicket(t: Ticket)
    | PutConfig(uid: Uid, r: Record)
    | NewConfig(p: Pid, uid: Uid, r: Record)
    | MakeDir(p: Pid, uid: Uid)
    | ReturnDir(p: Pid, uid: Uid)
    | DropDir(uid: Uid)
    | GiveUp(p: Pid)

  function Apply(w: World, e: Effect): World {
    match e
    case PutTicket(t, file) => w.(tickets := w.tickets[t := file])
    case DropTicket(t) => w.(tickets := Dropped(w.tickets, [t]))
    case PutConfig(uid, r) => if uid in w.tasks then w.(tasks := w.tasks[uid := Some(r)]) else w
    case NewConfig(p, uid, r) =>
      w.(tasks := if uid in w.tasks then w.tasks[uid := Some(r)] else w.tasks, creating := w.creating - {p})
    case MakeDir(p, uid) => w.(tasks := w.tasks[uid := None], creating := w.creating[p := uid])
    case ReturnDir(p, uid) =>
      w.(tasks := if uid in w.tasks && w.tasks[uid].None? then w.tasks - {uid} else w.tasks,
         creating := w.creating - {p})
    case DropDir(uid) => w.(tasks := w.tasks - {uid})
    case GiveUp(p) => w.(creating := w.creating - {p})
  }

  /** The effects one after another. */
  function Fold(w: World, es: seq<Effect>): World {
    if es == [] then w else Apply(Fold(w, es[..|es| - 1]), es[|es| - 1])
  }

  function Drops(names: seq<Ticket>): seq<Effect> {
    seq(|names|, i requires 0 <= i < |names| => DropTicket(names[i]))
  }

  /** The file operations of a locked block, from the configuration it reads first. */
  function Effects(w: World, a: Action): seq<Effect> {
    match a
    case Select(p, uid) => [MakeDir(p, uid)]
    case Unselect(p, uid) => [ReturnDir(p, uid)]
    case Abandon(p) => [GiveUp(p)]
    case Issue(p, uid, admin, monitor, execution, now) =>
      [PutTicket(admin, TicketFile(uid, Admin))]
      + (if monitor.Some? then [PutTicket(monitor.value, TicketFile(uid, Monitor))] else [])
      + [PutTicket(execution, TicketFile(uid, Execute)), NewConfig(p, uid, Created(admin, monitor, execution, now))]
    case Use(t) => [DropTicket(t)]
    case Change(uid, u) =>
      if Config(w, uid).Some? then [PutConfig(uid, Updated(Config(w, uid).value, u))] else []
    case Pass(uid, t) =>
      if Config(w, uid).Some?
      then [PutTicket(t, TicketFile(uid, Passthrough)), PutConfig(uid, Config(w, uid).value.(passthrough := t))]
      else []
    case Mark(uid, held) => Marking(w, uid) + Drops(TaskTickets(w, uid)) + Drops(held)
    case Remove(uid) => Marking(w, uid) + Drops(TaskTickets(w, uid)) + [DropDir(uid)]
  }

  function Marking(w: World, uid: Uid): seq<Effect> {
    if Config(w, uid).Some? then [PutConfig(uid, Config(w, uid).value.(cleaning := true))] else []
  }

  predicate NeedsGlobal(a: Action) {
    !a.Change?
  }

  /** The task whose lock a block runs under. */
  function NeedsTask(a: Action): Option<Uid> {
    match a
    case Issue(_, uid, _, _, _, _) => Some(uid)
    case Change(uid, _) => Some(uid)
    case Pass(uid, _) => Some(uid)
    case Mark(uid, _) => Some(uid)
    case Remove(uid) => Some(uid)
    case _ => None
  }

  datatype Instr =
    | LockGlobal | UnlockGlobal
    | LockTask(uid: Uid) | UnlockTask
    | Block(action: Action)
    | Check(uid: Uid)
    | Find(t: Ticket, file: TicketFile)

  /** A process: what it has still to do, the task lock it holds, and the file operations of its current block. */
  datatype Process = Process(code: seq<Instr>, task: Option<Uid>, done: seq<Effect>, todo: seq<Effect>)

  const IDLE := Process([], None, [], [])

  /** The shared files, the lock owners, the processes, and the blocks completed so far. */
  datatype System = System(shared: World, log: Log, procs: map<Pid, Process>, global: Option<Pid>, tasks: map<Uid, Pid>)

  const START := System(EMPTY, [], map[], None, map[])

  /** The operations of a processMonitor object. */
  datatype Operation =
    | Create(stale: seq<Uid>, uid: Uid, admin: Ticket, monitor: Option<Ticket>, execution: Ticket, now: Time)
    | CreateFails(stale: seq<Uid>, uid: Uid)
    | Enter(t: Ticket, file: TicketFile)
    | Set(uid: Uid, update: Update)
    | GetPassthrough(uid: Uid, t: Ticket)
    | Clean(uid: Uid, held: seq<Ticket>, stopped: bool)
    | GetState(uid: Uid, expired: bool, held: seq<Ticket>, stopped: bool)
    | Look(uid: Uid)
    | CleanZombie(uid: Uid)

  /** Control directories whose home directory exists already: they are made and given back. */
  function Tries(p: Pid, stale: seq<Uid>): seq<Instr> {
    if stale == [] then []
    else [Block(Select(p, stale[0])), Block(Unselect(p, stale[0]))] + Tries(p, stale[1..])
  }

  function Cleaning(uid: Uid, held: seq<Ticket>, stopped: bool): seq<Instr> {
    [LockGlobal, LockTask(uid), Block(Mark(uid, held)), UnlockTask, UnlockGlobal]
    + if stopped then Removing(uid) else []
  }

  function Removing(uid: Uid): seq<Instr> {
    [LockGlobal, LockTask(uid), Block(Remove(uid)), UnlockTask, UnlockGlobal]
  }

  function Code(p: Pid, op: Operation): seq<Instr> {
    match op
    case Create(stale, uid, admin, monitor, execution, now) =>
      [LockGlobal] + Tries(p, stale)
      + [Block(Select(p, uid)), UnlockGlobal, LockGlobal, LockTask(uid),
         Block(Issue(p, uid, admin, monitor, execution, now)), UnlockTask, UnlockGlobal]
    case CreateFails(stale, uid) =>
      [LockGlobal] + Tries(p, stale) + [Block(Select(p, uid)), Block(Abandon(p)), UnlockGlobal]
    case Enter(t, file) =>
      [LockGlobal, Find(t, file)] + (if OneTime(file.security) then [Block(Use(t))] else [])
      + [LockTask(file.uid), Check(file.uid), UnlockTask]
      + (if file.security == Monitor
         then [LockTask(file.uid), Block(Change(file.uid, Monitorize(p))), UnlockTask]
         else [])
      + [UnlockGlobal]
    case Set(uid, u) => [LockTask(uid), Block(Change(uid, u)), UnlockTask]
    case GetPassthrough(uid, t) => [LockGlobal, LockTask(uid), Block(Pass(uid, t)), UnlockTask, UnlockGlobal]
    case Clean(uid, held, stopped) => Cleaning(uid, held, stopped)
    case GetState(uid, expired, held, stopped) =>
      [LockTask(uid), Check(uid), UnlockTask] + if expired then Cleaning(uid, held, stopped) else []
    case Look(uid) => [LockTask(uid), Check(uid), UnlockTask]
    case CleanZombie(uid) => Removing(uid)
  }

  /** What is left to do when an exception or an early return ends an operation: its locks are released. */
  function Unwind(global: bool, task: Option<Uid>): seq<Instr> {
    (if task.Some? then [UnlockTask] else []) + (if global then [UnlockGlobal] else [])
  }

  function ProcessOf(s: System, p: Pid): Process {
    if p in s.procs then s.procs[p] else IDLE
  }

  predicate HoldsGlobal(s: System, p: Pid) {
    s.global == Some(p)
  }

  /** A process is at an instruction, and if that acquires a lock the lock is free. */
  predicate CanStep(s: System, p: Pid) {
    && ProcessOf(s, p).code != []
    && (ProcessOf(s, p).code[0].LockGlobal? ==> s.global.None?)
    && (ProcessOf(s, p).code[0].LockTask? ==> ProcessOf(s, p).code[0].uid !in s.tasks)
  }

  function WithProcess(s: System, p: Pid, q: Process): System {
    s.(procs := s.procs[p := q])
  }

  function Proceed(s: System, p: Pid, ok: bool): System {
    var q := ProcessOf(s, p);
    WithProcess(s, p, q.(code := if ok && q.code != [] then q.code[1..] else Unwind(HoldsGlobal(s, p), q.task)))
  }

  /** One instruction of one process; within a block, the reading or one file operation. */
  function Step(s: System, p: Pid): System
    requires CanStep(s, p)
  {
    var q := ProcessOf(s, p);
    match q.code[0]
    case LockGlobal => WithProcess(s, p, q.(code := q.code[1..])).(global := Some(p))
    case UnlockGlobal => WithProcess(s, p, q.(code := q.code[1..])).(global := None)
    case LockTask(uid) => WithProcess(s, p, q.(code := q.code[1..], task := Some(uid))).(tasks := s.tasks[uid := p])
    case UnlockTask =>
      WithProcess(s, p, q.(code := q.code[1..], task := None))
        .(tasks := if q.task.Some? then s.tasks - {q.task.value} else s.tasks)
    case Check(uid) => Proceed(s, p, Open(s.shared, uid))
    case Find(t, file) => Proceed(s, p, t in s.shared.tickets && s.shared.tickets[t] == file)
    case Block(a) =>
      if q.todo == [] then
        if Enabled(s.shared, a) then WithProcess(s, p, q.(done := [], todo := Effects(s.shared, a)))
        else Proceed(s, p, false)
      else
        var s' := s.(shared := Apply(s.shared, q.todo[0]));
        if |q.todo| == 1 then
          WithProcess(s', p, q.(code := q.code[1..], done := [], todo := [])).(log := s.log + [a])
        else
          WithProcess(s', p, q.(done := q.done + [q.todo[0]], todo := q.todo[1..]))
  }

  /** A move of the whole system: an idle process begins an operation, or some process makes a step. */
  datatype Move = Begin(p: Pid, op: Operation) | Go(p: Pid)

  /** A cleaner holds four tickets, and monitors register when they present their ticket, in no other way. */
  predicate WellCalled(op: Operation) {
    match op
    case Clean(_, held, _) => |held| == 4
    case GetState(_, _, held, _) => |held| == 4
    case Set(_, update) => !update.Monitorize?
    case _ => true
  }

  predicate Possible(s: System, m: Move) {
    match m
    case Begin(p, op) => ProcessOf(s, p).code == [] && p != 0 && WellCalled(op)
    case Go(p) => CanStep(s, p)
  }

  function Moved(s: System, m: Move): System
    requires Possible(s, m)
  {
    match m
    case Begin(p, op) => WithProcess(s, p, ProcessOf(s, p).(code := Code(p, op)))
    case Go(p) => Step(s, p)
  }
}
