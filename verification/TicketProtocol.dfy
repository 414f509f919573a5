/** The locked blocks of the task protocol as atomic actions on the ticket files and the control directories. */
module TicketProtocol {
  import opened Bytes
  import opened TaskRecord

  datatype TicketFile = TicketFile(uid: Uid, security: Security)

  /**
   * Ticket files by name; control directories by UID, each with its configuration file if there is one;
   * and the UID that each process has selected for a task it has not issued tickets for yet.
   */
  datatype World = World(tickets: map<Ticket, TicketFile>, tasks: map<Uid, Option<Record>>, creating: map<Pid, Uid>)

  const EMPTY := World(map[], map[], map[])

  /**
   * What the locked blocks do: choose a free UID, give it back or give up, issue the tickets of a new task, accept
   * a one-time ticket, write an update, add a passthrough ticket, mark a task for cleaning (removing the four tickets
   * held by the cleaner too), remove the files of a task.
   */
  datatype Action =
    | Select(p: Pid, uid: Uid)
    | Unselect(p: Pid, uid: Uid)
    | Abandon(p: Pid)
    | Issue(p: Pid, uid: Uid, admin: Ticket, monitor: Option<Ticket>, execution: Ticket, now: Time)
    | Use(ticket: Ticket)
    | Change(uid: Uid, update: Update)
    | Pass(uid: Uid, ticket: Ticket)
    | Mark(uid: Uid, held: seq<Ticket>)
    | Remove(uid: Uid)

  /** The configuration of a task, if its file can be read. */
  function Config(w: World, uid: Uid): Option<Record> {
    if uid in w.tasks then w.tasks[uid] else None
  }

  predicate Fresh(w: World, t: Ticket) {
    IsTicket(t) && t !in w.tickets
  }

  /** The configuration can be read and the task is not being cleaned. */
  predicate Open(w: World, uid: Uid) {
    Config(w, uid).Some? && !Config(w, uid).value.cleaning
  }

  predicate Enabled(w: World, a: Action) {
    match a
    case Select(p, uid) => p !in w.creating && uid !in w.tasks
    case Unselect(p, uid) => p in w.creating && w.creating[p] == uid
    case Abandon(p) => p in w.creating
    case Issue(p, uid, admin, monitor, execution, _) =>
      && p in w.creating && w.creating[p] == uid
      && Fresh(w, admin) && Fresh(w, execution) && (monitor.Some? ==> Fresh(w, monitor.value))
    case Use(t) => t in w.tickets && OneTime(w.tickets[t].security)
    case Change(uid, u) => Open(w, uid) && !Refused(Config(w, uid).value, u) && (u.Monitorize? ==> u.pid != 0)
    case Pass(uid, t) => Open(w, uid) && Config(w, uid).value.passthrough == "" && Fresh(w, t)
    case Mark(_, held) => |held| == 4
    case Remove(_) => true
  }

  /** The ticket files after those of a new task are written, admin first, execution last. */
  function Issued(tickets: map<Ticket, TicketFile>, uid: Uid, admin: Ticket, monitor: Option<Ticket>, execution: Ticket)
    : map<Ticket, TicketFile>
  {
    var first := tickets[admin := TicketFile(uid, Admin)];
    var second := if monitor.Some? then first[monitor.value := TicketFile(uid, Monitor)] else first;
    second[execution := TicketFile(uid, Execute)]
  }

  function TaskTickets(w: World, uid: Uid): seq<Ticket> {
    if Config(w, uid).Some? then Listed(Config(w, uid).value) else []
  }

  function Dropped(tickets: map<Ticket, TicketFile>, names: seq<Ticket>): map<Ticket, TicketFile> {
    map t | t in tickets && t !in names :: tickets[t]
  }

  function Next(w: World, a: Action): World {
    match a
    case Select(p, uid) => w.(tasks := w.tasks[uid := None], creating := w.creating[p := uid])
    case Unselect(p, uid) =>
      w.(tasks := if uid in w.tasks && w.tasks[uid].None? then w.tasks - {uid} else w.tasks,
         creating := w.creating - {p})
    case Abandon(p) => w.(creating := w.creating - {p})
    case Issue(p, uid, admin, monitor, execution, now) =>
      // Without its control directory the task gets ticket files but no configuration.
      World(Issued(w.tickets, uid, admin, monitor, execution),
            if uid in w.tasks then w.tasks[uid := Some(Created(admin, monitor, execution, now))] else w.tasks,
            w.creating - {p})
    case Use(t) => w.(tickets := Dropped(w.tickets, [t]))
    case Change(uid, u) =>
      if Open(w, uid) then w.(tasks := w.tasks[uid := Some(Updated(Config(w, uid).value, u))]) else w
    case Pass(uid, t) =>
      if Open(w, uid) then
        w.(tickets := w.tickets[t := TicketFile(uid, Passthrough)],
           tasks := w.tasks[uid := Some(Config(w, uid).value.(passthrough := t))])
      else w
    case Mark(uid, held) =>
      w.(tickets := Dropped(w.tickets, TaskTickets(w, uid) + held),
         tasks := if Config(w, uid).None? then w.tasks
                  else w.tasks[uid := Some(Config(w, uid).value.(cleaning := true))])
    case Remove(uid) => w.(tickets := Dropped(w.tickets, TaskTickets(w, uid)), tasks := w.tasks - {uid})
  }

  /** A ticket file names a task whose configuration exists, is not marked, and lists that ticket in that role. */
  predicate Live(w: World, t: Ticket)
    requires t in w.tickets
  {
    var f := w.tickets[t];
    IsTicket(t) && Open(w, f.uid) && TicketOf(Config(w, f.uid).value, f.security) == t
  }

  predicate AllLive(w: World) {
    forall t <- w.tickets :: Live(w, t)
  }

  predicate NoTicketNames(w: World, uid: Uid) {
    forall t <- w.tickets :: w.tickets[t].uid != uid
  }

  /** Tickets are issued into a control directory that is there and that no ticket refers to. */
  predicate Clear(w: World, a: Action) {
    a.Issue? ==> a.uid in w.tasks && NoTicketNames(w, a.uid)
  }

  /** A UID without a control directory, the only kind that can be selected, has no ticket. */
  lemma NewUidHasNoTicket(w: World, uid: Uid)
    requires AllLive(w) && uid !in w.tasks
    ensures NoTicketNames(w, uid)
  {
  }

  lemma ClearIssueKeepsLive(w: World, a: Action)
    requires AllLive(w) && a.Issue? && Enabled(w, a) && Clear(w, a)
    ensures AllLive(Next(w, a))
  {
    var w' := Next(w, a);
    forall t <- w'.tickets
      ensures Live(w', t)
    {
      if t in w.tickets {
        assert Live(w, t);
      }
    }
  }

  /** The tickets of a new record are new. */
  lemma OldTicketNotListed(w: World, a: Action, t: Ticket, s: Security)
    requires a.Issue? && Enabled(w, a) && IsTicket(t) && t in w.tickets
    ensures TicketOf(Created(a.admin, a.monitor, a.execution, a.now), s) != t
  {
    NoMonitorIsNoTicket();
  }

  lemma UnclearIssueLeavesDead(w: World, a: Action, t: Ticket)
    requires AllLive(w) && a.Issue? && Enabled(w, a)
    requires if a.uid in w.tasks then t in w.tickets && w.tickets[t].uid == a.uid else t == a.execution
    ensures t in Next(w, a).tickets && !Live(Next(w, a), t)
  {
    if a.uid in w.tasks {
      assert Live(w, t);
      OldTicketNotListed(w, a, t, w.tickets[t].security);
    }
  }

  /** Issuing tickets keeps every ticket live exactly when it happens in a clear state. */
  lemma IssueKeepsIff(w: World, a: Action)
    requires AllLive(w) && a.Issue? && Enabled(w, a)
    ensures AllLive(Next(w, a)) <==> Clear(w, a)
  {
    hide Next, Live, Enabled;
    if Clear(w, a) {
      ClearIssueKeepsLive(w, a);
    } else if a.uid in w.tasks {
      var t :| t in w.tickets && w.tickets[t].uid == a.uid;
      UnclearIssueLeavesDead(w, a, t);
    } else {
      UnclearIssueLeavesDead(w, a, a.execution);
    }
  }

  /** Every other action keeps every ticket live. */
  lemma OthersKeepLive(w: World, a: Action)
    requires AllLive(w) && Enabled(w, a) && !a.Issue?
    ensures AllLive(Next(w, a))
  {
    var w' := Next(w, a);
    forall t <- w'.tickets
      ensures Live(w', t)
    {
      if t in w.tickets {
        assert Live(w, t);
        var f := w.tickets[t];
        ListedHas(Config(w, f.uid).value, f.security);
        if a.Change? && a.uid == f.uid {
          UpdatedKeepsTickets(Config(w, f.uid).value, a.update);
        }
      }
    }
  }

  lemma ListedHas(r: Record, s: Security)
    ensures TicketOf(r, s) in Listed(r)
  {
  }

  /** A history of actions, oldest first, and the state it leads to. */
  type Log = seq<Action>

  function After(log: Log): World {
    if log == [] then EMPTY else Next(After(log[..|log| - 1]), log[|log| - 1])
  }

  predicate Legal(log: Log) {
    log == [] || (Legal(log[..|log| - 1]) && Enabled(After(log[..|log| - 1]), log[|log| - 1]))
  }

  predicate AlwaysLive(log: Log) {
    forall k: nat :: k <= |log| ==> AllLive(After(log[..k]))
  }

  predicate AlwaysClear(log: Log) {
    forall k: nat :: k < |log| ==> Clear(After(log[..k]), log[k])
  }

  lemma Extended(log: Log)
    requires log != []
    ensures var before := log[..|log| - 1];
            && (AlwaysLive(log) <==> AlwaysLive(before) && AllLive(After(log)))
            && (AlwaysClear(log) <==> AlwaysClear(before) && Clear(After(before), log[|log| - 1]))
  {
    hide After, AllLive, Clear;
    var before := log[..|log| - 1];
    assert log[..|log|] == log;
    assert forall k: nat :: k < |log| ==> before[..k] == log[..k];
    assert AlwaysLive(log) ==> AlwaysLive(before) by {
      if AlwaysLive(log) {
        forall k: nat | k <= |before|
          ensures AllLive(After(before[..k]))
        {
          assert AllLive(After(log[..k]));
        }
      }
    }
    assert AlwaysLive(before) && AllLive(After(log)) ==> AlwaysLive(log) by {
      if AlwaysLive(before) && AllLive(After(log)) {
        forall k: nat | k <= |log|
          ensures AllLive(After(log[..k]))
        {
          assert k < |log| ==> AllLive(After(before[..k]));
        }
      }
    }
    assert AlwaysClear(log) ==> AlwaysClear(before) by {
      if AlwaysClear(log) {
        forall k: nat | k < |before|
          ensures Clear(After(before[..k]), before[k])
        {
          assert Clear(After(log[..k]), log[k]);
        }
      }
    }
    assert AlwaysClear(before) && Clear(After(before), log[|log| - 1]) ==> AlwaysClear(log) by {
      if AlwaysClear(before) && Clear(After(before), log[|log| - 1]) {
        forall k: nat | k < |log|
          ensures Clear(After(log[..k]), log[k])
        {
          assert k < |before| ==> Clear(After(before[..k]), before[k]);
        }
      }
    }
    assert AlwaysLive(log) ==> AllLive(After(log));
    assert AlwaysClear(log) ==> Clear(After(log[..|before|]), log[|before|]);
  }

  /** In every history, all tickets are live at every moment exactly when all tickets were issued in clear states. */
  lemma {:induction false} LiveIffClear(log: Log)
    requires Legal(log)
    ensures AlwaysLive(log) <==> AlwaysClear(log)
  {
    hide AllLive, Clear, Next, Enabled;
    if log == [] {
      assert AllLive(EMPTY) by { NoTickets(); }
      assert log[..0] == [];
    } else {
      var before := log[..|log| - 1];
      var a := log[|log| - 1];
      LiveIffClear(before);
      Extended(log);
      if AlwaysLive(before) {
        assert before[..|before|] == before;
        LastStep(After(before), a);
      }
    }
  }

  lemma NoTickets()
    ensures AllLive(EMPTY)
  {
  }

  lemma LastStep(w: World, a: Action)
    requires AllLive(w) && Enabled(w, a)
    ensures AllLive(Next(w, a)) <==> Clear(w, a)
  {
    hide AllLive, Next, Enabled;
    if a.Issue? {
      IssueKeepsIff(w, a);
    } else {
      OthersKeepLive(w, a);
    }
  }

  /** No control directory is removed while its task is still being created. */
  predicate Careful(w: World, a: Action) {
    a.Remove? ==> a.uid !in w.creating.Values
  }

  predicate AlwaysCareful(log: Log) {
    log == [] || (AlwaysCareful(log[..|log| - 1]) && Careful(After(log[..|log| - 1]), log[|log| - 1]))
  }

  /** Each task being created has its own control directory, without a configuration. */
  predicate OwnDirectories(w: World) {
    && (forall p <- w.creating :: w.creating[p] in w.tasks && w.tasks[w.creating[p]].None?)
    && (forall p, q :: p in w.creating && q in w.creating && w.creating[p] == w.creating[q] ==> p == q)
  }

  lemma CarefulKeepsDirectories(w: World, a: Action)
    requires OwnDirectories(w) && Enabled(w, a) && Careful(w, a)
    ensures OwnDirectories(Next(w, a))
  {
    var w' := Next(w, a);
    forall p <- w'.creating
      ensures w'.creating[p] in w'.tasks && w'.tasks[w'.creating[p]].None?
    {
      if p in w.creating {
        assert w.creating[p] in w.creating.Values;
        assert w.creating[p] in w.tasks && w.tasks[w.creating[p]].None?;
      }
    }
  }

  lemma DirectoriesAreClear(w: World, a: Action)
    requires OwnDirectories(w) && AllLive(w) && Enabled(w, a)
    ensures Clear(w, a)
  {
  }

  lemma {:induction false} CarefulState(log: Log)
    requires Legal(log) && AlwaysCareful(log)
    ensures OwnDirectories(After(log)) && AllLive(After(log))
  {
    hide AllLive, Next, Enabled, OwnDirectories, Careful, Clear;
    if log == [] {
      NoTickets();
      assert OwnDirectories(EMPTY) by { NothingCreated(); }
    } else {
      var w := After(log[..|log| - 1]);
      CarefulState(log[..|log| - 1]);
      CarefulKeepsDirectories(w, log[|log| - 1]);
      DirectoriesAreClear(w, log[|log| - 1]);
      LastStep(w, log[|log| - 1]);
    }
  }

  lemma NothingCreated()
    ensures OwnDirectories(EMPTY)
  {
  }

  /**
   * As long as no control directory is removed before its tickets are issued, in every interleaving every
   * ticket file names a task whose configuration exists, lists that ticket and is not marked for cleaning.
   */
  lemma {:induction false} CarefulRunsStayLive(log: Log)
    requires Legal(log) && AlwaysCareful(log)
    ensures AlwaysLive(log) && AlwaysClear(log)
  {
    hide AllLive, Next, Enabled, OwnDirectories, Careful, Clear;
    CarefulState(log);
    if log == [] {
      assert log[..0] == [];
    } else {
      CarefulRunsStayLive(log[..|log| - 1]);
      Extended(log);
    }
    LiveIffClear(log);
  }

  lemma Then(log: Log, a: Action)
    ensures After(log + [a]) == Next(After(log), a)
    ensures Legal(log + [a]) <==> Legal(log) && Enabled(After(log), a)
  {
  }

  /** A control directory removed between selection and issue leaves tickets to a task that does not exist. */
  lemma LostDirectory()
    ensures var log := [Select(1, 2000)] + [Remove(2000)] + [Issue(1, 2000, "1", Some("2"), "3", 0)];
            && Legal(log) && !AllLive(After(log))
            && "1" in After(log).tickets && Config(After(log), 2000).None?
  {
    var a, b, c := Select(1, 2000), Remove(2000), Issue(1, 2000, "1", Some("2"), "3", 0);
    assert [] + [a] == [a];
    Then([], a);
    Then([a], b);
    Then([a] + [b], c);
    assert !Live(After([a] + [b] + [c]), "1");
  }

  /** A UID lost to another process leaves the tickets of that process unlisted. */
  lemma TakenDirectory()
    ensures var log := [Select(1, 2000)] + [Remove(2000)] + [Select(2, 2000)]
                       + [Issue(2, 2000, "1", Some("2"), "3", 0)] + [Issue(1, 2000, "4", Some("5"), "6", 0)];
            && Legal(log) && !AllLive(After(log))
            && "1" in After(log).tickets && Config(After(log), 2000).Some?
  {
    var a, b, c := Select(1, 2000), Remove(2000), Select(2, 2000);
    var d, e := Issue(2, 2000, "1", Some("2"), "3", 0), Issue(1, 2000, "4", Some("5"), "6", 0);
    assert [] + [a] == [a];
    Then([], a);
    Then([a], b);
    Then([a] + [b], c);
    Then([a] + [b] + [c], d);
    Then([a] + [b] + [c] + [d], e);
    var w := Next(Next(Next(EMPTY, a), b), c);
    assert w.tickets == map[];
    TakenTwice(w, d, e);
  }

  lemma TakenTwice(w: World, d: Action, e: Action)
    requires w.tickets == map[] && 2000 in w.tasks && w.creating == map[1 := 2000, 2 := 2000]
    requires d == Issue(2, 2000, "1", Some("2"), "3", 0) && e == Issue(1, 2000, "4", Some("5"), "6", 0)
    ensures Enabled(w, d) && Enabled(Next(w, d), e)
    ensures "1" in Next(Next(w, d), e).tickets && Config(Next(Next(w, d), e), 2000).Some?
    ensures !AllLive(Next(Next(w, d), e))
  {
    assert !Live(Next(Next(w, d), e), "1");
  }
}
