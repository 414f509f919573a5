/** The tickets of a task keep their files: what is listed can be presented. */
module TicketService {
  import opened Bytes
  import opened TaskRecord
  import opened TicketProtocol
  import opened ProcessMonitor

  /** The ticket of a task in a role has its file, and the file says so. */
  predicate HasFile(w: World, uid: Uid, s: Security) {
    && Config(w, uid).Some?
    && var t := TicketOf(Config(w, uid).value, s);
       t in w.tickets && w.tickets[t] == TicketFile(uid, s)
  }

  /** A ticket was accepted since the tickets of the task were issued. */
  predicate UsedSince(log: Log, uid: Uid, t: Ticket) {
    log != [] &&
    var a := log[|log| - 1];
    !(a.Issue? && a.uid == uid) && (a == Use(t) || UsedSince(log[..|log| - 1], uid, t))
  }

  /** The tickets of a task that can be presented are just those that are still good. */
  predicate InService(w: World, uid: Uid, executed: bool, monitored: bool) {
    Open(w, uid) ==>
      && HasFile(w, uid, Admin)
      && (Config(w, uid).value.passthrough != "" ==> HasFile(w, uid, Passthrough))
      && (HasFile(w, uid, Execute) <==> !executed)
      && (Config(w, uid).value.monitor != NO_MONITOR ==> (HasFile(w, uid, Monitor) <==> !monitored))
  }

  function Execution(w: World, uid: Uid): Ticket {
    if Config(w, uid).Some? then Config(w, uid).value.execution else ""
  }

  function Monitoring(w: World, uid: Uid): Ticket {
    if Config(w, uid).Some? then Config(w, uid).value.monitor else ""
  }

  ghost predicate Served(log: Log) {
    var w := After(log);
    forall uid :: InService(w, uid, UsedSince(log, uid, Execution(w, uid)), UsedSince(log, uid, Monitoring(w, uid)))
  }

  ghost predicate AlwaysServed(log: Log) {
    log == [] || (AlwaysServed(log[..|log| - 1]) && Served(log))
  }

  /** Every ticket file among these belongs to the task. */
  predicate OwnFiles(w: World, uid: Uid, names: seq<Ticket>) {
    forall t <- names :: t in w.tickets ==> w.tickets[t].uid == uid
  }

  /** The tickets issued to a task differ, and a cleaning removes no ticket file of another task. */
  predicate Gentle(w: World, a: Action) {
    match a
    case Issue(_, _, admin, monitor, execution, _) =>
      admin != execution && monitor != Some(admin) && monitor != Some(execution)
    case Mark(uid, held) => OwnFiles(w, uid, TaskTickets(w, uid) + held)
    case Remove(uid) => OwnFiles(w, uid, TaskTickets(w, uid))
    case _ => true
  }

  predicate AlwaysGentle(log: Log) {
    log == [] || (AlwaysGentle(log[..|log| - 1]) && Gentle(After(log[..|log| - 1]), log[|log| - 1]))
  }

  /** Whether the tickets of the task were used, after one more block. */
  predicate UsedBy(a: Action, uid: Uid, t: Ticket, before: bool) {
    !(a.Issue? && a.uid == uid) && (a == Use(t) || before)
  }

  lemma IssueServes(w: World, a: Action, uid: Uid, executed: bool, monitored: bool)
    requires a.Issue? && Enabled(w, a) && Gentle(w, a) && Clear(w, a)
    requires InService(w, uid, executed, monitored)
    ensures if a.uid == uid then InService(Next(w, a), uid, false, false)
            else InService(Next(w, a), uid, executed, monitored) && Config(Next(w, a), uid) == Config(w, uid)
  {
    var w' := Next(w, a);
    if a.uid == uid {
      assert Config(w', uid) == Some(Created(a.admin, a.monitor, a.execution, a.now));
      assert a.execution in w'.tickets && w'.tickets[a.execution] == TicketFile(uid, Execute);
      assert a.admin in w'.tickets && w'.tickets[a.admin] == TicketFile(uid, Admin);
      assert a.monitor.Some? ==> w'.tickets[a.monitor.value] == TicketFile(uid, Monitor);
    } else {
      assert Config(w', uid) == Config(w, uid);
    }
  }

  /** What a block other than issuing does to the names of a task: nothing while the task stays open. */
  lemma StillOpen(w: World, a: Action, uid: Uid)
    requires Enabled(w, a) && !a.Issue? && Open(Next(w, a), uid)
    ensures Open(w, uid)
    ensures forall s :: s != Passthrough ==>
              TicketOf(Config(Next(w, a), uid).value, s) == TicketOf(Config(w, uid).value, s)
    ensures !(a.Pass? && a.uid == uid) ==>
              Config(Next(w, a), uid).value.passthrough == Config(w, uid).value.passthrough
    ensures !((a.Mark? || a.Remove?) && a.uid == uid)
  {
  }

  /** Files that are there stay, unless they are used or removed. */
  lemma FileStays(w: World, a: Action, t: Ticket)
    requires Enabled(w, a) && !a.Issue? && t in w.tickets
    ensures t in Next(w, a).tickets ==> Next(w, a).tickets[t] == w.tickets[t]
    ensures t !in Next(w, a).tickets <==>
              || a == Use(t)
              || (a.Mark? && t in TaskTickets(w, a.uid) + a.held)
              || (a.Remove? && t in TaskTickets(w, a.uid))
  {
  }

  lemma NoNewFile(w: World, a: Action, t: Ticket)
    requires Enabled(w, a) && !a.Issue? && t !in w.tickets
    ensures t in Next(w, a).tickets ==>
              a.Pass? && a.ticket == t && Next(w, a).tickets[t] == TicketFile(a.uid, Passthrough)
  {
  }

  /** The file of a ticket in its role, other than for passing through, goes when it is used, and does not come back. */
  lemma FileStep(w: World, a: Action, uid: Uid, s: Security)
    requires Enabled(w, a) && Gentle(w, a) && !a.Issue? && Open(Next(w, a), uid) && s != Passthrough
    ensures Open(w, uid)
    ensures HasFile(Next(w, a), uid, s) <==> HasFile(w, uid, s) && a != Use(TicketOf(Config(w, uid).value, s))
  {
    hide Next, Enabled;
    StillOpen(w, a, uid);
    var t := TicketOf(Config(w, uid).value, s);
    if t in w.tickets {
      FileStays(w, a, t);
    } else {
      NoNewFile(w, a, t);
    }
  }

  lemma PassStep(w: World, a: Action, uid: Uid)
    requires Enabled(w, a) && Gentle(w, a) && !a.Issue? && Open(Next(w, a), uid)
    requires Config(w, uid).Some? && Config(w, uid).value.passthrough != "" ==> HasFile(w, uid, Passthrough)
    ensures Config(Next(w, a), uid).value.passthrough != "" ==> HasFile(Next(w, a), uid, Passthrough)
  {
    StillOpen(w, a, uid);
    if !(a.Pass? && a.uid == uid) && Config(w, uid).value.passthrough != "" {
      FileStays(w, a, Config(w, uid).value.passthrough);
    }
  }

  lemma OthersServe(w: World, a: Action, uid: Uid, executed: bool, monitored: bool)
    requires Enabled(w, a) && Gentle(w, a) && !a.Issue? && InService(w, uid, executed, monitored)
    ensures InService(Next(w, a), uid, UsedBy(a, uid, Execution(w, uid), executed),
                      UsedBy(a, uid, Monitoring(w, uid), monitored))
  {
    if Open(Next(w, a), uid) {
      StillOpen(w, a, uid);
      FileStep(w, a, uid, Admin);
      FileStep(w, a, uid, Execute);
      FileStep(w, a, uid, Monitor);
      PassStep(w, a, uid);
      hide Next, Enabled, HasFile;
      var r := Config(w, uid).value;
      assert a != Use(r.admin) by { AdminIsNotUsed(w, a, uid); }
    }
  }

  lemma AdminIsNotUsed(w: World, a: Action, uid: Uid)
    requires Enabled(w, a) && HasFile(w, uid, Admin)
    ensures a != Use(Config(w, uid).value.admin)
  {
  }

  /** Equal tickets: the file written first is overwritten. */
  lemma EqualTicketsBreak(w: World, a: Action)
    requires a.Issue? && Enabled(w, a) && Clear(w, a) && !Gentle(w, a)
    ensures !InService(Next(w, a), a.uid, false, false)
  {
    NoMonitorIsNoTicket();
    var w' := Next(w, a);
    assert Config(w', a.uid) == Some(Created(a.admin, a.monitor, a.execution, a.now));
    assert w'.tickets[a.execution] == TicketFile(a.uid, Execute);
  }

  /** A cleaning that takes a file of another task leaves that task open without it. */
  lemma ForeignFileBreaks(w: World, a: Action) returns (uid: Uid)
    requires AllLive(w) && Enabled(w, a) && !Gentle(w, a) && !a.Issue?
    ensures Open(w, uid) && Config(Next(w, a), uid) == Config(w, uid) && !a.Use?
    ensures forall e, m :: InService(w, uid, e, m) ==> !InService(Next(w, a), uid, e, m)
  {
    var names := TaskTickets(w, a.uid) + if a.Mark? then a.held else [];
    var t :| t in names && t in w.tickets && w.tickets[t].uid != a.uid;
    uid := w.tickets[t].uid;
    assert Live(w, t);
    assert t !in Next(w, a).tickets;
    assert Config(Next(w, a), uid) == Config(w, uid);
    LostFile(w, Next(w, a), uid, t);
  }

  lemma LostFile(w: World, w': World, uid: Uid, t: Ticket)
    requires t in w.tickets && Live(w, t) && w.tickets[t].uid == uid
    requires Config(w', uid) == Config(w, uid) && t !in w'.tickets
    ensures Open(w, uid)
    ensures forall e, m :: InService(w, uid, e, m) ==> !InService(w', uid, e, m)
  {
    NoMonitorIsNoTicket();
    var s := w.tickets[t].security;
    assert HasFile(w, uid, s) && !HasFile(w', uid, s);
    hide HasFile;
  }

  lemma Tickets(log: Log, a: Action, uid: Uid, t: Ticket)
    ensures UsedSince(log + [a], uid, t) == UsedBy(a, uid, t, UsedSince(log, uid, t))
  {
    assert (log + [a])[..|log|] == log;
  }

  lemma OpenKeepsTickets(w: World, a: Action, uid: Uid)
    requires Enabled(w, a) && !a.Issue? && Open(Next(w, a), uid)
    ensures Open(w, uid)
    ensures Execution(Next(w, a), uid) == Execution(w, uid) && Monitoring(Next(w, a), uid) == Monitoring(w, uid)
  {
    StillOpen(w, a, uid);
    assert TicketOf(Config(Next(w, a), uid).value, Execute) == TicketOf(Config(w, uid).value, Execute);
    assert TicketOf(Config(Next(w, a), uid).value, Monitor) == TicketOf(Config(w, uid).value, Monitor);
  }

  lemma GentleServes(log: Log, a: Action)
    requires Served(log) && Enabled(After(log), a) && Clear(After(log), a) && Gentle(After(log), a)
    ensures Served(log + [a])
  {
    hide Next, Enabled, InService, UsedSince, Gentle, Clear;
    var w, w' := After(log), Next(After(log), a);
    Then(log, a);
    forall uid
      ensures InService(w', uid, UsedSince(log + [a], uid, Execution(w', uid)),
                        UsedSince(log + [a], uid, Monitoring(w', uid)))
    {
      var executed, monitored := UsedSince(log, uid, Execution(w, uid)), UsedSince(log, uid, Monitoring(w, uid));
      assert InService(w, uid, executed, monitored);
      Tickets(log, a, uid, Execution(w', uid));
      Tickets(log, a, uid, Monitoring(w', uid));
      if a.Issue? {
        IssueServes(w, a, uid, executed, monitored);
      } else {
        OthersServe(w, a, uid, executed, monitored);
        if Open(w', uid) {
          OpenKeepsTickets(w, a, uid);
        } else {
          ClosedServes(w', uid);
        }
      }
    }
  }

  lemma ClosedServes(w: World, uid: Uid)
    requires !Open(w, uid)
    ensures forall e, m :: InService(w, uid, e, m)
  {
  }

  lemma RoughBreaks(log: Log, a: Action)
    requires Served(log) && AllLive(After(log)) && Enabled(After(log), a) && Clear(After(log), a)
    requires !Gentle(After(log), a)
    ensures !Served(log + [a])
  {
    hide Next, Enabled, InService, Gentle, Clear, AllLive;
    var w, w' := After(log), Next(After(log), a);
    Then(log, a);
    var uid: Uid;
    if a.Issue? {
      uid := a.uid;
      EqualTicketsBreak(w, a);
      Tickets(log, a, uid, Execution(w', uid));
      Tickets(log, a, uid, Monitoring(w', uid));
    } else {
      uid := ForeignFileBreaks(w, a);
      var executed, monitored := UsedSince(log, uid, Execution(w, uid)), UsedSince(log, uid, Monitoring(w, uid));
      assert InService(w, uid, executed, monitored);
      Tickets(log, a, uid, Execution(w, uid));
      Tickets(log, a, uid, Monitoring(w, uid));
    }
    assert !InService(w', uid, UsedSince(log + [a], uid, Execution(w', uid)),
                      UsedSince(log + [a], uid, Monitoring(w', uid)));
  }

  /**
   * Where no control directory is removed during creation, at every moment every open task has the files of its admin
   * and passthrough tickets, and those of its monitor and execution tickets just until they are used, if and only if
   * the tickets drawn for a task always differ and no cleaning takes a file of another task.
   */
  lemma {:induction false} ServedIffGentle(log: Log)
    requires Legal(log) && AlwaysCareful(log)
    ensures AlwaysServed(log) <==> AlwaysGentle(log)
    ensures AlwaysServed(log) ==> Served(log)
  {
    hide Next, Enabled, Gentle, AllLive, OwnDirectories, Careful, Served;
    if log == [] {
      assert Served([]) by { NothingServed(); }
    } else {
      var before, a := log[..|log| - 1], log[|log| - 1];
      assert log == before + [a];
      ServedIffGentle(before);
      CarefulState(before);
      DirectoriesAreClear(After(before), a);
      if Served(before) {
        if Gentle(After(before), a) {
          GentleServes(before, a);
        } else {
          RoughBreaks(before, a);
        }
      }
    }
  }

  lemma NothingServed()
    ensures Served([])
  {
  }

  /** Monitors are registered by who used the monitor ticket. */
  predicate ByTicket(log: Log) {
    log == [] ||
    var before, a := log[..|log| - 1], log[|log| - 1];
    && ByTicket(before)
    && (a.Change? && a.update.Monitorize? ==> UsedSince(before, a.uid, Monitoring(After(before), a.uid)))
  }

  lemma {:induction false} MonitorUsedTicket(log: Log, uid: Uid)
    requires Legal(log) && ByTicket(log) && Open(After(log), uid) && Config(After(log), uid).value.monitorPid != 0
    ensures UsedSince(log, uid, Monitoring(After(log), uid))
  {
    var before, a := log[..|log| - 1], log[|log| - 1];
    assert log == before + [a];
    Tickets(before, a, uid, Monitoring(After(log), uid));
    var w := After(before);
    if !(a.Issue? && a.uid == uid) {
      MonitorStep(w, a, uid);
      if Config(w, uid).value.monitorPid != 0 {
        MonitorUsedTicket(before, uid);
      }
    }
  }

  lemma MonitorStep(w: World, a: Action, uid: Uid)
    requires Enabled(w, a) && Open(Next(w, a), uid) && !(a.Issue? && a.uid == uid)
    requires Config(Next(w, a), uid).value.monitorPid != 0
    ensures Open(w, uid) && Monitoring(Next(w, a), uid) == Monitoring(w, uid)
    ensures Config(w, uid).value.monitorPid != 0 || (a.Change? && a.uid == uid && a.update.Monitorize?)
  {
  }

  /** Every ticket of an open task is accepted when it is presented first, and the lasting ones ever after. */
  lemma FirstPresentation(log: Log, uid: Uid, s: Security, pid: Pid)
    requires Legal(log) && AlwaysCareful(log) && AlwaysGentle(log) && Open(After(log), uid) && pid != 0
    ensures
      var t := TicketOf(Config(After(log), uid).value, s);
      && (s == Admin || (s == Passthrough && t != "") || (s == Execute && !UsedSince(log, uid, t)) ==>
            Entered(After(log), t, pid, true).0)
      && (s == Monitor && t != NO_MONITOR && !UsedSince(log, uid, t) && ByTicket(log) ==>
            Entered(After(log), t, pid, true).0)
  {
    ServedIffGentle(log);
    CarefulState(log);
    hide After, AllLive, Entered, HasFile, Legal, AlwaysCareful, AlwaysGentle, ByTicket;
    var w := After(log);
    var t := TicketOf(Config(w, uid).value, s);
    assert InService(w, uid, UsedSince(log, uid, Execution(w, uid)), UsedSince(log, uid, Monitoring(w, uid)));
    LiveTicketEnters(w, t, pid, pid);
    if HasFile(w, uid, s) {
      FileOf(w, uid, s);
      if s == Monitor && ByTicket(log) && Config(w, uid).value.monitorPid != 0 {
        MonitorUsedTicket(log, uid);
      }
    }
  }

  lemma FileOf(w: World, uid: Uid, s: Security)
    requires HasFile(w, uid, s)
    ensures var t := TicketOf(Config(w, uid).value, s); t in w.tickets && w.tickets[t] == TicketFile(uid, s)
  {
  }

  /** One block more. */
  lemma Longer(log: Log, a: Action)
    ensures After(log + [a]) == Next(After(log), a)
    ensures Legal(log + [a]) <==> Legal(log) && Enabled(After(log), a)
    ensures AlwaysCareful(log + [a]) <==> AlwaysCareful(log) && Careful(After(log), a)
    ensures AlwaysGentle(log + [a]) <==> AlwaysGentle(log) && Gentle(After(log), a)
  {
    hide Next, Enabled, Careful, Gentle;
    assert (log + [a])[..|log|] == log;
  }

  /** Tickets drawn for one task can be equal, of which the file written last remains. */
  lemma SameTicketTwice()
    ensures var log := [Select(1, 2000)] + [Issue(1, 2000, "1", Some("1"), "3", 5)];
            && Legal(log) && AlwaysCareful(log) && !AlwaysServed(log)
            && Open(After(log), 2000) && !HasFile(After(log), 2000, Admin)
  {
    var a, b := Select(1, 2000), Issue(1, 2000, "1", Some("1"), "3", 5);
    assert IsTicket("1") && IsTicket("3");
    var w := Next(Next(EMPTY, a), b);
    assert Config(w, 2000) == Some(Created("1", Some("1"), "3", 5));
    assert w.tickets["1"] == TicketFile(2000, Monitor);
    assert Enabled(Next(EMPTY, a), b) && !Gentle(Next(EMPTY, a), b);
    hide After, Legal, AlwaysCareful, AlwaysGentle;
    NoBlocks();
    assert [] + [a] == [a];
    Longer([], a);
    Longer([a], b);
    ServedIffGentle([a] + [b]);
  }

  lemma NoBlocks()
    ensures After([]) == EMPTY && Legal([]) && AlwaysCareful([]) && AlwaysGentle([])
  {
  }

  /** A used ticket can be drawn again for another task; cleaning the first task then removes the file of the second. */
  lemma ForeignTicketLost()
    ensures var log := [Select(1, 2000)] + [Issue(1, 2000, "1", None, "3", 5)] + [Use("3")]
                       + [Select(2, 2001)] + [Issue(2, 2001, "4", None, "3", 6)] + [Remove(2000)];
            && Legal(log) && AlwaysCareful(log) && !AlwaysServed(log)
            && Open(After(log), 2001) && !HasFile(After(log), 2001, Execute) && !UsedSince(log, 2001, "3")
  {
    var a, b, c := Select(1, 2000), Issue(1, 2000, "1", None, "3", 5), Use("3");
    var d, e, f := Select(2, 2001), Issue(2, 2001, "4", None, "3", 6), Remove(2000);
    var w := Next(Next(Next(EMPTY, a), b), c);
    FirstSteps(w, a, b, c);
    ForeignSteps(w, d, e, f);
    hide Next, Enabled, Careful, HasFile, Legal, After, AlwaysCareful, AlwaysGentle, AlwaysServed, Gentle, UsedSince;
    NoBlocks();
    assert [] + [a] == [a];
    Longer([], a);
    Longer([a], b);
    Longer([a] + [b], c);
    Longer([a] + [b] + [c], d);
    Longer([a] + [b] + [c] + [d], e);
    Tickets([a] + [b] + [c] + [d], e, 2001, "3");
    Longer([a] + [b] + [c] + [d] + [e], f);
    Tickets([a] + [b] + [c] + [d] + [e], f, 2001, "3");
    ServedIffGentle([a] + [b] + [c] + [d] + [e] + [f]);
  }

  lemma FirstSteps(w: World, a: Action, b: Action, c: Action)
    requires a == Select(1, 2000) && b == Issue(1, 2000, "1", None, "3", 5) && c == Use("3")
    requires w == Next(Next(Next(EMPTY, a), b), c)
    ensures Enabled(EMPTY, a) && Enabled(Next(EMPTY, a), b) && Enabled(Next(Next(EMPTY, a), b), c)
    ensures Careful(EMPTY, a) && Careful(Next(EMPTY, a), b) && Careful(Next(Next(EMPTY, a), b), c)
    ensures w == World(map["1" := TicketFile(2000, Admin)], map[2000 := Some(Created("1", None, "3", 5))], map[])
  {
    assert IsTicket("1") && IsTicket("3");
    var w2 := Next(Next(EMPTY, a), b);
    assert w2.tickets == map["1" := TicketFile(2000, Admin), "3" := TicketFile(2000, Execute)];
    assert w2.creating == map[];
    assert w.tickets == map["1" := TicketFile(2000, Admin)];
  }

  lemma ForeignSteps(w: World, d: Action, e: Action, f: Action)
    requires w == World(map["1" := TicketFile(2000, Admin)], map[2000 := Some(Created("1", None, "3", 5))], map[])
    requires d == Select(2, 2001) && e == Issue(2, 2001, "4", None, "3", 6) && f == Remove(2000)
    ensures Enabled(w, d) && Enabled(Next(w, d), e) && Enabled(Next(Next(w, d), e), f)
    ensures Careful(w, d) && Careful(Next(w, d), e) && Careful(Next(Next(w, d), e), f)
    ensures !Gentle(Next(Next(w, d), e), f)
    ensures var last := Next(Next(Next(w, d), e), f);
            Open(last, 2001) && !HasFile(last, 2001, Execute)
  {
    assert IsTicket("4") && IsTicket("3");
    var w2 := Next(Next(w, d), e);
    assert Config(w2, 2000) == Some(Created("1", None, "3", 5));
    assert Config(w2, 2001) == Some(Created("4", None, "3", 6));
    assert w2.creating == map[];
    assert "3" in TaskTickets(w2, 2000) && w2.tickets["3"] == TicketFile(2001, Execute);
  }
}
