/** The object that a process holds of a task, and the control files that these objects share. */
module ProcessMonitor {
  import opened Bytes
  import opened TaskRecord
  import TP = TicketProtocol
  import TL = TaskLifecycle

  const RANGE_MIN := 100
  const UID_MIN: Uid := 1000
  const UID_MAX: Uid := 64 * 1024 - 5900
  const LOG_DEBUG := 7

  datatype Kind = NoKind | Known(security: Security)

  /** The control directory, with the parts of the jail and the process table that the tasks depend on. */
  class ControlFiles {
    const minPrisoner: Uid
    const maxPrisoner: Uid
    const homeOwner: Uid
    const logLevel: int
    var tickets: map<Ticket, TP.TicketFile>
    var tasks: map<Uid, Option<Record>>
    var homes: set<Uid>
    var tmpOwners: set<Uid>
    var compilations: map<Uid, seq<byte>>
    var executions: map<Uid, seq<byte>>
    var programs: set<Uid>
    var dead: set<Pid>
    var now: Time
    ghost var creating: map<Pid, Uid>

    ghost function World(): TP.World
      reads this
    {
      TP.World(tickets, tasks, creating)
    }

    ghost predicate Valid()
      reads this
    {
      forall t <- tickets :: IsTicket(t)
    }

    predicate InRange(uid: Uid) {
      uid != homeOwner && minPrisoner <= uid <= maxPrisoner
    }

    ghost function Facts(uid: Uid): TL.Facts
      reads this
    {
      TL.Facts(TP.Config(World(), uid), uid in compilations, uid in executions, uid in programs, dead, now)
    }

    /** Removal of a ticket file, if the name is one and the file is there. */
    method RemoveTicketFile(t: Ticket)
      requires Valid()
      modifies this`tickets
      ensures Valid() && tickets == TP.Dropped(old(tickets), [t])
    {
      if t != "" {
        tickets := map u | u in tickets && u != t :: tickets[u];
      }
    }

    /** Removal of the tickets of a record, in its order. */
    method RemoveTickets(names: seq<Ticket>)
      requires Valid()
      modifies this`tickets
      ensures Valid() && tickets == TP.Dropped(old(tickets), names)
    {
      for i := 0 to |names|
        invariant Valid() && tickets == TP.Dropped(old(tickets), names[..i])
      {
        RemoveTicketFile(names[i]);
      }
      assert names[..|names|] == names;
    }

    /** Home directories are kept at log levels above debug. */
    function Removable(uid: Uid): set<Uid> {
      if logLevel <= LOG_DEBUG then {uid} else {}
    }

    /** Removal of the files of a task by whoever holds its lock and the global one. */
    method CleanPrisonerFilesLocked(uid: Uid)
      requires Valid()
      modifies this
      ensures Valid() && World() == TP.Next(old(World()), TP.Remove(uid))
      ensures homes == old(homes) - Removable(uid) && programs == old(programs) - Removable(uid)
      ensures tmpOwners == old(tmpOwners) - {uid}
      ensures compilations == old(compilations) - {uid} && executions == old(executions) - {uid}
      ensures dead == old(dead) && now == old(now)
    {
      var listed: seq<Ticket> := ["", "", "", ""];
      if uid in tasks && tasks[uid].Some? {
        var data := tasks[uid].value;
        tasks := tasks[uid := Some(data.(cleaning := true))];
        listed := Listed(data);
      }
      RemoveTickets(listed);
      RemoveDirectories(uid);
      NoNames(old(tickets));
    }

    /** Removal of the home directory, of what the user has in /tmp, and of the control directory. */
    method RemoveDirectories(uid: Uid)
      modifies this`homes, this`programs, this`tmpOwners, this`tasks, this`compilations, this`executions
      ensures homes == old(homes) - Removable(uid) && programs == old(programs) - Removable(uid)
      ensures tmpOwners == old(tmpOwners) - {uid} && tasks == old(tasks) - {uid}
      ensures compilations == old(compilations) - {uid} && executions == old(executions) - {uid}
    {
      if logLevel <= LOG_DEBUG {
        homes, programs := homes - {uid}, programs - {uid};
      }
      tmpOwners := tmpOwners - {uid};
      tasks, compilations, executions := tasks - {uid}, compilations - {uid}, executions - {uid};
    }
  }

  lemma Remainder(y: nat, n: nat, q: nat, r: nat)
    requires r < n && y == n * q + r
    ensures y % n == r
  {
    var d := y / n - q;
    assert n * d == r - y % n;
    AtLeastOne(n, d);
  }

  lemma AtLeastOne(n: nat, d: int)
    ensures d >= 1 ==> n * d >= n
    ensures d <= -1 ==> n * d <= 0 - n
  {
  }

  lemma NoNames(tickets: map<Ticket, TP.TicketFile>)
    requires forall t <- tickets :: IsTicket(t)
    ensures TP.Dropped(tickets, ["", "", "", ""]) == TP.Dropped(tickets, [])
  {
  }

  class ProcessMonitor {
    const files: ControlFiles
    const pid: Pid
    var prisoner: Uid
    var kind: Kind
    var executionLimits: Limits
    var adminticket: Ticket
    var executionticket: Ticket
    var monitorticket: Ticket
    var httpPassthroughticket: Ticket
    var localwebserver: string
    var cleaning: bool
    var startTime: Time
    var interactive: bool
    var lang: string
    var compilerPid: Pid
    var runnerPid: Pid
    var monitorPid: Pid

    /** An object that stands for no task yet. */
    constructor (f: ControlFiles, p: Pid)
      ensures files == f && pid == p && prisoner == -1 && kind == NoKind
      ensures Fields() == Record(NO_LIMITS, "", "", "", "", "", false, 0, false, "", 0, 0, 0)
    {
      files, pid, prisoner, kind := f, p, -1, NoKind;
      executionLimits, adminticket, executionticket, monitorticket, httpPassthroughticket := NO_LIMITS, "", "", "", "";
      localwebserver, cleaning, startTime, interactive, lang := "", false, 0, false, "";
      compilerPid, runnerPid, monitorPid := 0, 0, 0;
    }

    function Fields(): Record
      reads this
    {
      Record(executionLimits, adminticket, executionticket, monitorticket, httpPassthroughticket, localwebserver,
             cleaning, startTime, interactive, lang, compilerPid, runnerPid, monitorPid)
    }

    /** The fields are read from the configuration; a task being cleaned or without configuration is an error. */
    method ReadInfo() returns (ok: bool)
      modifies this
      ensures prisoner == old(prisoner) && kind == old(kind)
      ensures ok <==> TP.Open(files.World(), prisoner)
      ensures Fields() == if TP.Config(files.World(), prisoner).Some? then TP.Config(files.World(), prisoner).value
                          else old(Fields())
    {
      if prisoner !in files.tasks || files.tasks[prisoner].None? {
        return false;
      }
      Load(files.tasks[prisoner].value);
      ok := !cleaning;
    }

    method Load(data: Record)
      modifies this
      ensures prisoner == old(prisoner) && kind == old(kind) && Fields() == data
    {
      executionLimits := data.limits;
      SetTickets(data.admin, data.monitor, data.execution, data.passthrough);
      localwebserver, cleaning := data.localWebServer, data.cleaning;
      startTime, interactive, lang := data.startTime, data.interactive, data.lang;
      SetProcesses(data.compilerPid, data.runnerPid, data.monitorPid);
    }

    method SetTickets(admin: Ticket, monitor: Ticket, execution: Ticket, passthrough: Ticket)
      modifies this`adminticket, this`monitorticket, this`executionticket, this`httpPassthroughticket
      ensures adminticket == admin && monitorticket == monitor
      ensures executionticket == execution && httpPassthroughticket == passthrough
    {
      adminticket, monitorticket, executionticket, httpPassthroughticket := admin, monitor, execution, passthrough;
    }

    method SetProcesses(compiler: Pid, runner: Pid, monitor: Pid)
      modifies this`compilerPid, this`runnerPid, this`monitorPid
      ensures compilerPid == compiler && runnerPid == runner && monitorPid == monitor
    {
      compilerPid, runnerPid, monitorPid := compiler, runner, monitor;
    }

    /** The fields are written; without the control directory that is an error. */
    method WriteInfo() returns (ok: bool)
      modifies files`tasks
      ensures ok <==> prisoner in old(files.tasks)
      ensures files.tasks == if ok then old(files.tasks)[prisoner := Some(Fields())] else old(files.tasks)
    {
      ok := prisoner in files.tasks;
      if ok {
        files.tasks := files.tasks[prisoner := Some(Fields())];
      }
    }

    /** What a setter does to the shared files and whether it succeeds. */
    twostate predicate Changes(u: Update, ok: bool)
      reads this, files
    {
      var w := old(files.World());
      && (ok <==> TP.Open(w, prisoner) && !Refused(TP.Config(w, prisoner).value, u))
      && files.World() == if ok then TP.Next(w, TP.Change(prisoner, u)) else w
    }

    method SetRunner() returns (ok: bool)
      requires kind != NoKind
      modifies this, files`tasks
      ensures prisoner == old(prisoner) && kind == old(kind)
      ensures if kind == Known(Monitor) then ok && files.World() == old(files.World())
              else Changes(Update.SetRunner(pid, files.now), ok)
    {
      if kind == Known(Monitor) {
        return true;
      }
      ok := ReadInfo();
      if !ok {
        return;
      }
      startTime := files.now;
      runnerPid := pid;
      ok := WriteInfo();
    }

    method SetCompiler() returns (ok: bool)
      requires kind != NoKind
      modifies this, files`tasks
      ensures prisoner == old(prisoner) && kind == old(kind)
      ensures if kind == Known(Monitor) then ok && files.World() == old(files.World())
              else Changes(Update.SetCompiler(pid, files.now), ok)
    {
      if kind == Known(Monitor) {
        return true;
      }
      ok := ReadInfo();
      if !ok {
        return;
      }
      startTime := files.now;
      compilerPid := pid;
      ok := WriteInfo();
    }

    method Monitorize() returns (ok: bool)
      requires kind != NoKind
      modifies this, files`tasks
      ensures prisoner == old(prisoner) && kind == old(kind)
      ensures if kind != Known(Monitor) then ok && files.World() == old(files.World())
              else Changes(Update.Monitorize(pid), ok)
    {
      if kind != Known(Monitor) {
        return true;
      }
      ok := ReadInfo();
      if !ok || monitorPid != 0 {
        return false;
      }
      monitorPid := pid;
      ok := WriteInfo();
    }

    method SetExtraInfo(el: Limits, ri: bool, language: string) returns (ok: bool)
      modifies this, files`tasks
      ensures prisoner == old(prisoner) && kind == old(kind)
      ensures Changes(Update.SetExtraInfo(el, ri, language), ok)
    {
      ok := ReadInfo();
      if !ok {
        return;
      }
      executionLimits, interactive, lang := el, ri, language;
      ok := WriteInfo();
    }

    /** The address of the local web server: the one on record, else the one in the file of the task, if it is there. */
    method GetLocalWebServer(file: Option<string>) returns (ok: bool, address: string)
      modifies this, files`tasks
      ensures prisoner == old(prisoner) && kind == old(kind)
      ensures ok <==> TP.Open(old(files.World()), prisoner)
      ensures ok ==>
                var r := TP.Config(old(files.World()), prisoner).value;
                if r.localWebServer == "" && file.Some?
                then address == file.value
                     && files.World() == TP.Next(old(files.World()), TP.Change(prisoner, SetLocalWebServer(file.value)))
                else address == r.localWebServer && files.World() == old(files.World())
      ensures !ok ==> files.World() == old(files.World())
    {
      address := "";
      ok := ReadInfo();
      if !ok {
        return;
      }
      if localwebserver == "" && file.Some? {
        localwebserver := file.value;
        ok := WriteInfo();
      }
      address := localwebserver;
    }

    /** A passthrough ticket: the one on record, else the first drawn that is no file yet. */
    method GetHttpPassthroughTicket(draws: seq<Ticket>) returns (ok: bool, ticket: Ticket)
      requires files.Valid()
      requires exists k :: 0 <= k < |draws| && draws[k] !in files.tickets
      requires forall t <- draws :: IsTicket(t)
      modifies this, files
      ensures files.Valid() && prisoner == old(prisoner) && kind == old(kind)
      ensures ok <==> TP.Open(old(files.World()), prisoner)
      ensures !ok ==> files.World() == old(files.World())
      ensures ok && TP.Config(old(files.World()), prisoner).value.passthrough != "" ==>
                && ticket == TP.Config(old(files.World()), prisoner).value.passthrough
                && files.World() == old(files.World())
      ensures ok && TP.Config(old(files.World()), prisoner).value.passthrough == "" ==>
                && TP.Enabled(old(files.World()), TP.Pass(prisoner, ticket))
                && files.World() == TP.Next(old(files.World()), TP.Pass(prisoner, ticket))
    {
      ticket := "";
      ok := ReadInfo();
      if !ok {
        return;
      }
      if httpPassthroughticket == "" {
        var i := 0;
        httpPassthroughticket := draws[0];
        while httpPassthroughticket in files.tickets
          invariant i < |draws| && httpPassthroughticket == draws[i]
          invariant forall k :: 0 <= k < i ==> draws[k] in files.tickets
          invariant prisoner == old(prisoner) && kind == old(kind) && files.World() == old(files.World())
          invariant Fields() == TP.Config(old(files.World()), prisoner).value.(passthrough := draws[i])
          decreases |draws| - i
        {
          i := i + 1;
          httpPassthroughticket := draws[i];
        }
        files.tickets := files.tickets[httpPassthroughticket := TP.TicketFile(prisoner, Passthrough)];
        ok := WriteInfo();
      }
      ticket := httpPassthroughticket;
    }

    /** The first locked block of cleanTask: the task is marked and its tickets are removed, as are those held here. */
    method MarkForCleaning()
      requires files.Valid()
      modifies this`cleaning, files`tasks, files`tickets
      ensures files.Valid()
      ensures files.World() == TP.Next(old(files.World()), TP.Mark(prisoner, old(Listed(Fields()))))
    {
      cleaning := true;
      var data: seq<Ticket> := ["", "", "", ""];
      if prisoner in files.tasks && files.tasks[prisoner].Some? {
        var r := files.tasks[prisoner].value;
        files.tasks := files.tasks[prisoner := Some(r.(cleaning := true))];
        data := Listed(r);
      }
      files.RemoveTickets(data);
      files.RemoveTickets([adminticket, executionticket, monitorticket, httpPassthroughticket]);
      NoNames(old(files.tickets));
      DropBoth(old(files.tickets), data, Listed(Fields()));
      DropBoth(old(files.tickets), [], Listed(Fields()));
    }

    /** The task is marked; its files are removed if all the processes of its user could be stopped. */
    method CleanTask(stopped: bool)
      requires files.Valid()
      modifies this`cleaning, files
      ensures files.Valid()
      ensures var w := old(files.World());
              files.World() ==
                if prisoner == -1 then w
                else if stopped then TP.Next(TP.Next(w, TP.Mark(prisoner, old(Listed(Fields())))), TP.Remove(prisoner))
                else TP.Next(w, TP.Mark(prisoner, old(Listed(Fields()))))
      ensures files.homes == old(files.homes) - if stopped && prisoner != -1 then files.Removable(prisoner) else {}
    {
      if prisoner == -1 {
        return;
      }
      MarkForCleaning();
      if stopped {
        files.CleanPrisonerFilesLocked(prisoner);
      }
    }

    predicate Alive(p: Pid)
      reads files
    {
      p !in files.dead
    }

    /** The state of the task. A task past its time limits is cleaned. */
    method GetState(stopped: bool) returns (state: TL.State)
      requires files.Valid() && prisoner != -1
      modifies this, files
      ensures files.Valid() && prisoner == old(prisoner) && kind == old(kind)
      ensures state == TL.GetState(old(files.Facts(prisoner))).state
      ensures var w := old(files.World());
              if !TL.GetState(old(files.Facts(prisoner))).cleans then files.World() == w
              else
                && TP.Open(w, prisoner)
                && var marked := TP.Next(w, TP.Mark(prisoner, Listed(TP.Config(w, prisoner).value)));
                   files.World() == if stopped then TP.Next(marked, TP.Remove(prisoner)) else marked
    {
      if prisoner !in files.tasks || files.tasks[prisoner].None? {
        return TL.Stopped;
      }
      var ok := ReadInfo();
      if !ok {
        return TL.Stopped;
      }
      if compilerPid == 0 {
        return TL.Starting;
      }
      var currentTime := files.now;
      if startTime > currentTime || startTime == 0 {
        return TL.Starting;
      }
      var elapsedTime := currentTime - startTime;
      var tlimit := startTime + executionLimits.maxtime + TL.HARVEST_TIMEOUT;
      if tlimit < currentTime {
        CleanTask(stopped);
        return TL.Stopped;
      }
      var aliveCompiler := Alive(compilerPid);
      if aliveCompiler && runnerPid == 0 {
        return TL.Compiling;
      }
      if monitorPid == 0 && HasMonitorTicket() && elapsedTime > TL.MONITOR_START_TIMEOUT {
        CleanTask(stopped);
        return TL.Stopped;
      }
      if runnerPid == 0 {
        if monitorPid == 0 && !HasMonitorTicket() && elapsedTime > TL.MONITOR_START_TIMEOUT {
          CleanTask(stopped);
          return TL.Stopped;
        }
        if interactive {
          return TL.BeforeRunning;
        }
        if prisoner in files.compilations {
          return if prisoner in files.programs then TL.Compiling else TL.Retrieve;
        }
        return TL.Stopped;
      }
      if Alive(runnerPid) {
        return TL.Running;
      }
      if interactive {
        return TL.Stopped;
      }
      if prisoner in files.executions {
        return TL.Retrieve;
      }
      return TL.Stopped;
    }

    predicate HasMonitorTicket()
      reads this
    {
      monitorticket != NO_MONITOR
    }

    /** The output of the compilation is kept once. */
    method SetCompilationOutput(compilation: seq<byte>) returns (ok: bool)
      modifies this, files`compilations
      ensures prisoner == old(prisoner) && kind == old(kind)
      ensures ok <==> TP.Open(files.World(), prisoner) && prisoner !in old(files.compilations)
      ensures files.compilations
           == if ok then old(files.compilations)[prisoner := compilation] else old(files.compilations)
    {
      ok := ReadInfo();
      if !ok || prisoner in files.compilations {
        return false;
      }
      files.compilations := files.compilations[prisoner := compilation];
    }

    /** The output of the execution is kept once, and only beside that of the compilation. */
    method SetExecutionOutput(execution: seq<byte>, executed: bool) returns (ok: bool)
      modifies this, files`executions
      ensures prisoner == old(prisoner) && kind == old(kind)
      ensures ok <==> && TP.Open(files.World(), prisoner) && prisoner in files.compilations
                      && (executed ==> prisoner !in old(files.executions))
      ensures files.executions == if ok && executed then old(files.executions)[prisoner := execution]
                                  else old(files.executions)
    {
      ok := ReadInfo();
      if !ok || prisoner !in files.compilations {
        return false;
      }
      if executed {
        if prisoner in files.executions {
          return false;
        }
        files.executions := files.executions[prisoner := execution];
      }
    }

    /** How many UIDs the configuration allows. */
    function Range(): nat {
      if files.maxPrisoner < files.minPrisoner then 0 else files.maxPrisoner - files.minPrisoner + 1
    }

    /** The UID of a try: the random number drawn, moved by the number of the try, within the range. */
    function Candidate(draw: nat, i: nat): Uid {
      if Range() == 0 then files.minPrisoner else files.minPrisoner + (draw + i) % Range()
    }

    /** Whatever the try, the candidates are just the UIDs of the range, each for some number drawn. */
    lemma CandidatesAreTheRange(i: nat, uid: Uid)
      requires Range() > 0
      ensures files.minPrisoner <= uid <= files.maxPrisoner <==> exists draw: nat :: Candidate(draw, i) == uid
    {
      var n := Range();
      if files.minPrisoner <= uid <= files.maxPrisoner {
        var offset := uid - files.minPrisoner;
        var draw := offset + (n - i % n);
        assert draw + i == n * (i / n + 1) + offset;
        Remainder(draw + i, n, i / n + 1, offset);
        assert Candidate(draw, i) == uid;
      }
    }

    /** The UIDs without control directory among the first tries. */
    function Free(draws: seq<nat>, tries: nat, tasks: map<Uid, Option<Record>>): set<Uid>
      requires tries <= |draws|
    {
      set i | 0 <= i < tries && Candidate(draws[i], i) !in tasks :: Candidate(draws[i], i)
    }

    /**
     * The first candidate is selected that has no control directory and no home directory; its directories are made. A
     * candidate with only a home directory loses it, with what it has in /tmp, and its control directory is given back.
     * There are as many tries as UIDs, each with a number drawn.
     */
    method SelectPrisoner(draws: seq<nat>) returns (ok: bool, tries: nat)
      requires files.Valid() && |draws| == Range() && pid !in files.creating
      modifies this`prisoner, files`tasks, files`homes, files`tmpOwners, files`programs, files`creating
      ensures files.Valid() && tries <= |draws|
      ensures forall i :: 0 <= i < tries ==>
                Candidate(draws[i], i) in old(files.tasks) || Candidate(draws[i], i) in old(files.homes)
      ensures if ok then
                && tries < |draws| && prisoner == Candidate(draws[tries], tries)
                && files.InRange(prisoner) && UID_MIN <= prisoner <= UID_MAX
                && (prisoner !in old(files.homes) || prisoner in Free(draws, tries, old(files.tasks)))
                && TP.Enabled(old(files.World()), TP.Select(pid, prisoner))
                && files.World() == TP.Next(old(files.World()), TP.Select(pid, prisoner))
              else
                && (tries == |draws| || Candidate(draws[tries], tries) == files.homeOwner
                    || |draws| < RANGE_MIN || files.minPrisoner < UID_MIN || files.maxPrisoner > UID_MAX)
                && files.World() == old(files.World())
      ensures files.homes == old(files.homes) - Free(draws, tries, old(files.tasks)) + if ok then {prisoner} else {}
      ensures files.tmpOwners == old(files.tmpOwners) - Free(draws, tries, old(files.tasks))
      ensures files.programs == old(files.programs) - Free(draws, tries, old(files.tasks))
    {
      tries := 0;
      var range := files.maxPrisoner - files.minPrisoner + 1;
      if range < RANGE_MIN || files.minPrisoner < UID_MIN || files.maxPrisoner > UID_MAX {
        return false, tries;
      }
      while tries < range
        invariant tries <= range && files.World() == old(files.World())
        invariant forall i :: 0 <= i < tries ==>
                    Candidate(draws[i], i) in old(files.tasks) || Candidate(draws[i], i) in old(files.homes)
        invariant files.homes == old(files.homes) - Free(draws, tries, old(files.tasks))
        invariant files.tmpOwners == old(files.tmpOwners) - Free(draws, tries, old(files.tasks))
        invariant files.programs == old(files.programs) - Free(draws, tries, old(files.tasks))
      {
        var uid := Candidate(draws[tries], tries);
        if uid == files.homeOwner {
          return false, tries;
        }
        prisoner := uid;
        if uid !in files.tasks {
          files.tasks := files.tasks[uid := None];
          if uid !in files.homes {
            files.homes := files.homes + {uid};
            files.creating := files.creating[pid := uid];
            return true, tries;
          }
          files.homes, files.programs := files.homes - {uid}, files.programs - {uid};
          files.tmpOwners := files.tmpOwners - {uid};
          files.tasks := files.tasks - {uid};
          assert files.tasks == old(files.tasks);
        }
        OneMoreTry(draws, tries, old(files.tasks));
        tries := tries + 1;
      }
      return false, tries;
    }

    lemma OneMoreTry(draws: seq<nat>, tries: nat, tasks: map<Uid, Option<Record>>)
      requires tries < |draws|
      ensures var uid := Candidate(draws[tries], tries);
              Free(draws, tries + 1, tasks) == Free(draws, tries, tasks) + if uid in tasks then {} else {uid}
    {
      assert forall u :: u in Free(draws, tries, tasks) ==> u in Free(draws, tries + 1, tasks);
      var uid := Candidate(draws[tries], tries);
      assert uid !in tasks ==> uid in Free(draws, tries + 1, tasks);
    }

    /** The first tickets drawn of which none is a file yet. */
    method DrawTickets(draws: seq<(Ticket, Ticket, Ticket)>, withMonitor: bool)
      returns (admin: Ticket, monitor: Ticket, execution: Ticket)
      requires exists k :: 0 <= k < |draws| && AllNew(draws[k], withMonitor)
      ensures exists k :: 0 <= k < |draws| && draws[k] == (admin, monitor, execution)
                          && forall j :: 0 <= j < k ==> !AllNew(draws[j], withMonitor)
      ensures AllNew((admin, monitor, execution), withMonitor)
    {
      var i := 0;
      while !AllNew(draws[i], withMonitor)
        invariant i < |draws|
        invariant forall k :: 0 <= k < i ==> !AllNew(draws[k], withMonitor)
        decreases |draws| - i
      {
        i := i + 1;
      }
      admin, monitor, execution := draws[i].0, draws[i].1, draws[i].2;
      assert draws[i] == (admin, monitor, execution);
    }

    method WriteTickets(admin: Ticket, monitor: Ticket, execution: Ticket, withMonitor: bool)
      requires files.Valid() && IsTicket(admin) && IsTicket(monitor) && IsTicket(execution)
      modifies files`tickets
      ensures files.Valid()
      ensures files.tickets
           == TP.Issued(old(files.tickets), prisoner, admin, if withMonitor then Some(monitor) else None, execution)
    {
      files.tickets := files.tickets[admin := TP.TicketFile(prisoner, Admin)];
      if withMonitor {
        files.tickets := files.tickets[monitor := TP.TicketFile(prisoner, Monitor)];
      }
      files.tickets := files.tickets[execution := TP.TicketFile(prisoner, Execute)];
    }

    method BeginTask(admin: Ticket, monitor: Ticket, execution: Ticket, withMonitor: bool)
      requires localwebserver == "" && lang == "" && !cleaning
      modifies this
      ensures prisoner == old(prisoner) && kind == old(kind)
      ensures Fields() == Created(admin, if withMonitor then Some(monitor) else None, execution, files.now)
    {
      executionLimits := NO_LIMITS;
      SetTickets(admin, if withMonitor then monitor else NO_MONITOR, execution, "");
      startTime := files.now;
      interactive := !withMonitor;
      SetProcesses(0, 0, 0);
    }

    /**
     * New tickets for the selected UID, the first drawn of which none is a file yet, and its configuration; without a
     * monitor ticket when the task is for direct execution. It fails once the control directory is gone.
     */
    method IssueTickets(draws: seq<(Ticket, Ticket, Ticket)>, withMonitor: bool) returns (ok: bool)
      requires files.Valid() && pid in files.creating && files.creating[pid] == prisoner
      requires exists k :: 0 <= k < |draws| && AllNew(draws[k], withMonitor)
      requires forall d <- draws :: IsTicket(d.0) && IsTicket(d.1) && IsTicket(d.2)
      requires localwebserver == "" && lang == "" && !cleaning
      modifies this, files`tickets, files`tasks, files`creating
      ensures files.Valid() && prisoner == old(prisoner)
      ensures ok <==> prisoner in old(files.tasks)
      ensures kind == Known(Admin)
      ensures var issue := TP.Issue(pid, prisoner, adminticket, if withMonitor then Some(monitorticket) else None,
                                    executionticket, files.now);
              && TP.Enabled(old(files.World()), issue)
              && files.World() == TP.Next(old(files.World()), issue)
    {
      hide IsTicket, TP.Issued;
      kind := Known(Admin);
      var admin, monitor, execution := DrawTickets(draws, withMonitor);
      WriteTickets(admin, monitor, execution, withMonitor);
      BeginTask(admin, monitor, execution, withMonitor);
      ok := WriteInfo();
      files.creating := files.creating - {pid};
    }

    /** None of the tickets drawn is a file yet. */
    predicate AllNew(draw: (Ticket, Ticket, Ticket), withMonitor: bool)
      reads files
    {
      draw.0 !in files.tickets && draw.2 !in files.tickets && (withMonitor ==> draw.1 !in files.tickets)
    }

    /**
     * The ticket leads to its task: a one-time ticket is used up, and a monitor ticket makes this process the
     * monitor.
     */
    method Enter(ticket: Ticket) returns (ok: bool)
      requires files.Valid() && prisoner == -1 && pid != 0
      modifies this, files`tickets, files`tasks
      ensures files.Valid()
      ensures (ok, files.World())
           == Entered(old(files.World()), ticket, pid,
                      ticket in old(files.tickets) && files.InRange(old(files.tickets)[ticket].uid))
      ensures ok ==> ticket in old(files.tickets)
                     && prisoner == old(files.tickets)[ticket].uid && kind == Known(old(files.tickets)[ticket].security)
    {
      if !IsTicket(ticket) || ticket !in files.tickets {
        return false;
      }
      var data := files.tickets[ticket];
      if !files.InRange(data.uid) {
        return false;
      }
      prisoner := data.uid;
      kind := Known(data.security);
      if data.security == Monitor || data.security == Execute {
        files.RemoveTicketFile(ticket);
      }
      ok := ReadInfo();
      if ok && data.security == Monitor {
        ok := Monitorize();
      }
    }
  }

  /** What presenting a ticket does: whether it is accepted, and the files afterwards. */
  function Entered(w: TP.World, ticket: Ticket, pid: Pid, inRange: bool): (bool, TP.World) {
    if !IsTicket(ticket) || ticket !in w.tickets || !inRange then (false, w)
    else
      var f := w.tickets[ticket];
      var used := if OneTime(f.security) then TP.Next(w, TP.Use(ticket)) else w;
      if !TP.Open(used, f.uid) then (false, used)
      else if f.security != Monitor then (true, used)
      else if Refused(TP.Config(used, f.uid).value, Monitorize(pid)) then (false, used)
      else (true, TP.Next(used, TP.Change(f.uid, Monitorize(pid))))
  }

  /**
   * While all tickets are live, a ticket is accepted exactly when its file is there, but for a monitor ticket of a
   * task that has a monitor; a one-time ticket is accepted once; and all tickets stay live.
   */
  lemma LiveTicketEnters(w: TP.World, ticket: Ticket, pid: Pid, again: Pid)
    requires TP.AllLive(w) && pid != 0
    ensures var (ok, w') := Entered(w, ticket, pid, true);
            && (ok <==> ticket in w.tickets
                        && (w.tickets[ticket].security == Monitor ==>
                              TP.Config(w, w.tickets[ticket].uid).value.monitorPid == 0))
            && TP.AllLive(w')
            && (ticket in w.tickets && OneTime(w.tickets[ticket].security) ==>
                  Entered(w', ticket, again, true) == (false, w'))
  {
    if ticket in w.tickets {
      assert TP.Live(w, ticket);
      var f := w.tickets[ticket];
      var used := if OneTime(f.security) then TP.Next(w, TP.Use(ticket)) else w;
      if OneTime(f.security) {
        TP.OthersKeepLive(w, TP.Use(ticket));
      }
      if f.security == Monitor && TP.Config(used, f.uid).value.monitorPid == 0 {
        TP.OthersKeepLive(used, TP.Change(f.uid, Monitorize(pid)));
      }
    }
  }

  lemma DropBoth(tickets: map<Ticket, TP.TicketFile>, a: seq<Ticket>, b: seq<Ticket>)
    ensures TP.Dropped(TP.Dropped(tickets, a), b) == TP.Dropped(tickets, a + b)
  {
  }
}
