/** What is known of one task: the record its processes share through the configuration file of the task. */
module TaskRecord {
  import opened Bytes

  type Uid = int
  type Pid = int
  type Time = int
  type Ticket = string

  const NO_MONITOR: Ticket := "NO_MONITOR"

  datatype Security = Admin | Monitor | Execute | Passthrough

  datatype Limits = Limits(maxtime: int, maxfilesize: int, maxmemory: int, maxprocesses: int)

  const NO_LIMITS := Limits(0, 0, 0, 0)

  datatype Record = Record(
    limits: Limits,
    admin: Ticket, execution: Ticket, monitor: Ticket, passthrough: Ticket,
    localWebServer: string, cleaning: bool,
    startTime: Time, interactive: bool, lang: string,
    compilerPid: Pid, runnerPid: Pid, monitorPid: Pid)

  /** A ticket is a nonempty string of decimal digits. */
  predicate IsTicket(t: Ticket) {
    t != "" && forall c <- t :: '0' <= c <= '9'
  }

  lemma NoMonitorIsNoTicket()
    ensures !IsTicket(NO_MONITOR)
  {
    var c := NO_MONITOR[0];
    assert c == 'N' && c in NO_MONITOR;
  }

  /** The record of a task just created. A task without a monitor ticket is for direct execution. */
  function Created(admin: Ticket, monitor: Option<Ticket>, execution: Ticket, now: Time): Record {
    Record(NO_LIMITS, admin, execution, if monitor.Some? then monitor.value else NO_MONITOR, "", "", false,
           now, monitor.None?, "", 0, 0, 0)
  }

  function TicketOf(r: Record, s: Security): Ticket {
    match s
    case Admin => r.admin
    case Monitor => r.monitor
    case Execute => r.execution
    case Passthrough => r.passthrough
  }

  /** The tickets a record names, in the order in which they are removed. */
  function Listed(r: Record): seq<Ticket> {
    [r.admin, r.execution, r.monitor, r.passthrough]
  }

  predicate OneTime(s: Security) {
    s == Monitor || s == Execute
  }

  /** What the setters write. */
  datatype Update =
    | SetCompiler(pid: Pid, now: Time)
    | SetRunner(pid: Pid, now: Time)
    | Monitorize(pid: Pid)
    | SetExtraInfo(limits: Limits, interactive: bool, lang: string)
    | SetLocalWebServer(address: string)

  /** Updates that leave the record alone: a second monitor, a second address. */
  predicate Refused(r: Record, u: Update) {
    match u
    case Monitorize(_) => r.monitorPid != 0
    case SetLocalWebServer(_) => r.localWebServer != ""
    case _ => false
  }

  function Updated(r: Record, u: Update): Record {
    match u
    case SetCompiler(pid, now) => r.(compilerPid := pid, startTime := now)
    case SetRunner(pid, now) => r.(runnerPid := pid, startTime := now)
    case Monitorize(pid) => r.(monitorPid := pid)
    case SetExtraInfo(limits, interactive, lang) => r.(limits := limits, interactive := interactive, lang := lang)
    case SetLocalWebServer(address) => r.(localWebServer := address)
  }

  /** No update touches the tickets of a record or its cleaning mark. */
  lemma UpdatedKeepsTickets(r: Record, u: Update)
    ensures Listed(Updated(r, u)) == Listed(r) && Updated(r, u).cleaning == r.cleaning
    ensures forall s :: TicketOf(Updated(r, u), s) == TicketOf(r, s)
  {
  }
}
