/** Every field of a record is what was written to it last since its tickets were issued. */
module TaskFields {
  import opened Bytes
  import opened TaskRecord
  import opened TicketProtocol

  datatype Field = Compiler | Runner | Times | Monitors | Description | Address

  predicate Writes(u: Update, f: Field) {
    match f
    case Compiler => u.SetCompiler?
    case Runner => u.SetRunner?
    case Times => u.SetCompiler? || u.SetRunner?
    case Monitors => u.Monitorize?
    case Description => u.SetExtraInfo?
    case Address => u.SetLocalWebServer?
  }

  /** The issue of the tickets of the task that has the UID. */
  function IssueOf(log: Log, uid: Uid): Option<Action> {
    if log == [] then None
    else
      var a := log[|log| - 1];
      if a.Issue? && a.uid == uid then Some(a) else IssueOf(log[..|log| - 1], uid)
  }

  /** The last update since then that writes a field. */
  function LastWrite(log: Log, uid: Uid, f: Field): Option<Update> {
    if log == [] then None
    else
      var a := log[|log| - 1];
      if a.Issue? && a.uid == uid then None
      else if a.Change? && a.uid == uid && Writes(a.update, f) then Some(a.update)
      else LastWrite(log[..|log| - 1], uid, f)
  }

  /** A field is what was written last; where nothing was, it is as the record was created. */
  predicate SaysField(r: Record, last: Option<Update>, issue: Action, f: Field)
    requires issue.Issue?
  {
    match f
    case Compiler => r.compilerPid == if last.Some? && last.value.SetCompiler? then last.value.pid else 0
    case Runner => r.runnerPid == if last.Some? && last.value.SetRunner? then last.value.pid else 0
    case Times =>
      r.startTime == if last.Some? && (last.value.SetCompiler? || last.value.SetRunner?) then last.value.now
                     else issue.now
    case Monitors => r.monitorPid == if last.Some? && last.value.Monitorize? then last.value.pid else 0
    case Description =>
      if last.Some? && last.value.SetExtraInfo? then
        r.limits == last.value.limits && r.interactive == last.value.interactive && r.lang == last.value.lang
      else r.limits == Limits(0, 0, 0, 0) && r.interactive == issue.monitor.None? && r.lang == ""
    case Address =>
      r.localWebServer == if last.Some? && last.value.SetLocalWebServer? then last.value.address else ""
  }

  ghost predicate SaysLastWritten(log: Log, uid: Uid, r: Record) {
    var issue := IssueOf(log, uid);
    && issue.Some? && issue.value.Issue?
    && r.admin == issue.value.admin && r.execution == issue.value.execution
    && r.monitor == (if issue.value.monitor.Some? then issue.value.monitor.value else NO_MONITOR)
    && forall f :: SaysField(r, LastWrite(log, uid, f), issue.value, f)
  }

  lemma LastOfOne(log: Log, a: Action, uid: Uid, f: Field)
    ensures IssueOf(log + [a], uid) == if a.Issue? && a.uid == uid then Some(a) else IssueOf(log, uid)
    ensures LastWrite(log + [a], uid, f)
         == if a.Issue? && a.uid == uid then None
            else if a.Change? && a.uid == uid && Writes(a.update, f) then Some(a.update)
            else LastWrite(log, uid, f)
  {
    assert (log + [a])[..|log|] == log;
  }

  lemma AllLast(log: Log, a: Action, uid: Uid)
    ensures forall f :: LastWrite(log + [a], uid, f)
                     == if a.Issue? && a.uid == uid then None
                        else if a.Change? && a.uid == uid && Writes(a.update, f) then Some(a.update)
                        else LastWrite(log, uid, f)
    ensures IssueOf(log + [a], uid) == if a.Issue? && a.uid == uid then Some(a) else IssueOf(log, uid)
  {
    forall f
      ensures LastWrite(log + [a], uid, f)
           == if a.Issue? && a.uid == uid then None
              else if a.Change? && a.uid == uid && Writes(a.update, f) then Some(a.update)
              else LastWrite(log, uid, f)
    {
      LastOfOne(log, a, uid, f);
    }
    LastOfOne(log, a, uid, Times);
  }

  /** What a block makes of the configuration of a task. */
  lemma ConfigStep(w: World, a: Action, uid: Uid)
    requires Enabled(w, a) && Config(Next(w, a), uid).Some?
    ensures
      var r' := Config(Next(w, a), uid).value;
      if a.Issue? && a.uid == uid then r' == Created(a.admin, a.monitor, a.execution, a.now)
      else
        && Config(w, uid).Some?
        && var r := Config(w, uid).value;
           if a.Change? && a.uid == uid then r' == Updated(r, a.update)
           else r' == r.(cleaning := r'.cleaning, passthrough := r'.passthrough)
  {
  }

  lemma ChangeSays(log: Log, a: Action, uid: Uid, r: Record)
    requires SaysLastWritten(log, uid, r) && a.Change? && a.uid == uid
    ensures SaysLastWritten(log + [a], uid, Updated(r, a.update))
  {
    AllLast(log, a, uid);
    hide LastWrite, IssueOf, SaysField, Writes;
    var issue := IssueOf(log, uid).value;
    forall f
      ensures SaysField(Updated(r, a.update), LastWrite(log + [a], uid, f), issue, f)
    {
      FieldStep(r, a.update, LastWrite(log, uid, f), issue, f);
    }
    assert IssueOf(log + [a], uid) == Some(issue);
    UpdatedKeepsTickets(r, a.update);
    assert TicketOf(Updated(r, a.update), Admin) == r.admin && TicketOf(Updated(r, a.update), Execute) == r.execution;
    assert TicketOf(Updated(r, a.update), Monitor) == r.monitor;
  }

  /** An update writes its own fields and leaves the others as they were. */
  lemma FieldStep(r: Record, u: Update, last: Option<Update>, issue: Action, f: Field)
    requires issue.Issue? && SaysField(r, last, issue, f)
    ensures SaysField(Updated(r, u), if Writes(u, f) then Some(u) else last, issue, f)
  {
  }

  lemma OtherSays(log: Log, a: Action, uid: Uid, r: Record, r': Record)
    requires SaysLastWritten(log, uid, r) && !(a.Change? && a.uid == uid) && !(a.Issue? && a.uid == uid)
    requires r' == r.(cleaning := r'.cleaning, passthrough := r'.passthrough)
    ensures SaysLastWritten(log + [a], uid, r')
  {
    AllLast(log, a, uid);
    hide LastWrite, IssueOf;
  }

  lemma IssueSays(log: Log, a: Action, uid: Uid)
    requires a.Issue? && a.uid == uid
    ensures SaysLastWritten(log + [a], uid, Created(a.admin, a.monitor, a.execution, a.now))
  {
    AllLast(log, a, uid);
    hide LastWrite, IssueOf;
  }

  /** No update is lost, and none reaches a field that is not its own. */
  lemma {:induction false} FieldsAreLastWritten(log: Log, uid: Uid)
    requires Legal(log) && Config(After(log), uid).Some?
    ensures SaysLastWritten(log, uid, Config(After(log), uid).value)
  {
    hide Next, Enabled, SaysLastWritten;
    var before, a := log[..|log| - 1], log[|log| - 1];
    assert log == before + [a];
    ConfigStep(After(before), a, uid);
    var r' := Config(After(log), uid).value;
    if a.Issue? && a.uid == uid {
      IssueSays(before, a, uid);
    } else {
      FieldsAreLastWritten(before, uid);
      if a.Change? && a.uid == uid {
        ChangeSays(before, a, uid, Config(After(before), uid).value);
      } else {
        OtherSays(before, a, uid, Config(After(before), uid).value, r');
      }
    }
  }
}
