/** What whole histories of the task protocol keep: tickets accepted once, one monitor, a lasting cleaning mark. */
module TicketHistory {
  import opened Bytes
  import opened TaskRecord
  import opened TicketProtocol

  /** How often a one-time ticket was accepted. */
  function Accepts(log: Log, t: Ticket): nat {
    if log == [] then 0
    else Accepts(log[..|log| - 1], t) + if log[|log| - 1] == Use(t) then 1 else 0
  }

  /** How often it was issued as a monitor or an execution ticket. */
  function Issues(log: Log, t: Ticket): nat {
    if log == [] then 0
    else
      var a := log[|log| - 1];
      Issues(log[..|log| - 1], t) + if a.Issue? && (a.monitor == Some(t) || a.execution == t) then 1 else 0
  }

  predicate Waiting(w: World, t: Ticket) {
    t in w.tickets && OneTime(w.tickets[t].security)
  }

  /** In any interleaving a monitor or execution ticket is accepted at most once for each time it was issued. */
  lemma {:induction false} AcceptedAtMostOnce(log: Log, t: Ticket)
    requires Legal(log)
    ensures Accepts(log, t) + (if Waiting(After(log), t) then 1 else 0) <= Issues(log, t)
  {
    if log != [] {
      AcceptedAtMostOnce(log[..|log| - 1], t);
      WaitingStep(After(log[..|log| - 1]), log[|log| - 1], t);
    }
  }

  lemma WaitingStep(w: World, a: Action, t: Ticket)
    requires Enabled(w, a)
    ensures a == Use(t) ==> Waiting(w, t) && !Waiting(Next(w, a), t)
    ensures Waiting(Next(w, a), t) ==> Waiting(w, t) || (a.Issue? && (a.monitor == Some(t) || a.execution == t))
    ensures a.Issue? && (a.monitor == Some(t) || a.execution == t) ==> !Waiting(w, t)
  {
  }

  /** The processes that became the monitor of the task that `uid` names now. */
  function Monitors(log: Log, uid: Uid): seq<Pid> {
    if log == [] then []
    else
      var before := Monitors(log[..|log| - 1], uid);
      match log[|log| - 1]
      case Select(_, u) => if u == uid then [] else before
      case Issue(_, u, _, _, _, _) => if u == uid then [] else before
      case Remove(u) => if u == uid then [] else before
      case Change(u, update) => if u == uid && update.Monitorize? then before + [update.pid] else before
      case _ => before
  }

  function Registered(c: Option<Record>): seq<Pid> {
    if c.None? || c.value.monitorPid == 0 then [] else [c.value.monitorPid]
  }

  /** At most one process ever becomes the monitor of a task: the one its record names. */
  lemma {:induction false} OneMonitor(log: Log, uid: Uid)
    requires Legal(log)
    ensures Monitors(log, uid) == Registered(Config(After(log), uid))
    ensures |Monitors(log, uid)| <= 1
  {
    if log != [] {
      OneMonitor(log[..|log| - 1], uid);
      RegisteredStep(After(log[..|log| - 1]), log[|log| - 1], uid);
    }
  }

  predicate Restarts(a: Action, uid: Uid) {
    (a.Select? || a.Issue? || a.Remove?) && a.uid == uid
  }

  lemma RegisteredStep(w: World, a: Action, uid: Uid)
    requires Enabled(w, a)
    ensures var now := Registered(Config(Next(w, a), uid));
            var was := Registered(Config(w, uid));
            if Restarts(a, uid) then now == []
            else if a.Change? && a.uid == uid && a.update.Monitorize? then was == [] && now == [a.update.pid]
            else now == was
  {
  }

  predicate IsMarked(w: World, uid: Uid) {
    Config(w, uid).Some? && Config(w, uid).value.cleaning
  }

  /**
   * The blocks that take the mark away: the removal of the directory, and an issue into a directory with a
   * configuration.
   */
  predicate Unmarks(a: Action, uid: Uid) {
    a == Remove(uid) || (a.Issue? && a.uid == uid)
  }

  predicate Writes(a: Action, uid: Uid) {
    (a.Change? && a.uid == uid) || (a.Pass? && a.uid == uid)
  }

  /** One block keeps the mark exactly when it is not one of those; then it leaves the record as it is. */
  lemma MarkStep(w: World, a: Action, uid: Uid)
    requires Enabled(w, a) && IsMarked(w, uid)
    ensures IsMarked(Next(w, a), uid) <==> !Unmarks(a, uid)
    ensures !Unmarks(a, uid) ==> Config(Next(w, a), uid) == Config(w, uid) && !Writes(a, uid)
  {
  }

  predicate StaysMarked(log: Log, more: Log, uid: Uid) {
    forall k: nat :: k <= |more| ==> IsMarked(After(log + more[..k]), uid)
  }

  lemma MarkedLonger(log: Log, part: Log, a: Action, uid: Uid)
    ensures StaysMarked(log, part + [a], uid)
       <==> StaysMarked(log, part, uid) && IsMarked(After(log + (part + [a])), uid)
  {
    hide After, IsMarked;
    var more := part + [a];
    assert more[..|more|] == more;
    assert forall k: nat :: k <= |part| ==> more[..k] == part[..k];
    if StaysMarked(log, more, uid) {
      forall k: nat | k <= |part|
        ensures IsMarked(After(log + part[..k]), uid)
      {
        assert IsMarked(After(log + more[..k]), uid);
      }
      assert IsMarked(After(log + more[..|more|]), uid);
    }
    if StaysMarked(log, part, uid) && IsMarked(After(log + more), uid) {
      forall k: nat | k <= |more|
        ensures IsMarked(After(log + more[..k]), uid)
      {
        assert k <= |part| ==> IsMarked(After(log + part[..k]), uid);
      }
    }
  }

  /**
   * In every history CLEANING once set stays set exactly as long as the control directory is not removed and no
   * tickets are issued into it; until then the record does not change and no setter or passthrough ticket goes through.
   */
  lemma {:induction false} CleaningLasts(log: Log, more: Log, uid: Uid)
    requires Legal(log + more) && IsMarked(After(log), uid)
    ensures StaysMarked(log, more, uid) <==> forall a <- more :: !Unmarks(a, uid)
    ensures StaysMarked(log, more, uid) ==>
              Config(After(log + more), uid) == Config(After(log), uid) && forall a <- more :: !Writes(a, uid)
  {
    hide After, Enabled, Next, IsMarked, Unmarks, Writes;
    if more == [] {
      assert log + more == log;
      assert forall k: nat :: k <= |more| ==> log + more[..k] == log;
    } else {
      var part := more[..|more| - 1];
      var a := more[|more| - 1];
      assert more == part + [a];
      assert log + more == (log + part) + [a];
      assert (log + more)[..|log + more| - 1] == log + part;
      CleaningLasts(log, part, uid);
      Then(log + part, a);
      MarkedLonger(log, part, a, uid);
      if StaysMarked(log, part, uid) {
        assert part[..|part|] == part;
        MarkStep(After(log + part), a, uid);
      }
    }
  }

  /** Where no control directory is removed during creation, nothing but the removal of its directory unmarks a task. */
  lemma {:induction false} CarefulCleaningLasts(log: Log, more: Log, uid: Uid)
    requires Legal(log + more) && AlwaysCareful(log + more) && IsMarked(After(log), uid)
    ensures StaysMarked(log, more, uid) <==> Remove(uid) !in more
  {
    CleaningLasts(log, more, uid);
    if Remove(uid) !in more {
      NoIssueWhileMarked(log, more, uid);
    }
  }

  lemma {:induction false} NoIssueWhileMarked(log: Log, more: Log, uid: Uid)
    requires Legal(log + more) && AlwaysCareful(log + more) && IsMarked(After(log), uid) && Remove(uid) !in more
    ensures forall a <- more :: !Unmarks(a, uid)
  {
    hide After, Enabled, Next, IsMarked, StaysMarked;
    if more != [] {
      var part := more[..|more| - 1];
      var a := more[|more| - 1];
      assert more == part + [a];
      assert log + more == (log + part) + [a];
      assert (log + more)[..|log + more| - 1] == log + part;
      NoIssueWhileMarked(log, part, uid);
      CleaningLasts(log, part, uid);
      assert IsMarked(After(log + part), uid) by { LastMarked(log, part, uid); }
      Then(log + part, a);
      CarefulState(log + part);
      MarkedIsNotCreated(After(log + part), a, uid);
    }
  }

  lemma LastMarked(log: Log, part: Log, uid: Uid)
    requires StaysMarked(log, part, uid)
    ensures IsMarked(After(log + part), uid)
  {
    assert part[..|part|] == part;
  }

  lemma MarkedIsNotCreated(w: World, a: Action, uid: Uid)
    requires Enabled(w, a) && OwnDirectories(w) && IsMarked(w, uid)
    ensures !(a.Issue? && a.uid == uid)
  {
  }

  /** A mark lost without removal: tickets are issued into a directory that another task took over meanwhile. */
  lemma LostMark()
    ensures var log := [Select(1, 2000)] + [Remove(2000)] + [Select(2, 2000)]
                       + [Issue(2, 2000, "1", Some("2"), "3", 0)] + [Mark(2000, ["1", "3", "2", ""])];
            var more := [Issue(1, 2000, "4", Some("5"), "6", 0)];
            && Legal(log + more) && IsMarked(After(log), 2000) && Remove(2000) !in more
            && !IsMarked(After(log + more), 2000)
  {
    var a, b, c := Select(1, 2000), Remove(2000), Select(2, 2000);
    var d, e := Issue(2, 2000, "1", Some("2"), "3", 0), Mark(2000, ["1", "3", "2", ""]);
    var f := Issue(1, 2000, "4", Some("5"), "6", 0);
    assert [] + [a] == [a];
    Then([], a);
    Then([a], b);
    Then([a] + [b], c);
    var w := Next(Next(Next(EMPTY, a), b), c);
    LostMarkSteps(w, d, e, f);
    hide Next, Enabled, After, Legal, IsMarked;
    Then([a] + [b] + [c], d);
    Then([a] + [b] + [c] + [d], e);
    Then([a] + [b] + [c] + [d] + [e], f);
  }

  lemma LostMarkSteps(w: World, d: Action, e: Action, f: Action)
    requires w.tickets == map[] && w.tasks == map[2000 := None] && w.creating == map[1 := 2000, 2 := 2000]
    requires d == Issue(2, 2000, "1", Some("2"), "3", 0) && e == Mark(2000, ["1", "3", "2", ""])
    requires f == Issue(1, 2000, "4", Some("5"), "6", 0)
    ensures Enabled(w, d) && Enabled(Next(w, d), e) && Enabled(Next(Next(w, d), e), f)
    ensures IsMarked(Next(Next(w, d), e), 2000) && !IsMarked(Next(Next(Next(w, d), e), f), 2000)
  {
    var w1 := Next(w, d);
    assert Config(w1, 2000) == Some(Created("1", Some("2"), "3", 0));
    var w2 := Next(w1, e);
    assert w2.tickets.Keys <= {"1", "2", "3"} && w2.creating == map[1 := 2000];
    assert Config(w2, 2000) == Some(Created("1", Some("2"), "3", 0).(cleaning := true));
  }

  predicate Concerns(a: Action, uid: Uid) {
    match a
    case Abandon(_) => false
    case Use(_) => false
    case Select(_, u) => u == uid
    case Unselect(_, u) => u == uid
    case Issue(_, u, _, _, _, _) => u == uid
    case Change(u, _) => u == uid
    case Pass(u, _) => u == uid
    case Mark(u, _) => u == uid
    case Remove(u) => u == uid
  }

  /** The actions on one task, in their order. */
  function Only(log: Log, uid: Uid): Log {
    if log == [] then []
    else if Concerns(log[|log| - 1], uid) then Only(log[..|log| - 1], uid) + [log[|log| - 1]]
    else Only(log[..|log| - 1], uid)
  }

  predicate SameTask(v: World, w: World, uid: Uid) {
    (uid in v.tasks <==> uid in w.tasks) && (uid in v.tasks ==> v.tasks[uid] == w.tasks[uid])
  }

  /**
   * The record of a task is what its own actions, one at a time, make of it: none is lost, no other task interferes.
   */
  lemma {:induction false} TaskIsItsOwnHistory(log: Log, uid: Uid)
    ensures SameTask(After(log), After(Only(log, uid)), uid)
  {
    if log != [] {
      var before := log[..|log| - 1];
      var a := log[|log| - 1];
      TaskIsItsOwnHistory(before, uid);
      Then(Only(before, uid), a);
      OwnStep(After(before), After(Only(before, uid)), a, uid);
    }
  }

  lemma OwnStep(v: World, w: World, a: Action, uid: Uid)
    requires SameTask(v, w, uid)
    ensures if Concerns(a, uid) then SameTask(Next(v, a), Next(w, a), uid) else SameTask(Next(v, a), w, uid)
  {
  }
}
