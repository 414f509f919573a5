/** Monitors register with their ticket only; every ticket that is still good lets its presenter in. */
module LockedMonitors {
  import opened Bytes
  import opened TaskRecord
  import opened TicketProtocol
  import opened TicketService
  import opened LockedProtocol
  import opened LockedBlocks
  import opened LockedRefinement
  import opened LockedSafety
  import opened LockedRuns
  import opened LockedEntries
  import opened LockedAlone
  import opened ProcessMonitor

  /** The ticket is found, and the operation is about to remove it. */
  predicate AtRemoval(q: Process, p: Pid, op: Option<Operation>) {
    && op.Some? && op.value.Enter? && OneTime(op.value.file.security)
    && IsSuffix(q.code, Code(p, op.value)) && |q.code| == |Code(p, op.value)| - 2
  }

  /** The ticket is removed, and the operation goes on. */
  predicate BehindRemoval(q: Process, p: Pid, op: Option<Operation>) {
    && op.Some? && op.value.Enter? && OneTime(op.value.file.security)
    && IsSuffix(q.code, Code(p, op.value)) && 0 < |q.code| <= |Code(p, op.value)| - 3 && !Releasing(q.code)
  }

  /** What the holder of the global lock knows of the ticket it presents. */
  predicate Knows(log: Log, q: Process, p: Pid, op: Option<Operation>) {
    && (AtRemoval(q, p, op) ==> FileIs(After(log), op.value.t, op.value.file))
    && (BehindRemoval(q, p, op) ==> WasTicketOf(log, op.value.t, op.value.file))
  }

  predicate FileIs(w: World, t: Ticket, file: TicketFile) {
    t in w.tickets && w.tickets[t] == file
  }

  /** The ticket was used; if its task is open and this a monitor ticket, it is the one of the task. */
  predicate WasTicketOf(log: Log, t: Ticket, file: TicketFile) {
    && UsedSince(log, file.uid, t)
    && (file.security == Monitor && Open(After(log), file.uid) ==> Monitoring(After(log), file.uid) == t)
  }

  lemma ChangeKeepsKnowledge(log: Log, a: Action, t: Ticket, file: TicketFile)
    requires a.Change? && Enabled(After(log), a)
    ensures FileIs(After(log), t, file) ==> FileIs(After(log + [a]), t, file)
    ensures WasTicketOf(log, t, file) ==> WasTicketOf(log + [a], t, file)
  {
    Then(log, a);
    Tickets(log, a, file.uid, t);
  }

  lemma RemovalTeaches(log: Log, t: Ticket, file: TicketFile)
    requires FileIs(After(log), t, file) && Enabled(After(log), Use(t)) && AllLive(After(log))
    ensures WasTicketOf(log + [Use(t)], t, file)
  {
    Then(log, Use(t));
    Tickets(log, Use(t), file.uid, t);
    assert Live(After(log), t);
  }

  /** The history grows by completed blocks only, each possible where it is completed. */
  lemma LogStep(s: System, p: Pid)
    requires Sound(s) && CanStep(s, p)
    ensures var q, q' := ProcessOf(s, p), ProcessOf(Step(s, p), p);
            || Step(s, p).log == s.log
            || (&& q.code[0].Block? && q'.code == q.code[1..] && Step(s, p).log == s.log + [q.code[0].action]
                && Enabled(After(s.log), q.code[0].action)
                && (s.global != Some(p) ==> q.code[0].action.Change?))
  {
    SoundProcess(s, p);
    hide Effects, Enabled, Apply, Open, After, Fold, Legal;
  }

  /** What a process that is not in a block sees under the global lock is the result of whole blocks. */
  lemma SeesWhole(s: System, p: Pid)
    requires Sound(s) && HoldsGlobal(s, p) && ProcessOf(s, p).todo == []
    ensures s.shared == After(s.log)
  {
    SoundProcess(s, p);
    assert Fold(After(s.log), []) == After(s.log);
  }

  /** The knowledge of one process survives the steps of the others. */
  lemma OthersKeepKnowledge(s: System, p: Pid, r: Pid, op: Option<Operation>)
    requires Sound(s) && CanStep(s, p) && r != p && Knows(s.log, ProcessOf(s, r), r, op)
    ensures Knows(Step(s, p).log, ProcessOf(Step(s, p), r), r, op)
  {
    var q := ProcessOf(s, r);
    StepCode(s, p);
    hide Code, Step, CanStep, FileIs, WasTicketOf, Enabled;
    if AtRemoval(q, r, op) || BehindRemoval(q, r, op) {
      EnterCode(r, op.value);
      InsideHolds(s, r, op.value);
      LogStep(s, p);
      if Step(s, p).log != s.log {
        ChangeKeepsKnowledge(s.log, ProcessOf(s, p).code[0].action, op.value.t, op.value.file);
      }
    }
  }

  lemma ReleasingKnows(log: Log, q: Process, p: Pid, op: Option<Operation>)
    requires Releasing(q.code)
    ensures Knows(log, q, p, op)
  {
    assert q.code != [] ==> q.code[0] in q.code;
  }

  lemma FindStep(s: System, p: Pid)
    requires CanStep(s, p) && ProcessOf(s, p).code[0].Find?
    ensures ProcessOf(Step(s, p), p).code == ProcessOf(s, p).code[1..] && !Releasing(ProcessOf(s, p).code[1..]) ==>
              FileIs(s.shared, ProcessOf(s, p).code[0].t, ProcessOf(s, p).code[0].file)
    ensures Step(s, p).log == s.log
  {
  }

  /** Going on by one instruction inside the operation. */
  lemma GoingOnKnows(s: System, p: Pid, op: Operation)
    requires Sound(s) && CanStep(s, p) && op.Enter? && OneTime(op.file.security) && AllLive(After(s.log))
    requires IsSuffix(ProcessOf(s, p).code, Code(p, op)) && Knows(s.log, ProcessOf(s, p), p, Some(op))
    requires ProcessOf(Step(s, p), p).code == ProcessOf(s, p).code[1..] && !Releasing(ProcessOf(s, p).code[1..])
    ensures Knows(Step(s, p).log, ProcessOf(Step(s, p), p), p, Some(op))
  {
    var q, q' := ProcessOf(s, p), ProcessOf(Step(s, p), p);
    EnterCode(p, op);
    AtPlace(q, p, op);
    StepOf(s, p);
    LogStep(s, p);
    var all := Code(p, op);
    var place := |all| - |q.code|;
    assert q.code != [] && q.code[0] == all[place];
    if Releasing(q.code) {
      ReleasingTail(q.code);
    }
    hide Code, Step, Sound, FileIs, WasTicketOf, Enabled, Releasing, IsSuffix, AllLive;
    if place == 1 {
      FindStep(s, p);
      InsideHolds(s, p, op);
      SeesWholeBefore(s, p);
    } else if place == 2 {
      RemovalTeaches(s.log, op.t, op.file);
    } else if place > 2 && Step(s, p).log != s.log {
      ChangeKeepsKnowledge(s.log, q.code[0].action, op.t, op.file);
    }
  }

  lemma SeesWholeBefore(s: System, p: Pid)
    requires Sound(s) && CanStep(s, p) && HoldsGlobal(s, p) && !ProcessOf(s, p).code[0].Block?
    ensures s.shared == After(s.log)
  {
    SoundProcess(s, p);
    SeesWhole(s, p);
  }

  lemma OwnKnowledge(s: System, p: Pid, op: Option<Operation>)
    requires Sound(s) && CanStep(s, p) && AllLive(After(s.log))
    requires InOperation(ProcessOf(s, p), p, op) && Knows(s.log, ProcessOf(s, p), p, op)
    ensures Knows(Step(s, p).log, ProcessOf(Step(s, p), p), p, op)
  {
    var q, q' := ProcessOf(s, p), ProcessOf(Step(s, p), p);
    StepCode(s, p);
    LogStep(s, p);
    if Releasing(q'.code) {
      ReleasingKnows(Step(s, p).log, q', p, op);
    } else if q'.code == q.code[1..] {
      assert !Releasing(q.code) by {
        if Releasing(q.code) { ReleasingTail(q.code); }
      }
      if op.Some? && op.value.Enter? && OneTime(op.value.file.security) {
        GoingOnKnows(s, p, op.value);
      }
    }
    hide Code, Step, Sound, FileIs, WasTicketOf;
  }

  lemma ReleasingTail(code: seq<Instr>)
    requires Releasing(code) && code != []
    ensures Releasing(code[1..])
  {
    forall i <- code[1..]
      ensures i in code
    {
    }
  }

  lemma {:induction false} CurrentIsWellCalled(moves: seq<Move>, states: seq<System>, k: nat, p: Pid)
    requires Run(moves, states) && k < |states|
    ensures Current(moves[..k], p).Some? ==> WellCalled(Current(moves[..k], p).value)
  {
    hide Moved;
    if k > 0 {
      CurrentIsWellCalled(moves, states, k - 1, p);
      assert moves[..k][..k - 1] == moves[..k - 1];
      assert Possible(states[k - 1], moves[k - 1]);
    }
  }

  /** In every run whose tickets are always live, the processes know what becomes of the tickets they present. */
  lemma {:induction false} AllKnow(moves: seq<Move>, states: seq<System>, k: nat, p: Pid)
    requires Run(moves, states) && k < |states| && AlwaysLive(states[k].log)
    ensures Knows(states[k].log, ProcessOf(states[k], p), p, Current(moves[..k], p))
    decreases k
  {
    hide Sound, Step, CanStep, Knows, InOperation, After, AllLive, Code;
    if k == 0 {
      assert Knows([], IDLE, p, None) by { NobodyKnows(p); }
    } else {
      var s, m := states[k - 1], moves[k - 1];
      LiveBefore(moves, states, k - 1, k);
      AllKnow(moves, states, k - 1, p);
      RunIsSound(moves, states, k - 1);
      assert moves[..k][..k - 1] == moves[..k - 1];
      assert Possible(s, m) && states[k] == Moved(s, m);
      match m
      case Begin(r, op) =>
        if r == p {
          BeginnerKnows(s, p, op);
        }
      case Go(r) =>
        if r == p {
          AlwaysInOperation(moves, states, k - 1, p);
          OwnKnowledge(s, p, Current(moves[..k], p));
        } else {
          OthersKeepKnowledge(s, r, p, Current(moves[..k], p));
        }
    }
  }

  lemma NobodyKnows(p: Pid)
    ensures Knows([], IDLE, p, None)
  {
  }

  lemma BeginnerKnows(s: System, p: Pid, op: Operation)
    requires Possible(s, Begin(p, op))
    ensures Knows(s.log, ProcessOf(Moved(s, Begin(p, op)), p), p, Some(op))
    ensures Moved(s, Begin(p, op)).log == s.log
  {
    hide Code;
  }

  lemma LiveBefore(moves: seq<Move>, states: seq<System>, i: nat, j: nat)
    requires Run(moves, states) && i <= j < |states| && AlwaysLive(states[j].log)
    ensures AlwaysLive(states[i].log) && AllLive(After(states[i].log))
  {
    hide AllLive, After, Moved, Possible;
    LogGrows(moves, states, i, j);
    var log, before := states[j].log, states[i].log;
    assert log[..|before|] == before;
    forall n: nat | n <= |before|
      ensures AllLive(After(before[..n]))
    {
      assert before[..n] == log[..n];
      assert AllLive(After(log[..n]));
    }
    assert before[..|before|] == before;
  }

  lemma {:induction false} TriesHaveNoChange(p: Pid, stale: seq<Uid>)
    ensures forall i <- Tries(p, stale) :: i.Block? && !i.action.Change?
  {
    if stale != [] {
      TriesHaveNoChange(p, stale[1..]);
    }
  }

  predicate Registers(i: Instr) {
    i.Block? && i.action.Change? && i.action.update.Monitorize?
  }

  /** Only who presents a monitor ticket registers as a monitor, of the task of the ticket. */
  lemma RegistersInEnter(p: Pid, op: Operation, k: nat)
    requires WellCalled(op) && k < |Code(p, op)| && Registers(Code(p, op)[k])
    ensures op.Enter? && op.file.security == Monitor && k > 4 && Code(p, op)[k].action.uid == op.file.uid
  {
    match op
    case Create(stale, _, _, _, _, _) => CreateRegistersNobody(p, op, k);
    case CreateFails(stale, _) => CreateRegistersNobody(p, op, k);
    case _ =>
  }

  lemma CreateRegistersNobody(p: Pid, op: Operation, k: nat)
    requires (op.Create? || op.CreateFails?) && k < |Code(p, op)|
    ensures !Registers(Code(p, op)[k])
  {
    TriesHaveNoChange(p, op.stale);
    hide Tries;
    var tries := Tries(p, op.stale);
    assert 1 <= k < 1 + |tries| ==> Code(p, op)[k] == tries[k - 1];
    assert 1 <= k < 1 + |tries| ==> tries[k - 1] in tries;
  }

  /** A process about to complete its registration has used the monitor ticket of the task. */
  lemma RegistrarUsedTicket(s: System, p: Pid, op: Option<Operation>)
    requires CanStep(s, p) && Registers(ProcessOf(s, p).code[0])
    requires Enabled(After(s.log), ProcessOf(s, p).code[0].action)
    requires InOperation(ProcessOf(s, p), p, op) && (op.Some? ==> WellCalled(op.value))
    requires Knows(s.log, ProcessOf(s, p), p, op)
    ensures var uid := ProcessOf(s, p).code[0].action.uid;
            UsedSince(s.log, uid, Monitoring(After(s.log), uid))
  {
    var q := ProcessOf(s, p);
    assert q.code[0] in q.code;
    assert !Releasing(q.code);
    hide Code, Ordered, UsedSince, After, Releasing, Next;
    AtPlace(q, p, op.value);
    RegistersInEnter(p, op.value, |Code(p, op.value)| - |q.code|);
    assert BehindRemoval(q, p, op);
    assert WasTicketOf(s.log, op.value.t, op.value.file);
  }

  /** In every run whose tickets are always live, whoever becomes a monitor has used the monitor ticket of the task. */
  lemma {:induction false} MonitorsByTicket(moves: seq<Move>, states: seq<System>, k: nat)
    requires Run(moves, states) && k < |states| && AlwaysLive(states[k].log)
    ensures ByTicket(states[k].log)
    decreases k
  {
    hide Sound, Step, Knows, InOperation, After, AllLive, Code, Enabled, UsedSince;
    if k > 0 {
      var s, m := states[k - 1], moves[k - 1];
      LiveBefore(moves, states, k - 1, k);
      MonitorsByTicket(moves, states, k - 1);
      assert Possible(s, m) && states[k] == Moved(s, m);
      if m.Go? {
        RunIsSound(moves, states, k - 1);
        LogStep(s, m.p);
        if states[k].log != s.log {
          var a := ProcessOf(s, m.p).code[0].action;
          assert states[k].log == s.log + [a] && (s.log + [a])[..|s.log|] == s.log;
          if Registers(ProcessOf(s, m.p).code[0]) {
            AlwaysInOperation(moves, states, k - 1, m.p);
            CurrentIsWellCalled(moves, states, k - 1, m.p);
            AllKnow(moves, states, k - 1, m.p);
            RegistrarUsedTicket(s, m.p, Current(moves[..k - 1], m.p));
          }
        }
      }
    }
  }

  /** A ticket of a task that still is to be accepted: a lasting one, or a one-time one that was not used. */
  predicate IsGood(log: Log, uid: Uid, s: Security) {
    && Open(After(log), uid)
    && var t := TicketOf(Config(After(log), uid).value, s);
       match s
       case Admin => true
       case Passthrough => t != ""
       case Execute => !UsedSince(log, uid, t)
       case Monitor => t != NO_MONITOR && !UsedSince(log, uid, t)
  }

  /**
   * In every run, as long as the tickets drawn differ and cleanings stay with their own task, a process that presents a
   * good ticket of an open task and is not interrupted gets in.
   */
  lemma GoodTicketGetsIn(moves: seq<Move>, states: seq<System>, k: nat, p: Pid, uid: Uid, s: Security)
    requires Run(moves, states) && k < |states| && p != 0
    requires AlwaysCareful(states[k].log) && AlwaysGentle(states[k].log) && IsGood(states[k].log, uid, s)
    requires states[k].global.None? && uid !in states[k].tasks && ProcessOf(states[k], p).code == []
    ensures states[k].shared == After(states[k].log)
    ensures var t := TicketOf(Config(After(states[k].log), uid).value, s);
            var begun := Begin(p, Enter(t, TicketFile(uid, s)));
            && Possible(states[k], begun)
            && exists s' :: Goes(Moved(states[k], begun), p, true, s')
  {
    var now := states[k];
    var w := now.shared;
    Serializable(moves, states, k);
    RunIsSound(moves, states, k);
    assert ProcessOf(now, p) == IDLE by { IdleProcess(now, p); }
    hide Goes, Sound, After, AllLive, Entered, Code, HasFile, EntryBlocks;
    CarefulRunsStayLive(now.log);
    MonitorsByTicket(moves, states, k);
    FirstPresentation(now.log, uid, s, p);
    var t := TicketOf(Config(w, uid).value, s);
    CarefulState(now.log);
    GoodFile(now.log, uid, s);
    var begun := Begin(p, Enter(t, TicketFile(uid, s)));
    var s0 := Moved(now, begun);
    EnterRuns(s0, p, t, TicketFile(uid, s));
    assert Entered(w, t, p, true).0;
  }

  lemma IdleProcess(s: System, p: Pid)
    requires Sound(s) && ProcessOf(s, p).code == []
    ensures ProcessOf(s, p) == IDLE
  {
    SoundProcess(s, p);
  }

  lemma GoodFile(log: Log, uid: Uid, s: Security)
    requires Legal(log) && AlwaysCareful(log) && AlwaysGentle(log) && IsGood(log, uid, s)
    ensures var t := TicketOf(Config(After(log), uid).value, s);
            t in After(log).tickets && After(log).tickets[t] == TicketFile(uid, s) && IsTicket(t)
  {
    ServedIffGentle(log);
    CarefulState(log);
    hide After, Legal, AlwaysCareful, AlwaysGentle;
    var w := After(log);
    assert InService(w, uid, UsedSince(log, uid, Execution(w, uid)), UsedSince(log, uid, Monitoring(w, uid)));
    assert HasFile(w, uid, s);
    assert Live(w, TicketOf(Config(w, uid).value, s));
  }
}
