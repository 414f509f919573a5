/** Who gets in with a ticket, counted from the steps of the processes. */
module LockedEntries {
  import opened Bytes
  import opened TaskRecord
  import opened TicketProtocol
  import opened LockedProtocol
  import opened LockedBlocks
  import opened LockedRefinement
  import opened LockedSafety
  import TicketHistory

  /** The operation a process began last. */
  function Current(moves: seq<Move>, p: Pid): Option<Operation> {
    if moves == [] then None
    else
      var m := moves[|moves| - 1];
      if m.Begin? && m.p == p then Some(m.op) else Current(moves[..|moves| - 1], p)
  }

  predicate IsSuffix(s: seq<Instr>, t: seq<Instr>) {
    |s| <= |t| && s == t[|t| - |s|..]
  }

  /** Nothing but locks are released. */
  predicate Releasing(code: seq<Instr>) {
    forall i <- code :: i == UnlockTask || i == UnlockGlobal
  }

  /** A process is somewhere in the code of its operation, or on its way out. */
  predicate InOperation(q: Process, p: Pid, op: Option<Operation>) {
    if op.None? then q.code == [] else IsSuffix(q.code, Code(p, op.value)) || Releasing(q.code)
  }

  lemma StepCode(s: System, p: Pid)
    requires CanStep(s, p)
    ensures var code, next := ProcessOf(s, p).code, ProcessOf(Step(s, p), p).code;
            next == code || next == code[1..] || Releasing(next)
    ensures forall r :: r != p ==> ProcessOf(Step(s, p), r) == ProcessOf(s, r)
  {
    hide Effects, Enabled, Apply, Open, Releasing, Unwind;
    UnwindReleases(HoldsGlobal(s, p), ProcessOf(s, p).task);
  }

  lemma UnwindReleases(global: bool, task: Option<Uid>)
    ensures Releasing(Unwind(global, task))
  {
  }

  lemma {:induction false} AlwaysInOperation(moves: seq<Move>, states: seq<System>, k: nat, p: Pid)
    requires Run(moves, states) && k < |states|
    ensures InOperation(ProcessOf(states[k], p), p, Current(moves[..k], p))
  {
    hide Step, Code;
    if k > 0 {
      AlwaysInOperation(moves, states, k - 1, p);
      var m := moves[k - 1];
      assert moves[..k][..k - 1] == moves[..k - 1];
      assert Possible(states[k - 1], m) && states[k] == Moved(states[k - 1], m);
      if m.Go? {
        StepCode(states[k - 1], m.p);
        if m.p == p {
          assert CanStep(states[k - 1], p);
          ShorterCode(ProcessOf(states[k - 1], p), ProcessOf(states[k], p), p, Current(moves[..k], p));
        }
      }
    }
  }

  lemma ShorterCode(q: Process, q': Process, p: Pid, op: Option<Operation>)
    requires InOperation(q, p, op) && q.code != []
    requires q'.code == q.code || q'.code == q.code[1..] || Releasing(q'.code)
    ensures InOperation(q', p, op)
  {
    hide Code;
    var code := q.code;
    if op.Some? && q'.code == code[1..] {
      if Releasing(code) {
        forall i <- code[1..]
          ensures i in code
        {
        }
      } else {
        var t := Code(p, op.value);
        assert t[|t| - |code|..][1..] == t[|t| - (|code| - 1)..];
      }
    }
  }

  // What the Enter operation of a one-time ticket does.

  /** An operation that presents this one-time ticket. */
  predicate Presents(op: Option<Operation>, t: Ticket) {
    op.Some? && op.value.Enter? && op.value.t == t && OneTime(op.value.file.security)
  }

  /**
   * At this move an operation that presents the ticket gets behind the check of its task: the configuration is there
   * and not marked.
   */
  predicate GetsBehind(s: System, m: Move, op: Option<Operation>, t: Ticket) {
    && m.Go? && Presents(op, t)
    && ProcessOf(s, m.p).code != [] && ProcessOf(s, m.p).code[0] == Check(op.value.file.uid)
    && Open(s.shared, op.value.file.uid)
  }

  /** How many operations that present the ticket got behind their check. */
  function Entries(moves: seq<Move>, states: seq<System>, t: Ticket): nat
    requires |moves| <= |states|
  {
    if moves == [] then 0
    else
      var n := |moves| - 1;
      var before := moves[..n];
      Entries(before, states, t) + if GetsBehind(states[n], moves[n], Current(before, moves[n].p), t) then 1 else 0
  }

  /** The process has removed the ticket and not yet checked its task. */
  predicate Pending(q: Process, p: Pid, op: Option<Operation>, t: Ticket) {
    && Presents(op, t) && IsSuffix(q.code, Code(p, op.value))
    && (|q.code| == |Code(p, op.value)| - 3 || |q.code| == |Code(p, op.value)| - 4)
  }

  /** The code of such an operation, from each of its places on. */
  lemma EnterCode(p: Pid, op: Operation)
    requires op.Enter? && OneTime(op.file.security)
    ensures var code := Code(p, op);
            && |code| >= 7 && |code| <= 10
            && code[0] == LockGlobal && code[1] == Find(op.t, op.file) && code[2] == Block(Use(op.t))
            && code[3] == LockTask(op.file.uid) && code[4] == Check(op.file.uid) && code[5] == UnlockTask
            && code[|code| - 1] == UnlockGlobal
            && forall i :: 4 < i < |code| ==> !code[i].Check? && !code[i].LockGlobal? && !code[i].Find?
                                              && code[i] != Block(Use(op.t))
                                              && (code[i].Block? ==>
                                                    && code[i].action == Change(op.file.uid, Monitorize(p))
                                                    && op.file.security == Monitor)
  {
  }

  /** Code that releases the global lock without having acquired it is run by its holder. */
  lemma {:induction false} HolderReleases(code: seq<Instr>, global: bool, task: Option<Uid>)
    requires Ordered(code, global, task) && LockGlobal !in code && UnlockGlobal in code
    ensures global
  {
    if code[0] != UnlockGlobal {
      var rest := code[1..];
      assert code == [code[0]] + rest;
      var next := if code[0].LockTask? then Some(code[0].uid) else if code[0] == UnlockTask then None else task;
      HolderReleases(rest, global, next);
    }
  }

  lemma Inside(p: Pid, op: Operation, code: seq<Instr>)
    requires op.Enter? && OneTime(op.file.security) && IsSuffix(code, Code(p, op)) && 0 < |code| < |Code(p, op)|
    ensures LockGlobal !in code && UnlockGlobal in code
  {
    EnterCode(p, op);
    hide Code;
    var all := Code(p, op);
    var from := |all| - |code|;
    assert code[|code| - 1] == all[|all| - 1];
    forall k | 0 <= k < |code|
      ensures code[k] != LockGlobal
    {
      assert code[k] == all[from + k];
      assert from + k <= 4 || !all[from + k].LockGlobal?;
    }
  }

  /** Inside the operation, behind its first instruction, the process holds the global lock. */
  lemma InsideHolds(s: System, p: Pid, op: Operation)
    requires Sound(s) && op.Enter? && OneTime(op.file.security) && IsSuffix(ProcessOf(s, p).code, Code(p, op))
    requires 0 < |ProcessOf(s, p).code| < |Code(p, op)|
    ensures HoldsGlobal(s, p)
  {
    hide Ordered, Code, Sound;
    assert Ordered(ProcessOf(s, p).code, HoldsGlobal(s, p), ProcessOf(s, p).task) by { SoundProcess(s, p); }
    Inside(p, op, ProcessOf(s, p).code);
    HolderReleases(ProcessOf(s, p).code, HoldsGlobal(s, p), ProcessOf(s, p).task);
  }

  /** One more for the process between removal and check. */
  function Underway(moves: seq<Move>, s: System, t: Ticket): nat {
    if s.global.Some? && Pending(ProcessOf(s, s.global.value), s.global.value, Current(moves, s.global.value), t)
    then 1 else 0
  }

  /** Where the process is in the operation, if it is in it and not behind it. */
  lemma AtPlace(q: Process, p: Pid, op: Operation)
    requires IsSuffix(q.code, Code(p, op)) && q.code != []
    ensures var all := Code(p, op);
            q.code[0] == all[|all| - |q.code|] && IsSuffix(q.code[1..], all)
  {
    hide Code;
    var all := Code(p, op);
    assert all[|all| - |q.code|..][1..] == all[|all| - (|q.code| - 1)..];
  }

  lemma ReleasingIsBehind(q: Process, p: Pid, op: Operation, t: Ticket)
    requires Releasing(q.code) && Presents(Some(op), t)
    ensures !Pending(q, p, Some(op), t)
    ensures q.code != [] ==> q.code[0] == UnlockTask || q.code[0] == UnlockGlobal
  {
    assert q.code != [] ==> q.code[0] in q.code;
    if Pending(q, p, Some(op), t) {
      EnterCode(p, op);
      hide Code;
      AtPlace(q, p, op);
    }
  }

  /** What one step makes of the code and the history, by the instruction. */
  lemma StepOf(s: System, p: Pid)
    requires CanStep(s, p)
    ensures var q, q', s' := ProcessOf(s, p), ProcessOf(Step(s, p), p), Step(s, p);
            match q.code[0]
            case Check(uid) => Releasing(q'.code) || (q'.code == q.code[1..] && s'.global == s.global)
            case Find(_, _) => Releasing(q'.code) || (q'.code == q.code[1..] && s'.global == s.global)
            case Block(a) =>
              && s'.global == s.global
              && (Releasing(q'.code) || q'.code == q.code || (q'.code == q.code[1..] && s'.log == s.log + [a]))
            case _ => q'.code == q.code[1..] && (q.code[0].LockTask? ==> s'.global == s.global)
  {
    hide Effects, Enabled, Apply, Open;
  }

  lemma PendingHolds(s: System, p: Pid, op: Operation, t: Ticket)
    requires Sound(s) && Pending(ProcessOf(s, p), p, Some(op), t)
    ensures HoldsGlobal(s, p)
  {
    EnterCode(p, op);
    hide Code;
    InsideHolds(s, p, op);
  }

  /** Only at its check, between removal and the rest, an operation gets behind it. */
  lemma BehindFromPending(s: System, p: Pid, op: Operation, t: Ticket)
    requires CanStep(s, p) && Presents(Some(op), t) && IsSuffix(ProcessOf(s, p).code, Code(p, op))
    requires GetsBehind(s, Go(p), Some(op), t)
    ensures Pending(ProcessOf(s, p), p, Some(op), t) && !Pending(ProcessOf(Step(s, p), p), p, Some(op), t)
  {
    var q, q' := ProcessOf(s, p), ProcessOf(Step(s, p), p);
    EnterCode(p, op);
    AtPlace(q, p, op);
    StepOf(s, p);
    hide Code, Step, CanStep, IsSuffix, Open;
    var place := |Code(p, op)| - |q.code|;
    assert place == 4;
    if Releasing(q'.code) {
      ReleasingIsBehind(q', p, op, t);
    }
  }

  /** The place between removal and check is reached by removal alone, under the global lock. */
  lemma PendingFromRemoval(s: System, p: Pid, op: Operation, t: Ticket)
    requires CanStep(s, p) && Presents(Some(op), t) && IsSuffix(ProcessOf(s, p).code, Code(p, op))
    requires Pending(ProcessOf(Step(s, p), p), p, Some(op), t)
    ensures Pending(ProcessOf(s, p), p, Some(op), t) || Step(s, p).log == s.log + [Use(t)]
    ensures Step(s, p).global == s.global && 0 < |ProcessOf(s, p).code| < |Code(p, op)|
  {
    var q, q' := ProcessOf(s, p), ProcessOf(Step(s, p), p);
    EnterCode(p, op);
    AtPlace(q, p, op);
    StepOf(s, p);
    hide Code, Step, IsSuffix, Open;
    if Releasing(q'.code) {
      ReleasingIsBehind(q', p, op, t);
    } else if q'.code == q.code[1..] {
      var place := |Code(p, op)| - |q.code|;
      assert place == 2 || place == 3;
    }
  }

  lemma PresentingPlace(s: System, p: Pid, op: Operation, t: Ticket)
    requires Sound(s) && CanStep(s, p) && Presents(Some(op), t) && IsSuffix(ProcessOf(s, p).code, Code(p, op))
    ensures var s' := Step(s, p);
            var was, now := Pending(ProcessOf(s, p), p, Some(op), t), Pending(ProcessOf(s', p), p, Some(op), t);
            && (was ==> HoldsGlobal(s, p)) && (now ==> HoldsGlobal(s', p))
            && (GetsBehind(s, Go(p), Some(op), t) ==> was && !now)
            && (now && !was ==> s'.log == s.log + [Use(t)])
  {
    hide Step, CanStep, Sound, GetsBehind, Pending, IsSuffix, Code;
    if Pending(ProcessOf(s, p), p, Some(op), t) {
      PendingHolds(s, p, op, t);
    }
    if GetsBehind(s, Go(p), Some(op), t) {
      BehindFromPending(s, p, op, t);
    }
    if Pending(ProcessOf(Step(s, p), p), p, Some(op), t) {
      PendingFromRemoval(s, p, op, t);
      InsideHolds(s, p, op);
    }
  }

  /** A step of an operation that presents the ticket: what it does to its place, its outcome and the history. */
  lemma PresentingStep(s: System, p: Pid, op: Operation, t: Ticket)
    requires Sound(s) && CanStep(s, p) && Presents(Some(op), t) && InOperation(ProcessOf(s, p), p, Some(op))
    ensures var s' := Step(s, p);
            var was, now := Pending(ProcessOf(s, p), p, Some(op), t), Pending(ProcessOf(s', p), p, Some(op), t);
            && (was ==> HoldsGlobal(s, p)) && (now ==> HoldsGlobal(s', p))
            && (GetsBehind(s, Go(p), Some(op), t) ==> was && !now)
            && (now && !was ==> s'.log == s.log + [Use(t)])
  {
    var q, q' := ProcessOf(s, p), ProcessOf(Step(s, p), p);
    if IsSuffix(q.code, Code(p, op)) {
      PresentingPlace(s, p, op, t);
    } else {
      ReleasingIsBehind(q, p, op, t);
      StepOf(s, p);
      assert Releasing(q'.code) by {
        forall i <- q'.code ensures i in q.code { }
      }
      ReleasingIsBehind(q', p, op, t);
    }
  }

  /** The steps of a process take the global lock from nobody else. */
  lemma OthersKeepGlobal(s: System, p: Pid, h: Pid)
    requires Sound(s) && CanStep(s, p) && h != p
    ensures s.global == Some(h) <==> Step(s, p).global == Some(h)
  {
    assert ProcessOk(s, p);
    hide Effects, Enabled, Apply, Open, After, Fold, Legal, Planned;
  }

  lemma StepLog(s: System, p: Pid)
    requires CanStep(s, p)
    ensures Step(s, p).log == s.log || exists a :: Step(s, p).log == s.log + [a]
  {
    hide Effects, Enabled, Apply, Open;
  }

  lemma AcceptsMore(log: Log, a: Action, t: Ticket)
    ensures TicketHistory.Accepts(log + [a], t) == TicketHistory.Accepts(log, t) + if a == Use(t) then 1 else 0
  {
    assert (log + [a])[..|log|] == log;
  }

  lemma GoCounts(s: System, p: Pid, moves: seq<Move>, t: Ticket)
    requires Sound(s) && CanStep(s, p) && InOperation(ProcessOf(s, p), p, Current(moves, p))
    ensures (if GetsBehind(s, Go(p), Current(moves, p), t) then 1 else 0)
            + Underway(moves + [Go(p)], Step(s, p), t) + TicketHistory.Accepts(s.log, t)
         <= Underway(moves, s, t) + TicketHistory.Accepts(Step(s, p).log, t)
  {
    var s' := Step(s, p);
    SameCurrent(moves, p);
    StepCode(s, p);
    StepLog(s, p);
    if exists a :: s'.log == s.log + [a] {
      var a :| s'.log == s.log + [a];
      AcceptsMore(s.log, a, t);
    }
    if s.global.Some? && s.global.value != p {
      OthersKeepGlobal(s, p, s.global.value);
    }
    if s'.global.Some? && s'.global.value != p {
      OthersKeepGlobal(s, p, s'.global.value);
    }
    if Presents(Current(moves, p), t) {
      PresentingStep(s, p, Current(moves, p).value, t);
      AcceptsMore(s.log, Use(t), t);
    }
    hide Step, CanStep, Sound, TicketHistory.Accepts, InOperation, IsSuffix, Code, Open;
  }

  lemma SameCurrent(moves: seq<Move>, p: Pid)
    ensures forall r :: Current(moves + [Go(p)], r) == Current(moves, r)
  {
    assert (moves + [Go(p)])[..|moves|] == moves;
  }

  lemma BeginCounts(s: System, p: Pid, op: Operation, moves: seq<Move>, t: Ticket)
    requires Sound(s) && Possible(s, Begin(p, op))
    ensures Underway(moves + [Begin(p, op)], Moved(s, Begin(p, op)), t) == Underway(moves, s, t)
  {
    assert ProcessOk(s, p);
    assert !HoldsGlobal(s, p);
    hide Code, Sound, ProcessOk;
    assert (moves + [Begin(p, op)])[..|moves|] == moves;
  }

  /** Behind their check get only as many as have removed the ticket, one of them perhaps underway. */
  lemma {:induction false} EntriesAreAccepted(moves: seq<Move>, states: seq<System>, k: nat, t: Ticket)
    requires Run(moves, states) && k < |states|
    ensures Entries(moves[..k], states, t) + Underway(moves[..k], states[k], t)
         <= TicketHistory.Accepts(states[k].log, t)
  {
    hide Sound, Step, CanStep, TicketHistory.Accepts, Underway, GetsBehind, InOperation;
    if k == 0 {
      assert Underway([], START, t) == 0 by { NobodyUnderway(t); }
    } else {
      var s, m := states[k - 1], moves[k - 1];
      EntriesAreAccepted(moves, states, k - 1, t);
      RunIsSound(moves, states, k - 1);
      assert moves[..k] == moves[..k - 1] + [m] && moves[..k][..k - 1] == moves[..k - 1];
      match m
      case Begin(p, op) =>
        BeginCounts(s, p, op, moves[..k - 1], t);
        assert !GetsBehind(s, m, Current(moves[..k - 1], p), t) by { BeginIsNoEntry(s, p, op, moves[..k - 1], t); }
      case Go(p) =>
        AlwaysInOperation(moves, states, k - 1, p);
        GoCounts(s, p, moves[..k - 1], t);
    }
  }

  lemma BeginIsNoEntry(s: System, p: Pid, op: Operation, moves: seq<Move>, t: Ticket)
    ensures !GetsBehind(s, Begin(p, op), Current(moves, p), t)
  {
  }

  lemma NobodyUnderway(t: Ticket)
    ensures Underway([], START, t) == 0
  {
  }

  /**
   * In every interleaving of file operations, at most as many of the processes that present a monitor or execution
   * ticket get behind the check of its task as times the ticket was issued.
   */
  lemma EnteredAtMostOnce(moves: seq<Move>, states: seq<System>, k: nat, t: Ticket)
    requires Run(moves, states) && k < |states|
    ensures Entries(moves[..k], states, t) <= TicketHistory.Issues(states[k].log, t)
  {
    EntriesAreAccepted(moves, states, k, t);
    AcceptedOnceInRuns(moves, states, k, t);
    hide Entries, Underway, TicketHistory.Accepts, TicketHistory.Issues;
  }
}
