/** What every run of the interleaved processes keeps: it amounts to whole blocks, never deadlocks, and ends. */
module LockedSafety {
  import opened Bytes
  import opened TaskRecord
  import opened TicketProtocol
  import opened LockedProtocol
  import opened LockedBlocks
  import opened LockedRefinement
  import TicketHistory

  /** Moves from a state on, with the states between them. */
  ghost predicate Path(s: System, moves: seq<Move>, states: seq<System>) {
    && |states| == |moves| + 1 && states[0] == s
    && forall k :: 0 <= k < |moves| ==> Possible(states[k], moves[k]) && states[k + 1] == Moved(states[k], moves[k])
  }

  /** A run: moves from the start on. */
  ghost predicate Run(moves: seq<Move>, states: seq<System>) {
    Path(START, moves, states)
  }

  lemma {:induction false} RunIsSound(moves: seq<Move>, states: seq<System>, k: nat)
    requires Run(moves, states) && k < |states|
    ensures Sound(states[k])
  {
    hide Sound, Moved;
    if k == 0 {
      assert Sound(START) by { StartIsSound(); }
    } else {
      RunIsSound(moves, states, k - 1);
      MoveKeepsSound(states[k - 1], moves[k - 1]);
    }
  }

  lemma StartIsSound()
    ensures Sound(START)
  {
  }

  lemma MoveKeepsSound(s: System, m: Move)
    requires Sound(s) && Possible(s, m)
    ensures Sound(Moved(s, m))
  {
    hide Sound, Step;
    match m
    case Begin(p, op) => BeginKeepsSound(s, p, op);
    case Go(p) => StepKeepsSound(s, p);
  }

  /**
   * In every reachable state the shared files are the result of the completed blocks, one whole block after another,
   * but for the unfinished block of the process that holds the global lock.
   */
  lemma Serializable(moves: seq<Move>, states: seq<System>, k: nat)
    requires Run(moves, states) && k < |states|
    ensures Legal(states[k].log)
    ensures states[k].global.None? ==> states[k].shared == After(states[k].log)
  {
    RunIsSound(moves, states, k);
  }

  /**
   * Whenever the global lock is free, every ticket file names a task whose configuration exists, lists the ticket and
   * is not marked, as long as all tickets were issued in clear states: a condition that is exact.
   */
  lemma TicketsLiveWhenUnlocked(moves: seq<Move>, states: seq<System>, k: nat)
    requires Run(moves, states) && k < |states|
    ensures AlwaysLive(states[k].log) <==> AlwaysClear(states[k].log)
    ensures states[k].global.None? && AlwaysClear(states[k].log) ==> AllLive(states[k].shared)
    ensures states[k].global.None? && AlwaysCareful(states[k].log) ==> AllLive(states[k].shared)
  {
    hide AllLive, Clear, After, Next, AlwaysClear;
    var log := states[k].log;
    Serializable(moves, states, k);
    LiveIffClear(log);
    assert log[..|log|] == log;
    if AlwaysCareful(log) {
      CarefulState(log);
    }
  }

  /** The record a process is about to write is the update applied to the record as it is at that moment. */
  lemma NoLostUpdate(moves: seq<Move>, states: seq<System>, k: nat, p: Pid)
    requires Run(moves, states) && k < |states|
    requires Running(ProcessOf(states[k], p)) && AtBlock(ProcessOf(states[k], p))
    requires ProcessOf(states[k], p).code[0].action.Change?
    ensures var s := states[k];
            var a := ProcessOf(s, p).code[0].action;
            && Open(s.shared, a.uid)
            && ProcessOf(s, p).todo == [PutConfig(a.uid, Updated(Config(s.shared, a.uid).value, a.update))]
  {
    var s := states[k];
    RunIsSound(moves, states, k);
    SoundProcess(s, p);
    var a := ProcessOf(s, p).code[0].action;
    assert Planned(After(s.log), ProcessOf(s, p));
    if HoldsGlobal(s, p) {
      assert |Effects(After(s.log), a)| == 1;
      assert ProcessOf(s, p).done == [];
    } else {
      UnfinishedAvoids(s, p, a.uid);
      FoldAvoids(After(s.log), Unfinished(s), a.uid);
    }
  }

  // Deadlock.

  /** A process that holds a task lock, and one that holds the global lock with no task lock in its way, can step. */
  lemma TaskHolderSteps(s: System, p: Pid)
    requires Sound(s) && ProcessOf(s, p).task.Some?
    ensures CanStep(s, p)
  {
    hide Planned, After, Fold, Legal;
    assert ProcessOk(s, p);
  }

  lemma GlobalHolderSteps(s: System, p: Pid)
    requires Sound(s) && HoldsGlobal(s, p)
    ensures CanStep(s, p) || exists r :: CanStep(s, r)
  {
    hide Planned, After, Fold, Legal;
    assert ProcessOk(s, p);
    var i := ProcessOf(s, p).code[0];
    if i.LockTask? && i.uid in s.tasks {
      TaskHolderSteps(s, s.tasks[i.uid]);
    }
  }

  /** No run deadlocks: in every reachable state with unfinished work some process can step. */
  lemma NoDeadlock(moves: seq<Move>, states: seq<System>, k: nat, p: Pid)
    requires Run(moves, states) && k < |states|
    requires ProcessOf(states[k], p).code != []
    ensures exists r :: CanStep(states[k], r)
  {
    var s := states[k];
    RunIsSound(moves, states, k);
    hide Sound;
    var i := ProcessOf(s, p).code[0];
    if i.LockGlobal? && s.global.Some? {
      GlobalHolderSteps(s, s.global.value);
    } else if i.LockTask? && i.uid in s.tasks {
      assert ProcessOf(s, s.tasks[i.uid]).task == Some(i.uid) by { LockOwner(s, i.uid); }
      TaskHolderSteps(s, s.tasks[i.uid]);
    } else {
      assert CanStep(s, p);
    }
  }

  lemma LockOwner(s: System, u: Uid)
    requires Sound(s) && u in s.tasks
    ensures ProcessOf(s, s.tasks[u]).task == Some(u)
  {
  }

  /** A process never asks for a lock it holds, nor for the global lock while it holds a task lock. */
  lemma NoSelfDeadlock(moves: seq<Move>, states: seq<System>, k: nat, p: Pid)
    requires Run(moves, states) && k < |states|
    requires ProcessOf(states[k], p).code != []
    ensures var q := ProcessOf(states[k], p);
            && (q.code[0].LockGlobal? ==> states[k].global != Some(p) && q.task.None?)
            && (q.code[0].LockTask? ==> q.task.None?)
            && (q.code[0].LockTask? && q.code[0].uid in states[k].tasks ==> states[k].tasks[q.code[0].uid] != p)
  {
    RunIsSound(moves, states, k);
    SoundProcess(states[k], p);
  }

  // Progress: nothing runs for ever.

  /** A bound on the steps a process has still to make. */
  function Rank(q: Process): nat {
    if Running(q) && q.code != [] then 10 * (|q.code| - 1) + |q.todo| else 10 * |q.code|
  }

  lemma FewEffects(w: World, a: Action)
    requires Enabled(w, a)
    ensures 0 < |Effects(w, a)| < 10
  {
  }

  lemma ProceedLowersRank(s: System, p: Pid, ok: bool)
    requires ProcessOf(s, p).code != [] && !Running(ProcessOf(s, p))
    requires Ordered(ProcessOf(s, p).code[1..], HoldsGlobal(s, p), ProcessOf(s, p).task)
    ensures Rank(ProcessOf(Proceed(s, p, ok), p)) < Rank(ProcessOf(s, p))
  {
  }

  lemma BlockLowersRank(s: System, p: Pid)
    requires ProcessOk(s, p) && CanStep(s, p) && AtBlock(ProcessOf(s, p))
    ensures Rank(ProcessOf(Step(s, p), p)) < Rank(ProcessOf(s, p))
  {
    hide After, Effects, Enabled, Apply, Planned, Rank;
    var q := ProcessOf(s, p);
    if q.todo == [] {
      if Enabled(s.shared, q.code[0].action) {
        FewEffects(s.shared, q.code[0].action);
        RankOfBlock(q, Effects(s.shared, q.code[0].action));
      } else {
        ProceedLowersRank(s, p, false);
      }
    } else {
      RankOfEffect(q);
    }
  }

  lemma RankOfBlock(q: Process, es: seq<Effect>)
    requires q.code != [] && q.todo == [] && 0 < |es| < 10
    ensures Rank(q.(done := [], todo := es)) < Rank(q)
  {
  }

  lemma RankOfEffect(q: Process)
    requires q.code != [] && q.todo != []
    ensures |q.todo| == 1 ==> Rank(q.(code := q.code[1..], done := [], todo := [])) < Rank(q)
    ensures |q.todo| > 1 ==> Rank(q.(done := q.done + [q.todo[0]], todo := q.todo[1..])) < Rank(q)
  {
  }

  lemma StepLowersRank(s: System, p: Pid)
    requires Sound(s) && CanStep(s, p)
    ensures Rank(ProcessOf(Step(s, p), p)) < Rank(ProcessOf(s, p))
    ensures forall r :: r != p ==> ProcessOf(Step(s, p), r) == ProcessOf(s, r)
  {
    hide After, Fold, Legal, Effects, Enabled, Apply, Open, Planned, Config, Unwind;
    SoundProcess(s, p);
    var q := ProcessOf(s, p);
    if q.code[0].Block? {
      BlockLowersRank(s, p);
    } else if q.code[0].Check? || q.code[0].Find? {
      ProceedLowersRank(s, p, true);
      ProceedLowersRank(s, p, false);
    }
  }

  /** The steps of a process among the moves. */
  function StepsOf(moves: seq<Move>, p: Pid): nat {
    if moves == [] then 0
    else StepsOf(moves[..|moves| - 1], p) + if moves[|moves| - 1] == Go(p) then 1 else 0
  }

  /** Ten steps for each instruction of the operations it began. */
  function Budget(moves: seq<Move>, p: Pid): nat {
    if moves == [] then 0
    else
      var m := moves[|moves| - 1];
      Budget(moves[..|moves| - 1], p) + if m.Begin? && m.p == p then 10 * |Code(p, m.op)| else 0
  }

  /** A process that begins no further operation comes to an end: its steps are bounded by the code it began. */
  lemma {:induction false} StepsAreBounded(moves: seq<Move>, states: seq<System>, k: nat, p: Pid)
    requires Run(moves, states) && k < |states|
    ensures StepsOf(moves[..k], p) + Rank(ProcessOf(states[k], p)) <= Budget(moves[..k], p)
  {
    hide Sound, Step, Code, Rank;
    if k == 0 {
      assert Rank(IDLE) == 0 by { IdleHasNoSteps(); }
    } else {
      StepsAreBounded(moves, states, k - 1, p);
      RunIsSound(moves, states, k - 1);
      assert moves[..k][..k - 1] == moves[..k - 1];
      match moves[k - 1]
      case Begin(r, op) =>
        BeginRaisesRank(states[k - 1], r, op, p);
      case Go(r) =>
        StepLowersRank(states[k - 1], r);
    }
  }

  lemma IdleHasNoSteps()
    ensures Rank(IDLE) == 0
  {
  }

  lemma BeginRaisesRank(s: System, r: Pid, op: Operation, p: Pid)
    requires Sound(s) && Possible(s, Begin(r, op))
    ensures Rank(ProcessOf(Moved(s, Begin(r, op)), p))
         <= Rank(ProcessOf(s, p)) + if r == p then 10 * |Code(r, op)| else 0
  {
    hide Code, After, Fold, Legal;
    assert ProcessOk(s, r);
  }

  // The histories of the blocks completed in a run.

  /** In any interleaving each issued monitor or execution ticket is accepted at most once. */
  lemma AcceptedOnceInRuns(moves: seq<Move>, states: seq<System>, k: nat, t: Ticket)
    requires Run(moves, states) && k < |states|
    ensures TicketHistory.Accepts(states[k].log, t) <= TicketHistory.Issues(states[k].log, t)
  {
    RunIsSound(moves, states, k);
    TicketHistory.AcceptedAtMostOnce(states[k].log, t);
  }

  lemma {:induction false} LogGrows(moves: seq<Move>, states: seq<System>, i: nat, j: nat)
    requires Run(moves, states) && i <= j < |states|
    ensures |states[i].log| <= |states[j].log| && states[j].log[..|states[i].log|] == states[i].log
  {
    if i < j {
      LogGrows(moves, states, i, j - 1);
      assert states[j] == Moved(states[j - 1], moves[j - 1]);
      OneMoreAtMost(states[j - 1], moves[j - 1]);
    }
  }

  lemma OneMoreAtMost(s: System, m: Move)
    requires Possible(s, m)
    ensures Moved(s, m).log == s.log || (Moved(s, m).log != [] && Moved(s, m).log[..|s.log|] == s.log)
    ensures |s.log| <= |Moved(s, m).log|
  {
  }

  /**
   * Between two moments with the global lock free, a task that was marked for cleaning has the same record, unless
   * meanwhile its control directory was removed or tickets were issued into it.
   */
  lemma CleaningLastsInRuns(moves: seq<Move>, states: seq<System>, i: nat, j: nat, uid: Uid)
    requires Run(moves, states) && i <= j < |states|
    ensures |states[i].log| <= |states[j].log|
    ensures var more := states[j].log[|states[i].log|..];
            && states[i].global.None? && states[j].global.None?
            && TicketHistory.IsMarked(states[i].shared, uid) && (forall a <- more :: !TicketHistory.Unmarks(a, uid)) ==>
              Config(states[j].shared, uid) == Config(states[i].shared, uid)
  {
    hide After, Legal, Config, TicketHistory.IsMarked, TicketHistory.Unmarks, TicketHistory.StaysMarked;
    Serializable(moves, states, i);
    Serializable(moves, states, j);
    LogGrows(moves, states, i, j);
    var more := states[j].log[|states[i].log|..];
    assert states[i].log + more == states[j].log;
    if states[i].global.None? && TicketHistory.IsMarked(states[i].shared, uid) {
      TicketHistory.CleaningLasts(states[i].log, more, uid);
    }
  }

  /** In any interleaving at most one process becomes the monitor of a task, and it stays the one on record. */
  lemma OneMonitorInRuns(moves: seq<Move>, states: seq<System>, k: nat, uid: Uid)
    requires Run(moves, states) && k < |states|
    ensures |TicketHistory.Monitors(states[k].log, uid)| <= 1
    ensures states[k].global.None? ==>
              TicketHistory.Monitors(states[k].log, uid) == TicketHistory.Registered(Config(states[k].shared, uid))
  {
    Serializable(moves, states, k);
    TicketHistory.OneMonitor(states[k].log, uid);
  }
}
