/** The file operations of processes under the locks amount to whole blocks: the invariant of every single step. */
module LockedRefinement {
  import opened Bytes
  import opened TaskRecord
  import opened TicketProtocol
  import opened LockedProtocol
  import opened LockedBlocks

  predicate Running(q: Process) {
    q.todo != []
  }

  predicate AtBlock(q: Process) {
    q.code != [] && q.code[0].Block?
  }

  /** The block of a process is possible in the state of completed blocks, and its file operations are those planned. */
  predicate Planned(w: World, q: Process)
    requires q.code != [] && q.code[0].Block?
  {
    Enabled(w, q.code[0].action) && q.done + q.todo == Effects(w, q.code[0].action)
  }

  predicate ProcessOk(s: System, p: Pid) {
    var q := ProcessOf(s, p);
    && Ordered(q.code, HoldsGlobal(s, p), q.task)
    && (!Running(q) ==> q.done == [])
    && (Running(q) ==> q.code != [] && q.code[0].Block? && Planned(After(s.log), q))
  }

  ghost predicate TaskLocksOk(s: System) {
    && (forall u :: u in s.tasks ==> ProcessOf(s, s.tasks[u]).task == Some(u))
    && (forall p :: ProcessOf(s, p).task.Some? ==>
          var u := ProcessOf(s, p).task.value; u in s.tasks && s.tasks[u] == p)
  }

  /** The file operations done of the unfinished block under the global lock. */
  function Unfinished(s: System): seq<Effect> {
    if s.global.Some? then ProcessOf(s, s.global.value).done else []
  }

  ghost predicate Sound(s: System) {
    && (forall p :: ProcessOk(s, p))
    && TaskLocksOk(s)
    && Legal(s.log)
    && s.shared == Fold(After(s.log), Unfinished(s))
  }

  lemma BeginKeepsSound(s: System, p: Pid, op: Operation)
    requires Sound(s) && Possible(s, Begin(p, op))
    ensures Sound(Moved(s, Begin(p, op)))
  {
    hide Code, Planned, After, Fold, Legal;
    var s' := Moved(s, Begin(p, op));
    CodeOrdered(p, op);
    assert ProcessOk(s, p);
    forall q
      ensures ProcessOk(s', q)
    {
      assert ProcessOk(s, q);
    }
    assert forall q :: ProcessOf(s', q).task == ProcessOf(s, q).task && ProcessOf(s', q).done == ProcessOf(s, q).done;
  }

  lemma GlobalLockKeepsSound(s: System, p: Pid)
    requires Sound(s) && CanStep(s, p)
    requires ProcessOf(s, p).code[0].LockGlobal? || ProcessOf(s, p).code[0].UnlockGlobal?
    ensures Sound(Step(s, p))
  {
    hide Planned, After, Fold, Legal;
    var s' := Step(s, p);
    assert ProcessOk(s, p);
    forall q
      ensures ProcessOk(s', q)
    {
      assert ProcessOk(s, q);
    }
    assert forall q :: ProcessOf(s', q).task == ProcessOf(s, q).task && ProcessOf(s', q).done == ProcessOf(s, q).done;
    assert Unfinished(s') == Unfinished(s);
  }

  lemma TaskLockKeepsSound(s: System, p: Pid)
    requires Sound(s) && CanStep(s, p)
    requires ProcessOf(s, p).code[0].LockTask? || ProcessOf(s, p).code[0].UnlockTask?
    ensures Sound(Step(s, p))
  {
    hide Planned, After, Fold, Legal;
    var s' := Step(s, p);
    assert ProcessOk(s, p);
    forall q
      ensures ProcessOk(s', q)
    {
      assert ProcessOk(s, q);
    }
    assert forall q :: q != p ==> ProcessOf(s', q) == ProcessOf(s, q);
    assert ProcessOf(s', p).done == ProcessOf(s, p).done;
    assert Unfinished(s') == Unfinished(s);
  }

  /** Going on after a test, or leaving for the end of the operation. */
  lemma ProceedKeepsSound(s: System, p: Pid, ok: bool)
    requires Sound(s) && ProcessOf(s, p).code != [] && !Running(ProcessOf(s, p))
    requires ok ==> Ordered(ProcessOf(s, p).code[1..], HoldsGlobal(s, p), ProcessOf(s, p).task)
    ensures Sound(Proceed(s, p, ok))
  {
    hide Planned, After, Fold, Legal, Unwind;
    var s' := Proceed(s, p, ok);
    UnwindOrdered(HoldsGlobal(s, p), ProcessOf(s, p).task);
    assert ProcessOk(s, p);
    forall q
      ensures ProcessOk(s', q)
    {
      assert ProcessOk(s, q);
    }
    assert forall q :: ProcessOf(s', q).task == ProcessOf(s, q).task && ProcessOf(s', q).done == ProcessOf(s, q).done;
    assert Unfinished(s') == Unfinished(s);
  }

  lemma OwnTaskLocks(s: System, p: Pid, r: Pid)
    requires Sound(s) && p != r
    ensures ProcessOf(s, p).task.Some? ==> ProcessOf(s, p).task != ProcessOf(s, r).task
  {
  }

  /** The unfinished block under the global lock does not touch a task locked by another process. */
  lemma UnfinishedAvoids(s: System, p: Pid, u: Uid)
    requires Sound(s) && !HoldsGlobal(s, p) && ProcessOf(s, p).task == Some(u)
    ensures forall e <- Unfinished(s) :: Avoids(e, u)
  {
    hide Enabled, Fold, Legal;
    if s.global.Some? {
      var h := s.global.value;
      var q := ProcessOf(s, h);
      assert ProcessOk(s, h);
      if q.done != [] {
        var b := q.code[0].action;
        var es := Effects(After(s.log), b);
        assert es == q.done + q.todo;
        assert |es| >= 2;
        assert NeedsTask(b).Some?;
        OwnTaskLocks(s, p, h);
        EffectsAvoid(After(s.log), b, u);
        assert forall e <- q.done :: e in es;
      }
    }
  }

  /** What a process reads at the start of a block is the state of the completed blocks, as far as the block looks. */
  lemma ReadsCurrent(s: System, p: Pid, a: Action)
    requires Sound(s) && ProcessOf(s, p).code != [] && ProcessOf(s, p).code[0] == Block(a) && !Running(ProcessOf(s, p))
    requires Enabled(s.shared, a)
    ensures Enabled(After(s.log), a) && Effects(s.shared, a) == Effects(After(s.log), a)
  {
    hide Legal;
    assert ProcessOk(s, p);
    if HoldsGlobal(s, p) {
      assert s.shared == After(s.log);
    } else {
      UnfinishedAvoids(s, p, a.uid);
      FoldAvoids(After(s.log), Unfinished(s), a.uid);
    }
  }

  lemma PlannedProcess(s: System, p: Pid, a: Action, q: Pid)
    requires ProcessOk(s, p) && ProcessOk(s, q) && CanStep(s, p)
    requires ProcessOf(s, p).code[0] == Block(a) && !Running(ProcessOf(s, p))
    requires Enabled(s.shared, a) && Enabled(After(s.log), a) && Effects(s.shared, a) == Effects(After(s.log), a)
    ensures ProcessOk(Step(s, p), q)
  {
    hide Effects, Enabled, After, Ordered;
    assert [] + Effects(After(s.log), a) == Effects(After(s.log), a);
  }

  lemma PlanKeepsSound(s: System, p: Pid, a: Action)
    requires Sound(s) && CanStep(s, p) && ProcessOf(s, p).code[0] == Block(a) && !Running(ProcessOf(s, p))
    requires Enabled(s.shared, a)
    ensures Sound(Step(s, p))
  {
    ReadsCurrent(s, p, a);
    hide Effects, Enabled, After, Fold, Legal, Ordered, Planned;
    var s' := Step(s, p);
    assert ProcessOk(s, p);
    forall q
      ensures ProcessOk(s', q)
    {
      assert ProcessOk(s, q);
      PlannedProcess(s, p, a, q);
    }
    hide ProcessOk;
    assert forall q :: ProcessOf(s', q).task == ProcessOf(s, q).task;
    assert ProcessOf(s', p).done == [] && ProcessOf(s, p).done == [] by { DoneWhenIdle(s, p); }
    assert Unfinished(s') == Unfinished(s);
  }

  lemma DoneWhenIdle(s: System, p: Pid)
    requires ProcessOk(s, p) && !Running(ProcessOf(s, p))
    ensures ProcessOf(s, p).done == []
  {
  }

  /** A process with a block of several file operations holds the global lock. */
  lemma LongBlocksAreGlobal(s: System, p: Pid)
    requires Sound(s) && Running(ProcessOf(s, p)) && AtBlock(ProcessOf(s, p)) && !HoldsGlobal(s, p)
    ensures ProcessOf(s, p).code[0].action.Change?
    ensures ProcessOf(s, p).done == [] && |ProcessOf(s, p).todo| == 1
  {
    hide After, Fold, Legal;
    assert ProcessOk(s, p);
  }

  lemma EffectShared(s: System, p: Pid)
    requires Sound(s) && AtBlock(ProcessOf(s, p)) && |ProcessOf(s, p).todo| > 1
    ensures HoldsGlobal(s, p)
    ensures var q := ProcessOf(s, p);
            Apply(s.shared, q.todo[0]) == Fold(After(s.log), q.done + [q.todo[0]])
  {
    var q := ProcessOf(s, p);
    if !HoldsGlobal(s, p) {
      LongBlocksAreGlobal(s, p);
    }
    FoldLast(After(s.log), q.done, q.todo[0]);
  }

  lemma EffectKeepsSound(s: System, p: Pid)
    requires Sound(s) && CanStep(s, p) && AtBlock(ProcessOf(s, p)) && |ProcessOf(s, p).todo| > 1
    ensures Sound(Step(s, p))
  {
    hide Effects, Enabled, After, Fold, Legal, Apply;
    EffectShared(s, p);
    var q := ProcessOf(s, p);
    var s' := Step(s, p);
    assert ProcessOk(s, p);
    assert (q.done + [q.todo[0]]) + q.todo[1..] == q.done + q.todo;
    forall r
      ensures ProcessOk(s', r)
    {
      assert ProcessOk(s, r);
    }
    assert forall r :: ProcessOf(s', r).task == ProcessOf(s, r).task;
    assert Unfinished(s') == q.done + [q.todo[0]];
  }

  /** Completing a block leaves the blocks of other processes as planned. */
  lemma OthersStayPlanned(s: System, p: Pid, r: Pid)
    requires Sound(s) && r != p && Running(ProcessOf(s, p)) && Running(ProcessOf(s, r))
    requires AtBlock(ProcessOf(s, p)) && AtBlock(ProcessOf(s, r))
    ensures var w := After(s.log);
            var a := ProcessOf(s, p).code[0].action;
            var b := ProcessOf(s, r).code[0].action;
            Enabled(Next(w, a), b) && Effects(Next(w, a), b) == Effects(w, b)
  {
    hide Effects, Enabled, After, Fold, Legal, Next;
    assert ProcessOk(s, p) && ProcessOk(s, r);
    assert Planned(After(s.log), ProcessOf(s, p)) && Planned(After(s.log), ProcessOf(s, r));
    var a := ProcessOf(s, p).code[0].action;
    var b := ProcessOf(s, r).code[0].action;
    OwnTaskLocks(s, p, r);
    PlanStable(After(s.log), a, b);
  }

  /** The last file operation of a block under the global lock leaves what the whole block leaves. */
  lemma CommitGlobal(s: System, p: Pid)
    requires Sound(s) && |ProcessOf(s, p).todo| == 1 && AtBlock(ProcessOf(s, p)) && HoldsGlobal(s, p)
    ensures Apply(s.shared, ProcessOf(s, p).todo[0]) == Next(After(s.log), ProcessOf(s, p).code[0].action)
  {
    hide Next, Effects, Enabled, Fold, Apply, After, Legal, Ordered, Avoids;
    var q := ProcessOf(s, p);
    var w := After(s.log);
    assert ProcessOk(s, p);
    EffectsMakeTheBlock(w, q.code[0].action);
    FoldLast(w, q.done, q.todo[0]);
    assert q.todo == [q.todo[0]];
  }

  lemma ChangeEffects(w: World, a: Action)
    requires a.Change? && Enabled(w, a)
    ensures a.uid in w.tasks && Effects(w, a) == [PutConfig(a.uid, Updated(Config(w, a.uid).value, a.update))]
  {
    hide Updated;
  }

  /** So does the write of a setter, also amid the unfinished block of the holder of the global lock. */
  lemma CommitTask(s: System, p: Pid)
    requires Sound(s) && |ProcessOf(s, p).todo| == 1 && AtBlock(ProcessOf(s, p)) && !HoldsGlobal(s, p)
    ensures Apply(s.shared, ProcessOf(s, p).todo[0])
         == Fold(Next(After(s.log), ProcessOf(s, p).code[0].action), Unfinished(s))
  {
    hide Next, Effects, Enabled, Fold, Apply, After, Legal, Avoids, Updated, Config;
    var q := ProcessOf(s, p);
    var w := After(s.log);
    LongBlocksAreGlobal(s, p);
    assert ProcessOk(s, p);
    var a := q.code[0].action;
    UnfinishedAvoids(s, p, a.uid);
    assert [] + q.todo == q.todo;
    ChangeEffects(w, a);
    EffectsMakeTheBlock(w, a);
    FoldOne(w, q.todo[0]);
    FoldCommutes(w, Unfinished(s), a.uid, q.todo[0].r);
  }

  /** After the last file operation of a block the shared files are as if the whole block had been done at once. */
  lemma CommitShared(s: System, p: Pid)
    requires Sound(s) && |ProcessOf(s, p).todo| == 1 && AtBlock(ProcessOf(s, p))
    ensures var q := ProcessOf(s, p);
            var w' := Next(After(s.log), q.code[0].action);
            Apply(s.shared, q.todo[0]) == Fold(w', if HoldsGlobal(s, p) then [] else Unfinished(s))
  {
    hide Next, Effects, Enabled, Apply, After, Legal, Avoids, Sound;
    if HoldsGlobal(s, p) {
      CommitGlobal(s, p);
    } else {
      hide Fold;
      CommitTask(s, p);
    }
  }

  lemma CommittedSelf(s: System, p: Pid)
    requires ProcessOk(s, p) && CanStep(s, p) && AtBlock(ProcessOf(s, p)) && |ProcessOf(s, p).todo| == 1
    ensures ProcessOk(Step(s, p), p)
  {
    hide Effects, Enabled, Fold, Next, After, Apply;
  }

  lemma CommittedOther(s: System, p: Pid, r: Pid, w: World)
    requires r != p && ProcessOk(s, r) && CanStep(s, p) && AtBlock(ProcessOf(s, p)) && |ProcessOf(s, p).todo| == 1
    requires w == After(Step(s, p).log)
    requires Running(ProcessOf(s, r)) ==>
               var b := ProcessOf(s, r).code[0].action;
               Enabled(w, b) && Effects(w, b) == Effects(After(s.log), b)
    ensures ProcessOk(Step(s, p), r)
  {
    hide Effects, Enabled, Fold, Next, After, Apply, Ordered;
  }

  lemma CommittedProcess(s: System, p: Pid, r: Pid)
    requires Sound(s) && CanStep(s, p) && AtBlock(ProcessOf(s, p)) && |ProcessOf(s, p).todo| == 1
    requires After(Step(s, p).log) == Next(After(s.log), ProcessOf(s, p).code[0].action)
    ensures ProcessOk(Step(s, p), r)
  {
    hide Sound, Effects, Enabled, Fold, Next, After, Legal, Step, Ordered, Planned;
    SoundProcess(s, p);
    SoundProcess(s, r);
    if r == p {
      CommittedSelf(s, p);
    } else {
      if Running(ProcessOf(s, r)) {
        OthersStayPlanned(s, p, r);
      }
      CommittedOther(s, p, r, Next(After(s.log), ProcessOf(s, p).code[0].action));
    }
  }

  lemma CommitKeepsSound(s: System, p: Pid)
    requires Sound(s) && CanStep(s, p) && AtBlock(ProcessOf(s, p)) && |ProcessOf(s, p).todo| == 1
    ensures Sound(Step(s, p))
  {
    hide Effects, Enabled, Fold, Next, Ordered;
    var q := ProcessOf(s, p);
    var s' := Step(s, p);
    var a := q.code[0].action;
    assert Enabled(After(s.log), a) by { assert ProcessOk(s, p) && Planned(After(s.log), q); }
    CommitShared(s, p);
    Then(s.log, a);
    hide After, Legal, Planned;
    forall r
      ensures ProcessOk(s', r)
    {
      CommittedProcess(s, p, r);
    }
    hide ProcessOk, Apply;
    assert forall r :: ProcessOf(s', r).task == ProcessOf(s, r).task;
    assert Unfinished(s') == if HoldsGlobal(s, p) then [] else Unfinished(s);
  }

  lemma StepKeepsSound(s: System, p: Pid)
    requires Sound(s) && CanStep(s, p)
    ensures Sound(Step(s, p))
  {
    hide Sound, Planned, Unwind, Enabled, Effects;
    assert ProcessOk(s, p) by { SoundProcess(s, p); }
    var q := ProcessOf(s, p);
    match q.code[0]
    case LockGlobal => GlobalLockKeepsSound(s, p);
    case UnlockGlobal => GlobalLockKeepsSound(s, p);
    case LockTask(_) => TaskLockKeepsSound(s, p);
    case UnlockTask => TaskLockKeepsSound(s, p);
    case Check(uid) => ProceedKeepsSound(s, p, Open(s.shared, uid));
    case Find(t, file) => ProceedKeepsSound(s, p, t in s.shared.tickets && s.shared.tickets[t] == file);
    case Block(a) =>
      if |q.todo| > 1 {
        EffectKeepsSound(s, p);
      } else if |q.todo| == 1 {
        CommitKeepsSound(s, p);
      } else if Enabled(s.shared, a) {
        PlanKeepsSound(s, p, a);
      } else {
        ProceedKeepsSound(s, p, false);
      }
  }

  lemma SoundProcess(s: System, p: Pid)
    requires Sound(s)
    ensures ProcessOk(s, p)
  {
  }
}
