/** Stopping the persistence actor: it closes the worker, and a closed worker gets through everything it
    has accepted and then goes, whatever the store does. */
module PersistenceShutdown {
  import opened Prelude
  import W = PersistenceWorker
  import opened PersistenceAccounting
  import opened PersistenceRecovery

  // The worker alone

  /** What is done next when nobody else interferes: the stop mark as soon as there is room for it, and
      otherwise the writer's own step. `stores` says whether an attempt succeeds. */
  function Turn(c: W.Config, s: W.State, stores: W.State -> bool): W.Step {
    if s.closed && !s.stopEnqueued && |s.queue| < c.capacity then W.EnqueueStop
    else match s.thread
      case Waiting => W.Take
      case Gathering => W.Gather
      case Writing(_) => W.Write(stores(s))
      case Finished => W.Take
  }

  /** How far the writer is from having nothing in hand. */
  function Left(c: W.Config, s: W.State): int {
    match s.thread
    case Gathering => c.maxAttempts + 2
    case Writing(attempt) => c.maxAttempts + 1 - attempt
    case _ => 0
  }

  lemma TurnProgresses(c: W.Config, s: W.State, stores: W.State -> bool)
    requires W.Sound(c, s) && s.closed && s.thread != W.Finished
    ensures var t := W.Next(c, s, Turn(c, s, stores));
      && t.closed && t.accepted == s.accepted && 0 <= Left(c, s) && 0 <= Left(c, t)
      && if t.stopEnqueued != s.stopEnqueued then t.stopEnqueued
         else |t.queue| < |s.queue| || (|t.queue| == |s.queue| && Left(c, t) < Left(c, s))
  {
    W.Parts(c, s);
    if s.thread == W.Waiting && s.queue == [] { assert !s.stopEnqueued; }
  }

  // The actor with it

  /** The steps of the worker left to itself until the writer has gone. */
  function Finishing(c: W.Config, w: W.State, stores: W.State -> bool): seq<Step>
    requires W.Sound(c, w) && w.closed
    decreases !w.stopEnqueued, |w.queue|, Left(c, w)
  {
    if w.thread == W.Finished then []
    else
      var turn := Turn(c, w, stores);
      W.StepKeepsSound(c, w, turn);
      TurnProgresses(c, w, stores);
      [Worker(turn)] + Finishing(c, W.Next(c, w, turn), stores)
  }

  /** Left to itself a closed worker gets through everything it has accepted and goes, whichever attempts
      succeed, and the actor does nothing meanwhile. */
  lemma {:induction false} ClosedWorkerGoes(c: W.Config, s: State, stores: W.State -> bool)
    requires W.Sound(c, s.worker) && s.worker.closed
    ensures var t := Run(c, s, Finishing(c, s.worker, stores));
      && t == s.(worker := t.worker) && t.worker.accepted == s.worker.accepted
      && t.worker.thread == W.Finished && W.Recorded(t.worker.results) == s.worker.accepted
    decreases !s.worker.stopEnqueued, |s.worker.queue|, Left(c, s.worker)
  {
    if s.worker.thread == W.Finished {
      W.RunKeepsSound(c, s.worker, []);
    } else {
      var turn := Turn(c, s.worker, stores);
      var next := s.(worker := W.Next(c, s.worker, turn));
      W.StepKeepsSound(c, s.worker, turn);
      TurnProgresses(c, s.worker, stores);
      ClosedWorkerGoes(c, next, stores);
      var rest := Finishing(c, next.worker, stores);
      assert Finishing(c, s.worker, stores) == [Worker(turn)] + rest;
      assert ([Worker(turn)] + rest)[1..] == rest && Next(c, s, Worker(turn)) == next;
    }
  }

  lemma {:induction false} RunJoins(c: W.Config, s: State, a: seq<Step>, b: seq<Step>)
    ensures Run(c, s, a + b) == Run(c, Run(c, s, a), b)
    decreases |a|
  {
    hide Next;
    if a == [] {
      assert a + b == b;
    } else {
      assert (a + b)[1..] == a[1..] + b;
      RunJoins(c, Next(c, s, a[0]), a[1..], b);
    }
  }

  lemma {:induction false} DrainingReadsAll(s: State)
    requires s.drained <= |s.worker.results|
    ensures var t := DrainAll(s);
      t.drained == |t.worker.results| && t.worker == s.worker && t.active == s.active && t.sequence == s.sequence
    decreases |s.worker.results| - s.drained
  {
    if s.drained < |s.worker.results| { DrainingReadsAll(DrainOne(s)); }
  }

  lemma StoppedDrainReadsAll(c: W.Config, s: State, due: bool)
    requires s.drained <= |s.worker.results| && !s.active
    ensures var t := Run(c, s, [Drain(due)]);
      t.drained == |t.worker.results| && t.worker == s.worker && t.sequence == s.sequence
  {
    hide DrainAll;
    DrainingReadsAll(s);
    assert [Drain(due)][1..] == [];
  }

  lemma BeginningStopCloses(c: W.Config, s: State)
    requires Sound(c, s)
    ensures var t := Run(c, s, [BeginStop]);
      && Sound(c, t) && t.worker.closed && !t.active && t.worker.accepted == s.worker.accepted && t.sequence == s.sequence
  {
    NextKeepsSound(c, s, BeginStop);
    hide Sound;
    assert [BeginStop][1..] == [];
  }

  /** After any run a stopped actor that lets its worker finish, and reads its results, has told the fate of
      every record it ever numbered, and of those the worker had accepted each is stored or lost. */
  lemma StoppingSettlesEverything(c: W.Config, steps: seq<Step>, stores: W.State -> bool, due: bool)
    ensures var s := Run(c, Initial(), steps + [BeginStop]);
      && W.Sound(c, s.worker) && s.worker.closed
      && var all := steps + [BeginStop] + Finishing(c, s.worker, stores) + [Drain(due)];
         var t := Run(c, Initial(), all);
         && t.worker.thread == W.Finished && t.sequence == s.sequence
         && W.Recorded(t.worker.results) == s.worker.accepted == Run(c, Initial(), steps).worker.accepted
         && forall n :: 1 <= n <= t.sequence && n !in Skipped(c, Initial(), all) ==> Told(t.log, n)
  {
    InitialIsSound(c);
    RunKeepsSound(c, Initial(), steps);
    var before := Run(c, Initial(), steps);
    RunJoins(c, Initial(), steps, [BeginStop]);
    BeginningStopCloses(c, before);
    var s := Run(c, before, [BeginStop]);
    SoundParts(c, s);
    hide Sound, Next, Run, Told, Skipped;
    ClosedWorkerGoes(c, s, stores);
    var rest := Finishing(c, s.worker, stores);
    RunJoins(c, Initial(), steps + [BeginStop], rest);
    var u := Run(c, s, rest);
    RunKeepsSound(c, s, rest);
    SoundParts(c, u);
    RunJoins(c, Initial(), steps + [BeginStop] + rest, [Drain(due)]);
    StoppedDrainReadsAll(c, u, due);
    var all := steps + [BeginStop] + rest + [Drain(due)];
    forall n | 1 <= n <= Run(c, Initial(), all).sequence && n !in Skipped(c, Initial(), all)
      ensures Told(Run(c, Initial(), all).log, n)
    {
      FinishedIsSettled(c, all, n);
    }
  }

  lemma SoundParts(c: W.Config, s: State)
    requires Sound(c, s)
    ensures W.Sound(c, s.worker) && s.drained <= |s.worker.results|
  {
  }
}
