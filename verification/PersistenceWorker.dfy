/** The operational persistence worker: one producer, one writer thread, and a bounded queue between them.
    A step is one queue operation or one attempt to write a batch; steps of the two sides interleave freely. */
module PersistenceWorker {
  import opened Prelude

  datatype Record = Record(sequence: int, critical: bool, content: Id)

  /** The queue carries records and, last of all, the stop mark. */
  datatype Item = Entry(record: Record) | StopMark

  datatype Result = Result(record: Record, stored: bool, attempts: int)

  datatype ConfigValues = ConfigValues(capacity: int, reserve: int, batchSize: int, maxAttempts: int)

  type Config = c: ConfigValues | 0 <= c.reserve < c.capacity && 0 < c.batchSize && 0 < c.maxAttempts
    witness ConfigValues(1, 0, 1, 1)

  /** Where the writer thread is: waiting for a first record, filling a batch, about to make an attempt
      at writing it, or gone. */
  datatype Thread = Waiting | Gathering | Writing(attempt: int) | Finished

  /** `accepted` and `results` are everything ever accepted and ever reported. */
  datatype State = State(
    queue: seq<Item>,
    batch: seq<Record>,
    thread: Thread,
    stopping: bool,
    closed: bool,
    stopEnqueued: bool,
    accepted: seq<Record>,
    results: seq<Result>)

  function Initial(): State { State([], [], Waiting, false, false, false, [], []) }

  datatype Step =
    | Submit(record: Record)
    | Close
    | EnqueueStop
    | Take
    | Gather
    | Write(succeeds: bool)

  /** A submission is refused once the worker is closed, when the queue is full, or, for an ordinary
      record, when only the critical reserve is left. */
  predicate Admits(c: Config, s: State, record: Record) {
    && !s.closed
    && (record.critical || |s.queue| < c.capacity - c.reserve)
    && |s.queue| < c.capacity
  }

  function Reports(batch: seq<Record>, stored: bool, attempts: int): (r: seq<Result>)
    ensures |r| == |batch| && forall i :: 0 <= i < |r| ==> r[i] == Result(batch[i], stored, attempts)
  {
    seq(|batch|, i requires 0 <= i < |batch| => Result(batch[i], stored, attempts))
  }

  function Reported(s: State, stored: bool, attempts: int): State {
    s.(results := s.results + Reports(s.batch, stored, attempts), batch := [],
       thread := if s.stopping then Finished else Waiting)
  }

  /** A step that is not enabled where it stands changes nothing. */
  function Next(c: Config, s: State, step: Step): State {
    match step
    case Submit(record) =>
      if Admits(c, s, record) then s.(queue := s.queue + [Entry(record)], accepted := s.accepted + [record]) else s
    case Close => s.(closed := true)
    case EnqueueStop =>
      if s.closed && !s.stopEnqueued && |s.queue| < c.capacity
      then s.(queue := s.queue + [StopMark], stopEnqueued := true) else s
    case Take =>
      if s.thread != Waiting || s.queue == [] then s
      else if s.queue[0].StopMark? then s.(queue := s.queue[1..], thread := Finished)
      else s.(queue := s.queue[1..], batch := [s.queue[0].record], thread := Gathering)
    case Gather =>
      if s.thread != Gathering then s
      else if |s.batch| >= c.batchSize || s.queue == [] then s.(thread := Writing(1))
      else if s.queue[0].StopMark? then s.(queue := s.queue[1..], stopping := true, thread := Writing(1))
      else s.(queue := s.queue[1..], batch := s.batch + [s.queue[0].record])
    case Write(succeeds) =>
      if !s.thread.Writing? then s
      else if succeeds then Reported(s, true, s.thread.attempt)
      else if s.thread.attempt < c.maxAttempts then s.(thread := Writing(s.thread.attempt + 1))
      else Reported(s, false, s.thread.attempt)
  }

  // Accounting

  function Entries(queue: seq<Item>): seq<Record> {
    if queue == [] then []
    else (if queue[0].Entry? then [queue[0].record] else []) + Entries(queue[1..])
  }

  function Recorded(results: seq<Result>): (r: seq<Record>)
    ensures |r| == |results| && forall i :: 0 <= i < |r| ==> r[i] == results[i].record
  {
    seq(|results|, i requires 0 <= i < |results| => results[i].record)
  }

  function Ordinary(queue: seq<Item>): nat {
    if queue == [] then 0
    else (if queue[0].Entry? && !queue[0].record.critical then 1 else 0) + Ordinary(queue[1..])
  }

  function Critical(queue: seq<Item>): nat {
    if queue == [] then 0
    else (if queue[0].Entry? && queue[0].record.critical then 1 else 0) + Critical(queue[1..])
  }

  lemma {:induction false} EntriesAppend(queue: seq<Item>, item: Item)
    ensures Entries(queue + [item]) == Entries(queue) + (if item.Entry? then [item.record] else [])
  {
    if queue == [] {
      assert queue + [item] == [item] && [item][1..] == [];
    } else {
      assert (queue + [item])[1..] == queue[1..] + [item] && (queue + [item])[0] == queue[0];
      EntriesAppend(queue[1..], item);
      var first := if queue[0].Entry? then [queue[0].record] else [];
      var last := if item.Entry? then [item.record] else [];
      assert Entries(queue + [item]) == first + (Entries(queue[1..]) + last);
    }
  }

  lemma {:induction false} OrdinaryAppends(queue: seq<Item>, item: Item)
    ensures Ordinary(queue + [item]) == Ordinary(queue) + (if item.Entry? && !item.record.critical then 1 else 0)
  {
    if queue == [] {
      assert queue + [item] == [item] && [item][1..] == [];
    } else {
      assert (queue + [item])[1..] == queue[1..] + [item];
      OrdinaryAppends(queue[1..], item);
    }
  }

  lemma {:induction false} QueueIsEverything(queue: seq<Item>)
    requires StopMark !in queue
    ensures Ordinary(queue) + Critical(queue) == |queue|
  {
    if queue != [] { QueueIsEverything(queue[1..]); }
  }

  /** Accepted records are, in order and once each, those reported, then the batch in hand, then those queued. */
  ghost predicate Fifo(s: State) {
    s.accepted == Recorded(s.results) + s.batch + Entries(s.queue)
  }

  /** The stop mark is enqueued once, after the worker was closed, nothing follows it, and it is queued until
      the writer takes it. */
  ghost predicate StopIsLast(s: State) {
    && (forall i :: 0 <= i < |s.queue| - 1 ==> s.queue[i].Entry?)
    && (StopMark in s.queue ==> s.stopEnqueued && !s.stopping && s.thread != Finished)
    && (s.stopEnqueued ==> s.closed && (StopMark in s.queue || s.stopping || s.thread == Finished))
    && (s.stopping || s.thread == Finished ==> s.stopEnqueued && s.queue == [])
    && (s.stopping ==> s.thread.Writing? || s.thread == Finished)
  }

  ghost predicate ThreadKept(c: Config, s: State) {
    && (s.thread in {Waiting, Finished} ==> s.batch == [])
    && (s.thread.Gathering? || s.thread.Writing? ==> 0 < |s.batch|)
    && |s.batch| <= c.batchSize
    && (s.thread.Writing? ==> 1 <= s.thread.attempt <= c.maxAttempts)
  }

  /** Ordinary records never use the critical reserve. */
  ghost predicate ReserveKept(c: Config, s: State) {
    Ordinary(s.queue) <= c.capacity - c.reserve && |s.queue| <= c.capacity
  }

  /** A stored record took between one and all attempts, a lost one took all of them. */
  ghost predicate AttemptsTold(c: Config, s: State) {
    forall r :: r in s.results ==> 1 <= r.attempts <= c.maxAttempts && (!r.stored ==> r.attempts == c.maxAttempts)
  }

  ghost predicate Sound(c: Config, s: State) {
    Fifo(s) && StopIsLast(s) && ThreadKept(c, s) && ReserveKept(c, s) && AttemptsTold(c, s)
  }

  lemma EnqueueKeepsSound(c: Config, s: State, item: Item, t: State)
    requires Sound(c, s) && |s.queue| < c.capacity && StopMark !in s.queue && !s.stopping && s.thread != Finished
    requires item.Entry? && !item.record.critical ==> |s.queue| < c.capacity - c.reserve
    requires item.StopMark? ==> s.closed
    requires t == s.(queue := s.queue + [item], stopEnqueued := s.stopEnqueued || item.StopMark?,
                     accepted := if item.Entry? then s.accepted + [item.record] else s.accepted)
    ensures Sound(c, t)
  {
    EnqueueKeepsOrder(s, item, t);
    OrdinaryAppends(s.queue, item);
    QueueIsEverything(s.queue);
    EnqueueKeepsStopLast(s, item, t);
    hide Fifo, StopIsLast;
  }

  lemma EnqueueKeepsOrder(s: State, item: Item, t: State)
    requires Fifo(s) && t.queue == s.queue + [item] && t.results == s.results && t.batch == s.batch
    requires t.accepted == if item.Entry? then s.accepted + [item.record] else s.accepted
    ensures Fifo(t)
  {
    EntriesAppend(s.queue, item);
  }

  lemma EnqueueKeepsStopLast(s: State, item: Item, t: State)
    requires StopIsLast(s) && StopMark !in s.queue && !s.stopping && s.thread != Finished
    requires item.StopMark? ==> s.closed
    requires t == s.(queue := s.queue + [item], stopEnqueued := s.stopEnqueued || item.StopMark?, accepted := t.accepted)
    ensures StopIsLast(t)
  {
    assert forall i :: 0 <= i < |s.queue| ==> s.queue[i] in s.queue;
    assert item in t.queue;
  }

  lemma ReportingKeepsSound(c: Config, s: State, stored: bool)
    requires Sound(c, s) && s.thread.Writing? && (!stored ==> s.thread.attempt == c.maxAttempts)
    ensures Sound(c, Reported(s, stored, s.thread.attempt))
  {
    var t := Reported(s, stored, s.thread.attempt);
    assert Recorded(t.results) == Recorded(s.results) + s.batch;
  }

  lemma DequeueKeepsSound(c: Config, s: State, t: State)
    requires Sound(c, s) && s.queue != [] && s.queue[0].Entry?
    requires t == s.(queue := s.queue[1..], batch := s.batch + [s.queue[0].record], thread := Gathering)
    requires s.thread in {Waiting, Gathering} && |s.batch| < c.batchSize
    ensures Sound(c, t)
  {
    assert s.queue == [s.queue[0]] + s.queue[1..];
    assert StopMark in t.queue ==> StopMark in s.queue;
  }

  lemma TakingStopKeepsSound(c: Config, s: State, t: State)
    requires Sound(c, s) && s.queue != [] && s.queue[0].StopMark? && s.thread in {Waiting, Gathering}
    requires t == if s.thread == Waiting then s.(queue := s.queue[1..], thread := Finished)
                  else s.(queue := s.queue[1..], stopping := true, thread := Writing(1))
    ensures Sound(c, t)
  {
    assert |s.queue| == 1;
    assert s.queue[0] in s.queue;
  }

  lemma StepKeepsSound(c: Config, s: State, step: Step)
    requires Sound(c, s)
    ensures Sound(c, Next(c, s, step))
  {
    hide Sound;
    assert Fifo(s) && StopIsLast(s) && ThreadKept(c, s) && ReserveKept(c, s) && AttemptsTold(c, s) by { Parts(c, s); }
    match step
    case Submit(record) => if Admits(c, s, record) { EnqueueKeepsSound(c, s, Entry(record), Next(c, s, step)); }
    case Close => ClosingKeepsSound(c, s);
    case EnqueueStop => if Next(c, s, step) != s { EnqueueKeepsSound(c, s, StopMark, Next(c, s, step)); }
    case Take =>
      if s.thread == Waiting && s.queue != [] {
        if s.queue[0].StopMark? { TakingStopKeepsSound(c, s, Next(c, s, step)); }
        else { DequeueKeepsSound(c, s, Next(c, s, step)); }
      }
    case Gather =>
      if s.thread == Gathering {
        if |s.batch| >= c.batchSize || s.queue == [] { AttemptKeepsSound(c, s, 1); }
        else if s.queue[0].StopMark? { TakingStopKeepsSound(c, s, Next(c, s, step)); }
        else { DequeueKeepsSound(c, s, Next(c, s, step)); }
      }
    case Write(succeeds) =>
      if s.thread.Writing? {
        if succeeds || s.thread.attempt >= c.maxAttempts { ReportingKeepsSound(c, s, succeeds); }
        else { AttemptKeepsSound(c, s, s.thread.attempt + 1); }
      }
  }

  lemma Parts(c: Config, s: State)
    requires Sound(c, s)
    ensures Fifo(s) && StopIsLast(s) && ThreadKept(c, s) && ReserveKept(c, s) && AttemptsTold(c, s)
  {
  }

  lemma ClosingKeepsSound(c: Config, s: State)
    requires Sound(c, s)
    ensures Sound(c, s.(closed := true))
  {
  }

  lemma AttemptKeepsSound(c: Config, s: State, attempt: int)
    requires Sound(c, s) && (s.thread.Gathering? || s.thread.Writing?) && 1 <= attempt <= c.maxAttempts
    ensures Sound(c, s.(thread := Writing(attempt)))
  {
  }

  function Run(c: Config, s: State, steps: seq<Step>): State
    decreases |steps|
  {
    if steps == [] then s else Run(c, Next(c, s, steps[0]), steps[1..])
  }

  /** Over every interleaving: accepted records come out in order and once each, whatever fails; when the
      writer thread has gone, as a successful close reports, every accepted record has its result; and a
      record is never accepted after the stop mark. */
  lemma {:induction false} RunKeepsSound(c: Config, s: State, steps: seq<Step>)
    requires Sound(c, s)
    ensures Sound(c, Run(c, s, steps))
    ensures Run(c, s, steps).thread == Finished ==>
      Recorded(Run(c, s, steps).results) == Run(c, s, steps).accepted && Run(c, s, steps).queue == []
    decreases |steps|
  {
    if steps == [] {
      if s.thread == Finished { assert Entries(s.queue) == [] && Recorded(s.results) + [] + [] == Recorded(s.results); }
    } else {
      StepKeepsSound(c, s, steps[0]);
      RunKeepsSound(c, Next(c, s, steps[0]), steps[1..]);
    }
  }

  /** An open worker refuses a critical record only while at least a reserve's worth of critical records
      is queued, and an ordinary one only when nothing but the reserve is free. */
  lemma RefusalsAreEarned(c: Config, s: State, record: Record)
    requires Sound(c, s) && !s.closed && !Admits(c, s, record)
    ensures record.critical ==> Critical(s.queue) >= c.reserve
    ensures !record.critical ==> |s.queue| >= c.capacity - c.reserve
  {
    QueueIsEverything(s.queue);
  }

  // What one batch takes

  /** As many gathering steps as asked for, with nothing in between. */
  function GatherTimes(c: Config, s: State, n: nat): State
    decreases n
  {
    if n == 0 then s else GatherTimes(c, Next(c, s, Gather), n - 1)
  }

  lemma EntriesFirst(s: State)
    requires StopIsLast(s)
    ensures Entries(s.queue) == [] <==> s.queue == [] || s.queue[0].StopMark?
    ensures s.queue != [] && s.queue[0].Entry? ==> Entries(s.queue) == [s.queue[0].record] + Entries(s.queue[1..])
  {
    if s.queue != [] && s.queue[0].StopMark? { assert |s.queue| == 1 && s.queue[1..] == []; }
  }

  /** `t` has gathered the first `n` queued records and is about to write. */
  ghost predicate Gathered(c: Config, s: State, n: nat, t: State) {
    && n <= |Entries(s.queue)|
    && t.thread == Writing(1) && t.batch == s.batch + Entries(s.queue)[..n] && Entries(t.queue) == Entries(s.queue)[n..]
    && (t.stopping <==> StopMark in s.queue && |s.batch| + n < c.batchSize)
    && t.accepted == s.accepted && t.results == s.results
  }

  lemma GatheringOne(c: Config, s: State)
    requires Sound(c, s) && s.thread == Gathering && |s.batch| < c.batchSize && Entries(s.queue) != []
    ensures var t := Next(c, s, Gather);
      && Sound(c, t) && t.thread == Gathering && t.batch == s.batch + [Entries(s.queue)[0]]
      && |t.queue| < |s.queue| && Entries(t.queue) == Entries(s.queue)[1..]
      && (StopMark in t.queue <==> StopMark in s.queue) && t.accepted == s.accepted && t.results == s.results
  {
    EntriesFirst(s);
    StepKeepsSound(c, s, Gather);
    hide Sound;
    assert s.queue == [s.queue[0]] + s.queue[1..];
  }

  lemma GatheringEnds(c: Config, s: State)
    requires Sound(c, s) && s.thread == Gathering && (|s.batch| == c.batchSize || Entries(s.queue) == [])
    ensures Gathered(c, s, 0, Next(c, s, Gather))
  {
    EntriesFirst(s);
    var e := Entries(s.queue);
    assert e[..0] == [] && s.batch + [] == s.batch && e[0..] == e;
    assert s.queue != [] ==> s.queue[0] in s.queue;
    if Entries(s.queue) == [] && s.queue != [] { assert s.queue[1..] == []; }
  }

  lemma GatheringGoesOn(c: Config, s: State, u: State, n: nat, t: State)
    requires Gathered(c, u, n, t) && Entries(s.queue) != [] && Entries(u.queue) == Entries(s.queue)[1..]
    requires u.batch == s.batch + [Entries(s.queue)[0]] && (StopMark in u.queue <==> StopMark in s.queue)
    requires u.accepted == s.accepted && u.results == s.results
    ensures Gathered(c, s, n + 1, t)
  {
    hide Entries;
    var e := Entries(s.queue);
    assert e[..n + 1] == [e[0]] + e[1..][..n] && e[1..][n..] == e[n + 1..];
    assert s.batch + e[..n + 1] == u.batch + e[1..][..n];
  }

  /** Left alone, the writer fills its batch with the records that are queued, in order, until the batch is
      full or none is left, and only then writes; it takes the stop mark exactly when that comes next. */
  lemma {:induction false} GatheringFillsTheBatch(c: Config, s: State)
    requires Sound(c, s) && s.thread == Gathering
    ensures var n := Min(c.batchSize - |s.batch|, |Entries(s.queue)|);
      n >= 0 && Gathered(c, s, n, GatherTimes(c, s, n + 1))
    decreases |s.queue|
  {
    var n := Min(c.batchSize - |s.batch|, |Entries(s.queue)|);
    var u := Next(c, s, Gather);
    if |s.batch| < c.batchSize && Entries(s.queue) != [] {
      GatheringOne(c, s);
      hide Gathered, Sound, Next, Entries;
      GatheringFillsTheBatch(c, u);
      GatheringGoesOn(c, s, u, n - 1, GatherTimes(c, u, n));
      assert GatherTimes(c, s, n + 1) == GatherTimes(c, u, n);
    } else {
      GatheringEnds(c, s);
      hide Gathered, Next, Entries;
      assert GatherTimes(c, s, 1) == GatherTimes(c, u, 0) == u;
    }
  }

  lemma InitialIsSound(c: Config)
    ensures Sound(c, Initial())
  {
  }

  // The retry loop of one batch

  /** The first successful attempt from `attempt` on, if there is one. */
  function FirstSuccess(c: Config, attempt: int, writes: int -> bool): (r: Option<int>)
    requires 1 <= attempt
    ensures r.Some? ==> attempt <= r.value <= c.maxAttempts && writes(r.value)
    ensures r.Some? ==> forall a :: attempt <= a < r.value ==> !writes(a)
    ensures r.None? ==> forall a :: attempt <= a <= c.maxAttempts ==> !writes(a)
    decreases c.maxAttempts - attempt
  {
    if attempt > c.maxAttempts then None
    else if writes(attempt) then Some(attempt)
    else FirstSuccess(c, attempt + 1, writes)
  }

  /** The loop as the thread runs it; `writes` tells which attempts do not raise. */
  method WriteWithRetries(c: Config, records: seq<Record>, writes: int -> bool) returns (results: seq<Result>)
    ensures results == match FirstSuccess(c, 1, writes)
      case Some(attempt) => Reports(records, true, attempt)
      case None => Reports(records, false, c.maxAttempts)
  {
    var attempt := 1;
    while true
      invariant 1 <= attempt <= c.maxAttempts && FirstSuccess(c, 1, writes) == FirstSuccess(c, attempt, writes)
      decreases c.maxAttempts - attempt
    {
      if writes(attempt) { return Reports(records, true, attempt); }
      if attempt == c.maxAttempts { return Reports(records, false, attempt); }
      attempt := attempt + 1;
    }
  }

  /** The loop does what the write steps do one at a time. */
  lemma {:induction false} RetriesAreSteps(c: Config, s: State, attempt: int, writes: int -> bool)
    requires s.thread == Writing(attempt) && 1 <= attempt <= c.maxAttempts
    ensures exists steps :: Run(c, s, steps) == match FirstSuccess(c, attempt, writes)
      case Some(a) => Reported(s, true, a)
      case None => Reported(s, false, c.maxAttempts)
    decreases c.maxAttempts - attempt
  {
    var t := Next(c, s, Write(writes(attempt)));
    if writes(attempt) || attempt == c.maxAttempts {
      assert Run(c, t, []) == t;
      assert Run(c, s, [Write(writes(attempt))]) == t by { assert [Write(writes(attempt))][1..] == []; }
    } else {
      RetriesAreSteps(c, t, attempt + 1, writes);
      var rest :| Run(c, t, rest) == match FirstSuccess(c, attempt + 1, writes)
        case Some(a) => Reported(t, true, a)
        case None => Reported(t, false, c.maxAttempts);
      var steps := [Write(false)] + rest;
      assert steps[1..] == rest;
      assert Run(c, s, steps) == Run(c, t, rest);
    }
  }
}
