/** The cover fetch queue of the browser client: fetches step aside for audio, are retried when an audio request
    interrupts them, and drain again afterwards (index.js).

    JavaScript runs one callback at a time, so a run is a sequence of callbacks: calls of the client, answers of
    fetches, the `finally` of a fetch, and scheduled drains. Between a fetch's answer and its `finally` anything may
    run. The sets of promises under way are ghost: the client has only the queue, the counters and the flags. */
module CoverFetches {

  /** One queued promise; every call of the client makes a new one. */
  type Job = nat

  datatype Outcome = Resolved | Rejected

  const MAX_CONCURRENT: nat := 3
  const MAX_DURING_AUDIO: nat := 1

  /** The client's fields, and what is under way around them: running fetches, fetches that have answered but not yet
      given back their place, drains scheduled as microtasks, audio sources not yet released, and the answers given. */
  datatype State = State(
    queue: seq<Job>, active: nat, paused: bool, audioOpens: nat, audioSources: nat, offline: bool, closed: bool,
    fetching: set<Job>, ending: nat, drains: nat, sources: set<nat>, settled: map<Job, Outcome>)

  datatype Event =
    | Enqueue(job: Job)
    | Succeeded(job: Job)
    | Failed(job: Job)
    | Ended
    | AudioBegins
    | AudioOpened(source: nat)
    | AudioReleased(source: nat)
    | AudioEnds
    | DrainTask
    | SetOffline(on: bool)
    | Close

  function Initial(): State {
    State([], 0, false, 0, 0, false, false, {}, 0, 0, {}, map[])
  }

  function Members(queue: seq<Job>): (jobs: set<Job>)
    ensures forall j: Job :: j in jobs <==> j in queue
  {
    if queue == [] then {} else {queue[0]} + Members(queue[1..])
  }

  function Concurrency(audioSources: nat): nat {
    if audioSources > 0 then MAX_DURING_AUDIO else MAX_CONCURRENT
  }

  predicate Runs(s: State) {
    !s.closed && !s.offline && !s.paused
  }

  /** How many fetches a drain starts. */
  function Starts(s: State): (n: nat)
    ensures n <= |s.queue|
  {
    var limit := Concurrency(s.audioSources);
    if !Runs(s) || s.active >= limit then 0 else if |s.queue| < limit - s.active then |s.queue| else limit - s.active
  }

  function Drained(s: State): State {
    var n := Starts(s);
    s.(queue := s.queue[n..], active := s.active + n, fetching := s.fetching + Members(s.queue[..n]))
  }

  function Less(n: nat): nat {
    if n == 0 then 0 else n - 1
  }

  /** What can happen in a state: new promises, answers of running fetches, and the client's own calls. */
  predicate Enabled(s: State, e: Event) {
    match e
    case Enqueue(job) => job !in s.queue && job !in s.fetching && job !in s.settled
    case Succeeded(job) => job in s.fetching
    case Failed(job) => job in s.fetching
    case Ended => s.ending > 0
    case AudioBegins => true
    case AudioOpened(source) => source !in s.sources
    case AudioReleased(_) => true
    case AudioEnds => s.audioOpens > 0
    case DrainTask => s.drains > 0
    case SetOffline(_) => true
    case Close => true
  }

  function Settle(s: State, jobs: set<Job>, outcome: Outcome): State {
    s.(settled := s.settled + map j | j in jobs :: outcome)
  }

  function Step(s: State, e: Event): State
    requires Enabled(s, e)
  {
    match e
    case Enqueue(job) =>
      if s.closed || s.offline then Settle(s, {job}, Rejected) else Drained(s.(queue := s.queue + [job]))
    case Succeeded(job) =>
      Settle(s, {job}, Resolved).(fetching := s.fetching - {job}, ending := s.ending + 1)
    case Failed(job) =>
      var left := s.(fetching := s.fetching - {job}, ending := s.ending + 1);
      if s.paused && !s.closed then left.(queue := [job] + s.queue) else Settle(left, {job}, Rejected)
    case Ended => Drained(s.(ending := s.ending - 1, active := Less(s.active)))
    case AudioBegins => s.(audioOpens := s.audioOpens + 1, paused := true)
    case AudioOpened(source) => s.(audioSources := s.audioSources + 1, sources := s.sources + {source})
    case AudioReleased(source) =>
      if source !in s.sources then s
      else s.(audioSources := Less(s.audioSources), sources := s.sources - {source}, drains := s.drains + 1)
    case AudioEnds =>
      var ended := s.(audioOpens := s.audioOpens - 1);
      if ended.audioOpens == 0 then Drained(ended.(paused := false)) else ended
    case DrainTask => Drained(s.(drains := s.drains - 1))
    case SetOffline(on) => if on then s.(offline := true) else Drained(s.(offline := false))
    case Close => Settle(s, Members(s.queue), Rejected).(closed := true, queue := [])
  }

  predicate Distinct(queue: seq<Job>) {
    forall i, j :: 0 <= i < j < |queue| ==> queue[i] != queue[j]
  }

  /** Every promise is in exactly one place: waiting once, being fetched, or answered. */
  predicate Placed(s: State) {
    && Distinct(s.queue)
    && (forall j :: j in s.queue ==> j !in s.fetching && j !in s.settled)
    && (forall j :: j in s.fetching ==> j !in s.settled)
  }

  predicate Known(s: State, j: Job) {
    j in s.queue || j in s.fetching || j in s.settled
  }

  /** No promise is lost, and only issued ones appear. */
  ghost predicate Conserved(s: State, s': State, issued: set<Job>) {
    forall j: Job :: Known(s', j) <==> Known(s, j) || j in issued
  }

  /** The counters are the sizes of what they count. */
  predicate Counted(s: State) {
    && s.active == |s.fetching| + s.ending
    && s.active <= MAX_CONCURRENT
    && (s.paused <==> s.audioOpens > 0)
    && s.audioSources == |s.sources|
    && (s.closed ==> s.queue == [])
  }

  /** A waiting fetch that may run has no free place, or a drain is still to come. */
  predicate Woken(s: State) {
    s.queue != [] && Runs(s) ==> s.active >= Concurrency(s.audioSources) || s.ending > 0 || s.drains > 0
  }

  predicate Inv(s: State) {
    Placed(s) && Counted(s) && Woken(s)
  }

  // ---- Draining ----

  lemma {:induction false} MembersSize(queue: seq<Job>)
    requires Distinct(queue)
    ensures |Members(queue)| == |queue|
  {
    if queue != [] {
      MembersSize(queue[1..]);
      assert queue[0] !in Members(queue[1..]);
    }
  }

  lemma DisjointSize(a: set<Job>, b: set<Job>)
    requires a !! b
    ensures |a + b| == |a| + |b|
  {
  }

  lemma TakeDistinct(queue: seq<Job>, n: nat)
    requires Distinct(queue) && n <= |queue|
    ensures Distinct(queue[..n]) && Distinct(queue[n..])
    ensures forall j: Job :: j in queue <==> j in queue[..n] || j in queue[n..]
    ensures forall j: Job :: j in queue[..n] ==> j !in queue[n..]
  {
    assert queue == queue[..n] + queue[n..];
  }

  lemma DrainPlaced(s: State)
    requires Placed(s)
    ensures Placed(Drained(s))
  {
    TakeDistinct(s.queue, Starts(s));
    hide Distinct, Members, Starts;
  }

  lemma DrainCounted(s: State)
    requires Placed(s) && Counted(s)
    ensures Counted(Drained(s))
  {
    var n := Starts(s);
    TakeDistinct(s.queue, n);
    MembersSize(s.queue[..n]);
    DisjointSize(s.fetching, Members(s.queue[..n]));
    assert n > 0 ==> s.active + n <= Concurrency(s.audioSources);
    hide Distinct, Members, Placed, Starts;
  }

  lemma DrainConserves(s: State)
    ensures Conserved(s, Drained(s), {})
  {
    var n := Starts(s);
    assert s.queue == s.queue[..n] + s.queue[n..];
    hide Starts;
  }

  /** A drain only moves waiting fetches to running ones, in order, within the limit, and leaves none waiting that
      could run. */
  lemma DrainKeeps(s: State)
    requires Placed(s) && Counted(s)
    ensures Inv(Drained(s)) && Conserved(s, Drained(s), {}) && Drained(s).settled == s.settled
    ensures Drained(s).active > s.active ==> Runs(s) && Drained(s).active <= Concurrency(s.audioSources)
  {
    DrainPlaced(s);
    DrainCounted(s);
    DrainConserves(s);
    hide Placed, Counted, Members, Conserved;
  }

  // ---- Every step ----

  function Issued(e: Event): set<Job> {
    if e.Enqueue? then {e.job} else {}
  }

  predicate AnswersStay(s: State, s': State) {
    forall j :: j in s.settled ==> j in s'.settled && s'.settled[j] == s.settled[j]
  }

  /** The part of the invariant that holds before a drain as well. */
  ghost predicate Ready(s: State, s': State, issued: set<Job>) {
    Placed(s') && Counted(s') && Conserved(s, s', issued) && AnswersStay(s, s')
  }

  lemma ConservedTwice(s: State, s': State, s'': State, a: set<Job>, b: set<Job>)
    requires Conserved(s, s', a) && Conserved(s', s'', b)
    ensures Conserved(s, s'', a + b)
  {
    hide Known;
    forall j: Job ensures Known(s'', j) <==> Known(s, j) || j in a + b {
      assert Known(s', j) <==> Known(s, j) || j in a;
    }
  }

  lemma ReadyIs(s: State, s': State, issued: set<Job>)
    ensures Ready(s, s', issued) <==> Placed(s') && Counted(s') && Conserved(s, s', issued) && AnswersStay(s, s')
    ensures Inv(s') <==> Placed(s') && Counted(s') && Woken(s')
  {
    hide Placed, Counted, Conserved, AnswersStay, Woken;
  }

  lemma AnswersStayOn(s: State, s': State, s'': State)
    requires AnswersStay(s, s') && s''.settled == s'.settled
    ensures AnswersStay(s, s'')
  {
  }

  lemma DrainAfter(s: State, s': State, issued: set<Job>)
    requires Ready(s, s', issued)
    ensures Ready(s, Drained(s'), issued) && Inv(Drained(s'))
  {
    hide *;
    ReadyIs(s, s', issued);
    DrainKeeps(s');
    ConservedTwice(s, s', Drained(s'), issued, {});
    assert issued + {} == issued;
    AnswersStayOn(s, s', Drained(s'));
    ReadyIs(s, Drained(s'), issued);
  }

  /** Only counters change. */
  lemma SameJobs(s: State, s': State)
    requires Placed(s) && s'.queue == s.queue && s'.fetching == s.fetching && s'.settled == s.settled && Counted(s')
    ensures Ready(s, s', {})
  {
    assert forall j: Job :: Known(s', j) <==> Known(s, j);
  }

  lemma QueuePlaced(s: State, job: Job)
    requires Placed(s) && !Known(s, job)
    ensures Placed(s.(queue := s.queue + [job])) && Conserved(s, s.(queue := s.queue + [job]), {job})
  {
  }

  lemma EnqueueQueues(s: State, job: Job)
    requires Inv(s) && Enabled(s, Enqueue(job)) && !s.closed
    ensures Ready(s, s.(queue := s.queue + [job]), {job})
  {
    QueuePlaced(s, job);
    hide Placed, Conserved, Members;
  }

  lemma SettleJob(s: State, job: Job, outcome: Outcome)
    ensures Settle(s, {job}, outcome) == s.(settled := s.settled[job := outcome])
  {
  }

  lemma EnqueueRefused(s: State, job: Job)
    requires Inv(s) && Enabled(s, Enqueue(job))
    ensures Ready(s, Settle(s, {job}, Rejected), {job}) && Inv(Settle(s, {job}, Rejected))
  {
    hide Members, Distinct;
    SettleJob(s, job, Rejected);
  }

  function Answered(s: State, job: Job, outcome: Outcome): State {
    Settle(s, {job}, outcome).(fetching := s.fetching - {job}, ending := s.ending + 1)
  }

  lemma AnswerPlaced(s: State, job: Job, outcome: Outcome)
    requires Placed(s) && job in s.fetching
    ensures Placed(Answered(s, job, outcome)) && Conserved(s, Answered(s, job, outcome), {})
    ensures AnswersStay(s, Answered(s, job, outcome))
  {
    hide Members, Distinct;
    SettleJob(s, job, outcome);
  }

  lemma AnswerCounted(s: State, job: Job, outcome: Outcome)
    requires Counted(s) && job in s.fetching
    ensures Counted(Answered(s, job, outcome)) && Woken(Answered(s, job, outcome))
  {
    SettleJob(s, job, outcome);
    assert |s.fetching - {job}| == |s.fetching| - 1;
  }

  lemma AnswerSettles(s: State, job: Job, outcome: Outcome)
    requires Inv(s) && job in s.fetching
    ensures Ready(s, Answered(s, job, outcome), {}) && Inv(Answered(s, job, outcome))
  {
    AnswerPlaced(s, job, outcome);
    AnswerCounted(s, job, outcome);
    hide Placed, Counted, Conserved, AnswersStay, Answered, Woken;
  }

  function Retried(s: State, job: Job): State {
    s.(fetching := s.fetching - {job}, ending := s.ending + 1, queue := [job] + s.queue)
  }

  lemma RetryPlaced(s: State, job: Job)
    requires Placed(s) && job in s.fetching
    ensures Placed(Retried(s, job)) && Conserved(s, Retried(s, job), {})
  {
    hide Members;
  }

  lemma RetryQueues(s: State, job: Job)
    requires Inv(s) && job in s.fetching && s.paused && !s.closed
    ensures Ready(s, Retried(s, job), {}) && Inv(Retried(s, job))
  {
    RetryPlaced(s, job);
    assert |s.fetching - {job}| == |s.fetching| - 1;
    hide Members, Placed, Conserved;
  }

  lemma ClosePlaced(s: State)
    requires Placed(s)
    ensures Placed(Step(s, Close)) && Conserved(s, Step(s, Close), {}) && AnswersStay(s, Step(s, Close))
  {
    hide Members;
  }

  lemma CloseSettles(s: State)
    requires Inv(s)
    ensures Ready(s, Step(s, Close), {}) && Inv(Step(s, Close))
  {
    ClosePlaced(s);
    hide Placed, Conserved, AnswersStay, Members, Distinct;
  }

  lemma SourceSize(s: State, source: nat)
    ensures source in s.sources ==> |s.sources - {source}| == |s.sources| - 1
    ensures source !in s.sources ==> |s.sources + {source}| == |s.sources| + 1
  {
  }

  lemma CounterKeeps(s: State, e: Event)
    requires Inv(s) && Enabled(s, e) && (e.AudioBegins? || e.AudioOpened? || e.AudioReleased?)
    ensures Ready(s, Step(s, e), {}) && Inv(Step(s, e))
  {
    if e.AudioOpened? || e.AudioReleased? {
      SourceSize(s, e.source);
    }
    SameJobs(s, Step(s, e));
    hide Placed, Conserved;
  }

  lemma DrainStepKeeps(s: State, e: Event)
    requires Inv(s) && Enabled(s, e) && (e.Ended? || e.AudioEnds? || e.DrainTask? || e.SetOffline?)
    ensures Ready(s, Step(s, e), {}) && Inv(Step(s, e))
  {
    hide Placed, Conserved, Ready, Drained, Concurrency;
    match e {
      case Ended =>
        var s' := s.(ending := s.ending - 1, active := Less(s.active));
        SameJobs(s, s');
        DrainAfter(s, s', {});
      case AudioEnds =>
        var s' := s.(audioOpens := s.audioOpens - 1);
        if s'.audioOpens == 0 {
          SameJobs(s, s'.(paused := false));
          DrainAfter(s, s'.(paused := false), {});
        } else {
          SameJobs(s, s');
          ReadyPlaced(s, s', {});
        }
      case DrainTask =>
        var s' := s.(drains := s.drains - 1);
        SameJobs(s, s');
        DrainAfter(s, s', {});
      case SetOffline(on) =>
        var s' := s.(offline := on);
        SameJobs(s, s');
        ReadyPlaced(s, s', {});
        if !on {
          DrainAfter(s, s', {});
        }
    }
  }

  lemma ReadyPlaced(s: State, s': State, issued: set<Job>)
    requires Ready(s, s', issued)
    ensures Placed(s') && Counted(s')
  {
  }

  /** What every step keeps; answers once given stay, and no promise is lost. */
  lemma StepKeeps(s: State, e: Event)
    requires Inv(s) && Enabled(s, e)
    ensures Inv(Step(s, e)) && Ready(s, Step(s, e), Issued(e))
  {
    match e {
      case Enqueue(job) =>
        if s.closed || s.offline {
          EnqueueRefused(s, job);
        } else {
          EnqueueQueues(s, job);
          DrainAfter(s, s.(queue := s.queue + [job]), {job});
        }
      case Succeeded(job) => AnswerSettles(s, job, Resolved);
      case Failed(job) =>
        if s.paused && !s.closed {
          RetryQueues(s, job);
        } else {
          AnswerSettles(s, job, Rejected);
        }
      case Close => CloseSettles(s);
      case AudioBegins => CounterKeeps(s, e);
      case AudioOpened(_) => CounterKeeps(s, e);
      case AudioReleased(_) => CounterKeeps(s, e);
      case _ => DrainStepKeeps(s, e);
    }
    hide Placed, Counted, Woken, Conserved, Drained, AnswersStay, Members, Settle;
  }

  // ---- Whole runs ----

  predicate EnabledRun(s: State, run: seq<Event>)
    decreases |run|
  {
    run == [] || (Enabled(s, run[0]) && EnabledRun(Step(s, run[0]), run[1..]))
  }

  function After(s: State, run: seq<Event>): State
    requires EnabledRun(s, run)
    decreases |run|
  {
    if run == [] then s else After(Step(s, run[0]), run[1..])
  }

  function IssuedIn(run: seq<Event>): set<Job> {
    if run == [] then {} else Issued(run[0]) + IssuedIn(run[1..])
  }

  lemma {:induction false} RunKeeps(s: State, run: seq<Event>)
    requires Inv(s) && EnabledRun(s, run)
    ensures Inv(After(s, run)) && Conserved(s, After(s, run), IssuedIn(run)) && AnswersStay(s, After(s, run))
    decreases |run|
  {
    hide Inv, Step, Enabled, Known;
    if run != [] {
      StepKeeps(s, run[0]);
      RunKeeps(Step(s, run[0]), run[1..]);
      ConservedTwice(s, Step(s, run[0]), After(s, run), Issued(run[0]), IssuedIn(run[1..]));
    }
  }

  /** Nothing runs, nothing is scheduled, and the client may fetch. */
  predicate Idle(s: State) {
    s.fetching == {} && s.ending == 0 && s.drains == 0 && s.audioOpens == 0 && (!s.offline || s.closed)
  }

  /** Once everything under way has ended, no cover fetch is left waiting: every promise made in the run is answered. */
  lemma AllAnswered(run: seq<Event>)
    requires EnabledRun(Initial(), run) && Idle(After(Initial(), run))
    ensures After(Initial(), run).queue == []
    ensures forall j: Job :: j in After(Initial(), run).settled <==> j in IssuedIn(run)
  {
    InitialInv();
    RunKeeps(Initial(), run);
    IdleQueue(After(Initial(), run));
    forall j: Job ensures j in After(Initial(), run).settled <==> j in IssuedIn(run) {
      assert Known(After(Initial(), run), j) <==> Known(Initial(), j) || j in IssuedIn(run);
    }
    hide After, EnabledRun, Inv, IssuedIn;
  }

  lemma IdleQueue(s: State)
    requires Inv(s) && Idle(s)
    ensures s.queue == [] && s.fetching == {}
  {
    hide Placed;
  }

  lemma InitialInv()
    ensures Inv(Initial())
  {
  }

  lemma DrainStarts(s: State, j: Job)
    requires j in Drained(s).fetching && j !in s.fetching
    ensures Runs(s) && j in s.queue
    ensures Drained(s).active <= Concurrency(s.audioSources)
  {
    var n := Starts(s);
    assert n > 0;
    assert s.queue == s.queue[..n] + s.queue[n..];
    hide Members;
  }

  lemma DrainFlags(s: State)
    ensures Runs(Drained(s)) == Runs(s) && Drained(s).audioSources == s.audioSources
  {
  }

  /** Whenever a step starts a fetch, the refill of a place just given back included, the client may fetch, the fetch
      was waiting or has just been asked for, and no more run than the limit in force: one during audio, else three. */
  lemma StartsWithinLimit(s: State, e: Event, j: Job)
    requires Enabled(s, e) && j in Step(s, e).fetching && j !in s.fetching
    ensures var s' := Step(s, e);
            !s'.closed && !s'.offline && !s'.paused && s'.active <= if s'.audioSources > 0 then 1 else 3
    ensures j in s.queue || e == Enqueue(j)
  {
    hide Drained;
    match e {
      case Enqueue(job) =>
        DrainFlags(s.(queue := s.queue + [job]));
        DrainStarts(s.(queue := s.queue + [job]), j);
      case Ended =>
        DrainFlags(s.(ending := s.ending - 1, active := Less(s.active)));
        DrainStarts(s.(ending := s.ending - 1, active := Less(s.active)), j);
      case AudioEnds =>
        DrainFlags(s.(audioOpens := s.audioOpens - 1, paused := false));
        DrainStarts(s.(audioOpens := s.audioOpens - 1, paused := false), j);
      case DrainTask =>
        DrainFlags(s.(drains := s.drains - 1));
        DrainStarts(s.(drains := s.drains - 1), j);
      case SetOffline(on) =>
        DrainFlags(s.(offline := false));
        DrainStarts(s.(offline := false), j);
      case _ =>
    }
  }

  // ---- The order of retries ----

  /** Promises are numbered as they are made. */
  ghost predicate Numbered(s: State, run: seq<Event>)
    requires EnabledRun(s, run)
    decreases |run|
  {
    run == [] || ((run[0].Enqueue? ==> Newest(s, run[0].job)) && Numbered(Step(s, run[0]), run[1..]))
  }

  ghost predicate Newest(s: State, job: Job) {
    forall j: Job :: Known(s, j) ==> j < job
  }

  predicate Sorted(queue: seq<Job>) {
    forall i, j :: 0 <= i < j < |queue| ==> queue[i] < queue[j]
  }

  predicate Retries(s: State, e: Event) {
    e.Failed? && s.paused && !s.closed
  }

  /** What a retry needs to keep the order: nothing waits, or only fetches asked for after it. */
  predicate Overtakes(s: State, e: Event)
    requires e.Failed?
  {
    s.queue == [] || e.job < s.queue[0]
  }

  /** One step keeps the waiting fetches in the order they were asked for, unless it retries one that was asked for
      after the first of them. */
  lemma StepSorted(s: State, e: Event)
    requires Enabled(s, e) && Sorted(s.queue) && (e.Enqueue? ==> Newest(s, e.job))
    ensures Sorted(Step(s, e).queue) <==> (Retries(s, e) ==> Overtakes(s, e))
  {
    if Retries(s, e) {
      RetrySorted(e.job, s.queue);
    } else {
      match e {
        case Enqueue(job) =>
          NewestLast(s, job);
          DrainSorted(s.(queue := s.queue + [job]));
        case Ended => DrainSorted(s.(ending := s.ending - 1, active := Less(s.active)));
        case AudioEnds => DrainSorted(s.(audioOpens := s.audioOpens - 1, paused := false));
        case DrainTask => DrainSorted(s.(drains := s.drains - 1));
        case SetOffline(on) => DrainSorted(s.(offline := false));
        case _ =>
      }
    }
    hide Sorted, Drained, Members, Concurrency, Known, Newest;
  }

  lemma NewestLast(s: State, job: Job)
    requires Sorted(s.queue) && Newest(s, job)
    ensures Sorted(s.queue + [job])
  {
    forall i | 0 <= i < |s.queue| ensures s.queue[i] < job {
      assert Known(s, s.queue[i]);
    }
  }

  lemma RetrySorted(job: Job, queue: seq<Job>)
    requires Sorted(queue)
    ensures Sorted([job] + queue) <==> queue == [] || job < queue[0]
  {
    var all := [job] + queue;
    if queue != [] {
      assert all[0] == job && all[1] == queue[0];
    }
    assert forall i :: 0 < i < |all| ==> all[i] == queue[i - 1];
  }

  lemma DrainSorted(s: State)
    requires Sorted(s.queue)
    ensures Sorted(Drained(s).queue)
  {
  }

  predicate AlwaysSorted(s: State, run: seq<Event>)
    requires EnabledRun(s, run)
    decreases |run|
  {
    Sorted(s.queue) && (run == [] || AlwaysSorted(Step(s, run[0]), run[1..]))
  }

  predicate RetriesOvertake(s: State, run: seq<Event>)
    requires EnabledRun(s, run)
    decreases |run|
  {
    run == [] || ((Retries(s, run[0]) ==> Overtakes(s, run[0])) && RetriesOvertake(Step(s, run[0]), run[1..]))
  }

  /** Over a whole run the waiting fetches stay in the order they were asked for exactly when every retry finds only
      fetches waiting that were asked for after it. */
  lemma {:induction false} OrderKeptIff(s: State, run: seq<Event>)
    requires EnabledRun(s, run) && Numbered(s, run) && Sorted(s.queue)
    ensures AlwaysSorted(s, run) <==> RetriesOvertake(s, run)
    decreases |run|
  {
    hide Sorted, Step, Enabled, Retries, Overtakes, Newest;
    if run != [] {
      StepSorted(s, run[0]);
      if Sorted(Step(s, run[0]).queue) {
        OrderKeptIff(Step(s, run[0]), run[1..]);
      } else {
        NotSorted(Step(s, run[0]), run[1..]);
      }
    }
  }

  lemma NotSorted(s: State, run: seq<Event>)
    requires EnabledRun(s, run) && !Sorted(s.queue)
    ensures !AlwaysSorted(s, run)
  {
  }

  /** Two fetches asked for in order, both running when audio pauses them, and failing in order. */
  function RetryRun(): seq<Event> {
    [Enqueue(1), Enqueue(2), AudioBegins, Failed(1), Failed(2)]
  }

  /** They come back in reverse. */
  lemma RetryReverses()
    ensures EnabledRun(Initial(), RetryRun()) && EnabledRun(Initial(), RetryRun()[..3])
    ensures var s := After(Initial(), RetryRun()[..3]); s.fetching == {1, 2} && s.queue == [] && s.paused && !s.closed
    ensures After(Initial(), RetryRun()).queue == [2, 1]
  {
    var run := RetryRun();
    var s1 := Step(Initial(), run[0]);
    assert s1.fetching == {1} && s1.queue == [];
    var s2 := Step(s1, run[1]);
    assert s2.fetching == {1, 2} && s2.queue == [];
    var s3 := Step(s2, run[2]);
    var s4 := Step(s3, run[3]);
    assert s4.fetching == {2} && s4.queue == [1];
    var s5 := Step(s4, run[4]);
    assert s5.queue == [2, 1];
    RunOne(s4, run[4], []);
    RunOne(s3, run[3], [run[4]]);
    RunOne(s2, run[2], [run[3], run[4]]);
    RunOne(s1, run[1], [run[2], run[3], run[4]]);
    RunOne(Initial(), run[0], [run[1], run[2], run[3], run[4]]);
    RunOne(s2, run[2], []);
    RunOne(s1, run[1], [run[2]]);
    RunOne(Initial(), run[0], [run[1], run[2]]);
    assert run[..3] == [run[0]] + [run[1], run[2]];
  }

  lemma RunOne(s: State, e: Event, rest: seq<Event>)
    requires Enabled(s, e) && EnabledRun(Step(s, e), rest)
    ensures EnabledRun(s, [e] + rest) && After(s, [e] + rest) == After(Step(s, e), rest)
  {
    hide Step, Enabled;
    assert ([e] + rest)[1..] == rest;
  }

  // ---- The client ----

  class MusicClient {
    var coverFetchQueue: seq<Job>
    var activeCoverFetches: nat
    var coverFetchPaused: bool
    var audioOpenRequests: nat
    var activeAudioSources: nat
    var offlineOnly: bool
    var closed: bool
    /** The sources whose `released` flag is still down. */
    var unreleased: set<nat>
    ghost var fetching: set<Job>
    ghost var ending: nat
    ghost var drains: nat
    ghost var settled: map<Job, Outcome>

    ghost function View(): State
      reads this
    {
      State(coverFetchQueue, activeCoverFetches, coverFetchPaused, audioOpenRequests, activeAudioSources, offlineOnly,
            closed, fetching, ending, drains, unreleased, settled)
    }

    constructor ()
      ensures View() == Initial()
    {
      coverFetchQueue, activeCoverFetches, coverFetchPaused := [], 0, false;
      audioOpenRequests, activeAudioSources, offlineOnly, closed, unreleased := 0, 0, false, false, {};
      fetching, ending, drains, settled := {}, 0, 0, map[];
    }

    /** Starts the waiting fetches one by one while there is a free place. */
    method DrainCoverFetchQueue()
      modifies this`coverFetchQueue, this`activeCoverFetches, this`fetching
      ensures View() == Drained(old(View()))
    {
      hide *;
      var concurrency := Concurrency(activeAudioSources);
      ghost var s := View();
      ViewIs();
      RunsIs(s);
      ghost var n := 0;
      NoMembers(s.queue);
      while !closed && !offlineOnly && !coverFetchPaused && activeCoverFetches < concurrency && |coverFetchQueue| > 0
        invariant n <= |s.queue| && n <= Starts(s)
        invariant coverFetchQueue == s.queue[n..] && activeCoverFetches == s.active + n
        invariant fetching == s.fetching + Members(s.queue[..n])
        decreases |coverFetchQueue|
      {
        hide *;
        StartsMore(s, n);
        MembersNext(s.queue, n);
        var job := coverFetchQueue[0];
        coverFetchQueue := coverFetchQueue[1..];
        activeCoverFetches := activeCoverFetches + 1;
        fetching := fetching + {job};
        n := n + 1;
      }
      StartsAll(s, n);
      ViewIs();
    }

    lemma ViewIs()
      ensures View() == State(coverFetchQueue, activeCoverFetches, coverFetchPaused, audioOpenRequests,
                              activeAudioSources,
                              offlineOnly, closed, fetching, ending, drains, unreleased, settled)
    {
    }

    method EnqueueCoverFetch(job: Job)
      requires Enabled(View(), Enqueue(job))
      modifies this
      ensures View() == Step(old(View()), Enqueue(job))
    {
      if closed || offlineOnly {
        SettleJob(View(), job, Rejected);
        settled := settled[job := Rejected];
        return;
      }
      coverFetchQueue := coverFetchQueue + [job];
      DrainCoverFetchQueue();
    }

    method FetchSucceeded(job: Job)
      requires Enabled(View(), Succeeded(job))
      modifies this
      ensures View() == Step(old(View()), Succeeded(job))
    {
      SettleJob(View(), job, Resolved);
      settled := settled[job := Resolved];
      fetching, ending := fetching - {job}, ending + 1;
    }

    /** A fetch that audio interrupted goes back to the front. */
    method FetchFailed(job: Job)
      requires Enabled(View(), Failed(job))
      modifies this
      ensures View() == Step(old(View()), Failed(job))
    {
      fetching, ending := fetching - {job}, ending + 1;
      if coverFetchPaused && !closed {
        coverFetchQueue := [job] + coverFetchQueue;
      } else {
        SettleJob(View(), job, Rejected);
        settled := settled[job := Rejected];
      }
    }

    method FetchEnded()
      requires Enabled(View(), Ended)
      modifies this
      ensures View() == Step(old(View()), Ended)
    {
      ending := ending - 1;
      activeCoverFetches := if activeCoverFetches == 0 then 0 else activeCoverFetches - 1;
      DrainCoverFetchQueue();
    }

    method BeginAudio()
      modifies this
      ensures View() == Step(old(View()), AudioBegins)
    {
      audioOpenRequests := audioOpenRequests + 1;
      coverFetchPaused := true;
    }

    method OpenAudio(source: nat)
      requires Enabled(View(), AudioOpened(source))
      modifies this
      ensures View() == Step(old(View()), AudioOpened(source))
    {
      activeAudioSources := activeAudioSources + 1;
      unreleased := unreleased + {source};
    }

    /** The first release of a source counts; later ones do nothing. */
    method ReleaseAudio(source: nat)
      modifies this
      ensures View() == Step(old(View()), AudioReleased(source))
    {
      if source !in unreleased {
        return;
      }
      unreleased := unreleased - {source};
      activeAudioSources := if activeAudioSources == 0 then 0 else activeAudioSources - 1;
      drains := drains + 1;
    }

    method EndAudio()
      requires Enabled(View(), AudioEnds)
      modifies this
      ensures View() == Step(old(View()), AudioEnds)
    {
      audioOpenRequests := audioOpenRequests - 1;
      if audioOpenRequests == 0 {
        coverFetchPaused := false;
        DrainCoverFetchQueue();
      }
    }

    method SetOfflineOnly(on: bool)
      modifies this
      ensures View() == Step(old(View()), SetOffline(on))
    {
      offlineOnly := on;
      if !offlineOnly {
        DrainCoverFetchQueue();
      }
    }

    method CloseClient()
      modifies this
      ensures View() == Step(old(View()), Close)
    {
      hide *;
      ghost var s := View();
      ViewIs();
      closed := true;
      var rest := coverFetchQueue;
      coverFetchQueue := [];
      RejectNone(s.settled, rest);
      for i := 0 to |rest|
        modifies this`settled
        invariant settled == RejectAll(s.settled, rest[..i])
      {
        hide *;
        RejectNext(s.settled, rest, i);
        settled := settled[rest[i] := Rejected];
      }
      assert rest[..|rest|] == rest;
      CloseIs(s);
      ViewIs();
    }
  }

  function RejectAll(settled: map<Job, Outcome>, jobs: seq<Job>): map<Job, Outcome> {
    settled + map j | j in Members(jobs) :: Rejected
  }

  lemma RejectNone(settled: map<Job, Outcome>, jobs: seq<Job>)
    ensures RejectAll(settled, jobs[..0]) == settled
  {
  }

  lemma RejectNext(settled: map<Job, Outcome>, jobs: seq<Job>, n: nat)
    requires n < |jobs|
    ensures RejectAll(settled, jobs[..n + 1]) == RejectAll(settled, jobs[..n])[jobs[n] := Rejected]
  {
    MembersNext(jobs, n);
    hide Members;
  }

  lemma CloseIs(s: State)
    ensures Step(s, Close) == s.(settled := RejectAll(s.settled, s.queue), closed := true, queue := [])
  {
  }

  lemma StartsMore(s: State, n: nat)
    requires n <= Starts(s) && Runs(s) && s.active + n < Concurrency(s.audioSources) && n < |s.queue|
    ensures n < Starts(s)
  {
  }

  lemma StartsAll(s: State, n: nat)
    requires n <= Starts(s) && !(Runs(s) && s.active + n < Concurrency(s.audioSources) && n < |s.queue|)
    ensures n == Starts(s)
    ensures Drained(s) == s.(queue := s.queue[n..], active := s.active + n,
                             fetching := s.fetching + Members(s.queue[..n]))
  {
  }

  lemma RunsIs(s: State)
    ensures Runs(s) <==> !s.closed && !s.offline && !s.paused
  {
  }

  lemma NoMembers(queue: seq<Job>)
    ensures Members(queue[..0]) == {}
  {
  }

  lemma {:induction false} MembersNext(queue: seq<Job>, n: nat)
    requires n < |queue|
    ensures Members(queue[..n + 1]) == Members(queue[..n]) + {queue[n]}
  {
  }
}
