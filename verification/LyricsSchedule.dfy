/** The coalescing job queue of the lyrics workers (lyrics.rs, struct Schedule). */
module LyricsSchedule {
  // `Queue` is the value the object stands for; runs interleave any number of enqueueing callers with the
  // one worker that takes a job, works, and finishes it before it takes the next.

  import opened Wrappers
  import opened LyricsMetadata

  datatype Job = Job(metadata: Metadata, search: bool)

  datatype Queue = Queue(demand: seq<Job>, active: Option<Job>)

  const MAX_QUEUE: nat := 256

  // ---- The operations as functions ----

  /** The first queued job of a track, or the length. */
  function FindId(demand: seq<Job>, id: string): (i: nat)
    ensures i <= |demand|
    ensures i < |demand| ==> demand[i].metadata.id == id
    ensures forall j :: 0 <= j < i ==> demand[j].metadata.id != id
  {
    if demand == [] then 0 else if demand[0].metadata.id == id then 0 else 1 + FindId(demand[1..], id)
  }

  function Load(q: Queue): nat {
    |q.demand| + if q.active.Some? then 1 else 0
  }

  function Enqueue(q: Queue, m: Metadata): (bool, Queue) {
    var i := FindId(q.demand, m.id);
    if q.active.Some? && q.active.value.metadata == m then (true, q)
    else if i < |q.demand| then
      (true, if q.demand[i].metadata == m then q else q.(demand := q.demand[i := Job(m, false)]))
    else if Load(q) >= MAX_QUEUE then (false, q)
    else (true, q.(demand := q.demand + [Job(m, false)]))
  }

  function Take(q: Queue): (Option<Job>, Queue) {
    if q.demand == [] then (None, q) else (Some(q.demand[0]), Queue(q.demand[1..], Some(q.demand[0])))
  }

  function Finish(q: Queue, fallback: bool): Queue {
    if q.active.Some? && fallback then Queue(q.demand + [Job(q.active.value.metadata, true)], None)
    else q.(active := None)
  }

  // ---- One operation ----

  predicate Holds(q: Queue, m: Metadata) {
    (q.active.Some? && q.active.value.metadata == m) || exists i :: 0 <= i < |q.demand| && q.demand[i].metadata == m
  }

  predicate HasTrack(q: Queue, id: string) {
    FindId(q.demand, id) < |q.demand|
  }

  /** An accepted request is afterwards queued or active with exactly its metadata; a request is refused exactly
      when the track is not queued, its metadata is not being worked on, and there is no room. */
  lemma EnqueueMeaning(q: Queue, m: Metadata)
    ensures var (ok, q') := Enqueue(q, m);
            && (ok ==> Holds(q', m))
            && (!ok <==> !Holds(q, m) && !HasTrack(q, m.id) && Load(q) >= 256)
            && (!ok ==> q' == q)
  {
    var (ok, q') := Enqueue(q, m);
    var i := FindId(q.demand, m.id);
    if i < |q.demand| {
      assert ok && (q' == q || q'.demand[i].metadata == m);
    } else if ok && q' != q {
      assert q'.demand[|q.demand|].metadata == m;
    }
  }

  /** The job at i is the first queued one of the track. */
  predicate FirstOfTrack(q: Queue, id: string, i: nat)
    requires i < |q.demand|
  {
    q.demand[i].metadata.id == id && forall j :: 0 <= j < i ==> q.demand[j].metadata.id != id
  }

  /** What a request leaves: the first queued job of its track takes over new metadata and is a plain lookup then; a
      track that is not queued comes last, if there is room; a job with the same metadata, a search too, stays. */
  lemma EnqueueLeaves(q: Queue, m: Metadata)
    ensures var (ok, q') := Enqueue(q, m);
            var atWork := q.active.Some? && q.active.value.metadata == m;
            var pushed := !atWork && (forall i :: 0 <= i < |q.demand| ==> q.demand[i].metadata.id != m.id) && ok;
            && q'.active == q.active && |q'.demand| == |q.demand| + (if pushed then 1 else 0)
            && (pushed ==> q'.demand[|q.demand|] == Job(m, false))
            && (forall i :: 0 <= i < |q.demand| ==>
                  q'.demand[i] == if !atWork && FirstOfTrack(q, m.id, i) && q.demand[i].metadata != m then Job(m, false)
                                  else q.demand[i])
  {
  }

  // ---- Runs with one worker ----

  datatype Op = EnqueueOp(metadata: Metadata) | TakeOp | FinishOp(fallback: bool)

  function Step(q: Queue, op: Op): Queue {
    match op
    case EnqueueOp(m) => Enqueue(q, m).1
    case TakeOp => Take(q).1
    case FinishOp(fallback) => Finish(q, fallback)
  }

  /** The worker takes a job only when it has finished the last one. */
  predicate Allowed(q: Queue, op: Op) {
    op.TakeOp? ==> q.active.None?
  }

  predicate AllAllowed(q: Queue, ops: seq<Op>)
    decreases |ops|
  {
    ops == [] || (Allowed(q, ops[0]) && AllAllowed(Step(q, ops[0]), ops[1..]))
  }

  function Run(q: Queue, ops: seq<Op>): Queue
    decreases |ops|
  {
    if ops == [] then q else Run(Step(q, ops[0]), ops[1..])
  }

  lemma StepLoad(q: Queue, op: Op)
    requires Load(q) <= MAX_QUEUE && Allowed(q, op)
    ensures Load(Step(q, op)) <= MAX_QUEUE
  {
  }

  /** Queued plus active never exceeds the capacity, so a fallback always finds room. */
  lemma {:induction false} RunLoad(q: Queue, ops: seq<Op>)
    requires Load(q) <= 256 && AllAllowed(q, ops)
    ensures Load(Run(q, ops)) <= 256
    ensures Run(q, ops).active.Some? ==> |Finish(Run(q, ops), true).demand| <= 256
    decreases |ops|
  {
    if ops != [] {
      StepLoad(q, ops[0]);
      RunLoad(Step(q, ops[0]), ops[1..]);
    }
  }

  // ---- First in, first out ----

  function Takes(ops: seq<Op>): nat {
    if ops == [] then 0 else (if ops[0].TakeOp? then 1 else 0) + Takes(ops[1..])
  }

  /** One step moves the job at index i ahead only when a job is taken, and changes at most its metadata. */
  lemma StepMoves(q: Queue, op: Op, i: nat)
    requires i < |q.demand| && !(op.TakeOp? && i == 0)
    ensures var q', i' := Step(q, op), if op.TakeOp? then i - 1 else i;
            i' < |q'.demand| && q'.demand[i'].metadata.id == q.demand[i].metadata.id
            && ((op.EnqueueOp? && op.metadata.id == q.demand[i].metadata.id) || q'.demand[i'] == q.demand[i])
  {
  }

  /** The job at index i keeps its turn: whatever is enqueued or re-queued meanwhile, after t takes it is at index
      i - t, for the same track. */
  lemma {:induction false} KeepsTurn(q: Queue, ops: seq<Op>, i: nat)
    requires i < |q.demand| && Takes(ops) <= i
    ensures var q' := Run(q, ops);
            i - Takes(ops) < |q'.demand| && q'.demand[i - Takes(ops)].metadata.id == q.demand[i].metadata.id
    ensures (forall k :: 0 <= k < |ops| && ops[k].EnqueueOp? ==> ops[k].metadata.id != q.demand[i].metadata.id) ==>
              Run(q, ops).demand[i - Takes(ops)] == q.demand[i]
    decreases |ops|
  {
    if ops != [] {
      StepMoves(q, ops[0], i);
      KeepsTurn(Step(q, ops[0]), ops[1..], if ops[0].TakeOp? then i - 1 else i);
    }
  }

  /** The job at index i is taken by exactly the (i+1)-th later take. */
  lemma TakenInTurn(q: Queue, ops: seq<Op>, i: nat)
    requires i < |q.demand| && Takes(ops) == i
    ensures var job := Take(Run(q, ops)).0;
            && job.Some? && job.value.metadata.id == q.demand[i].metadata.id
            && Take(Run(q, ops)).1.active == job
            && ((forall k :: 0 <= k < |ops| && ops[k].EnqueueOp? ==> ops[k].metadata.id != q.demand[i].metadata.id) ==>
                  job.value == q.demand[i])
  {
    KeepsTurn(q, ops, i);
  }

  /** Nothing accepted is lost: a track accepted now is at some index of the queue, and reaches the worker by
      that many takes plus one, or it is the metadata the worker is at. */
  lemma AcceptedIsTaken(q: Queue, m: Metadata, ops: seq<Op>)
    requires Enqueue(q, m).0
    ensures var q' := Enqueue(q, m).1;
            var i := FindId(q'.demand, m.id);
            if i < |q'.demand| then
              Takes(ops) == i ==> Take(Run(q', ops)).0.Some? && Take(Run(q', ops)).0.value.metadata.id == m.id
            else q'.active.Some? && q'.active.value.metadata == m
  {
    EnqueueMeaning(q, m);
    var q' := Enqueue(q, m).1;
    var i := FindId(q'.demand, m.id);
    if i < |q'.demand| && Takes(ops) == i {
      TakenInTurn(q', ops, i);
    }
  }

  /** How the queue grows and shrinks over a run: by what was pushed and by what was taken. */
  function Pushes(q: Queue, ops: seq<Op>): nat
    decreases |ops|
  {
    if ops == [] then 0
    else
      (match ops[0]
       case EnqueueOp(m) => if |Enqueue(q, m).1.demand| > |q.demand| then 1 else 0
       case TakeOp => 0
       case FinishOp(fallback) => if q.active.Some? && fallback then 1 else 0)
      + Pushes(Step(q, ops[0]), ops[1..])
  }

  function Served(q: Queue, ops: seq<Op>): nat
    decreases |ops|
  {
    if ops == [] then 0
    else (if ops[0].TakeOp? && q.demand != [] then 1 else 0) + Served(Step(q, ops[0]), ops[1..])
  }

  lemma {:induction false} Balance(q: Queue, ops: seq<Op>)
    ensures |Run(q, ops).demand| + Served(q, ops) == |q.demand| + Pushes(q, ops)
    decreases |ops|
  {
    if ops != [] {
      Balance(Step(q, ops[0]), ops[1..]);
    }
  }

  // ---- What is looked up, and what is searched for ----

  /** Without new requests for its track meanwhile, a fallback is re-queued as a search for the same metadata and is the
      job of the take that comes after all that were queued before it. */
  lemma FallbackSearches(q: Queue, ops: seq<Op>)
    requires q.active.Some? && Takes(ops) == |q.demand|
    requires forall k :: 0 <= k < |ops| && ops[k].EnqueueOp? ==> ops[k].metadata.id != q.active.value.metadata.id
    ensures Take(Run(Step(q, FinishOp(true)), ops)).0 == Some(Job(q.active.value.metadata, true))
    ensures Step(q, FinishOp(true)).active.None? && |Step(q, FinishOp(true)).demand| == |q.demand| + 1
    ensures Step(q, FinishOp(true)).demand[..|q.demand|] == q.demand
  {
    hide Run;
    var q' := Step(q, FinishOp(true));
    assert q'.demand[|q.demand|] == Job(q.active.value.metadata, true);
    TakenInTurn(q', ops, |q.demand|);
  }

  /** A job that needs no fallback is done: nothing is queued for it. */
  lemma FinishForgets(q: Queue)
    ensures Step(q, FinishOp(false)) == Queue(q.demand, None)
    ensures q.active.None? ==> Step(q, FinishOp(true)) == q
  {
  }

  /** A fallback of the run: an operation that ends the job of this metadata and asks for its search. */
  predicate FallsBack(q: Queue, op: Op, m: Metadata) {
    op == FinishOp(true) && q.active.Some? && q.active.value.metadata == m
  }

  /** Some operation of the run is a fallback for this metadata. */
  predicate SearchAsked(q: Queue, ops: seq<Op>, m: Metadata)
    decreases |ops|
  {
    ops != [] && (FallsBack(q, ops[0], m) || SearchAsked(Step(q, ops[0]), ops[1..], m))
  }

  /** The searches queued or under way. */
  predicate Searching(q: Queue, m: Metadata) {
    (q.active.Some? && q.active.value == Job(m, true)) || exists i :: 0 <= i < |q.demand| && q.demand[i] == Job(m, true)
  }

  lemma StepSearches(q: Queue, op: Op, m: Metadata)
    ensures Searching(Step(q, op), m) ==> Searching(q, m) || FallsBack(q, op, m)
  {
    if Searching(Step(q, op), m) && !FallsBack(q, op, m) {
      var q' := Step(q, op);
      if !(q'.active.Some? && q'.active.value == Job(m, true)) {
        var i :| 0 <= i < |q'.demand| && q'.demand[i] == Job(m, true);
        SearchStays(q, op, m, i);
      }
    }
  }

  lemma SearchStays(q: Queue, op: Op, m: Metadata, i: nat)
    requires i < |Step(q, op).demand| && Step(q, op).demand[i] == Job(m, true) && !FallsBack(q, op, m)
    ensures exists j :: 0 <= j < |q.demand| && q.demand[j] == Job(m, true)
  {
    match op
    case TakeOp => assert q.demand == [] || q.demand[i + 1] == Job(m, true);
    case EnqueueOp(_) => assert i < |q.demand| && q.demand[i] == Job(m, true);
    case FinishOp(_) => assert i < |q.demand| && q.demand[i] == Job(m, true);
  }

  /** Whatever is enqueued and finished: only a fallback makes a search, and only of its own metadata. */
  lemma {:induction false} SearchesAreFallbacks(q: Queue, ops: seq<Op>, m: Metadata)
    ensures Searching(Run(q, ops), m) ==> Searching(q, m) || SearchAsked(q, ops, m)
    decreases |ops|
  {
    hide Searching, Step;
    if ops != [] {
      SearchesAreFallbacks(Step(q, ops[0]), ops[1..], m);
      StepSearches(q, ops[0], m);
    }
  }

  // ---- The object ----

  class Schedule {
    var demand: seq<Job>
    var active: Option<Job>
    var fullLogged: bool

    function View(): Queue
      reads this
    {
      Queue(demand, active)
    }

    constructor ()
      ensures View() == Queue([], None)
    {
      demand, active, fullLogged := [], None, false;
    }

    method EnqueueFor(metadata: Metadata) returns (scheduled: bool)
      modifies this
      ensures (scheduled, View()) == Enqueue(old(View()), metadata)
      ensures fullLogged == if !scheduled then true else if |demand| > |old(demand)| then false else old(fullLogged)
    {
      if active.Some? && active.value.metadata == metadata {
        return true;
      }
      var i := 0;
      while i < |demand| && demand[i].metadata.id != metadata.id
        invariant 0 <= i <= |demand|
        invariant forall j :: 0 <= j < i ==> demand[j].metadata.id != metadata.id
      {
        i := i + 1;
      }
      assert i == FindId(demand, metadata.id);
      if i < |demand| {
        if demand[i].metadata != metadata {
          demand := demand[i := Job(metadata, false)];
        }
        return true;
      }
      if |demand| + (if active.Some? then 1 else 0) >= MAX_QUEUE {
        fullLogged := true;
        return false;
      }
      fullLogged := false;
      demand := demand + [Job(metadata, false)];
      scheduled := true;
    }

    method TakeJob() returns (job: Option<Job>)
      modifies this
      ensures (job, View()) == Take(old(View())) && fullLogged == old(fullLogged)
    {
      if demand == [] {
        return None;
      }
      job := Some(demand[0]);
      demand := demand[1..];
      active := job;
    }

    method FinishJob(fallback: bool)
      modifies this
      ensures View() == Finish(old(View()), fallback) && fullLogged == old(fullLogged)
    {
      var taken := active;
      active := None;
      if taken.Some? && fallback {
        demand := demand + [taken.value.(search := true)];
      }
    }
  }
}
