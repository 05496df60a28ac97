/** The provider gate of the lyrics worker (lyrics.rs, struct Gate and run_worker): spacing and back-off of the
    HTTP attempts over whole runs. */
module LyricsGate {
  // A crash and a restart may come between any two steps. One clock in milliseconds; `unix_now` is its whole seconds.
  // Deadlines are persisted in whole seconds.

  import opened Wrappers

  const BACKOFF_BASE: nat := 60
  const BACKOFF_MAX: nat := 60 * 60
  const TIMEOUT_MS: nat := 10_000
  const U32_MAX: nat := 0xffff_ffff

  // ---- The delay after an attempt ----

  function Pow2(n: nat): nat {
    if n == 0 then 1 else 2 * Pow2(n - 1)
  }

  /** The shift the source computes: 60 << (min(failures, 7) - 1), capped. */
  function Backoff(failures: nat): nat {
    var shift := Min(failures, 7) - 1;
    Min(BACKOFF_BASE * Pow2(Max(shift, 0)), BACKOFF_MAX)
  }

  lemma Pow2Grows(a: nat, b: nat)
    requires a <= b
    ensures Pow2(a) <= Pow2(b)
  {
    if a < b {
      Pow2Grows(a, b - 1);
    }
  }

  /** The cut-off at 7 failures changes nothing: the back-off is min(3600, 60 * 2^(failures - 1)). */
  lemma BackoffDoubles(failures: nat)
    requires failures >= 1
    ensures Backoff(failures) == Min(BACKOFF_MAX, BACKOFF_BASE * Pow2(failures - 1))
  {
    assert Pow2(6) == 64;
    if failures >= 7 {
      Pow2Grows(6, failures - 1);
    }
  }

  function SaturatingInc(n: nat): nat {
    Min(n + 1, U32_MAX)
  }

  function FailuresAfter(failures: nat, failure: Option<nat>): nat {
    if failure.Some? then SaturatingInc(failures) else 0
  }

  /** Milliseconds to wait after an attempt; `failures` already counts it. */
  function Delay(failures: nat, failure: Option<nat>, gap: nat): nat {
    if failure.Some? then Max(gap, 1000 * Max(Backoff(failures), Min(failure.value, U32_MAX))) else gap
  }

  function Restored(now: nat, deadline: nat): nat {
    now + 1000 * Max(0, deadline - now / 1000)
  }

  /** A restored gate opens no earlier than the persisted deadline, and at most a second after it. */
  lemma RestoredWaits(now: nat, deadline: nat)
    ensures Restored(now, deadline) >= 1000 * deadline && Restored(now, deadline) >= now
    ensures Restored(now, deadline) < Max(now + 1, 1000 * deadline + 1000)
  {
  }

  class Gate {
    var until: nat
    var failures: nat

    /** The gate of a process that starts at `now` and finds what was persisted. */
    constructor (now: nat, deadline: nat, failures: nat)
      ensures until == Restored(now, deadline) && this.failures == failures
    {
      until := now + 1000 * Max(0, deadline - now / 1000);
      this.failures := failures;
    }

    method Completed(now: nat, failure: Option<nat>, gap: nat) returns (delay: nat)
      modifies this
      ensures failures == FailuresAfter(old(failures), failure)
      ensures delay == Delay(failures, failure, gap) && until == now + delay
    {
      if failure.Some? {
        failures := SaturatingInc(failures);
        var doublings := Max(Min(failures, 7) - 1, 0);
        var backoff := BACKOFF_BASE;
        for i := 0 to doublings
          invariant backoff == BACKOFF_BASE * Pow2(i)
        {
          backoff := backoff * 2;
        }
        backoff := Min(backoff, BACKOFF_MAX);
        delay := Max(gap, 1000 * Max(backoff, Min(failure.value, U32_MAX)));
      } else {
        failures := 0;
        delay := gap;
      }
      until := now + delay;
    }
  }

  // ---- The worker as steps ----

  /** The cool-down a persisted failure asks for. */
  datatype Cool = Cool(failures: nat, retry: nat)

  /** One HTTP attempt. `end` is meaningful once it is over. Once its outcome is `saved`, `cool` is its failure, if it
      was one. `lost` is how many refused reservations the gate had counted before it since the last saved outcome. */
  datatype Attempt = Attempt(start: nat, end: nat, over: bool, saved: bool, cool: Option<Cool>, lost: nat)

  /** Where the worker stands in its loop. */
  datatype Phase =
    | Off
    | Loop
    | Reserving(clock: nat)
    | Reserved(clock: nat)
    | Attempting(clock: nat)
    | Ended(failure: Option<nat>)
    | Delayed(failure: Option<nat>, delay: nat)
    | Saving(failure: Option<nat>, deadline: nat)

  /** `lost` counts, for the proofs, the refused reservations in the gate's failures, `storedLost` those in the stored
      ones. */
  datatype World = World(now: nat, deadline: nat, stored: nat, phase: Phase, until: nat, failures: nat,
                         attempts: seq<Attempt>, lost: nat, storedLost: nat)

  datatype Action =
    | Tick(ms: nat)
    | Crash
    | Start
    | ReadClock
    | StoreReservation(written: bool)
    | Send
    | Answer(failure: Option<nat>)
    | Complete
    | ReadEndClock
    | StoreCooldown(written: bool)

  function Reservation(clock: nat, gap: nat): nat {
    clock / 1000 + 10 + Max(gap / 1000, 1) + 1
  }

  /** An attempt is over within the timeout, counted from the clock reading of its reservation. */
  predicate Enabled(w: World, a: Action) {
    match a
    case Tick(ms) => w.phase.Reserved? || w.phase.Attempting? ==> w.now + ms <= w.phase.clock + TIMEOUT_MS
    case Crash => true
    case Start => w.phase.Off?
    case ReadClock => w.phase.Loop? && w.now >= w.until
    case StoreReservation(_) => w.phase.Reserving? && w.now <= w.phase.clock + TIMEOUT_MS
    case Send => w.phase.Reserved?
    case Answer(_) => w.phase.Attempting?
    case Complete => w.phase.Ended?
    case ReadEndClock => w.phase.Delayed?
    case StoreCooldown(_) => w.phase.Saving?
  }

  function Close(attempts: seq<Attempt>, now: nat): seq<Attempt> {
    if attempts == [] then [] else attempts[..|attempts| - 1] + [Last(attempts).(end := now, over := true)]
  }

  function Last(attempts: seq<Attempt>): Attempt
    requires attempts != []
  {
    attempts[|attempts| - 1]
  }

  function Persisted(attempts: seq<Attempt>, cool: Option<Cool>): seq<Attempt> {
    if attempts == [] then [] else attempts[..|attempts| - 1] + [Last(attempts).(saved := true, cool := cool)]
  }

  function Sent(w: World): Attempt {
    Attempt(w.now, w.now, false, false, None, w.lost)
  }

  function Next(w: World, a: Action, gap: nat): World
    requires Enabled(w, a)
  {
    match a
    case Tick(ms) => w.(now := w.now + ms)
    case Crash => w.(phase := Off, attempts := if w.phase.Attempting? then Close(w.attempts, w.now) else w.attempts)
    case Start => w.(phase := Loop, until := Restored(w.now, w.deadline), failures := w.stored, lost := w.storedLost)
    case ReadClock => w.(phase := Reserving(w.now))
    case StoreReservation(written) =>
      if written then w.(phase := Reserved(w.phase.clock), deadline := Reservation(w.phase.clock, gap),
                         stored := w.failures, storedLost := w.lost)
      else
        var f := FailuresAfter(w.failures, Some(0));
        w.(phase := Loop, failures := f, until := w.now + Delay(f, Some(0), gap), lost := w.lost + 1)
    case Send => w.(phase := Attempting(w.phase.clock), attempts := w.attempts + [Sent(w)])
    case Answer(failure) => w.(phase := Ended(failure), attempts := Close(w.attempts, w.now))
    case Complete =>
      var f := FailuresAfter(w.failures, w.phase.failure);
      var delay := Delay(f, w.phase.failure, gap);
      w.(phase := Delayed(w.phase.failure, delay), failures := f, until := w.now + delay)
    case ReadEndClock => w.(phase := Saving(w.phase.failure, w.now / 1000 + w.phase.delay / 1000 + 1))
    case StoreCooldown(written) =>
      if written then
        var cool := if w.phase.failure.Some? then Some(Cool(w.failures, w.phase.failure.value)) else None;
        w.(phase := Loop, deadline := w.phase.deadline, stored := w.failures, attempts := Persisted(w.attempts, cool),
           lost := 0, storedLost := 0)
      else
        var f := FailuresAfter(w.failures, Some(BACKOFF_MAX));
        w.(phase := Loop, failures := f, until := w.now + Delay(f, Some(BACKOFF_MAX), gap))
  }

  // ---- What every run keeps ----

  /** Whole seconds that must pass after an attempt: the gap, and a persisted cool-down. */
  function CoolSeconds(c: Cool): nat {
    Max(Min(BACKOFF_MAX, BACKOFF_BASE * Pow2(Max(c.failures - 1, 0))), Min(c.retry, U32_MAX))
  }

  function Need(a: Attempt, gap: nat): nat {
    1000 * Max(gap / 1000, if a.cool.Some? then CoolSeconds(a.cool.value) else 0)
  }

  /** When the next attempt may start, by the attempts so far. */
  function Bound(attempts: seq<Attempt>, gap: nat): nat {
    if attempts == [] then 0 else Last(attempts).end + Need(Last(attempts), gap)
  }

  /** Consecutive attempts are spaced, and the failure count grows from one persisted failure to the next. */
  predicate Spaced(attempts: seq<Attempt>, gap: nat) {
    forall i :: 0 <= i < |attempts| - 1 ==> Follows(attempts[i], attempts[i + 1], gap)
  }

  predicate Follows(a: Attempt, b: Attempt, gap: nat) {
    && a.over && b.start >= a.end + Need(a, gap)
    && (a.cool.Some? && b.cool.Some? ==> b.cool.value.failures >= SaturatingInc(a.cool.value.failures))
  }

  /** The failures counted towards the back-off of the last attempt. */
  predicate Counted(attempts: seq<Attempt>, failures: nat) {
    attempts != [] && Last(attempts).cool.Some? ==> failures >= Last(attempts).cool.value.failures
  }

  /** The attempt before the last one, while the last one is not settled. */
  predicate CountedBefore(attempts: seq<Attempt>, failures: nat) {
    |attempts| >= 2 && attempts[|attempts| - 2].cool.Some? ==> failures >= attempts[|attempts| - 2].cool.value.failures
  }

  predicate PhaseInv(w: World, gap: nat) {
    match w.phase
    case Off => Counted(w.attempts, w.stored)
    case Loop => Counted(w.attempts, w.stored) && Counted(w.attempts, w.failures) &&
      Max(w.until, w.now) >= Bound(w.attempts, gap)
    case Reserving(clock) =>
      Counted(w.attempts, w.stored) && Counted(w.attempts, w.failures) && Bound(w.attempts, gap) <= clock <= w.now
    case Reserved(clock) =>
      && Counted(w.attempts, w.stored) && Counted(w.attempts, w.failures) && Bound(w.attempts, gap) <= clock <= w.now
      && w.now <= clock + TIMEOUT_MS && w.deadline == Reservation(clock, gap)
    case Attempting(clock) =>
      && w.attempts != [] && !Last(w.attempts).over && Last(w.attempts).cool.None?
      && CountedBefore(w.attempts, w.failures)
      && clock <= w.now <= clock + TIMEOUT_MS && w.deadline == Reservation(clock, gap)
    case Ended(_) =>
      w.attempts != [] && Last(w.attempts).cool.None? && CountedBefore(w.attempts, w.failures)
    case Delayed(failure, delay) =>
      && w.attempts != [] && Last(w.attempts).cool.None? && (failure.Some? ==> w.failures >= 1)
      && delay == Delay(w.failures, failure, gap)
      && (failure.Some? ==> CooledBefore(w.attempts, w.failures)) && w.until >= Last(w.attempts).end + delay
    case Saving(failure, deadline) =>
      && w.attempts != [] && Last(w.attempts).cool.None? && (failure.Some? ==> w.failures >= 1)
      && (failure.Some? ==> CooledBefore(w.attempts, w.failures))
      && w.until >= Last(w.attempts).end + Delay(w.failures, failure, gap)
      && 1000 * deadline >= Last(w.attempts).end + Delay(w.failures, failure, gap) / 1000 * 1000
  }

  /** The failure count now exceeds that of the attempt before the last one. */
  predicate CooledBefore(attempts: seq<Attempt>, failures: nat) {
    |attempts| >= 2 && attempts[|attempts| - 2].cool.Some? ==>
      failures >= SaturatingInc(attempts[|attempts| - 2].cool.value.failures)
  }

  predicate Inv(w: World, gap: nat) {
    && Spaced(w.attempts, gap)
    && (w.attempts != [] && !w.phase.Attempting? ==>
          Last(w.attempts).over && Last(w.attempts).end <= w.now && 1000 * w.deadline >= Bound(w.attempts, gap))
    && w.stored <= U32_MAX && w.failures <= U32_MAX
    && (w.attempts != [] ==> (Last(w.attempts).cool.Some? ==> Last(w.attempts).cool.value.failures <= U32_MAX))
    && PhaseInv(w, gap)
  }

  lemma DelaySeconds(failures: nat, retry: nat, gap: nat)
    requires failures >= 1
    ensures Delay(failures, Some(retry), gap) / 1000 == Max(gap / 1000, CoolSeconds(Cool(failures, retry)))
  {
    BackoffDoubles(failures);
  }

  /** The reservation outlives the attempt by the gap. */
  lemma ReservationCovers(clock: nat, now: nat, gap: nat)
    requires now <= clock + TIMEOUT_MS
    ensures 1000 * Reservation(clock, gap) >= now + 1000 * Max(gap / 1000, 1)
  {
  }

  lemma StartKeeps(w: World, gap: nat)
    requires Inv(w, gap) && w.phase.Off?
    ensures Inv(Next(w, Start, gap), gap)
  {
    RestoredWaits(w.now, w.deadline);
  }

  lemma CrashKeeps(w: World, gap: nat)
    requires Inv(w, gap)
    ensures Inv(Next(w, Crash, gap), gap)
  {
    if w.phase.Attempting? {
      ReservationCovers(w.phase.clock, w.now, gap);
      CloseSpaced(w.attempts, w.now, gap);
    }
  }

  lemma CloseSpaced(attempts: seq<Attempt>, now: nat, gap: nat)
    requires attempts != [] && Spaced(attempts, gap)
    ensures var closed := Close(attempts, now);
            && Spaced(closed, gap) && |closed| == |attempts|
            && Last(closed) == Last(attempts).(end := now, over := true)
            && forall i :: 0 <= i < |attempts| - 1 ==> closed[i] == attempts[i]
  {
    var closed := Close(attempts, now);
    forall i | 0 <= i < |closed| - 1 ensures Follows(closed[i], closed[i + 1], gap) {
      assert Follows(attempts[i], attempts[i + 1], gap);
    }
  }

  lemma SendSpaced(attempts: seq<Attempt>, now: nat, lost: nat, gap: nat)
    requires Spaced(attempts, gap) && Bound(attempts, gap) <= now && (attempts != [] ==> Last(attempts).over)
    ensures Spaced(attempts + [Attempt(now, now, false, false, None, lost)], gap)
  {
    var sent := attempts + [Attempt(now, now, false, false, None, lost)];
    forall i | 0 <= i < |sent| - 1 ensures Follows(sent[i], sent[i + 1], gap) {
      if i < |attempts| - 1 {
        assert Follows(attempts[i], attempts[i + 1], gap);
      }
    }
  }

  lemma SendKeeps(w: World, gap: nat)
    requires Inv(w, gap) && w.phase.Reserved?
    ensures Inv(Next(w, Send, gap), gap)
  {
    SendSpaced(w.attempts, w.now, w.lost, gap);
  }

  lemma AnswerKeeps(w: World, failure: Option<nat>, gap: nat)
    requires Inv(w, gap) && w.phase.Attempting?
    ensures Inv(Next(w, Answer(failure), gap), gap)
  {
    ReservationCovers(w.phase.clock, w.now, gap);
    CloseSpaced(w.attempts, w.now, gap);
  }

  lemma PersistedSpaced(attempts: seq<Attempt>, cool: Option<Cool>, gap: nat)
    requires attempts != [] && Spaced(attempts, gap)
    requires cool.Some? ==> CooledBefore(attempts, cool.value.failures)
    ensures var p := Persisted(attempts, cool);
            Spaced(p, gap) && p != [] && Last(p) == Last(attempts).(saved := true, cool := cool)
  {
    var p := Persisted(attempts, cool);
    forall i | 0 <= i < |p| - 1 ensures Follows(p[i], p[i + 1], gap) {
      assert Follows(attempts[i], attempts[i + 1], gap);
    }
  }

  lemma StoreCooldownKeeps(w: World, written: bool, gap: nat)
    requires Inv(w, gap) && w.phase.Saving?
    ensures Inv(Next(w, StoreCooldown(written), gap), gap)
  {
    var failure := w.phase.failure;
    if failure.Some? {
      DelaySeconds(w.failures, failure.value, gap);
    }
    if written {
      PersistedSpaced(w.attempts, if failure.Some? then Some(Cool(w.failures, failure.value)) else None, gap);
    }
  }

  /** Every step keeps the invariant. */
  lemma StepKeeps(w: World, a: Action, gap: nat)
    requires Inv(w, gap) && Enabled(w, a)
    ensures Inv(Next(w, a, gap), gap)
  {
    match a
    case Tick(ms) =>
    case Crash => CrashKeeps(w, gap);
    case Start => StartKeeps(w, gap);
    case ReadClock =>
    case StoreReservation(written) =>
      if written {
        ReservationCovers(w.phase.clock, w.phase.clock, gap);
      }
    case Send => SendKeeps(w, gap);
    case Answer(failure) => AnswerKeeps(w, failure, gap);
    case Complete =>
    case ReadEndClock =>
    case StoreCooldown(written) => StoreCooldownKeeps(w, written, gap);
  }

  function Run(w: World, actions: seq<Action>, gap: nat): World
    requires AllEnabled(w, actions, gap)
    decreases |actions|
  {
    if actions == [] then w else Run(Next(w, actions[0], gap), actions[1..], gap)
  }

  predicate AllEnabled(w: World, actions: seq<Action>, gap: nat)
    decreases |actions|
  {
    actions == [] || (Enabled(w, actions[0]) && AllEnabled(Next(w, actions[0], gap), actions[1..], gap))
  }

  lemma {:induction false} RunKeeps(w: World, actions: seq<Action>, gap: nat)
    requires Inv(w, gap) && AllEnabled(w, actions, gap)
    ensures Inv(Run(w, actions, gap), gap)
    decreases |actions|
  {
    if actions != [] {
      StepKeeps(w, actions[0], gap);
      RunKeeps(Next(w, actions[0], gap), actions[1..], gap);
    }
  }

  /** A process that is not running, whatever an earlier one has persisted. */
  function Initial(now: nat, deadline: nat, failures: nat): World {
    World(now, deadline, failures, Off, 0, 0, [], 0, 0)
  }

  /** The rate limit over every run with crashes and restarts anywhere: each attempt starts at least the whole
      seconds of the gap after the one before it ended; after a failure whose cool-down was persisted, at least
      max(min(3600, 60 * 2^(failures - 1)), Retry-After) seconds; and the count of a failure after a failure grows. */
  lemma RateLimit(now: nat, deadline: nat, failures: nat, actions: seq<Action>, gap: nat, i: nat)
    requires failures <= U32_MAX && AllEnabled(Initial(now, deadline, failures), actions, gap)
    requires i + 1 < |Run(Initial(now, deadline, failures), actions, gap).attempts|
    ensures var attempts := Run(Initial(now, deadline, failures), actions, gap).attempts;
            var (a, b) := (attempts[i], attempts[i + 1]);
            && a.over && b.start >= a.end + 1000 * (gap / 1000)
            && (a.cool.Some? ==>
                  var c := a.cool.value;
                  b.start >= a.end + 1000 * Max(Min(3600, 60 * Pow2(Max(c.failures - 1, 0))), Min(c.retry, U32_MAX)))
            && (a.cool.Some? && b.cool.Some? ==> b.cool.value.failures >= Min(a.cool.value.failures + 1, U32_MAX))
  {
    RunKeeps(Initial(now, deadline, failures), actions, gap);
    var attempts := Run(Initial(now, deadline, failures), actions, gap).attempts;
    assert Follows(attempts[i], attempts[i + 1], gap);
  }

  /** No attempt without a persisted reservation: when one is sent, and as long as it lasts, the database holds a
      deadline that lies the gap beyond the latest end of the attempt. */
  lemma AttemptIsReserved(now: nat, deadline: nat, failures: nat, actions: seq<Action>, gap: nat)
    requires failures <= U32_MAX && AllEnabled(Initial(now, deadline, failures), actions, gap)
    ensures var w := Run(Initial(now, deadline, failures), actions, gap);
            w.phase.Reserved? || w.phase.Attempting? ==>
              w.now <= w.phase.clock + TIMEOUT_MS
              && 1000 * w.deadline >= w.phase.clock + TIMEOUT_MS + 1000 * Max(gap / 1000, 1)
  {
    RunKeeps(Initial(now, deadline, failures), actions, gap);
    var w := Run(Initial(now, deadline, failures), actions, gap);
    if w.phase.Reserved? || w.phase.Attempting? {
      ReservationCovers(w.phase.clock, w.phase.clock + TIMEOUT_MS, gap);
    }
  }

  // ---- The exact count of failures, and how long the gate waits at most ----

  function Capped(n: nat): nat {
    Min(n, 4_294_967_295)
  }

  /** The outcome of the last attempt, if there is one, has been saved. */
  predicate Settled(attempts: seq<Attempt>) {
    attempts == [] || Last(attempts).saved
  }

  /** The failures in a row up to the last attempt; `first` is what an earlier process has left. */
  function InARow(attempts: seq<Attempt>, first: nat): nat {
    if attempts == [] then first else if Last(attempts).cool.Some? then Last(attempts).cool.value.failures else 0
  }

  /** What is persisted, and what the gate has counted, between two attempts. */
  predicate StoredExact(w: World, first: nat) {
    Settled(w.attempts) ==> w.stored == Capped(InARow(w.attempts, first) + w.storedLost)
  }

  predicate GateExact(w: World, first: nat) {
    Settled(w.attempts) ==> w.failures == Capped(InARow(w.attempts, first) + w.lost)
  }

  function Before(attempts: seq<Attempt>): seq<Attempt>
    requires attempts != []
  {
    attempts[..|attempts| - 1]
  }

  predicate CountInv(w: World, first: nat) {
    match w.phase
    case Off => StoredExact(w, first)
    case Loop => StoredExact(w, first) && GateExact(w, first)
    case Reserving(_) => StoredExact(w, first) && GateExact(w, first)
    case Reserved(_) => StoredExact(w, first) && GateExact(w, first)
    case Attempting(_) => BeforeExact(w, first)
    case Ended(_) => BeforeExact(w, first)
    case Delayed(failure, _) => AfterExact(w, failure, first)
    case Saving(failure, _) => AfterExact(w, failure, first)
  }

  predicate BeforeExact(w: World, first: nat) {
    && w.attempts != [] && !Last(w.attempts).saved
    && (Settled(Before(w.attempts)) ==>
          w.failures == Capped(InARow(Before(w.attempts), first) + Last(w.attempts).lost))
  }

  predicate AfterExact(w: World, failure: Option<nat>, first: nat) {
    && w.attempts != [] && !Last(w.attempts).saved
    && (failure.None? ==> w.failures == 0)
    && (failure.Some? && Settled(Before(w.attempts)) ==>
          w.failures == Capped(InARow(Before(w.attempts), first) + Last(w.attempts).lost + 1))
  }

  /** A saved failure after a saved outcome is counted once more than before it, refused reservations included. */
  predicate CountedExactly(attempts: seq<Attempt>, i: nat, first: nat)
    requires i < |attempts|
  {
    attempts[i].saved && attempts[i].cool.Some? && Settled(attempts[..i]) ==>
      attempts[i].cool.value.failures == Capped(InARow(attempts[..i], first) + attempts[i].lost + 1)
  }

  predicate HistoryExact(attempts: seq<Attempt>, first: nat) {
    forall i :: 0 <= i < |attempts| ==> CountedExactly(attempts, i, first)
  }

  predicate Exact(w: World, first: nat) {
    CountInv(w, first) && HistoryExact(w.attempts, first) && w.stored <= U32_MAX && w.failures <= U32_MAX
  }

  lemma HistoryLast(before: seq<Attempt>, a: Attempt, first: nat)
    ensures HistoryExact(before + [a], first)
            <==>
            && HistoryExact(before, first)
            && (a.saved && a.cool.Some? && Settled(before) ==>
                  a.cool.value.failures == Capped(InARow(before, first) + a.lost + 1))
  {
    hide Settled, InARow;
    var all := before + [a];
    assert all[..|before|] == before && all[|before|] == a;
    assert forall i :: 0 <= i < |before| ==> all[..i] == before[..i] && all[i] == before[i];
    if HistoryExact(before, first) {
      forall i | 0 <= i < |before| ensures CountedExactly(all, i, first) {
        assert CountedExactly(before, i, first);
      }
    }
    if HistoryExact(all, first) {
      assert CountedExactly(all, |before|, first);
      forall i | 0 <= i < |before| ensures CountedExactly(before, i, first) {
        assert CountedExactly(all, i, first);
      }
    }
  }

  lemma LastOf(attempts: seq<Attempt>)
    requires attempts != []
    ensures attempts == Before(attempts) + [Last(attempts)]
  {
  }

  lemma CloseExact(attempts: seq<Attempt>, now: nat, first: nat)
    requires attempts != [] && HistoryExact(attempts, first)
    ensures var closed := Close(attempts, now);
            && closed != [] && Before(closed) == Before(attempts) && HistoryExact(closed, first)
            && Last(closed).saved == Last(attempts).saved && Last(closed).lost == Last(attempts).lost
  {
    hide HistoryExact;
    LastOf(attempts);
    HistoryLast(Before(attempts), Last(attempts), first);
    HistoryLast(Before(attempts), Last(attempts).(end := now, over := true), first);
  }

  lemma CloseStepExact(w: World, a: Action, gap: nat, first: nat)
    requires Exact(w, first) && Enabled(w, a) && (a.Crash? || a.Answer?)
    ensures Exact(Next(w, a, gap), first)
  {
    hide HistoryExact, InARow;
    if w.phase.Attempting? {
      CloseExact(w.attempts, w.now, first);
    }
  }

  lemma SendExact(w: World, gap: nat, first: nat)
    requires Exact(w, first) && w.phase.Reserved?
    ensures Exact(Next(w, Send, gap), first)
  {
    hide HistoryExact, InARow;
    HistoryLast(w.attempts, Sent(w), first);
    assert Before(w.attempts + [Sent(w)]) == w.attempts;
  }

  lemma SaveExact(w: World, written: bool, gap: nat, first: nat)
    requires Exact(w, first) && w.phase.Saving?
    ensures Exact(Next(w, StoreCooldown(written), gap), first)
  {
    hide HistoryExact, Delay;
    if written {
      var cool := if w.phase.failure.Some? then Some(Cool(w.failures, w.phase.failure.value)) else None;
      LastOf(w.attempts);
      HistoryLast(Before(w.attempts), Last(w.attempts), first);
      HistoryLast(Before(w.attempts), Last(w.attempts).(saved := true, cool := cool), first);
    }
  }

  lemma QuietExact(w: World, a: Action, gap: nat, first: nat)
    requires Exact(w, first) && Enabled(w, a) && !a.Crash? && !a.Answer? && !a.Send? && !a.StoreCooldown?
    ensures Exact(Next(w, a, gap), first)
  {
    hide HistoryExact, Delay, Reservation, Restored, InARow, Settled;
  }

  /** Every step keeps the counts exact. */
  lemma ExactStep(w: World, a: Action, gap: nat, first: nat)
    requires Exact(w, first) && Enabled(w, a)
    ensures Exact(Next(w, a, gap), first)
  {
    hide Exact, Next;
    match a
    case Crash => CloseStepExact(w, a, gap, first);
    case Answer(_) => CloseStepExact(w, a, gap, first);
    case Send => SendExact(w, gap, first);
    case StoreCooldown(written) => SaveExact(w, written, gap, first);
    case _ => QuietExact(w, a, gap, first);
  }

  lemma {:induction false} ExactRun(w: World, actions: seq<Action>, gap: nat, first: nat)
    requires Exact(w, first) && AllEnabled(w, actions, gap)
    ensures Exact(Run(w, actions, gap), first)
    decreases |actions|
  {
    hide Exact, Next, Enabled;
    if actions != [] {
      ExactStep(w, actions[0], gap, first);
      ExactRun(Next(w, actions[0], gap), actions[1..], gap, first);
    }
  }

  lemma InitialExact(now: nat, deadline: nat, failures: nat)
    requires failures <= U32_MAX
    ensures Exact(Initial(now, deadline, failures), failures)
  {
  }

  predicate NoneRefused(actions: seq<Action>) {
    forall k :: 0 <= k < |actions| ==> actions[k] != StoreReservation(false)
  }

  predicate NothingLost(w: World) {
    w.lost == 0 && w.storedLost == 0 && forall i :: 0 <= i < |w.attempts| ==> w.attempts[i].lost == 0
  }

  lemma NothingLostStep(w: World, a: Action, gap: nat)
    requires NothingLost(w) && Enabled(w, a) && a != StoreReservation(false)
    ensures NothingLost(Next(w, a, gap))
  {
  }

  lemma {:induction false} NothingLostRun(w: World, actions: seq<Action>, gap: nat)
    requires NothingLost(w) && NoneRefused(actions) && AllEnabled(w, actions, gap)
    ensures NothingLost(Run(w, actions, gap))
    decreases |actions|
  {
    hide NothingLost, Next, Enabled;
    if actions != [] {
      assert actions[0] != StoreReservation(false);
      NothingLostStep(w, actions[0], gap);
      assert forall k :: 0 <= k < |actions[1..]| ==> actions[1..][k] == actions[k + 1];
      NothingLostRun(Next(w, actions[0], gap), actions[1..], gap);
    }
  }

  /** Over every run with crashes and restarts: a saved failure counts one more than the saved outcome before it, which
      is nothing after a success; reservations that could not be written in between count as well, and only they. */
  lemma FailuresInARow(now: nat, deadline: nat, failures: nat, actions: seq<Action>, gap: nat, i: nat)
    requires failures <= 4_294_967_295 && AllEnabled(Initial(now, deadline, failures), actions, gap)
    ensures var attempts := Run(Initial(now, deadline, failures), actions, gap).attempts;
            i < |attempts| && attempts[i].saved && attempts[i].cool.Some? && (i > 0 ==> attempts[i - 1].saved) ==>
              var before := if i == 0 then failures
                            else if attempts[i - 1].cool.Some? then attempts[i - 1].cool.value.failures
                            else 0;
              && attempts[i].cool.value.failures == Min(before + attempts[i].lost + 1, 4_294_967_295)
              && (NoneRefused(actions) ==> attempts[i].cool.value.failures == Min(before + 1, 4_294_967_295))
  {
    hide Run, AllEnabled, NoneRefused;
    InitialExact(now, deadline, failures);
    ExactRun(Initial(now, deadline, failures), actions, gap, failures);
    var attempts := Run(Initial(now, deadline, failures), actions, gap).attempts;
    if i < |attempts| {
      assert CountedExactly(attempts, i, failures);
      if i > 0 {
        assert Last(attempts[..i]) == attempts[i - 1];
      }
    }
    if NoneRefused(actions) {
      NothingLostRun(Initial(now, deadline, failures), actions, gap);
    }
  }

  /** A saved success ends the back-off: the gate of the running process, the persisted count, and so the gate of every
      later process, count no failure but reservations that could not be written since. */
  lemma SuccessEndsBackoff(now: nat, deadline: nat, failures: nat, actions: seq<Action>, gap: nat)
    requires failures <= 4_294_967_295 && AllEnabled(Initial(now, deadline, failures), actions, gap)
    ensures var w := Run(Initial(now, deadline, failures), actions, gap);
            w.attempts != [] && Last(w.attempts).saved && Last(w.attempts).cool.None? ==>
              && (w.phase.Off? ==> w.stored == Min(w.storedLost, 4_294_967_295))
              && (w.phase.Loop? ==>
                  w.stored == Min(w.storedLost, 4_294_967_295) && w.failures == Min(w.lost, 4_294_967_295))
              && (NoneRefused(actions) ==> w.lost == 0 && w.storedLost == 0)
  {
    hide Run, AllEnabled, NoneRefused;
    InitialExact(now, deadline, failures);
    ExactRun(Initial(now, deadline, failures), actions, gap, failures);
    if NoneRefused(actions) {
      NothingLostRun(Initial(now, deadline, failures), actions, gap);
    }
  }

  /** An answer that is completed and saved settles its attempt: with its failure and Retry-After, or as a success. */
  lemma AnswerIsSaved(w: World, failure: Option<nat>, gap: nat)
    requires w.phase.Attempting? && w.attempts != []
    ensures var actions := [Answer(failure), Complete, ReadEndClock, StoreCooldown(true)];
            && AllEnabled(w, actions, gap)
            && var w' := Run(w, actions, gap);
               && w'.attempts != [] && Before(w'.attempts) == Before(w.attempts) && w'.stored == w'.failures
               && Last(w'.attempts).saved && w'.phase.Loop?
               && Last(w'.attempts).cool == (if failure.Some? then Some(Cool(w'.failures, failure.value)) else None)
               && w'.failures == if failure.Some? then Min(w.failures + 1, 4_294_967_295) else 0
  {
    hide Delay;
    var actions := [Answer(failure), Complete, ReadEndClock, StoreCooldown(true)];
    var w1 := Next(w, actions[0], gap);
    var w2 := Next(w1, actions[1], gap);
    var w3 := Next(w2, actions[2], gap);
    var w4 := Next(w3, actions[3], gap);
    RunFour(w, actions, gap, w1, w2, w3, w4);
  }

  /** A process that starts goes on with the persisted count and waits for the persisted deadline, less than a second
      more. */
  lemma StartRestores(w: World, gap: nat)
    requires w.phase.Off?
    ensures var w' := Next(w, Start, gap);
            && Enabled(w, Start) && w'.phase.Loop? && w'.failures == w.stored && w'.attempts == w.attempts
            && Max(w.now, 1000 * w.deadline) <= w'.until < Max(w.now, 1000 * w.deadline) + 1000
  {
    RestoredWaits(w.now, w.deadline);
  }

  /** The worker goes on: as soon as its gate opens it may reserve and send, once more. */
  lemma GateOpens(w: World, gap: nat)
    requires w.phase.Loop?
    ensures var opens := Max(w.until, w.now);
            var actions := [Tick(opens - w.now), ReadClock, StoreReservation(true), Send];
            && AllEnabled(w, actions, gap)
            && var w' := Run(w, actions, gap);
               && w'.phase == Attempting(opens) && w'.now == opens && w'.failures == w.failures == w'.stored
               && w'.deadline == opens / 1000 + 11 + Max(gap / 1000, 1)
               && w'.attempts == w.attempts + [Attempt(opens, opens, false, false, None, w.lost)]
  {
    var actions := [Tick(Max(w.until, w.now) - w.now), ReadClock, StoreReservation(true), Send];
    var w1 := Next(w, actions[0], gap);
    var w2 := Next(w1, actions[1], gap);
    var w3 := Next(w2, actions[2], gap);
    var w4 := Next(w3, actions[3], gap);
    RunFour(w, actions, gap, w1, w2, w3, w4);
  }

  lemma RunFour(w: World, a: seq<Action>, gap: nat, w1: World, w2: World, w3: World, w4: World)
    requires |a| == 4 && Enabled(w, a[0]) && w1 == Next(w, a[0], gap) && Enabled(w1, a[1]) && w2 == Next(w1, a[1], gap)
    requires Enabled(w2, a[2]) && w3 == Next(w2, a[2], gap) && Enabled(w3, a[3]) && w4 == Next(w3, a[3], gap)
    ensures AllEnabled(w, a, gap) && Run(w, a, gap) == w4
  {
    hide Next, Enabled;
    RunOne(w3, a[3..], gap);
    RunOne(w2, a[2..], gap);
    RunOne(w1, a[1..], gap);
    RunOne(w, a, gap);
  }

  lemma RunOne(w: World, a: seq<Action>, gap: nat)
    requires a != [] && Enabled(w, a[0]) && AllEnabled(Next(w, a[0], gap), a[1..], gap)
    ensures AllEnabled(w, a, gap) && Run(w, a, gap) == Run(Next(w, a[0], gap), a[1..], gap)
  {
    hide Next, Enabled;
  }

  /** Milliseconds that a saved outcome asks the next attempt to wait. */
  function Asked(a: Attempt, gap: nat): nat {
    if a.cool.Some? then
      Max(gap, 1000 * Max(Min(3600, 60 * Pow2(Max(a.cool.value.failures - 1, 0))),
                          Min(a.cool.value.retry, 4_294_967_295)))
    else gap
  }

  /** The same beside a reservation that was not used, rounded up to whole seconds. */
  function Limit(a: Attempt, gap: nat): nat {
    Max(Asked(a, gap) + 1000, gap + 12_000)
  }

  predicate WaitInv(w: World, gap: nat) {
    && (w.attempts != [] && Last(w.attempts).saved ==>
          && 1000 * w.deadline <= w.now + Limit(Last(w.attempts), gap)
          && (w.phase.Loop? && w.lost == 0 ==> w.until <= w.now + Limit(Last(w.attempts), gap) + 999))
    && (w.phase.Reserving? || w.phase.Reserved? ==> w.phase.clock <= w.now)
    && (w.phase.Attempting? || w.phase.Ended? ==> w.attempts != [] && !Last(w.attempts).saved)
    && (w.phase.Delayed? ==>
          && w.attempts != [] && !Last(w.attempts).saved && (w.phase.failure.Some? ==> w.failures >= 1)
          && w.phase.delay == Delay(w.failures, w.phase.failure, gap) && w.until <= w.now + w.phase.delay)
    && (w.phase.Saving? ==>
          var delay := Delay(w.failures, w.phase.failure, gap);
          && w.attempts != [] && !Last(w.attempts).saved && (w.phase.failure.Some? ==> w.failures >= 1)
          && w.until <= w.now + delay && 1000 * w.phase.deadline <= w.now + delay + 1000)
  }

  lemma DelayIsAsked(failures: nat, retry: nat, gap: nat, a: Attempt)
    requires failures >= 1 && a.cool == Some(Cool(failures, retry))
    ensures Delay(failures, Some(retry), gap) == Asked(a, gap)
  {
    hide Pow2;
    BackoffDoubles(failures);
  }

  lemma RestoredSoon(now: nat, deadline: nat, limit: nat)
    requires 1000 * deadline <= now + limit
    ensures Restored(now, deadline) <= now + limit + 999
  {
  }

  lemma ReservationSoon(clock: nat, now: nat, gap: nat)
    requires clock <= now
    ensures 1000 * Reservation(clock, gap) <= now + gap + 12_000
  {
  }

  lemma RoundedSoon(now: nat, delay: nat)
    ensures 1000 * (now / 1000 + delay / 1000 + 1) <= now + delay + 1000
  {
  }

  lemma WaitStep(w: World, a: Action, gap: nat)
    requires WaitInv(w, gap) && Enabled(w, a)
    ensures WaitInv(Next(w, a, gap), gap)
  {
    hide Delay, Asked, Restored, Reservation, Pow2;
    match a
    case Start =>
      if w.attempts != [] && Last(w.attempts).saved {
        RestoredSoon(w.now, w.deadline, Limit(Last(w.attempts), gap));
      }
    case StoreReservation(written) => ReservationSoon(w.phase.clock, w.now, gap);
    case Crash =>
      if w.phase.Attempting? { LastOf(w.attempts); }
    case ReadEndClock => RoundedSoon(w.now, w.phase.delay);
    case StoreCooldown(written) =>
      if written {
        SavedAsked(w, gap);
      }
    case Complete =>
      assert w.phase.failure.Some? ==> FailuresAfter(w.failures, w.phase.failure) >= 1;
    case _ =>
  }

  lemma SavedAsked(w: World, gap: nat)
    requires w.phase.Saving? && w.attempts != [] && (w.phase.failure.Some? ==> w.failures >= 1)
    ensures var w' := Next(w, StoreCooldown(true), gap);
            && w'.attempts != [] && Last(w'.attempts).saved && w'.until == w.until && w'.deadline == w.phase.deadline
            && Asked(Last(w'.attempts), gap) == Delay(w.failures, w.phase.failure, gap)
  {
    hide Pow2, Backoff;
    var w' := Next(w, StoreCooldown(true), gap);
    if w.phase.failure.Some? {
      DelayIsAsked(w.failures, w.phase.failure.value, gap, Last(w'.attempts));
    }
  }

  lemma {:induction false} WaitRun(w: World, actions: seq<Action>, gap: nat)
    requires WaitInv(w, gap) && AllEnabled(w, actions, gap)
    ensures WaitInv(Run(w, actions, gap), gap)
    decreases |actions|
  {
    hide WaitInv, Next, Enabled;
    if actions != [] {
      WaitStep(w, actions[0], gap);
      WaitRun(Next(w, actions[0], gap), actions[1..], gap);
    }
  }

  /** No longer than asked: in a process that goes on after saving an outcome the gate opens within the delay that
      RateLimit demands, and what is persisted lies at most a second behind it; after any crashes and restarts since,
      with reservations that were not used, it opens within that delay or the gap and twelve seconds, rounded up. */
  lemma WaitsNoLonger(now: nat, deadline: nat, failures: nat, actions: seq<Action>, gap: nat)
    requires AllEnabled(Initial(now, deadline, failures), actions, gap)
    ensures var w := Run(Initial(now, deadline, failures), actions, gap);
            && (w.phase.Loop? && w.attempts != [] && Last(w.attempts).saved && w.lost == 0 ==>
                  w.until <= w.now + Max(Asked(Last(w.attempts), gap) + 1000, gap + 12_000) + 999)
            && (w.phase.Saving? ==>
                  var w' := Next(w, StoreCooldown(true), gap);
                  && w'.attempts != [] && w'.until <= w'.now + Asked(Last(w'.attempts), gap)
                  && 1000 * w'.deadline <= w'.now + Asked(Last(w'.attempts), gap) + 1000)
  {
    hide Run, AllEnabled, Asked, Delay;
    WaitRun(Initial(now, deadline, failures), actions, gap);
    var w := Run(Initial(now, deadline, failures), actions, gap);
    if w.phase.Saving? {
      SavedAsked(w, gap);
    }
  }

  /** When persisting fails, the running process counts a failure all the same: it waits the back-off before it reserves
      again, and an hour, or the gap, after an outcome that it could not save. */
  lemma LostWritesWait(w: World, gap: nat)
    ensures Enabled(w, StoreReservation(false)) && w.failures < 4_294_967_295 ==>
              var w' := Next(w, StoreReservation(false), gap);
              && w'.phase.Loop? && w'.failures == w.failures + 1 && w'.stored == w.stored
              && w'.until == w.now + Max(gap, 1000 * Min(3600, 60 * Pow2(w.failures)))
    ensures w.phase.Saving? ==>
              var w' := Next(w, StoreCooldown(false), gap);
              && w'.phase.Loop? && w'.failures == Min(w.failures + 1, 4_294_967_295)
              && w'.until == w.now + Max(gap, 3_600_000)
  {
    hide Pow2;
    BackoffDoubles(w.failures + 1);
  }
}
