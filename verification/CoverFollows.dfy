/** What happened in a run decides the state of the cover fetches: counters, answers, and which fetch starts. */
module CoverFollows {
  import opened CoverFetches

  // ---- Counters and flags ----

  function Number(run: seq<Event>, of: Event -> bool): nat {
    if run == [] then 0 else (if of(run[0]) then 1 else 0) + Number(run[1..], of)
  }

  predicate Begins(e: Event) {
    e.AudioBegins?
  }

  predicate Ends(e: Event) {
    e.AudioEnds?
  }

  predicate Answers(e: Event) {
    e.Succeeded? || e.Failed?
  }

  predicate GivesBack(e: Event) {
    e.Ended?
  }

  predicate Drains(e: Event) {
    e.DrainTask?
  }

  /** The sources that are open after a run, and how many releases were the first ones of their source. */
  function Open(run: seq<Event>, open: set<nat>): set<nat> {
    if run == [] then open
    else
      Open(run[1..], if run[0].AudioOpened? then open + {run[0].source}
                     else if run[0].AudioReleased? then open - {run[0].source}
                     else open)
  }

  function FirstReleases(run: seq<Event>, open: set<nat>): nat
    decreases |run|
  {
    if run == [] then 0
    else
      (if run[0].AudioReleased? && run[0].source in open then 1 else 0) + FirstReleases(run[1..], Open([run[0]], open))
  }

  function LastSwitch(run: seq<Event>, on: bool): bool {
    if run == [] then on else LastSwitch(run[1..], if run[0].SetOffline? then run[0].on else on)
  }

  lemma StepFollows(s: State, e: Event)
    requires Enabled(s, e)
    ensures var s' := Step(s, e);
            && s'.audioOpens + (if e.AudioEnds? then 1 else 0) == s.audioOpens + (if e.AudioBegins? then 1 else 0)
            && s'.ending + (if e.Ended? then 1 else 0) == s.ending + (if e.Succeeded? || e.Failed? then 1 else 0)
            && s'.closed == (s.closed || e.Close?) && s'.offline == (if e.SetOffline? then e.on else s.offline)
            && s'.sources == (if e.AudioOpened? then s.sources + {e.source}
                              else if e.AudioReleased? then s.sources - {e.source}
                              else s.sources)
            && s'.drains + (if e.DrainTask? then 1 else 0)
               == s.drains + (if e.AudioReleased? && e.source in s.sources then 1 else 0)
  {
    hide Starts, Members;
  }

  lemma OpenOne(e: Event, open: set<nat>)
    ensures Open([e], open) == if e.AudioOpened? then open + {e.source}
                               else if e.AudioReleased? then open - {e.source}
                               else open
  {
    assert [e][1..] == [];
  }

  lemma {:induction false} RunFollows(s: State, run: seq<Event>)
    requires EnabledRun(s, run)
    ensures var s' := After(s, run);
            && s'.audioOpens + Number(run, Ends) == s.audioOpens + Number(run, Begins)
            && s'.ending + Number(run, GivesBack) == s.ending + Number(run, Answers)
            && s'.closed == (s.closed || Close in run) && s'.offline == LastSwitch(run, s.offline)
            && s'.sources == Open(run, s.sources)
            && s'.drains + Number(run, Drains) == s.drains + FirstReleases(run, s.sources)
    decreases |run|
  {
    hide Step, Enabled;
    if run != [] {
      StepFollows(s, run[0]);
      OpenOne(run[0], s.sources);
      RunFollows(Step(s, run[0]), run[1..]);
      assert run == [run[0]] + run[1..];
    }
  }

  /** After every run: fetches pause exactly while an audio request is under way; the sources counted are those opened
      and not released; every first release schedules one drain; and the counted fetches are those that run or have
      answered and not yet given back their place. */
  lemma CountersFollow(run: seq<Event>)
    requires EnabledRun(Initial(), run)
    ensures var s := After(Initial(), run);
            && (s.paused <==> Number(run, Begins) > Number(run, Ends))
            && s.audioOpens == Number(run, Begins) - Number(run, Ends)
            && s.sources == Open(run, {}) && s.audioSources == |Open(run, {})|
            && s.drains == FirstReleases(run, {}) - Number(run, Drains)
            && s.active == |s.fetching| + Number(run, Answers) - Number(run, GivesBack)
            && (s.closed <==> Close in run) && s.offline == LastSwitch(run, false)
  {
    RunFollows(Initial(), run);
    InitialInv();
    RunKeeps(Initial(), run);
    hide After, EnabledRun, Number, Open, FirstReleases, LastSwitch, Placed, Woken;
  }

  // ---- Answers ----

  /** A promise is answered by a fetch that succeeds, by a refusal when the client is closed or offline, by a failure
      that is not retried, and by the closing that finds it waiting; in no other way. */
  lemma StepAnswers(s: State, e: Event, j: Job)
    requires Inv(s) && Enabled(s, e) && j !in s.settled
    ensures j in Step(s, e).settled
            <==>
            || e == Succeeded(j)
            || (e == Enqueue(j) && (s.closed || s.offline))
            || (e == Failed(j) && (!s.paused || s.closed))
            || (e == Close && j in s.queue)
    ensures j in Step(s, e).settled ==> (Step(s, e).settled[j] == Resolved <==> e == Succeeded(j))
  {
    hide Starts, Placed, Counted, Woken;
  }

  lemma {:induction false} NoLateSuccess(s: State, run: seq<Event>, j: Job)
    requires Inv(s) && EnabledRun(s, run) && j in s.settled
    ensures Succeeded(j) !in run
    decreases |run|
  {
    hide *;
    if run != [] {
      EnabledFirst(s, run);
      SettledStays(s, run[0], j);
      NoLateSuccess(Step(s, run[0]), run[1..], j);
      forall i | 0 <= i < |run| ensures run[i] != Succeeded(j) {
        assert i > 0 ==> run[i] == run[1..][i - 1];
      }
    }
  }

  lemma EnabledFirst(s: State, run: seq<Event>)
    requires EnabledRun(s, run) && run != []
    ensures Enabled(s, run[0]) && EnabledRun(Step(s, run[0]), run[1..])
  {
    hide Enabled, Step;
  }

  lemma SettledStays(s: State, e: Event, j: Job)
    requires Inv(s) && Enabled(s, e) && j in s.settled
    ensures e != Succeeded(j) && Inv(Step(s, e)) && j in Step(s, e).settled
  {
    NotFetching(s, j);
    StepKeeps(s, e);
    hide *;
    AnswersStayIs(s, Step(s, e), j);
  }

  lemma AnswersStayIs(s: State, s': State, j: Job)
    requires AnswersStay(s, s') && j in s.settled
    ensures j in s'.settled
  {
  }

  lemma NotFetching(s: State, j: Job)
    requires Inv(s) && j in s.settled
    ensures j !in s.fetching && !Enabled(s, Succeeded(j))
  {
  }

  lemma {:induction false} OutcomeFrom(s: State, run: seq<Event>, j: Job)
    requires Inv(s) && EnabledRun(s, run) && j !in s.settled && j in After(s, run).settled
    ensures After(s, run).settled[j] == Resolved <==> Succeeded(j) in run
    decreases |run|
  {
    hide Inv, Step, Conserved;
    if run != [] {
      var s' := Step(s, run[0]);
      StepKeeps(s, run[0]);
      StepAnswers(s, run[0], j);
      assert run == [run[0]] + run[1..];
      if j in s'.settled {
        RunKeeps(s', run[1..]);
        NoLateSuccess(s', run[1..], j);
      } else {
        OutcomeFrom(s', run[1..], j);
      }
    }
  }

  /** After every run: a promise that is answered was resolved exactly when its fetch has succeeded. */
  lemma OutcomesFollow(run: seq<Event>, j: Job)
    requires EnabledRun(Initial(), run) && j in After(Initial(), run).settled
    ensures After(Initial(), run).settled[j] == Resolved <==> Succeeded(j) in run
  {
    InitialInv();
    OutcomeFrom(Initial(), run, j);
    hide Inv, After, EnabledRun;
  }

  // ---- Starts ----

  lemma DrainInOrder(s: State, p: nat, q: nat)
    requires Distinct(s.queue) && p < q < |s.queue| && s.queue[q] !in s.fetching && s.queue[q] in Drained(s).fetching
    ensures s.queue[p] in Drained(s).fetching
  {
    var n := Starts(s);
    var r :| 0 <= r < |s.queue[..n]| && s.queue[..n][r] == s.queue[q];
    assert r == q;
    assert s.queue[..n][p] == s.queue[p];
    hide Starts, Distinct;
  }

  /** What a step drains, if it starts anything. */
  lemma StartsFrom(s: State, e: Event) returns (d: State)
    requires Enabled(s, e)
    ensures d.fetching == s.fetching
    ensures Step(s, e).fetching <= s.fetching || Step(s, e).fetching == Drained(d).fetching
    ensures d.queue == s.queue || (e.Enqueue? && d.queue == s.queue + [e.job])
  {
    hide Drained;
    d := s;
    match e {
      case Enqueue(job) => d := s.(queue := s.queue + [job]);
      case Ended => d := s.(ending := s.ending - 1, active := Less(s.active));
      case AudioEnds => d := s.(audioOpens := s.audioOpens - 1, paused := false);
      case DrainTask => d := s.(drains := s.drains - 1);
      case SetOffline(on) => d := s.(offline := false);
      case _ =>
    }
  }

  lemma NoneFetched(s: State, e: Event)
    requires Inv(s) && Enabled(s, e)
    ensures Distinct(s.queue) && (e.Enqueue? ==> Distinct(s.queue + [e.job]))
    ensures forall i :: 0 <= i < |s.queue| ==> s.queue[i] !in s.fetching
  {
    hide Counted, Woken;
    assert forall i :: 0 <= i < |s.queue| ==> s.queue[i] in s.queue;
  }

  /** Waiting fetches start from the front: none overtakes one that was waiting before it. */
  lemma StartsInOrder(s: State, e: Event, p: nat, q: nat)
    requires Inv(s) && Enabled(s, e) && p < q < |s.queue| && s.queue[q] in Step(s, e).fetching
    ensures s.queue[p] in Step(s, e).fetching
  {
    hide *;
    NoneFetched(s, e);
    var d := StartsFrom(s, e);
    assert d.queue[q] == s.queue[q] && d.queue[p] == s.queue[p];
    DrainInOrder(d, p, q);
  }

  /** Whenever a place is given back, audio ends, a release is followed up, the client goes online, or a fetch is asked
      for: afterwards no fetch that may run waits while a place is free, one during audio and three otherwise. */
  lemma StepFills(s: State, e: Event)
    requires Enabled(s, e) && (e.Ended? || e.DrainTask? || e == SetOffline(false) || (e.AudioEnds? && s.audioOpens == 1)
                               || e.Enqueue?)
    ensures var s' := Step(s, e);
            s'.queue == [] || s'.closed || s'.offline || s'.paused || s'.active >= if s'.audioSources > 0 then 1 else 3
  {
    hide Members;
  }
}
