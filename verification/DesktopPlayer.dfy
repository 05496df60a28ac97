/** The desktop player (player.rs): a playback state that commands, two-phase starts, in-flight prefetches and
    finishing sources change in any order, each under one lock. */
module DesktopPlayer {
  // A player is the list of queue positions appended to it and how many of their sources have finished; the
  // generation it was made for is kept for the proofs. Generations are unbounded here.

  import opened Wrappers

  datatype Player = Player(generation: nat, appended: seq<nat>, finished: nat)

  datatype Audio = Audio(
    player: Option<Player>,
    generation: nat,
    queue: seq<string>,
    active: seq<nat>,
    prefetching: Option<nat>,
    loading: bool)

  /** A start between its two locked phases. */
  datatype Start = Start(generation: nat, selected: nat)

  /** A download for the place after the current one. */
  datatype Prefetch = Prefetch(generation: nat, index: nat)

  // ---- The locked steps as functions ----

  /** The positions whose sources the player still holds. */
  function Held(p: Player): seq<nat> {
    if p.finished <= |p.appended| then p.appended[p.finished..] else []
  }

  function Remaining(a: Audio): nat {
    if a.player.Some? then |Held(a.player.value)| else 0
  }

  function Sync(a: Audio): Audio {
    if |a.active| > Remaining(a) then a.(active := a.active[|a.active| - Remaining(a)..]) else a
  }

  function Close(a: Audio): Audio {
    Audio(None, a.generation + 1, [], [], None, false)
  }

  function NextPrefetchIndex(a: Audio): Option<nat> {
    if |a.queue| < 2 || |a.active| >= 2 || a.prefetching.Some? || a.active == [] then None
    else
      var next := (a.active[0] + 1) % |a.queue|;
      if next in a.active then None else Some(next)
  }

  function SchedulePrefetch(a: Audio): (Audio, Option<Prefetch>) {
    var synced := Sync(a);
    var next := NextPrefetchIndex(synced);
    if next.None? then (synced, None) else (synced.(prefetching := next), Some(Prefetch(a.generation, next.value)))
  }

  function CompletePrefetch(a: Audio, p: Prefetch, ok: bool): Audio {
    if a.generation != p.generation || a.prefetching != Some(p.index) then a
    else if ok && a.player.Some? then
      a.(prefetching := None, player := Some(a.player.value.(appended := a.player.value.appended + [p.index])),
         active := a.active + [p.index])
    else a.(prefetching := None)
  }

  function BeginStart(a: Audio, queue: seq<string>, selected: nat): (Audio, Start) {
    (Audio(a.player, a.generation + 1, queue, [], None, true), Start(a.generation + 1, selected))
  }

  /** What a start that was not replaced installs: a player with one source. */
  function Installed(a: Audio, selected: nat): Audio {
    a.(player := Some(Player(a.generation, [selected], 0)), active := a.active + [selected], loading := false)
  }

  function FinishStart(a: Audio, s: Start, deviceOpens: bool): Audio {
    if a.generation != s.generation || !deviceOpens then a
    else Sync(Installed(a, s.selected))
  }

  function Stop(a: Audio): Audio {
    a.(player := None, active := [], queue := [])
  }

  /** The position after or before the current one; None is the error of an empty queue. */
  function Neighbour(a: Audio, forward: bool): Option<nat> {
    if a.queue == [] then None
    else
      var current := if a.active != [] then a.active[0] else 0;
      Some((current + if forward then 1 else |a.queue| - 1) % |a.queue|)
  }

  function FinishSource(a: Audio): Audio {
    if a.player.Some? && a.player.value.finished < |a.player.value.appended| then
      a.(player := Some(a.player.value.(finished := a.player.value.finished + 1)))
    else a
  }

  // ---- The object ----

  class DesktopAudio {
    var player: Option<Player>
    var generation: nat
    var queue: seq<string>
    var active: seq<nat>
    var prefetching: Option<nat>
    var loading: bool

    function View(): Audio
      reads this
    {
      Audio(player, generation, queue, active, prefetching, loading)
    }

    constructor ()
      ensures View() == Audio(None, 0, [], [], None, false)
    {
      player, generation, queue, active, prefetching, loading := None, 0, [], [], None, false;
    }

    method SyncActive()
      modifies this`active
      ensures View() == Sync(old(View()))
    {
      var remaining := if player.Some? then |Held(player.value)| else 0;
      while |active| > remaining
        invariant View() == old(View()).(active := active)
        invariant Sync(View()) == Sync(old(View()))
      {
        active := active[1..];
      }
    }

    method CloseAudio()
      modifies this
      ensures View() == Close(old(View()))
    {
      generation := generation + 1;
      player := None;
      active := [];
      queue := [];
      prefetching := None;
      loading := false;
    }

    /** The locked part of a schedule; None means there is nothing to fetch. */
    method ScheduleLocked() returns (scheduled: Option<Prefetch>)
      modifies this`active, this`prefetching
      ensures (View(), scheduled) == SchedulePrefetch(old(View()))
    {
      SyncActive();
      if |queue| < 2 || |active| >= 2 || prefetching.Some? || active == [] {
        return None;
      }
      var next := (active[0] + 1) % |queue|;
      if next in active {
        return None;
      }
      prefetching := Some(next);
      scheduled := Some(Prefetch(generation, next));
    }

    /** The locked part of a finished download. */
    method CompleteLocked(p: Prefetch, ok: bool)
      modifies this
      ensures View() == CompletePrefetch(old(View()), p, ok)
    {
      if generation != p.generation || prefetching != Some(p.index) {
        return;
      }
      prefetching := None;
      if ok && player.Some? {
        player := Some(player.value.(appended := player.value.appended + [p.index]));
        active := active + [p.index];
      }
    }

    /** The first phase of a start. None is the error of a closed client, which changes nothing, or of a place outside
        the queue, which comes only after the state has changed. */
    method BeginLocked(clientOpen: bool, queue: seq<string>, selected: nat) returns (s: Option<Start>)
      modifies this
      ensures View() == if clientOpen then BeginStart(old(View()), queue, selected).0 else old(View())
      ensures s == if clientOpen && selected < |queue| then Some(BeginStart(old(View()), queue, selected).1) else None
    {
      if !clientOpen {
        return None;
      }
      generation := generation + 1;
      this.queue := queue;
      active := [];
      prefetching := None;
      loading := true;
      if selected >= |queue| {
        return None;
      }
      s := Some(Start(generation, selected));
    }

    /** The second phase; false is the error of a replaced request or of a device that does not open. */
    method FinishLocked(s: Start, deviceOpens: bool) returns (started: bool)
      modifies this
      ensures started == (old(generation) == s.generation && deviceOpens)
      ensures View() == FinishStart(old(View()), s, deviceOpens)
    {
      if generation != s.generation || !deviceOpens {
        return false;
      }
      player := Some(Player(generation, [s.selected], 0));
      active := active + [s.selected];
      loading := false;
      SyncActive();
      started := true;
    }

    method StopLocked()
      modifies this
      ensures View() == Stop(Sync(old(View())))
    {
      SyncActive();
      player := None;
      active := [];
      queue := [];
    }

    /** The target of next and previous. */
    method NeighbourLocked(forward: bool) returns (selected: Option<nat>)
      modifies this`active
      ensures View() == Sync(old(View())) && selected == Neighbour(View(), forward)
    {
      SyncActive();
      if queue == [] {
        return None;
      }
      var current := if active != [] then active[0] else 0;
      var offset := if forward then 1 else |queue| - 1;
      selected := Some((current + offset) % |queue|);
    }
  }

  // ---- Every interleaving ----

  datatype World = World(audio: Audio, starts: seq<Start>, prefetches: seq<Prefetch>)

  datatype Action =
    | Begin(queue: seq<string>, selected: nat)
    | Skip(forward: bool)
    | Finish(i: nat, deviceOpens: bool)
    | FailStart(i: nat)
    | Schedule(clientOpen: bool)
    | Complete(i: nat, ok: bool)
    | Poll
    | StopCommand
    | CloseNative
    | SourceEnds

  function Without<T>(s: seq<T>, i: nat): seq<T>
    requires i < |s|
  {
    s[..i] + s[i + 1..]
  }

  predicate Enabled(w: World, a: Action) {
    match a
    case Finish(i, _) => i < |w.starts|
    case FailStart(i) => i < |w.starts|
    case Complete(i, _) => i < |w.prefetches|
    case _ => true
  }

  /** A start of a place outside the queue fails, but not before the state has changed. */
  function Begun(w: World, queue: seq<string>, selected: nat): World {
    var (audio, s) := BeginStart(w.audio, queue, selected);
    World(audio, if selected < |queue| then w.starts + [s] else w.starts, w.prefetches)
  }

  function Next(w: World, a: Action): World
    requires Enabled(w, a)
  {
    match a
    case Begin(queue, selected) => Begun(w, queue, selected)
    case Skip(forward) =>
      var synced := w.(audio := Sync(w.audio));
      var target := Neighbour(synced.audio, forward);
      if target.None? then synced else Begun(synced, w.audio.queue, target.value)
    case Finish(i, deviceOpens) => World(FinishStart(w.audio, w.starts[i], deviceOpens), Without(w.starts, i),
                                         w.prefetches)
    case FailStart(i) => w.(starts := Without(w.starts, i))
    case Schedule(clientOpen) =>
      var (audio, p) := SchedulePrefetch(w.audio);
      World(audio, w.starts, if p.Some? && clientOpen then w.prefetches + [p.value] else w.prefetches)
    case Complete(i, ok) => World(CompletePrefetch(w.audio, w.prefetches[i], ok), w.starts, Without(w.prefetches, i))
    case Poll => w.(audio := Sync(w.audio))
    case StopCommand => w.(audio := Stop(Sync(w.audio)))
    case CloseNative => w.(audio := Close(w.audio))
    case SourceEnds => w.(audio := FinishSource(w.audio))
  }

  // ---- The invariant ----

  /** The player was made by the current generation. */
  predicate Live(a: Audio) {
    a.player.Some? && a.player.value.generation == a.generation
  }

  predicate Consecutive(appended: seq<nat>, size: nat) {
    && (size < 2 ==> |appended| == 1)
    && (size > 0 ==> forall i :: 0 <= i < |appended| ==> appended[i] < size)
    && (size > 0 ==> forall i :: 0 <= i < |appended| - 1 ==> appended[i + 1] == (appended[i] + 1) % size)
  }

  /** The active list is the tail of what was appended, and contains all that is still held. */
  predicate Tail(active: seq<nat>, p: Player) {
    && p.finished <= |p.appended| && |Held(p)| <= |active| <= |p.appended|
    && active == p.appended[|p.appended| - |active|..]
  }

  predicate AudioInv(a: Audio) {
    && |a.active| <= 2
    && (!Live(a) ==> a.active == [])
    && (!Live(a) && a.player.Some? ==> a.prefetching.None?)
    && (Live(a) ==>
          var p := a.player.value;
          && p.appended != [] && Consecutive(p.appended, |a.queue|) && Tail(a.active, p)
          && (a.prefetching.Some? ==>
                |a.queue| >= 2 && |a.active| <= 1 &&
                  a.prefetching.value == (p.appended[|p.appended| - 1] + 1) % |a.queue|))
  }

  predicate StartsInv(w: World) {
    && (forall i :: 0 <= i < |w.starts| ==> w.starts[i].generation <= w.audio.generation)
    && (forall i, j :: 0 <= i < j < |w.starts| ==> w.starts[i].generation != w.starts[j].generation)
    && (forall i :: 0 <= i < |w.starts| && w.starts[i].generation == w.audio.generation ==>
          !Live(w.audio) && w.audio.prefetching.None? &&
            (w.audio.queue == [] || w.starts[i].selected < |w.audio.queue|))
  }

  predicate PrefetchesInv(w: World) {
    && (forall i :: 0 <= i < |w.prefetches| ==> w.prefetches[i].generation <= w.audio.generation)
    && (forall i :: 0 <= i < |w.prefetches| && w.prefetches[i].generation == w.audio.generation ==>
          w.audio.prefetching == Some(w.prefetches[i].index))
    && (forall i, j :: 0 <= i < j < |w.prefetches| ==>
          !(w.prefetches[i].generation == w.audio.generation && w.prefetches[j].generation == w.audio.generation))
  }

  predicate PlayersInv(a: Audio) {
    a.player.Some? ==> a.player.value.generation <= a.generation
  }

  predicate Inv(w: World) {
    AudioInv(w.audio) && StartsInv(w) && PrefetchesInv(w) && PlayersInv(w.audio)
  }

  lemma SyncKeeps(a: Audio)
    requires AudioInv(a)
    ensures AudioInv(Sync(a)) && Sync(a).player == a.player && Sync(a) == a.(active := Sync(a).active)
    ensures Sync(a).active == [] || (a.player.Some? && Sync(a).active == Held(a.player.value))
  {
    if |a.active| > Remaining(a) && Live(a) {
      var p := a.player.value;
      assert Sync(a).active == p.appended[|p.appended| - |Held(p)|..];
    }
  }

  lemma SyncHolds(a: Audio)
    requires AudioInv(a)
    ensures Sync(a).active == if Live(a) then Held(a.player.value) else []
  {
    hide Consecutive;
    if Live(a) {
      var p := a.player.value;
      assert |Held(p)| == |p.appended| - p.finished;
      assert Sync(a).active == p.appended[|p.appended| - |Held(p)|..];
    }
  }

  lemma SyncWorld(w: World)
    requires Inv(w)
    ensures Inv(w.(audio := Sync(w.audio)))
  {
    SyncKeeps(w.audio);
  }

  lemma BegunKeeps(w: World, queue: seq<string>, selected: nat)
    requires Inv(w)
    ensures Inv(Begun(w, queue, selected))
  {
  }

  lemma InstalledHeld(a: Audio, selected: nat)
    requires a.active == []
    ensures var installed := Installed(a, selected);
            && installed.active == [selected] && Held(installed.player.value) == [selected]
            && Live(installed) && Sync(installed) == installed
  {
    hide AudioInv, Consecutive, Tail;
    var installed := Installed(a, selected);
    assert installed.active == [selected] && Held(installed.player.value) == [selected];
  }

  lemma InstallKeeps(a: Audio, selected: nat)
    requires a.active == [] && a.prefetching.None? && (a.queue == [] || selected < |a.queue|)
    ensures var installed := Installed(a, selected);
            AudioInv(installed) && Sync(installed) == installed && Live(installed) && installed.active == [selected]
  {
    hide Consecutive, Tail, Held, Sync;
    InstalledHeld(a, selected);
    OneAppended(selected, |a.queue|, Installed(a, selected).player.value);
  }

  lemma OneAppended(selected: nat, size: nat, p: Player)
    requires (size == 0 || selected < size) && p.appended == [selected] && p.finished == 0
    ensures Consecutive(p.appended, size) && Tail([selected], p)
  {
  }

  lemma FinishKeeps(w: World, i: nat, deviceOpens: bool)
    requires Inv(w) && i < |w.starts|
    ensures Inv(Next(w, Finish(i, deviceOpens)))
  {
    var (s, a) := (w.starts[i], w.audio);
    if a.generation == s.generation && deviceOpens {
      hide AudioInv, Sync;
      InstallKeeps(a, s.selected);
      var w' := Next(w, Finish(i, deviceOpens));
      assert forall j :: 0 <= j < |w'.starts| ==> w'.starts[j].generation != a.generation;
    }
  }

  lemma ScheduleAudio(a: Audio)
    requires AudioInv(a)
    ensures var (b, p) := SchedulePrefetch(a);
            && AudioInv(b) && b.player == a.player && b.generation == a.generation && b.queue == a.queue
            && (p.None? ==> b.prefetching == a.prefetching)
            && (p.Some? ==>
                  && a.prefetching.None? && Live(b) && p.value.generation == a.generation
                  && b.prefetching == Some(p.value.index))
  {
    SyncKeeps(a);
    var synced := Sync(a);
    hide Sync;
    if NextPrefetchIndex(synced).Some? {
      assert Live(synced);
      var p := synced.player.value;
      assert synced.active[0] == p.appended[|p.appended| - 1];
    }
  }

  lemma ScheduleKeeps(w: World, clientOpen: bool)
    requires Inv(w)
    ensures Inv(Next(w, Schedule(clientOpen)))
  {
    hide AudioInv, SchedulePrefetch;
    ScheduleAudio(w.audio);
    var (b, p) := SchedulePrefetch(w.audio);
    var w' := Next(w, Schedule(clientOpen));
    assert w'.audio == b && w'.starts == w.starts;
    assert StartsInv(w') && PlayersInv(b);
    assert PrefetchesInv(w');
  }

  lemma CompleteAudio(a: Audio, p: Prefetch, ok: bool)
    requires AudioInv(a)
    ensures var b := CompletePrefetch(a, p, ok);
            && AudioInv(b) && b.generation == a.generation && b.queue == a.queue && (Live(b) <==> Live(a))
            && (b.player.Some? ==> a.player.Some? && b.player.value.generation == a.player.value.generation)
            && b.prefetching == if a.generation == p.generation && a.prefetching == Some(p.index) then None
                                else a.prefetching
  {
    if a.generation == p.generation && a.prefetching == Some(p.index) && ok && a.player.Some? {
      AppendKeeps(a, p.index);
    }
  }

  lemma CompleteKeeps(w: World, i: nat, ok: bool)
    requires Inv(w) && i < |w.prefetches|
    ensures Inv(Next(w, Complete(i, ok)))
  {
    hide AudioInv, CompletePrefetch, Live;
    CompleteAudio(w.audio, w.prefetches[i], ok);
    var w' := Next(w, Complete(i, ok));
    assert StartsInv(w') && PlayersInv(w'.audio);
    assert PrefetchesInv(w') by {
      hide StartsInv, PlayersInv;
      assert PrefetchesInv(w);
    }
  }

  lemma ConsecutiveAppend(appended: seq<nat>, index: nat, size: nat)
    requires Consecutive(appended, size) && appended != [] && size >= 2
    requires index == (appended[|appended| - 1] + 1) % size
    ensures Consecutive(appended + [index], size)
  {
  }

  lemma TailAppend(active: seq<nat>, p: Player, index: nat)
    requires Tail(active, p)
    ensures Tail(active + [index], p.(appended := p.appended + [index]))
  {
  }

  lemma AppendKeeps(a: Audio, index: nat)
    requires AudioInv(a) && a.prefetching == Some(index) && a.player.Some?
    ensures AudioInv(a.(prefetching := None, active := a.active + [index],
                        player := Some(a.player.value.(appended := a.player.value.appended + [index]))))
  {
    var p := a.player.value;
    hide Consecutive, Tail;
    ConsecutiveAppend(p.appended, index, |a.queue|);
    TailAppend(a.active, p, index);
  }

  lemma SourceEndsAudio(a: Audio)
    requires AudioInv(a)
    ensures AudioInv(FinishSource(a)) && FinishSource(a).generation == a.generation
    ensures (Live(FinishSource(a)) <==> Live(a))
    ensures FinishSource(a).queue == a.queue && FinishSource(a).prefetching == a.prefetching
    ensures FinishSource(a).player.Some? ==>
              a.player.Some? && FinishSource(a).player.value.generation == a.player.value.generation
  {
    hide Consecutive;
  }

  lemma SourceEndsKeeps(w: World)
    requires Inv(w)
    ensures Inv(Next(w, SourceEnds))
  {
    hide AudioInv, FinishSource, Live;
    SourceEndsAudio(w.audio);
  }

  lemma StopKeeps(w: World)
    requires Inv(w)
    ensures Inv(Next(w, StopCommand))
  {
  }

  lemma CloseKeeps(w: World)
    requires Inv(w)
    ensures Inv(Next(w, CloseNative))
  {
  }

  lemma FailKeeps(w: World, i: nat)
    requires Inv(w) && i < |w.starts|
    ensures Inv(Next(w, FailStart(i)))
  {
    hide AudioInv, Live;
  }

  lemma SkipKeeps(w: World, forward: bool)
    requires Inv(w)
    ensures Inv(Next(w, Skip(forward)))
  {
    hide *;
    var synced := w.(audio := Sync(w.audio));
    SyncWorld(w);
    SkipCases(w, forward);
    if Neighbour(synced.audio, forward).Some? {
      BegunKeeps(synced, w.audio.queue, Neighbour(synced.audio, forward).value);
    }
  }

  lemma SkipCases(w: World, forward: bool)
    ensures Enabled(w, Skip(forward))
    ensures var synced := w.(audio := Sync(w.audio));
            var target := Neighbour(synced.audio, forward);
            Next(w, Skip(forward)) == if target.None? then synced else Begun(synced, w.audio.queue, target.value)
  {
    hide Neighbour, Sync, Begun;
  }

  lemma BeginKeeps(w: World, queue: seq<string>, selected: nat)
    requires Inv(w)
    ensures Inv(Next(w, Begin(queue, selected)))
  {
    hide Inv;
    BegunKeeps(w, queue, selected);
  }

  lemma PollKeeps(w: World)
    requires Inv(w)
    ensures Inv(Next(w, Poll))
  {
    hide Inv;
    SyncWorld(w);
  }

  lemma StepKeeps(w: World, a: Action)
    requires Inv(w) && Enabled(w, a)
    ensures Inv(Next(w, a))
  {
    hide Inv, Next;
    match a
    case Begin(queue, selected) => BeginKeeps(w, queue, selected);
    case Skip(forward) => SkipKeeps(w, forward);
    case Finish(i, deviceOpens) => FinishKeeps(w, i, deviceOpens);
    case FailStart(i) => FailKeeps(w, i);
    case Schedule(clientOpen) => ScheduleKeeps(w, clientOpen);
    case Complete(i, ok) => CompleteKeeps(w, i, ok);
    case Poll => PollKeeps(w);
    case StopCommand => StopKeeps(w);
    case CloseNative => CloseKeeps(w);
    case SourceEnds => SourceEndsKeeps(w);
  }

  // ---- Over every run ----

  predicate AllEnabled(w: World, actions: seq<Action>)
    decreases |actions|
  {
    actions == [] || (Enabled(w, actions[0]) && AllEnabled(Next(w, actions[0]), actions[1..]))
  }

  function Run(w: World, actions: seq<Action>): World
    requires AllEnabled(w, actions)
    decreases |actions|
  {
    if actions == [] then w else Run(Next(w, actions[0]), actions[1..])
  }

  function Initial(): World {
    World(Audio(None, 0, [], [], None, false), [], [])
  }

  lemma {:induction false} RunKeeps(w: World, actions: seq<Action>)
    requires Inv(w) && AllEnabled(w, actions)
    ensures Inv(Run(w, actions))
    decreases |actions|
  {
    if actions != [] {
      StepKeeps(w, actions[0]);
      RunKeeps(Next(w, actions[0]), actions[1..]);
    }
  }

  lemma Reachable(actions: seq<Action>)
    requires AllEnabled(Initial(), actions)
    ensures Inv(Run(Initial(), actions))
  {
    RunKeeps(Initial(), actions);
  }

  /** In every interleaving: at most two positions are active, the second is the cyclic successor of the first, and
      after a sync the active positions are exactly what the player still holds, if there are any. */
  lemma ActiveFollows(actions: seq<Action>)
    requires AllEnabled(Initial(), actions)
    ensures var a := Run(Initial(), actions).audio;
            && |a.active| <= 2
            && (|a.active| == 2 ==>
                |a.queue| >= 2 && a.active[1] == (a.active[0] + 1) % |a.queue| && a.active[0] != a.active[1])
            && Sync(a).active == (if Live(a) then Held(a.player.value) else [])
            && Next(Run(Initial(), actions), Poll).audio.active == Sync(a).active
  {
    var a := Run(Initial(), actions).audio;
    Reachable(actions);
    SyncHolds(a);
    if |a.active| == 2 {
      var p := a.player.value;
      assert a.active[0] == p.appended[|p.appended| - 2] && a.active[1] == p.appended[|p.appended| - 1];
      assert p.appended[(|p.appended| - 2) + 1] == (p.appended[|p.appended| - 2] + 1) % |a.queue|;
      SuccessorMod(a.active[0], |a.queue|);
    }
  }

  lemma SourceEndsFields(w: World)
    ensures var (a, w') := (w.audio, Next(w, SourceEnds));
            && Enabled(w, SourceEnds) && w' == w.(audio := a.(player := w'.audio.player)) && Live(w'.audio) == Live(a)
            && (Live(a) ==>
                  Held(w'.audio.player.value) == if Held(a.player.value) != [] then Held(a.player.value)[1..] else [])
  {
  }

  /** When the source that plays ends, the next place is the one that is playing. */
  lemma SourceEndsMovesOn(actions: seq<Action>)
    requires AllEnabled(Initial(), actions)
    ensures var w := Run(Initial(), actions);
            var (playing, w') := (Sync(w.audio).active, Next(w, SourceEnds));
            && Sync(w'.audio).active == (if playing != [] then playing[1..] else [])
            && w' == w.(audio := w.audio.(player := w'.audio.player)) && Live(w'.audio) == Live(w.audio)
  {
    var w := Run(Initial(), actions);
    Reachable(actions);
    SourceEndsKeeps(w);
    hide *;
    InvAudio(w);
    SourceEndsFields(w);
    InvAudio(Next(w, SourceEnds));
    SyncHolds(w.audio);
    SyncHolds(Next(w, SourceEnds).audio);
  }

  /** What a player of the current generation has been given is the queue from the selected place on, one place
      after the other around its end. */
  lemma PlaysInOrder(actions: seq<Action>, i: nat)
    requires AllEnabled(Initial(), actions)
    requires Live(Run(Initial(), actions).audio) && i < |Run(Initial(), actions).audio.player.value.appended|
    ensures var (a, appended) := (Run(Initial(), actions).audio, Run(Initial(), actions).audio.player.value.appended);
            if a.queue == [] then |appended| == 1
            else appended[i] < |a.queue| && appended[i] + |a.queue| * Laps(appended, |a.queue|, i) == appended[0] + i
  {
    Reachable(actions);
    var a := Run(Initial(), actions).audio;
    if a.queue != [] {
      Around(a.player.value.appended, |a.queue|, i);
    }
  }

  /** How often the list has come around the end of the queue by index i. */
  function Laps(appended: seq<nat>, size: nat, i: nat): nat
    requires i < |appended|
  {
    if i == 0 then 0 else Laps(appended, size, i - 1) + if appended[i - 1] + 1 == size then 1 else 0
  }

  lemma {:induction false} Around(appended: seq<nat>, size: nat, i: nat)
    requires size > 0 && Consecutive(appended, size) && i < |appended|
    ensures appended[i] < size && appended[i] + size * Laps(appended, size, i) == appended[0] + i
  {
    hide *;
    ConsecutiveAt(appended, size, i);
    LapsStep(appended, size, i);
    if i > 0 {
      Around(appended, size, i - 1);
      SuccessorMod(appended[i - 1], size);
      assert size * (Laps(appended, size, i - 1) + 1) == size * Laps(appended, size, i - 1) + size;
    }
  }

  lemma ConsecutiveAt(appended: seq<nat>, size: nat, i: nat)
    requires size > 0 && Consecutive(appended, size) && i < |appended|
    ensures appended[i] < size && (i > 0 ==> appended[i] == (appended[i - 1] + 1) % size)
  {
    if i > 0 {
      assert appended[(i - 1) + 1] == (appended[i - 1] + 1) % size;
    }
  }

  lemma LapsStep(appended: seq<nat>, size: nat, i: nat)
    requires i < |appended|
    ensures Laps(appended, size, i)
            == if i == 0 then 0 else Laps(appended, size, i - 1) + if appended[i - 1] + 1 == size then 1 else 0
  {
  }

  lemma SuccessorMod(n: nat, size: nat)
    requires n < size
    ensures (n + 1) % size == if n + 1 == size then 0 else n + 1
  {
    var (q, r) := ((n + 1) / size, (n + 1) % size);
    assert n + 1 == size * q + r;
    assert q >= 2 ==> size * q >= size * 2;
  }

  // ---- Next, previous and prefetching ----

  /** The place after or before one of n, around the end. */
  predicate Beside(forward: bool, n: nat, from: nat, to: nat) {
    if forward then to == (if from + 1 == n then 0 else from + 1) else to == (if from == 0 then n - 1 else from - 1)
  }

  lemma NeighbourBeside(a: Audio, forward: bool)
    requires a.queue != [] && (a.active != [] ==> a.active[0] < |a.queue|)
    ensures var target := Neighbour(a, forward);
            target.Some? && Beside(forward, |a.queue|, if a.active != [] then a.active[0] else 0, target.value)
  {
    var (n, current) := (|a.queue|, if a.active != [] then a.active[0] else 0);
    if forward {
      SuccessorMod(current, n);
    } else {
      PredecessorMod(current, n);
    }
  }

  lemma PredecessorMod(n: nat, size: nat)
    requires n < size
    ensures (n + (size - 1)) % size == if n == 0 then size - 1 else n - 1
  {
    if n > 0 {
      assert (n + (size - 1)) == size + (n - 1);
      SmallMod(n - 1, size);
    } else {
      SmallMod(size - 1, size);
    }
  }

  lemma SmallMod(n: nat, size: nat)
    requires n < size
    ensures n % size == n && (size + n) % size == n
  {
    var (q, r) := ((size + n) / size, (size + n) % size);
    assert size + n == size * q + r;
    assert q >= 2 ==> size * q >= size * 2;
    assert q <= 0 ==> size * q <= 0;
  }

  /** The place that is playing lies in the queue. */
  lemma PlayingInside(a: Audio)
    requires AudioInv(a) && a.queue != [] && Sync(a).active != []
    ensures Live(a) && Sync(a).active[0] < |a.queue| && |a.active| >= 1
  {
    hide Sync, Held, Tail;
    SyncHolds(a);
    HeldInside(a);
  }

  lemma HeldInside(a: Audio)
    requires AudioInv(a) && Live(a) && a.queue != []
    ensures forall i :: 0 <= i < |Held(a.player.value)| ==> Held(a.player.value)[i] < |a.queue|
    ensures Held(a.player.value) != [] ==> |a.active| >= 1
  {
  }

  /** Next and previous start the place after or before the one that is playing, or beside the first one when nothing
      is, in the same queue and as a new request; without a queue they start nothing. */
  lemma SkipStarts(actions: seq<Action>, forward: bool)
    requires AllEnabled(Initial(), actions)
    ensures var w := Run(Initial(), actions);
            var playing := Sync(w.audio).active;
            var w' := Next(w, Skip(forward));
            if w.audio.queue == [] then w' == w.(audio := Sync(w.audio))
            else
              && |w'.starts| == |w.starts| + 1 && w'.starts[..|w.starts|] == w.starts
              && w'.audio.generation == w.audio.generation + 1 == w'.starts[|w.starts|].generation
              && w'.audio.queue == w.audio.queue
              && Beside(forward, |w.audio.queue|, if playing != [] then playing[0]
                                                  else 0, w'.starts[|w.starts|].selected)
  {
    hide *;
    Reachable(actions);
    var w := Run(Initial(), actions);
    InvAudio(w);
    SkipCases(w, forward);
    SyncFields(w.audio);
    NeighbourNone(Sync(w.audio), forward);
    if w.audio.queue != [] {
      if Sync(w.audio).active != [] {
        PlayingInside(w.audio);
      }
      NeighbourBeside(Sync(w.audio), forward);
      BesideInside(forward, |w.audio.queue|, if Sync(w.audio).active != [] then Sync(w.audio).active[0] else 0,
                   Neighbour(Sync(w.audio), forward).value);
      BegunFields(w.(audio := Sync(w.audio)), w.audio.queue, Neighbour(Sync(w.audio), forward).value);
    }
  }

  lemma InvAudio(w: World)
    requires Inv(w)
    ensures AudioInv(w.audio) && StartsInv(w) && PrefetchesInv(w)
  {
  }

  lemma SyncFields(a: Audio)
    ensures Sync(a) == a.(active := Sync(a).active)
  {
  }

  lemma NeighbourNone(a: Audio, forward: bool)
    ensures Neighbour(a, forward).None? <==> a.queue == []
  {
  }

  lemma BesideInside(forward: bool, n: nat, from: nat, to: nat)
    requires from < n && Beside(forward, n, from, to)
    ensures to < n
  {
  }

  lemma BegunFields(w: World, queue: seq<string>, selected: nat)
    requires selected < |queue|
    ensures var w' := Begun(w, queue, selected);
            && w'.starts == w.starts + [Start(w.audio.generation + 1, selected)]
            && w'.audio.generation == w.audio.generation + 1 && w'.audio.queue == queue
  {
  }

  /** A download is scheduled exactly when one place of a longer queue is playing and none is under way; it is for the
      place that next would start. */
  lemma PrefetchIff(actions: seq<Action>)
    requires AllEnabled(Initial(), actions)
    ensures var w := Run(Initial(), actions);
            var playing := Sync(w.audio).active;
            var w' := Next(w, Schedule(true));
            if |w.audio.queue| >= 2 && |playing| == 1 && w.audio.prefetching.None? then
              && |w'.prefetches| == |w.prefetches| + 1 && w'.prefetches[..|w.prefetches|] == w.prefetches
              && w'.prefetches[|w.prefetches|].generation == w.audio.generation
              && Beside(true, |w.audio.queue|, playing[0], w'.prefetches[|w.prefetches|].index)
              && w'.audio == Sync(w.audio).(prefetching := Some(w'.prefetches[|w.prefetches|].index))
            else w' == w.(audio := Sync(w.audio))
  {
    hide *;
    Reachable(actions);
    var w := Run(Initial(), actions);
    InvAudio(w);
    SyncFields(w.audio);
    ScheduleCases(w);
    if |w.audio.queue| >= 2 && |Sync(w.audio).active| >= 1 {
      PlayingInside(w.audio);
      SuccessorMod(Sync(w.audio).active[0], |w.audio.queue|);
      BesideIs(|w.audio.queue|, Sync(w.audio).active[0]);
    }
  }

  lemma BesideIs(n: nat, from: nat)
    requires n >= 2 && from < n
    ensures Beside(true, n, from, if from + 1 == n then 0 else from + 1)
    ensures (if from + 1 == n then 0 else from + 1) != from
  {
  }

  lemma ScheduleCases(w: World)
    ensures var (a, w') := (Sync(w.audio), Next(w, Schedule(true)));
            if |a.queue| >= 2 && |a.active| == 1 && a.prefetching.None? &&
              (a.active[0] + 1) % |a.queue| != a.active[0] then
              var next := (a.active[0] + 1) % |a.queue|;
              && w'.prefetches == w.prefetches + [Prefetch(w.audio.generation, next)]
              && w' == World(a.(prefetching := Some(next)), w.starts, w'.prefetches)
            else w' == w.(audio := a)
  {
    hide Sync;
  }

  /** A wanted download that fails lets go of its claim, and changes nothing else, so it may be scheduled again. */
  lemma FailedCompletion(actions: seq<Action>, i: nat)
    requires AllEnabled(Initial(), actions) && i < |Run(Initial(), actions).prefetches|
    ensures var w := Run(Initial(), actions);
            var p := w.prefetches[i];
            && (p.generation == w.audio.generation ==> w.audio.prefetching == Some(p.index))
            && Next(w, Complete(i, false)).audio
               == if p.generation == w.audio.generation then w.audio.(prefetching := None) else w.audio
  {
    Reachable(actions);
  }

  /** A start that was replaced, or for which no device opens, changes nothing. */
  lemma StaleStart(w: World, i: nat, deviceOpens: bool)
    requires i < |w.starts| && (w.starts[i].generation != w.audio.generation || !deviceOpens)
    ensures var over := w.starts[..i] + w.starts[i + 1..];
            Next(w, Finish(i, deviceOpens)) == w.(starts := over) == Next(w, FailStart(i))
  {
  }

  // ---- Loading and closing ----

  /** A start that can still take effect shows as loading, and a player of the current request does not. */
  predicate LoadingInv(w: World) {
    && (forall i :: 0 <= i < |w.starts| && w.starts[i].generation == w.audio.generation ==> w.audio.loading)
    && (Live(w.audio) ==> !w.audio.loading)
  }

  lemma LoadingStep(w: World, a: Action)
    requires Inv(w) && LoadingInv(w) && Enabled(w, a)
    ensures LoadingInv(Next(w, a))
  {
    hide AudioInv, PrefetchesInv;
    match a
    case Finish(i, deviceOpens) =>
      var w' := Next(w, a);
      if w.starts[i].generation == w.audio.generation {
        OtherStarts(w, i);
      } else {
        StaleStart(w, i, deviceOpens);
      }
    case Complete(i, ok) => CompleteKeepsPlayer(w.audio, w.prefetches[i], ok);
    case Schedule(_) => ScheduleKeepsPlayer(w.audio);
    case _ =>
  }

  lemma OtherStarts(w: World, i: nat)
    requires StartsInv(w) && i < |w.starts|
    ensures forall j :: 0 <= j < |Without(w.starts, i)| ==> Without(w.starts, i)[j].generation != w.starts[i].generation
  {
  }

  lemma CompleteKeepsPlayer(a: Audio, p: Prefetch, ok: bool)
    ensures var b := CompletePrefetch(a, p, ok);
            b.generation == a.generation && b.loading == a.loading && (Live(b) <==> Live(a))
  {
  }

  lemma ScheduleKeepsPlayer(a: Audio)
    ensures var b := SchedulePrefetch(a).0;
            b.generation == a.generation && b.loading == a.loading && b.player == a.player
  {
  }

  lemma {:induction false} LoadingRun(w: World, actions: seq<Action>)
    requires Inv(w) && LoadingInv(w) && AllEnabled(w, actions)
    ensures LoadingInv(Run(w, actions))
    decreases |actions|
  {
    hide Inv, LoadingInv, Next, Enabled;
    if actions != [] {
      StepKeeps(w, actions[0]);
      LoadingStep(w, actions[0]);
      LoadingRun(Next(w, actions[0]), actions[1..]);
    }
  }

  /** In every interleaving: a request that is under way shows as loading, and one that plays does not. */
  lemma LoadingFollows(actions: seq<Action>, i: nat)
    requires AllEnabled(Initial(), actions)
    ensures var w := Run(Initial(), actions);
            && (i < |w.starts| && w.starts[i].generation == w.audio.generation ==> w.audio.loading)
            && (Live(w.audio) ==> !w.audio.loading)
  {
    LoadingRun(Initial(), actions);
  }

  /** After a close nothing plays or loads, and nothing that was under way has any effect any more. */
  lemma CloseIsFinal(actions: seq<Action>, i: nat, ok: bool)
    requires AllEnabled(Initial(), actions)
    ensures var w := Next(Run(Initial(), actions), CloseNative);
            && w.audio.player.None? && w.audio.active == [] && w.audio.queue == [] && !w.audio.loading
            && w.audio.generation == Run(Initial(), actions).audio.generation + 1
            && (i < |w.starts| ==> Next(w, Finish(i, ok)).audio == w.audio)
            && (i < |w.prefetches| ==> Next(w, Complete(i, ok)).audio == w.audio)
  {
    Reachable(actions);
  }

  // ---- Completions and starts ----

  /** A download that was scheduled for an older generation appends nothing, and neither does one whose place is no
      longer wanted. */
  lemma StaleCompletion(w: World, i: nat, ok: bool)
    requires i < |w.prefetches|
    requires w.prefetches[i].generation != w.audio.generation || w.audio.prefetching != Some(w.prefetches[i].index)
    ensures Next(w, Complete(i, ok)).audio == w.audio
  {
  }

  /** A wanted download of the current generation is appended exactly once: to the live player, if it is still there. */
  lemma WantedCompletion(actions: seq<Action>, i: nat)
    requires AllEnabled(Initial(), actions) && i < |Run(Initial(), actions).prefetches|
    ensures var w := Run(Initial(), actions);
            var w' := Next(w, Complete(i, true));
            w.prefetches[i].generation == w.audio.generation ==>
              && (w.audio.player.Some? ==> Live(w.audio) && w'.audio.active == w.audio.active + [w.prefetches[i].index])
              && (w.audio.player.None? ==> w'.audio.active == [])
              && w'.audio.prefetching.None?
              && forall j :: 0 <= j < |w'.prefetches| ==> w'.prefetches[j].generation != w'.audio.generation
  {
    Reachable(actions);
  }

  /** A start that is not replaced plays a track of its queue exactly when the queue is still there; it is not when
      a stop came between the two phases. */
  lemma StartPlaysQueue(actions: seq<Action>, i: nat)
    requires AllEnabled(Initial(), actions) && i < |Run(Initial(), actions).starts|
    requires Run(Initial(), actions).starts[i].generation == Run(Initial(), actions).audio.generation
    ensures var w := Run(Initial(), actions);
            var a := Next(w, Finish(i, true)).audio;
            && a.active == [w.starts[i].selected] && a.player.Some?
            && (a.active[0] < |a.queue| <==> w.audio.queue != [])
  {
    var w := Run(Initial(), actions);
    Reachable(actions);
    InstallKeeps(w.audio, w.starts[i].selected);
  }

  /** Such a run: the stopped player starts to play a place of an empty queue. */
  lemma StopDuringStart()
    ensures var actions := [Begin(["a", "b"], 1), StopCommand, Finish(0, true)];
            && AllEnabled(Initial(), actions)
            && Run(Initial(), actions).audio.queue == [] && Run(Initial(), actions).audio.active == [1]
            && Run(Initial(), actions).audio.player.Some?
  {
    var actions := [Begin(["a", "b"], 1), StopCommand, Finish(0, true)];
    var w1 := Next(Initial(), actions[0]);
    assert w1 == World(Audio(None, 1, ["a", "b"], [], None, true), [Start(1, 1)], []);
    var w2 := Next(w1, actions[1]);
    assert w2 == World(Audio(None, 1, [], [], None, true), [Start(1, 1)], []);
    var w3 := Next(w2, actions[2]);
    RunThree(Initial(), actions, w1, w2, w3);
  }

  lemma RunThree(w: World, a: seq<Action>, w1: World, w2: World, w3: World)
    requires |a| == 3 && Enabled(w, a[0]) && w1 == Next(w, a[0]) && Enabled(w1, a[1]) && w2 == Next(w1, a[1])
    requires Enabled(w2, a[2]) && w3 == Next(w2, a[2])
    ensures AllEnabled(w, a) && Run(w, a) == w3
  {
    RunStep(w2, a[2..]);
    RunStep(w1, a[1..]);
    RunStep(w, a);
  }

  lemma RunStep(w: World, a: seq<Action>)
    requires a != [] && Enabled(w, a[0]) && AllEnabled(Next(w, a[0]), a[1..])
    ensures AllEnabled(w, a) && Run(w, a) == Run(Next(w, a[0]), a[1..])
  {
  }
}
