/** The lyrics cache (lyrics.rs, struct Cache) and the race of its two writers: the provider worker, which stores what
    it fetched, and annotation jobs. */
module LyricsStore {
  // An annotation job reads a row, computes readings of its text for a while, and then writes them back if the row
  // still fits.
  // Fingerprints (a digest of the metadata) and readings (a function of engine version and text) are parameters.

  import opened Wrappers
  import opened LyricsMetadata

  datatype Status = Available | Instrumental | NotFound | Unavailable | Pending

  datatype Reading = Reading(start: nat, end: nat, reading: string)

  datatype Annotation = Annotation(version: string, plain: seq<Reading>, synced: seq<Reading>)

  datatype Lyrics = Lyrics(
    id: string,
    status: Status,
    plain: Option<string>,
    synced: Option<string>,
    annotated: Option<Annotation>,
    sourceUrl: Option<string>,
    retryAfter: Option<nat>)

  datatype Row = Row(fingerprint: string, result: Lyrics, expires: Option<int>)

  datatype Database = Database(rows: map<string, Row>, throttle: Option<(int, nat)>)

  type Fingerprint = Metadata -> string

  /** The readings an engine version finds in a text. */
  type Engine = (string, string) -> seq<Reading>

  const NEGATIVE_TTL: nat := 30 * 24 * 60 * 60
  const I64_MAX: nat := 0x7fff_ffff_ffff_ffff
  const U32_MAX: nat := 0xffff_ffff

  function OrEmpty(text: Option<string>): string {
    if text.Some? then text.value else ""
  }

  // ---- The operations as functions ----

  predicate NeedsAnnotation(l: Lyrics, version: string) {
    l.status.Available? && (l.annotated.None? || l.annotated.value.version != version)
  }

  function Annotate(engine: Engine, version: string, l: Lyrics): Lyrics {
    l.(annotated := Some(Annotation(version, engine(version, OrEmpty(l.plain)), engine(version, OrEmpty(l.synced)))),
       retryAfter := None)
  }

  function Get(db: Database, fp: Fingerprint, m: Metadata, now: nat, version: string): Option<Lyrics> {
    if m.id !in db.rows || db.rows[m.id].fingerprint != fp(m) then None
    else
      var row := db.rows[m.id];
      if row.expires.Some? && Max(row.expires.value, 0) <= now then None
      else
        var shown := if NeedsAnnotation(row.result, version) then row.result.(annotated := None) else row.result;
        Some(shown.(retryAfter := if row.expires.Some? then Some(Min(Max(row.expires.value, 0) - now, U32_MAX))
                                  else None))
  }

  function Expiry(result: Lyrics, now: nat): Option<nat> {
    match result.status
    case NotFound => Some(now + NEGATIVE_TTL)
    case Unavailable => Some(now + if result.retryAfter.Some? then result.retryAfter.value else 60)
    case _ => None
  }

  function Clamped(expiry: Option<nat>): Option<int> {
    if expiry.Some? then Some(Min(expiry.value, I64_MAX)) else None
  }

  function Put(db: Database, fp: Fingerprint, m: Metadata, result: Lyrics, now: nat): Database {
    if result.status.Pending? then db
    else db.(rows := db.rows[m.id := Row(fp(m), result, Clamped(Expiry(result, now)))])
  }

  /** The row a write of annotations is meant for: same metadata, still available, same texts. */
  predicate Fits(db: Database, fp: Fingerprint, m: Metadata, result: Lyrics) {
    && m.id in db.rows && db.rows[m.id].fingerprint == fp(m) && db.rows[m.id].result.status.Available?
    && db.rows[m.id].result.plain == result.plain && db.rows[m.id].result.synced == result.synced
  }

  function PutAnnotations(db: Database, fp: Fingerprint, m: Metadata, result: Lyrics): (bool, Database) {
    if Fits(db, fp, m, result) then (true, db.(rows := db.rows[m.id := db.rows[m.id].(result := result)]))
    else (false, db)
  }

  function Throttle(db: Database): (nat, nat) {
    if db.throttle.Some? then (Max(db.throttle.value.0, 0), db.throttle.value.1) else (0, 0)
  }

  function SaveThrottle(db: Database, deadline: nat, failures: nat): Database {
    db.(throttle := Some((Min(deadline, I64_MAX), failures)))
  }

  // ---- The object ----

  class Cache {
    var rows: map<string, Row>
    var throttle: Option<(int, nat)>

    function View(): Database
      reads this
    {
      Database(rows, throttle)
    }

    constructor ()
      ensures View() == Database(map[], None)
    {
      rows, throttle := map[], None;
    }

    method GetRow(fp: Fingerprint, m: Metadata, now: nat, version: string) returns (r: Option<Lyrics>)
      ensures r == Get(View(), fp, m, now, version)
    {
      if m.id !in rows || rows[m.id].fingerprint != fp(m) {
        return None;
      }
      var expiry: Option<nat> := if rows[m.id].expires.Some? then Some(Max(rows[m.id].expires.value, 0)) else None;
      if expiry.Some? && expiry.value <= now {
        return None;
      }
      var result := rows[m.id].result;
      if NeedsAnnotation(result, version) {
        result := result.(annotated := None);
      }
      result := result.(retryAfter := if expiry.Some? then Some(Min(expiry.value - now, U32_MAX)) else None);
      r := Some(result);
    }

    method PutRow(fp: Fingerprint, m: Metadata, result: Lyrics, now: nat)
      modifies this
      ensures View() == Put(old(View()), fp, m, result, now)
    {
      var expiry: Option<nat>;
      match result.status {
        case NotFound => expiry := Some(now + NEGATIVE_TTL);
        case Unavailable => expiry := Some(now + if result.retryAfter.Some? then result.retryAfter.value else 60);
        case Available => expiry := None;
        case Instrumental => expiry := None;
        case Pending => return;
      }
      rows := rows[m.id := Row(fp(m), result, if expiry.Some? then Some(Min(expiry.value, I64_MAX)) else None)];
    }

    method PutAnnotationsRow(fp: Fingerprint, m: Metadata, result: Lyrics) returns (persisted: bool)
      modifies this`rows
      ensures (persisted, View()) == PutAnnotations(old(View()), fp, m, result)
    {
      persisted := false;
      if m.id in rows {
        var row := rows[m.id];
        if row.fingerprint == fp(m) && row.result.status.Available? && row.result.plain == result.plain &&
          row.result.synced == result.synced {
          rows := rows[m.id := row.(result := result)];
          persisted := true;
        }
      }
    }

    method ReadThrottle() returns (deadline: nat, failures: nat)
      ensures (deadline, failures) == Throttle(View())
    {
      if throttle.None? {
        return 0, 0;
      }
      deadline, failures := Max(throttle.value.0, 0), throttle.value.1;
    }

    method StoreThrottle(deadline: nat, failures: nat)
      modifies this`throttle
      ensures View() == SaveThrottle(old(View()), deadline, failures)
    {
      throttle := Some((Min(deadline, I64_MAX), failures));
    }
  }

  // ---- The race of the two writers ----

  /** An annotation job in flight: the row it read, annotated by an engine of some version. */
  datatype Work = Work(metadata: Metadata, version: string, snapshot: Lyrics)

  datatype World = World(db: Database, inFlight: seq<Work>)

  datatype Action =
    | Fetched(metadata: Metadata, result: Lyrics, now: nat)
    | ReadJob(metadata: Metadata, now: nat, version: string)
    | StoreJob(i: nat)
    | DropJob(i: nat)
    | Reserve(deadline: nat, failures: nat)

  /** The provider never delivers annotations. Any number of jobs may be in flight, of any engine versions. */
  predicate Enabled(w: World, a: Action) {
    match a
    case Fetched(_, result, _) => result.annotated.None?
    case StoreJob(i) => i < |w.inFlight|
    case DropJob(i) => i < |w.inFlight|
    case _ => true
  }

  function Next(w: World, a: Action, fp: Fingerprint, engine: Engine): World
    requires Enabled(w, a)
  {
    match a
    case Fetched(m, result, now) => w.(db := Put(w.db, fp, m, result, now))
    case ReadJob(m, now, version) =>
      var cached := Get(w.db, fp, m, now, version);
      if cached.Some? && NeedsAnnotation(cached.value, version)
      then w.(inFlight := w.inFlight + [Work(m, version, cached.value)]) else w
    case StoreJob(i) =>
      var work := w.inFlight[i];
      World(PutAnnotations(w.db, fp, work.metadata, Annotate(engine, work.version, work.snapshot)).1,
            w.inFlight[..i] + w.inFlight[i + 1..])
    case DropJob(i) => w.(inFlight := w.inFlight[..i] + w.inFlight[i + 1..])
    case Reserve(deadline, failures) => w.(db := SaveThrottle(w.db, deadline, failures))
  }

  /** Annotations computed by the engine of their version from exactly the texts beside them. */
  predicate Sourced(l: Lyrics, engine: Engine) {
    l.annotated.Some? ==>
      && l.status.Available?
      && l.annotated.value.plain == engine(l.annotated.value.version, if l.plain.Some? then l.plain.value else "")
      && l.annotated.value.synced == engine(l.annotated.value.version, if l.synced.Some? then l.synced.value else "")
  }

  predicate RowOk(row: Row, engine: Engine) {
    && Sourced(row.result, engine) && !row.result.status.Pending?
    && (row.expires.None? <==> row.result.status.Available? || row.result.status.Instrumental?)
  }

  predicate WorkOk(work: Work) {
    work.snapshot.status.Available?
  }

  predicate Inv(w: World, engine: Engine) {
    && (forall id :: id in w.db.rows ==> RowOk(w.db.rows[id], engine))
    && (forall i :: 0 <= i < |w.inFlight| ==> WorkOk(w.inFlight[i]))
  }

  lemma StepKeeps(w: World, a: Action, fp: Fingerprint, engine: Engine)
    requires Inv(w, engine) && Enabled(w, a)
    ensures Inv(Next(w, a, fp, engine), engine)
  {
    match a
    case Fetched(m, result, now) =>
      FetchKeeps(w.db, fp, m, result, now, engine);
    case StoreJob(i) =>
      StoreKeeps(w.db, fp, w.inFlight[i], engine);
    case _ =>
  }

  lemma FetchKeeps(db: Database, fp: Fingerprint, m: Metadata, result: Lyrics, now: nat, engine: Engine)
    requires (forall id :: id in db.rows ==> RowOk(db.rows[id], engine)) && result.annotated.None?
    ensures forall id :: id in Put(db, fp, m, result, now).rows ==> RowOk(Put(db, fp, m, result, now).rows[id], engine)
  {
  }

  lemma StoreKeeps(db: Database, fp: Fingerprint, work: Work, engine: Engine)
    requires (forall id :: id in db.rows ==> RowOk(db.rows[id], engine)) && WorkOk(work)
    ensures var db' := PutAnnotations(db, fp, work.metadata, Annotate(engine, work.version, work.snapshot)).1;
            forall id :: id in db'.rows ==> RowOk(db'.rows[id], engine)
  {
  }

  predicate AllEnabled(w: World, actions: seq<Action>, fp: Fingerprint, engine: Engine)
    decreases |actions|
  {
    actions == [] || (Enabled(w, actions[0]) && AllEnabled(Next(w, actions[0], fp, engine), actions[1..], fp, engine))
  }

  function Run(w: World, actions: seq<Action>, fp: Fingerprint, engine: Engine): World
    requires AllEnabled(w, actions, fp, engine)
    decreases |actions|
  {
    if actions == [] then w else Run(Next(w, actions[0], fp, engine), actions[1..], fp, engine)
  }

  lemma {:induction false} RunKeeps(w: World, actions: seq<Action>, fp: Fingerprint, engine: Engine)
    requires Inv(w, engine) && AllEnabled(w, actions, fp, engine)
    ensures Inv(Run(w, actions, fp, engine), engine)
    decreases |actions|
  {
    if actions != [] {
      StepKeeps(w, actions[0], fp, engine);
      RunKeeps(Next(w, actions[0], fp, engine), actions[1..], fp, engine);
    }
  }

  /** In every interleaving of fetches, metadata changes, annotation jobs of any versions and crashes: whatever a
      reader is shown carries only annotations of the reader's own version, computed from the texts shown. */
  lemma ShownIsSourced(actions: seq<Action>, fp: Fingerprint, engine: Engine, m: Metadata, now: nat, version: string)
    requires AllEnabled(World(Database(map[], None), []), actions, fp, engine)
    ensures var w := Run(World(Database(map[], None), []), actions, fp, engine);
            var shown := Get(w.db, fp, m, now, version);
            shown.Some? && shown.value.annotated.Some? ==>
              var a := shown.value.annotated.value;
              && a.version == version
              && a.plain == engine(version, if shown.value.plain.Some? then shown.value.plain.value else "")
              && a.synced == engine(version, if shown.value.synced.Some? then shown.value.synced.value else "")
              && w.db.rows[m.id].fingerprint == fp(m)
  {
    var w0 := World(Database(map[], None), []);
    RunKeeps(w0, actions, fp, engine);
    var w := Run(w0, actions, fp, engine);
    if m.id in w.db.rows {
      assert RowOk(w.db.rows[m.id], engine);
    }
  }

  // ---- What readers are shown was fetched together ----

  /** A fetch among `done`, under metadata with this fingerprint, brought this status, these texts and this link. */
  predicate Brought(done: seq<Action>, fp: Fingerprint, id: string, fingerprint: string, l: Lyrics) {
    exists k :: 0 <= k < |done| && Brings(done[k], fp, id, fingerprint, l)
  }

  predicate Brings(a: Action, fp: Fingerprint, id: string, fingerprint: string, l: Lyrics) {
    && a.Fetched? && a.metadata.id == id && fp(a.metadata) == fingerprint
    && a.result.status == l.status && a.result.plain == l.plain && a.result.synced == l.synced
    && a.result.sourceUrl == l.sourceUrl
  }

  predicate AllBrought(w: World, done: seq<Action>, fp: Fingerprint) {
    && (forall id :: id in w.db.rows ==> Brought(done, fp, id, w.db.rows[id].fingerprint, w.db.rows[id].result))
    && (forall i :: 0 <= i < |w.inFlight| ==> JobBrought(w.inFlight[i], done, fp))
  }

  predicate JobBrought(work: Work, done: seq<Action>, fp: Fingerprint) {
    Brought(done, fp, work.metadata.id, fp(work.metadata), work.snapshot)
  }

  lemma BroughtBefore(done: seq<Action>, a: Action, fp: Fingerprint, id: string, fingerprint: string, l: Lyrics)
    ensures Brought(done, fp, id, fingerprint, l) ==> Brought(done + [a], fp, id, fingerprint, l)
    ensures Brings(a, fp, id, fingerprint, l) ==> Brought(done + [a], fp, id, fingerprint, l)
  {
    hide Brings;
    if Brought(done, fp, id, fingerprint, l) {
      var k :| 0 <= k < |done| && Brings(done[k], fp, id, fingerprint, l);
      assert (done + [a])[k] == done[k];
    }
    assert (done + [a])[|done|] == a;
  }

  lemma AllBroughtBefore(w: World, done: seq<Action>, a: Action, fp: Fingerprint)
    requires AllBrought(w, done, fp)
    ensures AllBrought(w, done + [a], fp)
  {
    hide Brought;
    forall id | id in w.db.rows ensures Brought(done + [a], fp, id, w.db.rows[id].fingerprint, w.db.rows[id].result) {
      BroughtBefore(done, a, fp, id, w.db.rows[id].fingerprint, w.db.rows[id].result);
    }
    forall i | 0 <= i < |w.inFlight| ensures JobBrought(w.inFlight[i], done + [a], fp) {
      BroughtBefore(done, a, fp, w.inFlight[i].metadata.id, fp(w.inFlight[i].metadata), w.inFlight[i].snapshot);
    }
  }

  /** Only status, texts and link matter. */
  lemma BroughtLike(done: seq<Action>, fp: Fingerprint, id: string, fingerprint: string, l: Lyrics, like: Lyrics)
    requires Brought(done, fp, id, fingerprint, l)
    requires like.status == l.status && like.plain == l.plain && like.synced == l.synced
    requires like.sourceUrl == l.sourceUrl
    ensures Brought(done, fp, id, fingerprint, like)
  {
    var k :| 0 <= k < |done| && Brings(done[k], fp, id, fingerprint, l);
    assert Brings(done[k], fp, id, fingerprint, like);
  }

  lemma BroughtStep(w: World, done: seq<Action>, a: Action, fp: Fingerprint, engine: Engine)
    requires AllBrought(w, done, fp) && Enabled(w, a)
    ensures AllBrought(Next(w, a, fp, engine), done + [a], fp)
  {
    AllBroughtBefore(w, done, a, fp);
    hide Brought, Fits, NeedsAnnotation, Expiry, Clamped;
    match a
    case Fetched(m, result, _) =>
      BroughtBefore(done, a, fp, m.id, fp(m), result);
    case ReadJob(m, now, version) =>
      if m.id in w.db.rows && Get(w.db, fp, m, now, version).Some? {
        BroughtLike(done + [a], fp, m.id, fp(m), w.db.rows[m.id].result, Get(w.db, fp, m, now, version).value);
      }
    case StoreJob(i) =>
      StoreBrought(w.db, w.inFlight[i], done + [a], fp, engine);
    case _ =>
  }

  lemma StoreBrought(db: Database, work: Work, done: seq<Action>, fp: Fingerprint, engine: Engine)
    requires JobBrought(work, done, fp)
    requires forall id :: id in db.rows ==> Brought(done, fp, id, db.rows[id].fingerprint, db.rows[id].result)
    ensures var db' := PutAnnotations(db, fp, work.metadata, Annotate(engine, work.version, work.snapshot)).1;
            forall id :: id in db'.rows ==> Brought(done, fp, id, db'.rows[id].fingerprint, db'.rows[id].result)
  {
    hide Brought;
    BroughtLike(done, fp, work.metadata.id, fp(work.metadata), work.snapshot,
                Annotate(engine, work.version, work.snapshot));
  }

  lemma {:induction false} BroughtRun(w: World, done: seq<Action>, actions: seq<Action>, fp: Fingerprint,
                                      engine: Engine)
    requires AllBrought(w, done, fp) && AllEnabled(w, actions, fp, engine)
    ensures AllBrought(Run(w, actions, fp, engine), done + actions, fp)
    decreases |actions|
  {
    hide AllBrought, Next, Enabled;
    if actions == [] {
      assert done + actions == done;
    } else {
      BroughtStep(w, done, actions[0], fp, engine);
      BroughtRun(Next(w, actions[0], fp, engine), done + [actions[0]], actions[1..], fp, engine);
      assert done + [actions[0]] + actions[1..] == done + actions;
    }
  }

  /** In every interleaving of fetches, metadata changes and jobs: the status, the texts and the link that a reader is
      shown came together in one fetch, under metadata with the reader's fingerprint. */
  lemma ShownIsFetched(actions: seq<Action>, fp: Fingerprint, engine: Engine, m: Metadata, now: nat, version: string)
    requires AllEnabled(World(Database(map[], None), []), actions, fp, engine)
    ensures var shown := Get(Run(World(Database(map[], None), []), actions, fp, engine).db, fp, m, now, version);
            shown.Some? ==> Brought(actions, fp, m.id, fp(m), shown.value)
  {
    hide Run, AllEnabled, Brought;
    BroughtRun(World(Database(map[], None), []), [], actions, fp, engine);
    assert [] + actions == actions;
    var db := Run(World(Database(map[], None), []), actions, fp, engine).db;
    if Get(db, fp, m, now, version).Some? {
      BroughtLike(actions, fp, m.id, fp(m), db.rows[m.id].result, Get(db, fp, m, now, version).value);
    }
  }

  // ---- Annotation jobs leave no trace but annotations and links ----

  /** What a row says besides annotations and the source link. */
  datatype Facts = Facts(fingerprint: string, status: Status, plain: Option<string>, synced: Option<string>,
                         expires: Option<int>)

  function FactsOf(row: Row): Facts {
    Facts(row.fingerprint, row.result.status, row.result.plain, row.result.synced, row.expires)
  }

  predicate SameFacts(a: Database, b: Database) {
    && a.throttle == b.throttle && a.rows.Keys == b.rows.Keys
    && forall id :: id in a.rows ==> FactsOf(a.rows[id]) == FactsOf(b.rows[id])
  }

  predicate IsJob(a: Action) {
    a.ReadJob? || a.StoreJob? || a.DropJob?
  }

  /** The run without its annotation jobs. */
  function Erased(actions: seq<Action>): seq<Action> {
    if actions == [] then [] else (if IsJob(actions[0]) then [] else [actions[0]]) + Erased(actions[1..])
  }

  lemma JobStep(w: World, a: Action, fp: Fingerprint, engine: Engine)
    requires Inv(w, engine) && Enabled(w, a) && IsJob(a)
    ensures SameFacts(w.db, Next(w, a, fp, engine).db)
  {
  }

  lemma OtherStep(w: World, v: World, a: Action, fp: Fingerprint, engine: Engine)
    requires Enabled(w, a) && !IsJob(a) && SameFacts(w.db, v.db)
    ensures Enabled(v, a) && SameFacts(Next(w, a, fp, engine).db, Next(v, a, fp, engine).db)
  {
  }

  lemma SameFactsTwice(a: Database, b: Database, c: Database)
    requires SameFacts(a, b) && SameFacts(a, c)
    ensures SameFacts(c, b)
  {
  }

  /** Leaving the annotation jobs out of any run leaves the same rows with the same metadata, status, texts and expiry,
      and the same provider state. */
  lemma {:induction false} JobsLeaveFacts(w: World, v: World, actions: seq<Action>, fp: Fingerprint, engine: Engine)
    requires Inv(w, engine) && SameFacts(w.db, v.db) && AllEnabled(w, actions, fp, engine)
    ensures AllEnabled(v, Erased(actions), fp, engine)
    ensures SameFacts(Run(w, actions, fp, engine).db, Run(v, Erased(actions), fp, engine).db)
    decreases |actions|
  {
    hide SameFacts, Next, Enabled, Inv;
    if actions != [] {
      var a := actions[0];
      StepKeeps(w, a, fp, engine);
      if IsJob(a) {
        JobStep(w, a, fp, engine);
        SameFactsTwice(w.db, v.db, Next(w, a, fp, engine).db);
        assert Erased(actions) == Erased(actions[1..]);
        JobsLeaveFacts(Next(w, a, fp, engine), v, actions[1..], fp, engine);
      } else {
        OtherStep(w, v, a, fp, engine);
        JobsLeaveFacts(Next(w, a, fp, engine), Next(v, a, fp, engine), actions[1..], fp, engine);
        assert Erased(actions)[0] == a && Erased(actions)[1..] == Erased(actions[1..]);
      }
    }
  }

  /** What a reader is told besides annotations and the source link. */
  predicate TellSame(a: Option<Lyrics>, b: Option<Lyrics>) {
    && (a.None? <==> b.None?)
    && (a.Some? ==>
          && a.value.status == b.value.status && a.value.plain == b.value.plain && a.value.synced == b.value.synced
          && a.value.retryAfter == b.value.retryAfter)
  }

  lemma SameFactsTell(a: Database, b: Database, fp: Fingerprint, m: Metadata, now: nat, version: string)
    requires SameFacts(a, b)
    ensures TellSame(Get(a, fp, m, now, version), Get(b, fp, m, now, version))
  {
    if m.id in a.rows {
      assert FactsOf(a.rows[m.id]) == FactsOf(b.rows[m.id]);
    }
  }

  /** So whatever jobs of whatever versions run, readers see the lyrics, and the provider its state, as if there were
      none. */
  lemma JobsAreInvisible(actions: seq<Action>, fp: Fingerprint, engine: Engine, m: Metadata, now: nat, version: string)
    requires AllEnabled(World(Database(map[], None), []), actions, fp, engine)
    ensures var w0 := World(Database(map[], None), []);
            && AllEnabled(w0, Erased(actions), fp, engine)
            && var (db, plain) := (Run(w0, actions, fp, engine).db, Run(w0, Erased(actions), fp, engine).db);
               Throttle(db) == Throttle(plain) &&
                 TellSame(Get(db, fp, m, now, version), Get(plain, fp, m, now, version))
  {
    var w0 := World(Database(map[], None), []);
    JobsLeaveFacts(w0, w0, actions, fp, engine);
    SameFactsTell(Run(w0, actions, fp, engine).db, Run(w0, Erased(actions), fp, engine).db, fp, m, now, version);
    hide Run, AllEnabled, Get, TellSame, Erased;
  }

  predicate FetchesOther(actions: seq<Action>, id: string) {
    forall k :: 0 <= k < |actions| && actions[k].Fetched? ==> actions[k].metadata.id != id
  }

  lemma {:induction false} FactsKept(w: World, actions: seq<Action>, fp: Fingerprint, engine: Engine, id: string)
    requires Inv(w, engine) && AllEnabled(w, actions, fp, engine) && id in w.db.rows && FetchesOther(actions, id)
    ensures var db := Run(w, actions, fp, engine).db;
            && id in db.rows && FactsOf(db.rows[id]) == FactsOf(w.db.rows[id])
            && (StoresNothing(actions) ==> db.rows[id] == w.db.rows[id])
    decreases |actions|
  {
    if actions != [] {
      var a := actions[0];
      assert a.Fetched? ==> a.metadata.id != id;
      StepKeeps(w, a, fp, engine);
      FactsKeptStep(w, a, fp, engine, id);
      assert forall k :: 0 <= k < |actions[1..]| ==> actions[1..][k] == actions[k + 1];
      hide Next, Enabled, Inv;
      FactsKept(Next(w, a, fp, engine), actions[1..], fp, engine, id);
    }
  }

  lemma FactsKeptStep(w: World, a: Action, fp: Fingerprint, engine: Engine, id: string)
    requires Inv(w, engine) && Enabled(w, a) && id in w.db.rows && (a.Fetched? ==> a.metadata.id != id)
    ensures var db := Next(w, a, fp, engine).db;
            && id in db.rows && FactsOf(db.rows[id]) == FactsOf(w.db.rows[id])
            && (!a.StoreJob? ==> db.rows[id] == w.db.rows[id])
  {
    if IsJob(a) {
      JobStep(w, a, fp, engine);
    }
  }

  predicate StoresNothing(actions: seq<Action>) {
    forall k :: 0 <= k < |actions| ==> !actions[k].StoreJob?
  }

  /** After any run: what is fetched is what readers are shown, through any jobs and any fetches for other tracks, until
      exactly its expiry - thirty days for a track that was not found, the retry time or else a minute after a transient
      failure, and never for lyrics - with its link as long as no job stores; under other metadata nothing is shown. */
  lemma FetchedIsShown(before: seq<Action>, m: Metadata, result: Lyrics, stored: nat, rest: seq<Action>,
                       fp: Fingerprint, engine: Engine,
                       n: Metadata, asked: nat, version: string)
    requires !result.status.Pending? && result.annotated.None? && stored <= asked <= 9_223_372_036_854_775_807
    requires n.id == m.id
    requires AllEnabled(World(Database(map[], None), []), before, fp, engine) && FetchesOther(rest, m.id)
    requires var w := Run(World(Database(map[], None), []), before, fp, engine);
             AllEnabled(Next(w, Fetched(m, result, stored), fp, engine), rest, fp, engine)
    ensures var w := Next(Run(World(Database(map[], None), []), before, fp, engine), Fetched(m, result, stored), fp,
                          engine);
            var found := Get(Run(w, rest, fp, engine).db, fp, n, asked, version);
            var expiry := if result.status.NotFound? then Some(stored + 2_592_000)
                          else if result.status.Unavailable?
                          then Some(stored + if result.retryAfter.Some? then result.retryAfter.value else 60)
                          else None;
            && (found.None? <==>
                fp(n) != fp(m) || (expiry.Some? && Min(expiry.value, 9_223_372_036_854_775_807) <= asked))
            && (found.Some? ==>
                  && found.value.status == result.status && found.value.plain == result.plain
                  && found.value.synced == result.synced)
            && (found.Some? && StoresNothing(rest) ==> found.value.sourceUrl == result.sourceUrl)
            && (found.Some? ==>
                  found.value.retryAfter == if expiry.Some?
                                            then Some(Min(Min(expiry.value, 9_223_372_036_854_775_807) - asked,
                                                          4_294_967_295))
                                            else None)
  {
    RunKeeps(World(Database(map[], None), []), before, fp, engine);
    var w := Run(World(Database(map[], None), []), before, fp, engine);
    StepKeeps(w, Fetched(m, result, stored), fp, engine);
    FactsKept(Next(w, Fetched(m, result, stored), fp, engine), rest, fp, engine, m.id);
    hide Run, AllEnabled;
  }

  /** A write that fits is accepted, and readers are then shown annotated lyrics. */
  lemma StoreUpgrades(db: Database, fp: Fingerprint, engine: Engine, work: Work, later: nat)
    requires Fits(db, fp, work.metadata, work.snapshot) && work.snapshot.status.Available?
    requires db.rows[work.metadata.id].expires.None?
    ensures var annotated := Annotate(engine, work.version, work.snapshot);
            var shown := Get(PutAnnotations(db, fp, work.metadata, annotated).1, fp, work.metadata, later,
                             work.version);
            && shown.Some? && !NeedsAnnotation(shown.value, work.version)
            && shown.value.annotated == annotated.annotated
            && shown.value.plain == work.snapshot.plain && shown.value.synced == work.snapshot.synced
  {
  }

  lemma JobFits(db: Database, db': Database, fp: Fingerprint, engine: Engine, m: Metadata, now: nat, version: string)
    requires m.id in db.rows && RowOk(db.rows[m.id], engine) && m.id in db'.rows
    requires FactsOf(db'.rows[m.id]) == FactsOf(db.rows[m.id])
    requires Get(db, fp, m, now, version).Some? && NeedsAnnotation(Get(db, fp, m, now, version).value, version)
    ensures Fits(db', fp, m, Get(db, fp, m, now, version).value) && db'.rows[m.id].expires.None?
    ensures Get(db, fp, m, now, version).value.status.Available?
  {
  }

  /** After any run: a job that reads a row does its work, through any other jobs and any fetches for other tracks: its
      write is accepted, and readers of its version are shown the annotated lyrics. */
  lemma JobUpgrades(before: seq<Action>, m: Metadata, now: nat, version: string, rest: seq<Action>, i: nat,
                    fp: Fingerprint,
                    engine: Engine, later: nat)
    requires AllEnabled(World(Database(map[], None), []), before, fp, engine) && FetchesOther(rest, m.id)
    requires var w := Run(World(Database(map[], None), []), before, fp, engine);
             var read := Next(w, ReadJob(m, now, version), fp, engine);
             var snapshot := Get(w.db, fp, m, now, version);
             && snapshot.Some? && NeedsAnnotation(snapshot.value, version) && AllEnabled(read, rest, fp, engine)
             && i < |Run(read, rest, fp, engine).inFlight|
             && Run(read, rest, fp, engine).inFlight[i] == Work(m, version, snapshot.value)
    ensures var w := Run(World(Database(map[], None), []), before, fp, engine);
            var late := Run(Next(w, ReadJob(m, now, version), fp, engine), rest, fp, engine);
            var annotated := Annotate(engine, version, Get(w.db, fp, m, now, version).value);
            var shown := Get(Next(late, StoreJob(i), fp, engine).db, fp, m, later, version);
            && shown.Some? && !NeedsAnnotation(shown.value, version) && shown.value.annotated == annotated.annotated
            && shown.value.plain == annotated.plain && shown.value.synced == annotated.synced
  {
    hide Run, AllEnabled, NeedsAnnotation, FetchesOther, Fits;
    RunKeeps(World(Database(map[], None), []), before, fp, engine);
    var w := Run(World(Database(map[], None), []), before, fp, engine);
    StepKeeps(w, ReadJob(m, now, version), fp, engine);
    var read := Next(w, ReadJob(m, now, version), fp, engine);
    FactsKept(read, rest, fp, engine, m.id);
    var late := Run(read, rest, fp, engine);
    JobFits(w.db, late.db, fp, engine, m, now, version);
    StoreUpgrades(late.db, fp, engine, late.inFlight[i], later);
  }

  predicate ReservesNothing(actions: seq<Action>) {
    forall k :: 0 <= k < |actions| ==> !actions[k].Reserve?
  }

  lemma {:induction false} ThrottleKept(w: World, actions: seq<Action>, fp: Fingerprint, engine: Engine)
    requires AllEnabled(w, actions, fp, engine) && ReservesNothing(actions)
    ensures Run(w, actions, fp, engine).db.throttle == w.db.throttle
    decreases |actions|
  {
    if actions != [] {
      assert !actions[0].Reserve?;
      assert forall k :: 0 <= k < |actions[1..]| ==> actions[1..][k] == actions[k + 1];
      ThrottleKept(Next(w, actions[0], fp, engine), actions[1..], fp, engine);
    }
  }

  /** After any run: the provider state that is reserved is what is read back, until it is reserved anew. */
  lemma ReservedIsRead(before: seq<Action>, deadline: nat, failures: nat, rest: seq<Action>, fp: Fingerprint,
                       engine: Engine)
    requires AllEnabled(World(Database(map[], None), []), before, fp, engine) && ReservesNothing(rest)
    requires AllEnabled(Next(Run(World(Database(map[], None), []), before, fp, engine), Reserve(deadline, failures),
                             fp, engine),
                        rest, fp, engine)
    ensures var w := Next(Run(World(Database(map[], None), []), before, fp, engine), Reserve(deadline, failures), fp,
                          engine);
            Throttle(Run(w, rest, fp, engine).db) == (Min(deadline, 9_223_372_036_854_775_807), failures)
  {
    hide Run, AllEnabled, ReservesNothing;
    ThrottleKept(Next(Run(World(Database(map[], None), []), before, fp, engine), Reserve(deadline, failures), fp,
                      engine), rest, fp, engine);
  }

  /** Before anything is reserved there is no deadline and no failure. */
  lemma NothingReserved(actions: seq<Action>, fp: Fingerprint, engine: Engine)
    requires AllEnabled(World(Database(map[], None), []), actions, fp, engine) && ReservesNothing(actions)
    ensures Throttle(Run(World(Database(map[], None), []), actions, fp, engine).db) == (0, 0)
  {
    hide Run, AllEnabled, ReservesNothing;
    ThrottleKept(World(Database(map[], None), []), actions, fp, engine);
  }

  /** A write of annotations is accepted exactly for a row with the same metadata and the same texts, of a track that
      still has lyrics. It then replaces what the row says and keeps its expiry; refused, it changes nothing. */
  lemma AnnotationsAccepted(db: Database, fp: Fingerprint, m: Metadata, result: Lyrics)
    ensures var (ok, db') := PutAnnotations(db, fp, m, result);
            && (ok <==>
                m.id in db.rows && db.rows[m.id].fingerprint == fp(m) && db.rows[m.id].result.status == Available
                && (db.rows[m.id].result.plain, db.rows[m.id].result.synced) == (result.plain, result.synced))
            && db'.throttle == db.throttle
            && db'.rows == if ok then db.rows[m.id := Row(fp(m), result, db.rows[m.id].expires)] else db.rows
  {
  }

  /** Exactly what else a write of annotations brings along: the source link of the row the job once read. It
      replaces the stored link exactly when the row fits and a fetch of the same texts has brought another one. */
  lemma StoreRevertsLink(w: World, i: nat, fp: Fingerprint, engine: Engine)
    requires i < |w.inFlight| && w.inFlight[i].metadata.id in w.db.rows
    ensures var work := w.inFlight[i];
            var row, row' := w.db.rows[work.metadata.id], Next(w, StoreJob(i), fp, engine).db.rows[work.metadata.id];
            row'.result.sourceUrl != row.result.sourceUrl
            <==> Fits(w.db, fp, work.metadata, work.snapshot) && work.snapshot.sourceUrl != row.result.sourceUrl
  {
  }

  function Song(link: string): Lyrics {
    Lyrics("t", Available, Some("text"), None, None, Some(link), None)
  }

  function Titled(title: string): Metadata {
    Metadata("t", title, "artist", "album", Some(1))
  }

  function Link(db: Database, id: string): Option<string> {
    if id in db.rows then db.rows[id].result.sourceUrl else None
  }

  function LinkRun(): seq<Action> {
    [Fetched(Titled("a"), Song("old"), 0), ReadJob(Titled("a"), 0, "v"), Fetched(Titled("b"), Song("other"), 1),
     Fetched(Titled("a"), Song("new"), 2), StoreJob(0)]
  }

  /** A run in which that happens: the track's metadata changes and changes back while the job is at work, so the
      worker finds nothing cached and fetches again, and the same text comes with another link. */
  lemma LinkReverted(fp: Fingerprint, engine: Engine)
    requires fp(Titled("a")) != fp(Titled("b"))
    ensures var w0 := World(Database(map[], None), []);
            && AllEnabled(w0, LinkRun(), fp, engine) && AllEnabled(w0, LinkRun()[..4], fp, engine)
            && AllEnabled(w0, LinkRun()[..3], fp, engine)
            && Get(Run(w0, LinkRun()[..3], fp, engine).db, fp, Titled("a"), 2, "v") == None
            && Link(Run(w0, LinkRun()[..4], fp, engine).db, "t") == Some("new")
            && Link(Run(w0, LinkRun(), fp, engine).db, "t") == Some("old")
  {
    hide *;
    var w0, actions := World(Database(map[], None), []), LinkRun();
    var job := Work(Titled("a"), "v", Song("old"));
    LinkActions();
    FetchSong(w0, "a", "old", 0, fp, engine);
    ReadSong("a", "old", 0, fp, engine);
    HoldingIs("a", "old", fp, [job]);
    HoldingIs("b", "other", fp, [job]);
    HoldingIs("a", "new", fp, [job]);
    FetchSong(Holding("a", "old", fp, [job]), "b", "other", 1, fp, engine);
    FetchSong(Holding("b", "other", fp, [job]), "a", "new", 2, fp, engine);
    StoreSong(fp, engine);
    MissesSong(fp);
    RunFive(w0, actions, fp, engine, Holding("a", "old", fp, []), Holding("a", "old", fp, [job]),
            Holding("b", "other", fp, [job]),
            Holding("a", "new", fp, [job]), Next(Holding("a", "new", fp, [job]), StoreJob(0), fp, engine));
  }

  function Holding(title: string, link: string, fp: Fingerprint, jobs: seq<Work>): World {
    World(Database(map["t" := Row(fp(Titled(title)), Song(link), None)], None), jobs)
  }

  lemma LinkActions()
    ensures var a := LinkRun();
            && |a| == 5 && a[0] == Fetched(Titled("a"), Song("old"), 0) && a[1] == ReadJob(Titled("a"), 0, "v")
            && a[2] == Fetched(Titled("b"), Song("other"), 1) && a[3] == Fetched(Titled("a"), Song("new"), 2)
            && a[4] == StoreJob(0)
  {
  }

  lemma FetchSong(w: World, title: string, link: string, now: nat, fp: Fingerprint, engine: Engine)
    requires w.db.rows.Keys <= {"t"} && w.db.throttle.None?
    ensures var a := Fetched(Titled(title), Song(link), now);
            Enabled(w, a) && Next(w, a, fp, engine) == Holding(title, link, fp, w.inFlight)
  {
  }

  lemma HoldingIs(title: string, link: string, fp: Fingerprint, jobs: seq<Work>)
    ensures var w := Holding(title, link, fp, jobs);
            w.db.rows.Keys == {"t"} && w.db.throttle.None? && w.inFlight == jobs && Link(w.db, "t") == Some(link)
  {
  }

  lemma ReadSong(title: string, link: string, now: nat, fp: Fingerprint, engine: Engine)
    ensures var (w, a) := (Holding(title, link, fp, []), ReadJob(Titled(title), now, "v"));
            Enabled(w, a) && Next(w, a, fp, engine) == Holding(title, link, fp, [Work(Titled(title), "v", Song(link))])
  {
  }

  lemma StoreSong(fp: Fingerprint, engine: Engine)
    ensures var w := Holding("a", "new", fp, [Work(Titled("a"), "v", Song("old"))]);
            Enabled(w, StoreJob(0)) && Link(Next(w, StoreJob(0), fp, engine).db, "t") == Some("old")
  {
  }

  lemma MissesSong(fp: Fingerprint)
    requires fp(Titled("a")) != fp(Titled("b"))
    ensures Get(Holding("b", "other", fp, [Work(Titled("a"), "v", Song("old"))]).db, fp, Titled("a"), 2, "v") == None
  {
  }

  lemma RunFive(w0: World, a: seq<Action>, fp: Fingerprint, engine: Engine, w1: World, w2: World, w3: World, w4: World,
                w5: World)
    requires |a| == 5
    requires Enabled(w0, a[0]) && w1 == Next(w0, a[0], fp, engine) && Enabled(w1, a[1])
    requires w2 == Next(w1, a[1], fp, engine)
    requires Enabled(w2, a[2]) && w3 == Next(w2, a[2], fp, engine) && Enabled(w3, a[3])
    requires w4 == Next(w3, a[3], fp, engine)
    requires Enabled(w4, a[4]) && w5 == Next(w4, a[4], fp, engine)
    ensures AllEnabled(w0, a, fp, engine) && Run(w0, a, fp, engine) == w5
    ensures AllEnabled(w0, a[..4], fp, engine) && Run(w0, a[..4], fp, engine) == w4
    ensures AllEnabled(w0, a[..3], fp, engine) && Run(w0, a[..3], fp, engine) == w3
  {
    RunStep(w4, a[4..], fp, engine);
    RunStep(w3, a[3..], fp, engine);
    RunStep(w2, a[2..], fp, engine);
    RunStep(w1, a[1..], fp, engine);
    var b := a[..4];
    RunStep(w3, b[3..], fp, engine);
    RunStep(w2, b[2..], fp, engine);
    RunStep(w1, b[1..], fp, engine);
    RunStep(w0, b, fp, engine);
    var c := a[..3];
    RunStep(w2, c[2..], fp, engine);
    RunStep(w1, c[1..], fp, engine);
    RunStep(w0, c, fp, engine);
  }

  lemma RunStep(w: World, a: seq<Action>, fp: Fingerprint, engine: Engine)
    requires a != [] && Enabled(w, a[0]) && AllEnabled(Next(w, a[0], fp, engine), a[1..], fp, engine)
    ensures AllEnabled(w, a, fp, engine) && Run(w, a, fp, engine) == Run(Next(w, a[0], fp, engine), a[1..], fp, engine)
  {
  }
}
