/** `NewPaste` (paste.go) as a transition of the server state, and the expiry
    timers it arms.

    The server state is the paste table and the list of armed timers. A timer
    is recorded, not run: `FireTimer` is the moment its callback deletes the
    paste's path. The random generator's result is the parameter `pick`, the
    clock's two readings are `clock`, and `fault` is the error a `Database`
    backend's `Store` returns (`MemoryDB.Store` never fails: `fault` is `None`). */
module Pipeline {
  import opened Base
  import opened PasteRecord
  import MemoryDB
  import PathGen
  import Utils

  /** The configuration fields `NewPaste` reads. */
  datatype Config = Config(
    defaultName: string,
    maxPasteSize: int,
    pathLen: nat,
    undefinedLang: string,
    highlightStyle: string)

  /** `highlightCode`'s result: stylesheet, rendered HTML, resolved language. */
  datatype Highlighted = Highlighted(css: string, html: string, lang: string)

  /** The helpers `NewPaste` calls whose code is not part of this model: the
      two-argument validators (which may fail) and the highlighter (which cannot). */
  datatype Collaborators = Collaborators(
    validateName: (string, string) -> Result<string>,
    validateCode: (string, int) -> Result<string>,
    highlight: (string, string, string, string) -> Highlighted)

  /** An armed `time.AfterFunc`: after `after`, delete `paste.path`. The Go
      closure captures the whole paste. */
  datatype Timer = Timer(after: Duration, paste: Paste)

  datatype Server = Server(db: MemoryDB.DB, timers: seq<Timer>)

  /** `NewPaste`'s arguments after the server. */
  datatype Request = Request(name: string, source: string, lang: string, expire: Duration)

  /** The two `time.Now()` readings, for `Created` and for `Expire`. */
  datatype Clock = Clock(created: Instant, expireBase: Instant)

  /** `NewPaste`'s results: the path and the error. */
  datatype Reply = Reply(path: string, err: Option<Error>)

  /** Both validators accept the request. */
  predicate Admits(cfg: Config, env: Collaborators, req: Request)
  {
    && env.validateName(req.name, cfg.defaultName).Ok?
    && env.validateCode(req.source, cfg.maxPasteSize).Ok?
  }

  /** `Store` through a backend that fails with `fault`, if any; a failing
      backend leaves the table as it was. */
  function StoreVia(db: MemoryDB.DB, name: string, value: Paste, fault: Option<Error>): (MemoryDB.DB, Option<Error>)
  {
    if fault.Some? then (db, fault) else MemoryDB.Store(db, name, value)
  }

  /** `NewPaste`: validate the name, validate the code, highlight, generate a
      path, store, arm a timer unless the duration is zero. The first failure
      returns `("", err)` and changes nothing. `pick` is what
      `CreatePastePath` returns; it is only consulted once both validators pass. */
  function NewPaste(s: Server, cfg: Config, env: Collaborators, req: Request,
                    clock: Clock, fault: Option<Error>, pick: string): (r: (Reply, Server))
    requires Admits(cfg, env, req) ==> PathGen.MayReturn(s.db.Keys, cfg.pathLen, pick)
    ensures r.0.err.None? <==> Admits(cfg, env, req) && fault.None?
    ensures r.0.err.Some? ==> r.0.path == "" && r.1 == s
    ensures env.validateName(req.name, cfg.defaultName).Err? ==>
              r.0.err == Some(env.validateName(req.name, cfg.defaultName).error)
    ensures env.validateName(req.name, cfg.defaultName).Ok? && env.validateCode(req.source, cfg.maxPasteSize).Err? ==>
              r.0.err == Some(env.validateCode(req.source, cfg.maxPasteSize).error)
    ensures Admits(cfg, env, req) && fault.Some? ==> r.0.err == fault
    ensures r.0.err.None? ==>
              && r.0.path == pick
              && MemoryDB.Get(s.db, r.0.path).1 == Some(DatabaseNotFound)
              && MemoryDB.Get(r.1.db, r.0.path).1 == None
              && (forall k :: k != r.0.path ==> MemoryDB.Get(r.1.db, k) == MemoryDB.Get(s.db, k))
    ensures r.0.err.None? ==>
              var p := MemoryDB.Get(r.1.db, r.0.path).0;
              var hl := env.highlight(p.source, req.lang, cfg.undefinedLang, cfg.highlightStyle);
              && p.path == r.0.path
              && p.user == env.validateName(req.name, cfg.defaultName).value
              && p.source == env.validateCode(req.source, cfg.maxPasteSize).value
              && p.created == clock.created
              && p.expire == clock.expireBase + req.expire
              && p.style == hl.css && p.content == hl.html && p.lang == hl.lang
    ensures r.0.err.None? && req.expire != 0 ==>
              r.1.timers == s.timers + [Timer(req.expire, r.1.db[r.0.path])]
    ensures r.0.err.Some? || req.expire == 0 ==> r.1.timers == s.timers
  {
    match env.validateName(req.name, cfg.defaultName)
    case Err(e) => (Reply("", Some(e)), s)
    case Ok(name) =>
      match env.validateCode(req.source, cfg.maxPasteSize)
      case Err(e) => (Reply("", Some(e)), s)
      case Ok(source) =>
        var paste := Record(cfg, env, req, clock, pick);
        // The source then defaults the local `name` when it is empty; the record
        // is already built, so that assignment has no effect.
        StoreAndArm(s, pick, paste, req.expire, fault)
  }

  /** The record `NewPaste` builds for an admitted request once `path` is generated. */
  function Record(cfg: Config, env: Collaborators, req: Request, clock: Clock, path: string): Paste
    requires Admits(cfg, env, req)
  {
    var name := env.validateName(req.name, cfg.defaultName).value;
    var source := env.validateCode(req.source, cfg.maxPasteSize).value;
    var hl := env.highlight(source, req.lang, cfg.undefinedLang, cfg.highlightStyle);
    Paste(path, name, hl.lang, source, clock.expireBase + req.expire, hl.css, hl.html, clock.created)
  }

  /** The part of `NewPaste` after the path is generated: store the record under
      `path`, then arm a timer for it unless `expire` is zero. Nothing here checks
      that `path` is still free. */
  function StoreAndArm(s: Server, path: string, paste: Paste, expire: Duration, fault: Option<Error>): (Reply, Server)
  {
    var (db', err) := StoreVia(s.db, path, paste, fault);
    if err.Some? then (Reply("", err), s)
    else
      var timers' := if expire != 0 then s.timers + [Timer(expire, paste)] else s.timers;
      (Reply(paste.path, None), Server(db', timers'))
  }

  /** A timer goes off: its callback deletes the path of the paste it captured. */
  function FireTimer(s: Server, i: nat): (r: Server)
    requires i < |s.timers|
    ensures MemoryDB.Get(r.db, s.timers[i].paste.path).1 == Some(DatabaseNotFound)
    ensures forall k :: k != s.timers[i].paste.path ==> MemoryDB.Get(r.db, k) == MemoryDB.Get(s.db, k)
    ensures |r.timers| == |s.timers| - 1
    ensures forall j :: 0 <= j < |r.timers| ==> r.timers[j] == s.timers[if j < i then j else j + 1]
  {
    Server(MemoryDB.Delete(s.db, s.timers[i].paste.path), s.timers[..i] + s.timers[i + 1..])
  }

  /** Every paste is stored under its own path; every armed timer has a non-zero
      duration and captured the paste its path currently holds; no two armed
      timers share a path. */
  ghost predicate TimersConsistent(s: Server)
  {
    && (forall k :: k in s.db ==> s.db[k].path == k)
    && (forall i :: 0 <= i < |s.timers| ==> s.timers[i].after != 0)
    && (forall i :: 0 <= i < |s.timers| ==>
          s.timers[i].paste.path in s.db && s.db[s.timers[i].paste.path] == s.timers[i].paste)
    && (forall i, j :: 0 <= i < j < |s.timers| ==> s.timers[i].paste.path != s.timers[j].paste.path)
  }

  /** No armed timer will delete `p`. */
  ghost predicate Unscheduled(s: Server, p: string)
  {
    forall i :: 0 <= i < |s.timers| ==> s.timers[i].paste.path != p
  }

  lemma CreateKeepsTimersConsistent(s: Server, cfg: Config, env: Collaborators, req: Request,
                                    clock: Clock, fault: Option<Error>, pick: string)
    requires Admits(cfg, env, req) ==> PathGen.MayReturn(s.db.Keys, cfg.pathLen, pick)
    requires TimersConsistent(s)
    ensures TimersConsistent(NewPaste(s, cfg, env, req, clock, fault, pick).1)
  {
  }

  lemma FireKeepsTimersConsistent(s: Server, i: nat)
    requires i < |s.timers|
    requires TimersConsistent(s)
    ensures TimersConsistent(FireTimer(s, i))
  {
  }

  /** In a consistent state a timer deletes exactly the paste that armed it:
      that paste is what its path holds until the timer goes off. */
  lemma TimerDeletesOnlyItsOwnPaste(s: Server, i: nat)
    requires i < |s.timers|
    requires TimersConsistent(s)
    ensures MemoryDB.Get(s.db, s.timers[i].paste.path) == (s.timers[i].paste, None)
    ensures MemoryDB.Get(FireTimer(s, i).db, s.timers[i].paste.path).1 == Some(DatabaseNotFound)
    ensures Unscheduled(FireTimer(s, i), s.timers[i].paste.path)
  {
  }

  /** One thing that can happen to the server: a `NewPaste` call, or a timer going off. */
  datatype Event =
    | Create(req: Request, clock: Clock, fault: Option<Error>, pick: string)
    | Fire(index: nat)

  predicate CanStep(s: Server, cfg: Config, env: Collaborators, e: Event)
  {
    match e
    case Create(req, _, _, pick) => Admits(cfg, env, req) ==> PathGen.MayReturn(s.db.Keys, cfg.pathLen, pick)
    case Fire(i) => i < |s.timers|
  }

  function Step(s: Server, cfg: Config, env: Collaborators, e: Event): Server
    requires CanStep(s, cfg, env, e)
  {
    match e
    case Create(req, clock, fault, pick) => NewPaste(s, cfg, env, req, clock, fault, pick).1
    case Fire(i) => FireTimer(s, i)
  }

  /** Every event of the run is possible in the state it meets. */
  ghost predicate Admissible(s: Server, cfg: Config, env: Collaborators, events: seq<Event>)
    decreases |events|
  {
    |events| == 0 ||
    (CanStep(s, cfg, env, events[0]) && Admissible(Step(s, cfg, env, events[0]), cfg, env, events[1..]))
  }

  function Run(s: Server, cfg: Config, env: Collaborators, events: seq<Event>): Server
    requires Admissible(s, cfg, env, events)
    decreases |events|
  {
    if |events| == 0 then s else Run(Step(s, cfg, env, events[0]), cfg, env, events[1..])
  }

  lemma StepKeepsTimersConsistent(s: Server, cfg: Config, env: Collaborators, e: Event)
    requires CanStep(s, cfg, env, e)
    requires TimersConsistent(s)
    ensures TimersConsistent(Step(s, cfg, env, e))
  {
    match e
    case Create(req, clock, fault, pick) => CreateKeepsTimersConsistent(s, cfg, env, req, clock, fault, pick);
    case Fire(i) => FireKeepsTimersConsistent(s, i);
  }

  /** However whole `NewPaste` calls and timer firings interleave, the timers
      stay consistent with the table: a timer never deletes a paste it was not
      armed for. Each `NewPaste` is one step here, from path generation to the
      timer; two calls that overlap between generation and `Store` are not such a
      run, and `RacingCreatorsShareAPath` shows they break the invariant. */
  lemma {:induction false} RunKeepsTimersConsistent(s: Server, cfg: Config, env: Collaborators, events: seq<Event>)
    requires Admissible(s, cfg, env, events)
    requires TimersConsistent(s)
    ensures TimersConsistent(Run(s, cfg, env, events))
    decreases |events|
  {
    if |events| > 0 {
      StepKeepsTimersConsistent(s, cfg, env, events[0]);
      RunKeepsTimersConsistent(Step(s, cfg, env, events[0]), cfg, env, events[1..]);
    }
  }

  /** A stored paste with no timer is untouched by any one event and stays without a timer. */
  lemma StepSparesUnscheduled(s: Server, cfg: Config, env: Collaborators, e: Event, p: string)
    requires CanStep(s, cfg, env, e)
    requires p in s.db && Unscheduled(s, p)
    ensures MemoryDB.Get(Step(s, cfg, env, e).db, p) == MemoryDB.Get(s.db, p)
    ensures p in Step(s, cfg, env, e).db && Unscheduled(Step(s, cfg, env, e), p)
  {
  }

  /** A paste created with the zero ("never expire") duration is still served
      after any later run of `NewPaste` calls and timer firings. */
  lemma {:induction false} UnscheduledPasteSurvivesRun(s: Server, cfg: Config, env: Collaborators,
                                                       events: seq<Event>, p: string)
    requires Admissible(s, cfg, env, events)
    requires p in s.db && Unscheduled(s, p)
    ensures MemoryDB.Get(Run(s, cfg, env, events).db, p) == MemoryDB.Get(s.db, p)
    decreases |events|
  {
    if |events| > 0 {
      var s' := Step(s, cfg, env, events[0]);
      StepSparesUnscheduled(s, cfg, env, events[0], p);
      UnscheduledPasteSurvivesRun(s', cfg, env, events[1..], p);
    }
  }

  /** A successful `NewPaste` with the zero duration arms no timer for its path. */
  lemma NeverExpiringPasteIsUnscheduled(s: Server, cfg: Config, env: Collaborators, req: Request,
                                        clock: Clock, pick: string)
    requires Admits(cfg, env, req) && PathGen.MayReturn(s.db.Keys, cfg.pathLen, pick)
    requires TimersConsistent(s)
    requires req.expire == 0
    ensures var r := NewPaste(s, cfg, env, req, clock, None, pick);
            r.0.path in r.1.db && Unscheduled(r.1, r.0.path)
  {
  }

  /** A successful `NewPaste` with a non-zero duration arms a timer whose firing
      makes the new path not found. */
  lemma ExpiringPasteIsGoneAfterItsTimer(s: Server, cfg: Config, env: Collaborators, req: Request,
                                         clock: Clock, pick: string)
    requires Admits(cfg, env, req) && PathGen.MayReturn(s.db.Keys, cfg.pathLen, pick)
    requires req.expire != 0
    ensures var r := NewPaste(s, cfg, env, req, clock, None, pick);
            && |r.1.timers| == |s.timers| + 1
            && MemoryDB.Get(r.1.db, r.0.path).1 == None
            && MemoryDB.Get(FireTimer(r.1, |s.timers|).db, r.0.path).1 == Some(DatabaseNotFound)
  {
  }

  /** The one-argument validators of utils.go as collaborators: they never reject. */
  function UtilsCollaborators(highlight: (string, string, string, string) -> Highlighted): Collaborators
  {
    Collaborators(
      (name, d) => Ok(Utils.ValidateName(name, d)),
      (code, n) => Ok(Utils.ValidateCode(code)),
      highlight)
  }

  /** With the utils.go validators and the never-failing MemoryDB, `NewPaste`
      always succeeds, stores the source verbatim, and stores the configured
      default name exactly when the given name is blank. */
  lemma CreateWithUtilsValidators(s: Server, cfg: Config, highlight: (string, string, string, string) -> Highlighted,
                                  req: Request, clock: Clock, pick: string)
    requires PathGen.MayReturn(s.db.Keys, cfg.pathLen, pick)
    ensures var r := NewPaste(s, cfg, UtilsCollaborators(highlight), req, clock, None, pick);
            && r.0 == Reply(pick, None)
            && MemoryDB.Get(r.1.db, pick).0.source == req.source
            && (Utils.IsBlank(req.name) ==> MemoryDB.Get(r.1.db, pick).0.user == cfg.defaultName)
            && (!Utils.IsBlank(req.name) ==> MemoryDB.Get(r.1.db, pick).0.user == req.name)
  {
  }

  /** One way to break the consistency above: deleting a path outside the timers
      (the `Database` interface allows it). A new paste may then reuse the path,
      and the old paste's timer deletes the new one, even if it was meant never
      to expire. `RacingCreatorsShareAPath` shows the other way. */
  lemma StaleTimerCanDeleteANewerPaste(s: Server, cfg: Config, env: Collaborators,
                                       first: Request, second: Request, clock: Clock, p: string)
    requires Admits(cfg, env, first) && Admits(cfg, env, second)
    requires first.expire != 0 && second.expire == 0
    requires PathGen.MayReturn(s.db.Keys, cfg.pathLen, p)
    ensures var a := NewPaste(s, cfg, env, first, clock, None, p).1;
            var deleted := Server(MemoryDB.Delete(a.db, p), a.timers);
            var b := NewPaste(deleted, cfg, env, second, clock, None, p).1;
            && |b.timers| == |s.timers| + 1
            && b.timers[|s.timers|].paste.path == p
            && MemoryDB.Get(b.db, p).1 == None
            && MemoryDB.Get(b.db, p).0.expire == clock.expireBase
            && MemoryDB.Get(FireTimer(b, |s.timers|).db, p).1 == Some(DatabaseNotFound)
  {
  }

  /** The other way: two creators run concurrently and both draw `p` against the
      same table before either stores (check-then-act between `CreatePastePath`
      and `Store`). Both are told `p`; the second record replaces the first, the
      state is no longer consistent, and the first creator's timer deletes the
      second paste. */
  lemma RacingCreatorsShareAPath(s: Server, cfg: Config, env: Collaborators,
                                 first: Request, second: Request, clock: Clock, p: string)
    requires Admits(cfg, env, first) && Admits(cfg, env, second)
    requires first.expire != 0
    requires Record(cfg, env, first, clock, p) != Record(cfg, env, second, clock, p)
    requires PathGen.MayReturn(s.db.Keys, cfg.pathLen, p)
    ensures var a := NewPaste(s, cfg, env, first, clock, None, p);
            var b := StoreAndArm(a.1, p, Record(cfg, env, second, clock, p), second.expire, None);
            && a.0 == Reply(p, None) && b.0 == Reply(p, None)
            && MemoryDB.Get(b.1.db, p) == (Record(cfg, env, second, clock, p), None)
            && |b.1.timers| > |s.timers|
            && b.1.timers[|s.timers|] == Timer(first.expire, Record(cfg, env, first, clock, p))
            && !TimersConsistent(b.1)
            && MemoryDB.Get(FireTimer(b.1, |s.timers|).db, p).1 == Some(DatabaseNotFound)
  {
    var a := NewPaste(s, cfg, env, first, clock, None, p);
    var b := StoreAndArm(a.1, p, Record(cfg, env, second, clock, p), second.expire, None);
    var i := |s.timers|;
    assert b.1.timers[i].paste.path == p;
    assert b.1.db[p] != b.1.timers[i].paste;
  }

  /** The server a fresh `MemoryDB` starts with: no pastes and no timers. */
  const InitialServer: Server := Server(map[], [])

  /** The start state is consistent, so `RunKeepsTimersConsistent` applies to
      every run from server start. */
  lemma InitialServerConsistent()
    ensures TimersConsistent(InitialServer)
    ensures forall p :: MemoryDB.Get(InitialServer.db, p).1 == Some(DatabaseNotFound)
  {
  }
}
