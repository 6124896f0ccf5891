/**
 The cleanup task among the other users of the session store (ferrotunnel-core/src/tunnel/session.rs,
 `cleanup_stale_sessions`; ferrotunnel-core/src/tunnel/server.rs, `start_cleanup_task`): a scan notes the ids of the
 stale sessions, and they are removed afterwards, one by one, while heartbeats, adds and removals go on.
 */
module CleanupSteps {
  import opened Frames
  import opened Sessions
  import opened SessionSteps

  /** What one scan noted, and when; `touched` is history: the sessions whose heartbeat was set since. */
  datatype Note = Note(at: real, timeout: real, found: map<Uuid, Session>, touched: set<Uuid>)

  datatype World = World(shared: Shared, notes: map<Caller, Note>, clock: real)

  const START := World(FRESH, map[], 0.0)

  datatype Step =
    /** Any step of an add, a removal or a lookup. */
    | Other(ev: Event)
    /** A heartbeat, at the time it happens. */
    | Beat(id: Uuid)
    | Pass(dt: real)
    /** A cleanup scans the sessions; later it takes out what it noted. */
    | Scan(caller: Caller, timeout: real)
    | Evict(caller: Caller, id: Uuid)

  ghost function StaleSessions(st: Store, now: real, timeout: real): map<Uuid, Session> {
    map id | id in StaleIds(st, now, timeout) :: st.sessions[id]
  }

  ghost function AfterBeat(n: Note, id: Uuid): Note {
    n.(touched := n.touched + {id})
  }

  predicate CanEvict(w: World, caller: Caller, id: Uuid) {
    caller in w.notes && id in w.notes[caller].found
  }

  /** One step; a step whose turn it is not changes nothing. */
  ghost function Take(w: World, step: Step): World {
    match step
    case Other(ev) => if ev.TouchSession? then w else w.(shared := Next(w.shared, ev))
    case Beat(id) =>
      w.(shared := Next(w.shared, TouchSession(id, w.clock)),
         notes := map k | k in w.notes :: AfterBeat(w.notes[k], id))
    case Pass(dt) => if dt < 0.0 then w else w.(clock := w.clock + dt)
    case Scan(caller, timeout) =>
      w.(notes := w.notes[caller := Note(w.clock, timeout, StaleSessions(w.shared.store, w.clock, timeout), {})])
    case Evict(caller, id) =>
      if !CanEvict(w, caller, id) then w else w.(shared := Next(w.shared, TakeSession(caller, id)))
  }

  ghost function Execute(steps: seq<Step>): World {
    if steps == [] then START else Take(Execute(steps[..|steps| - 1]), steps[|steps| - 1])
  }

  // ---------------------------------------------------------------------------------------------
  // The invariant
  // ---------------------------------------------------------------------------------------------

  /** What is known of a session a scan noted: it is never added again, and only heartbeats changed it. */
  ghost predicate NotedOk(c: Shared, n: Note, id: Uuid)
    requires id in n.found
  {
    && IsStale(n.found[id], n.at, n.timeout) && id in c.made
    && (forall k :: k in c.adding ==> c.adding[k].id != id)
    && (id in c.store.sessions ==>
          && c.store.sessions[id] == n.found[id].(heartbeat := c.store.sessions[id].heartbeat)
          && (id !in n.touched ==> c.store.sessions[id] == n.found[id])
          && (id in n.touched ==> c.store.sessions[id].heartbeat >= n.at))
  }

  ghost predicate NoteOk(c: Shared, n: Note, clock: real) {
    n.at <= clock && forall id :: id in n.found ==> NotedOk(c, n, id)
  }

  ghost predicate Good(w: World) {
    Inv(w.shared) && forall k :: k in w.notes ==> NoteOk(w.shared, w.notes[k], w.clock)
  }

  /** Steps of others, heartbeats apart, leave a noted session as it is or take it out. */
  lemma NotedStep(c: Shared, ev: Event, n: Note, id: Uuid)
    requires id in n.found && NotedOk(c, n, id) && !ev.TouchSession?
    ensures NotedOk(Next(c, ev), n, id)
  {
  }

  lemma NotedBeat(c: Shared, n: Note, id: Uuid, beat: Uuid, clock: real)
    requires id in n.found && NotedOk(c, n, id) && n.at <= clock
    ensures NotedOk(Next(c, TouchSession(beat, clock)), AfterBeat(n, beat), id)
  {
  }

  lemma NotesStep(w: World, ev: Event)
    requires Good(w) && !ev.TouchSession?
    ensures Good(w.(shared := Next(w.shared, ev)))
  {
    NextInv(w.shared, ev);
    hide Inv, Next;
    forall k | k in w.notes ensures NoteOk(Next(w.shared, ev), w.notes[k], w.clock) {
      hide NotedOk;
      assert NoteOk(w.shared, w.notes[k], w.clock);
      forall id | id in w.notes[k].found ensures NotedOk(Next(w.shared, ev), w.notes[k], id) {
        NotedStep(w.shared, ev, w.notes[k], id);
      }
    }
  }

  lemma BeatStep(w: World, beat: Uuid)
    requires Good(w)
    ensures Good(Take(w, Beat(beat)))
  {
    var c' := Next(w.shared, TouchSession(beat, w.clock));
    NextInv(w.shared, TouchSession(beat, w.clock));
    hide Inv, Next;
    forall k | k in w.notes ensures NoteOk(c', AfterBeat(w.notes[k], beat), w.clock) {
      hide NotedOk;
      assert NoteOk(w.shared, w.notes[k], w.clock);
      forall id | id in w.notes[k].found ensures NotedOk(c', AfterBeat(w.notes[k], beat), id) {
        NotedBeat(w.shared, w.notes[k], id, beat, w.clock);
      }
    }
  }

  lemma ScanNote(c: Shared, clock: real, timeout: real)
    requires Inv(c)
    ensures NoteOk(c, Note(clock, timeout, StaleSessions(c.store, clock, timeout), {}), clock)
  {
    var n := Note(clock, timeout, StaleSessions(c.store, clock, timeout), {});
    forall id | id in n.found ensures NotedOk(c, n, id) {
      forall k | k in c.adding ensures c.adding[k].id != id {
        assert HoldsClaim(c, c.adding[k]);
      }
    }
  }

  lemma TakeGood(w: World, step: Step)
    requires Good(w)
    ensures Good(Take(w, step))
  {
    match step
    case Other(ev) => if !ev.TouchSession? { NotesStep(w, ev); }
    case Beat(id) => BeatStep(w, id);
    case Pass(dt) =>
      hide Inv, NotedOk;
    case Scan(caller, timeout) =>
      ScanNote(w.shared, w.clock, timeout);
      hide Inv, NotedOk, StaleSessions;
    case Evict(caller, id) => NotesStep(w, TakeSession(caller, id));
  }

  lemma {:induction false} ExecuteGood(steps: seq<Step>)
    ensures Good(Execute(steps))
  {
    if steps == [] {
    } else {
      ExecuteGood(steps[..|steps| - 1]);
      hide Good, Take;
      TakeGood(Execute(steps[..|steps| - 1]), steps[|steps| - 1]);
    }
  }

  // ---------------------------------------------------------------------------------------------
  // What an eviction removes
  // ---------------------------------------------------------------------------------------------

  /**
   After every interleaving: a session that a cleanup is about to take out is the one its scan noted, which was stale
   then. It is still as stale as that, and so stale now, exactly when no heartbeat came in between.
   */
  lemma EvictedWasStale(steps: seq<Step>, caller: Caller, id: Uuid)
    requires CanEvict(Execute(steps), caller, id) && id in Execute(steps).shared.store.sessions
    ensures var w := Execute(steps);
            var s, n := w.shared.store.sessions[id], w.notes[caller];
            && n.at <= w.clock
            && IsStale(n.found[id], n.at, n.timeout)
            && s == n.found[id].(heartbeat := s.heartbeat)
            && (n.timeout >= 0.0 ==> (IsStale(s, n.at, n.timeout) <==> id !in n.touched))
            && (id !in n.touched ==> IsStale(s, w.clock, n.timeout))
  {
    ExecuteGood(steps);
    var w := Execute(steps);
    hide Inv, Execute;
    assert NoteOk(w.shared, w.notes[caller], w.clock);
    assert NotedOk(w.shared, w.notes[caller], id);
  }

  /** A scan notes every session that has gone without a heartbeat for longer than the timeout, and no other. */
  lemma ScanNotesTheStale(steps: seq<Step>, caller: Caller, timeout: real, id: Uuid)
    ensures var w, w' := Execute(steps), Take(Execute(steps), Scan(caller, timeout));
            CanEvict(w', caller, id) <==>
              id in w.shared.store.sessions && w.clock - w.shared.store.sessions[id].heartbeat > timeout
  {
  }

  /** A step of the cleanup takes out a session, for the caller to finish, and nothing else. */
  lemma EvictTakesOne(steps: seq<Step>, caller: Caller, id: Uuid)
    requires CanEvict(Execute(steps), caller, id) && Idle(Execute(steps).shared, caller)
    ensures var w, w' := Execute(steps), Take(Execute(steps), Evict(caller, id));
            && w'.shared.store.sessions == w.shared.store.sessions - {id}
            && w'.shared.store.index == w.shared.store.index
            && (id in w.shared.store.sessions ==> caller in w'.shared.removing && w'.shared.removing[caller].id == id)
  {
    ExecuteGood(steps);
    var w := Execute(steps);
    hide Execute, PendingOk, IndexOk, LookingOk;
    if id !in w.shared.store.sessions {
      assert w.shared.store.sessions - {id} == w.shared.store.sessions;
    }
  }

  /** So a session can be evicted although its heartbeat is new: one that comes between the scan and the removal. */
  lemma RefreshedIsEvicted(s: Session, timeout: real)
    requires s.heartbeat == 0.0 && timeout > 0.0
    ensures var steps := [Other(ClaimIndex(0, s)), Other(InsertSession(0)), Pass(timeout + 1.0), Scan(1, timeout), Beat(s.id)];
            var w := Execute(steps);
            && s.id in w.shared.store.sessions && !IsStale(w.shared.store.sessions[s.id], w.clock, timeout)
            && s.id !in Take(w, Evict(1, s.id)).shared.store.sessions
  {
    var a, b, c, d, e := Other(ClaimIndex(0, s)), Other(InsertSession(0)), Pass(timeout + 1.0), Scan(1, timeout), Beat(s.id);
    FiveSteps(a, b, c, d, e);
    var w3 := Take(Take(Take(START, a), b), c);
    assert w3.shared.store.sessions == map[s.id := s] && w3.clock == timeout + 1.0 && w3.notes == map[];
    assert w3.shared.adding == map[] && w3.shared.removing == map[] && w3.shared.looking == map[];
    hide Execute;
    ScannedThenBeat(w3, s, timeout);
  }

  lemma FiveSteps(a: Step, b: Step, c: Step, d: Step, e: Step)
    ensures Execute([a, b, c, d, e]) == Take(Take(Take(Take(Take(START, a), b), c), d), e)
  {
    hide Take;
    assert [a, b, c, d, e][..4] == [a, b, c, d] && [a, b, c, d][..3] == [a, b, c] && [a, b, c][..2] == [a, b]
      && [a, b][..1] == [a] && [a][..0] == [];
    assert Execute([a]) == Take(START, a) && Execute([a, b]) == Take(Execute([a]), b);
    assert Execute([a, b, c]) == Take(Execute([a, b]), c) && Execute([a, b, c, d]) == Take(Execute([a, b, c]), d);
  }

  lemma ScannedThenBeat(w: World, s: Session, timeout: real)
    requires w.shared.store.sessions == map[s.id := s] && Idle(w.shared, 1) && timeout > 0.0
    requires s.heartbeat == 0.0 && w.clock == timeout + 1.0
    ensures var w' := Take(Take(w, Scan(1, timeout)), Beat(s.id));
            && s.id in w'.shared.store.sessions && !IsStale(w'.shared.store.sessions[s.id], w'.clock, timeout)
            && s.id !in Take(w', Evict(1, s.id)).shared.store.sessions
  {
    assert s.id in StaleIds(w.shared.store, w.clock, timeout);
    assert s.id in Take(w, Scan(1, timeout)).notes[1].found;
  }
}
