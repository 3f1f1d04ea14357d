/**
 * Server sessions in Redis: many servers load, save and revoke sessions, one atomic store command
 * at a time, while keys expire. Identifiers and payloads are drawn fresh: a payload carries a
 * random revision. The log records every command that changed or read a session.
 */
module SessionStore {
  import opened Wrappers

  type Server = nat
  type Sid = nat
  type Payload = nat

  datatype Stored = Stored(payload: Payload, expires: nat)

  /** What a server still has to do for a save it has begun. */
  datatype Task = Idle | Revoking(payload: Payload) | Saving(payload: Payload) | Creating(payload: Payload)

  datatype Held = Held(sid: Sid, payload: Payload)

  /** A server's session object: what it loaded, what the view did to it, and where its save is. */
  datatype Session = Session(held: Option<Held>, modified: bool, rotated: bool, empty: bool, task: Task)

  datatype Event =
    | Loaded(server: Server, sid: Sid, payload: Payload)
    | Created(server: Server, sid: Sid, payload: Payload)
    | Saved(server: Server, sid: Sid, expected: Payload, payload: Payload)
    | Revoked(server: Server, sid: Sid)

  datatype State = State(now: nat, store: map<Sid, Stored>, sessions: map<Server, Session>,
                         sids: set<Sid>, payloads: set<Payload>, log: seq<Event>)

  /** One atomic step; a store command whose reply is lost raises, with its effect in place. */
  datatype Action =
    | Tick(delay: nat)
    | Load(server: Server, sid: Sid)
    | LoadNone(server: Server)
    | Change(server: Server, empty: bool)
    | Clear(server: Server)
    | Begin(server: Server, payload: Payload)
    | Revoke(server: Server, answered: bool)
    | Save(server: Server, answered: bool)
    | Create(server: Server, sid: Sid, answered: bool)
    | Fail(server: Server)

  const NEW := Session(None, false, false, true, Idle)

  const START := State(0, map[], map[], {}, {}, [])

  predicate Live(s: State, sid: Sid) {
    sid in s.store && s.now < s.store[sid].expires
  }

  function Of(s: State, server: Server): Session {
    if server in s.sessions then s.sessions[server] else NEW
  }

  function Put(s: State, server: Server, session: Session): State {
    s.(sessions := s.sessions[server := session])
  }

  function Note(s: State, e: Event): State {
    s.(log := s.log + [e])
  }

  /** When a server can take a step; a view's changes and a save exclude each other. */
  predicate Enabled(s: State, a: Action) {
    match a
    case Tick(_) => true
    case Load(server, sid) => Of(s, server).task.Idle? && Live(s, sid)
    case LoadNone(server) => Of(s, server).task.Idle?
    case Change(server, _) => Of(s, server).task.Idle?
    case Clear(server) => Of(s, server).task.Idle?
    case Begin(server, payload) => Of(s, server).task.Idle? && Of(s, server).modified && payload !in s.payloads
    case Revoke(server, _) => Of(s, server).task.Revoking? && Of(s, server).held.Some?
    case Save(server, _) => Of(s, server).task.Saving? && Of(s, server).held.Some?
    case Create(server, sid, _) => Of(s, server).task.Creating? && sid !in s.sids
    case Fail(server) => !Of(s, server).task.Idle?
  }

  /** Which store command `_save` comes to first. */
  function FirstTask(session: Session, payload: Payload): Task {
    if session.held.Some? && (session.rotated || session.empty) then Revoking(payload)
    else if session.empty then Idle
    else if session.held.Some? then Saving(payload)
    else Creating(payload)
  }

  /** DEL; then either nothing is left to store, or a new identifier is drawn. */
  function ApplyRevoke(s: State, server: Server, answered: bool): State
    requires Enabled(s, Revoke(server, answered))
  {
    var session := Of(s, server);
    var sid := session.held.value.sid;
    var after :=
      if !answered then session.(task := Idle)
      else if session.empty then session.(held := None, task := Idle)
      else session.(task := Creating(session.task.payload));
    Note(Put(s.(store := s.store - {sid}), server, after), Revoked(server, sid))
  }

  /** The script found what the server had loaded. */
  predicate Accepts(s: State, held: Held) {
    Live(s, held.sid) && s.store[held.sid].payload == held.payload
  }

  function Stamped(session: Session, sid: Sid, payload: Payload, answered: bool): Session {
    if answered then Session(Some(Held(sid, payload)), false, false, session.empty, Idle) else session.(task := Idle)
  }

  /** The compare-and-set script; where it answers 0 the session object stays as it is. */
  function ApplySave(s: State, server: Server, answered: bool, ttl: nat): State
    requires Enabled(s, Save(server, answered))
  {
    var session := Of(s, server);
    var held, payload := session.held.value, session.task.payload;
    if !Accepts(s, held) then Put(s, server, session.(task := Idle))
    else
      Note(Put(s.(store := s.store[held.sid := Stored(payload, s.now + ttl)]), server,
               Stamped(session, held.sid, payload, answered)),
           Saved(server, held.sid, held.payload, payload))
  }

  /** SET with NX, under an identifier never drawn before. */
  function ApplyCreate(s: State, server: Server, sid: Sid, answered: bool, ttl: nat): State
    requires Enabled(s, Create(server, sid, answered))
  {
    var session := Of(s, server);
    var payload := session.task.payload;
    Note(Put(s.(store := s.store[sid := Stored(payload, s.now + ttl)], sids := s.sids + {sid}), server,
             Stamped(session, sid, payload, answered)),
         Created(server, sid, payload))
  }

  function Apply(s: State, a: Action, ttl: nat): State
    requires Enabled(s, a)
  {
    match a
    case Tick(delay) => s.(now := s.now + delay)
    case Load(server, sid) =>
      var payload := s.store[sid].payload;
      Note(Put(s, server, Session(Some(Held(sid, payload)), false, false, false, Idle)), Loaded(server, sid, payload))
    case LoadNone(server) => Put(s, server, NEW)
    case Change(server, empty) => Put(s, server, Of(s, server).(modified := true, empty := empty))
    case Clear(server) => Put(s, server, Of(s, server).(modified := true, rotated := true, empty := true))
    case Begin(server, payload) =>
      var session := Of(s, server);
      Put(s.(payloads := s.payloads + {payload}), server, session.(task := FirstTask(session, payload)))
    case Revoke(server, answered) => ApplyRevoke(s, server, answered)
    case Save(server, answered) => ApplySave(s, server, answered, ttl)
    case Create(server, sid, answered) => ApplyCreate(s, server, sid, answered, ttl)
    case Fail(server) => Put(s, server, Of(s, server).(task := Idle))
  }

  // ---------------------------------------------------------------------
  // What was written
  // ---------------------------------------------------------------------

  predicate Writes(e: Event) { e.Created? || e.Saved? }

  /** The payload last written under an identifier. */
  function LastWritten(log: seq<Event>, sid: Sid): Option<Payload> {
    if log == [] then None
    else
      var last := log[|log| - 1];
      if Writes(last) && last.sid == sid then Some(last.payload) else LastWritten(log[..|log| - 1], sid)
  }

  predicate WasWritten(log: seq<Event>, payload: Payload) {
    exists i :: 0 <= i < |log| && Writes(log[i]) && log[i].payload == payload
  }

  /** Every payload is written at most once, and an identifier is created before it is saved. */
  predicate WrittenOnce(log: seq<Event>) {
    forall i, j :: 0 <= i < j < |log| && Writes(log[i]) && Writes(log[j]) ==> log[i].payload != log[j].payload
  }

  /** The event gave a server the payload as the content of an identifier. */
  predicate Holds(e: Event, server: Server, sid: Sid, payload: Payload) {
    !e.Revoked? && e.server == server && e.sid == sid && e.payload == payload
  }

  predicate LinkOk(log: seq<Event>, k: nat)
    requires k < |log|
  {
    match log[k]
    case Saved(server, sid, expected, _) =>
      && LastWritten(log[..k], sid) == Some(expected)
      && exists i :: 0 <= i < k && Holds(log[i], server, sid, expected)
    case Created(_, sid, _) => LastWritten(log[..k], sid) == None
    case Loaded(_, sid, payload) => LastWritten(log[..k], sid) == Some(payload)
    case Revoked(_, _) => true
  }

  /** A save replaces exactly the payload its server loaded or wrote before. */
  predicate Chained(log: seq<Event>) {
    forall k :: 0 <= k < |log| ==> LinkOk(log, k)
  }

  // ---------------------------------------------------------------------
  // The invariant
  // ---------------------------------------------------------------------

  /** The store holds what was last written, and only under identifiers that were drawn. */
  predicate StoreOk(s: State) {
    && (forall sid | sid in s.store :: sid in s.sids && LastWritten(s.log, sid) == Some(s.store[sid].payload))
  }

  ghost predicate UnusedOk(s: State) {
    forall sid: Sid :: sid !in s.sids ==> LastWritten(s.log, sid) == None
  }

  ghost predicate Known(log: seq<Event>, server: Server, held: Held) {
    exists i :: 0 <= i < |log| && Holds(log[i], server, held.sid, held.payload)
  }

  ghost predicate SessionsOk(s: State) {
    forall p | p in s.sessions :: s.sessions[p].held.Some? ==>
      Known(s.log, p, s.sessions[p].held.value) && s.sessions[p].held.value.sid in s.sids
  }

  /** Payloads of saves under way were drawn, not written yet, and belong to one server each. */
  ghost predicate PendingOk(s: State) {
    && (forall p | p in s.sessions && !s.sessions[p].task.Idle? ::
          s.sessions[p].task.payload in s.payloads && !WasWritten(s.log, s.sessions[p].task.payload))
    && (forall p, q | p in s.sessions && q in s.sessions && p != q
                      && !s.sessions[p].task.Idle? && !s.sessions[q].task.Idle? ::
          s.sessions[p].task.payload != s.sessions[q].task.payload)
  }

  ghost predicate WrittenDrawn(s: State) {
    forall payload: Payload :: WasWritten(s.log, payload) ==> payload in s.payloads
  }

  ghost predicate Inv(s: State) {
    && StoreOk(s) && UnusedOk(s) && SessionsOk(s) && PendingOk(s)
    && WrittenDrawn(s) && WrittenOnce(s.log) && Chained(s.log)
  }

  lemma {:induction false} LastOfMore(log: seq<Event>, e: Event, sid: Sid)
    ensures LastWritten(log + [e], sid) == if Writes(e) && e.sid == sid then Some(e.payload) else LastWritten(log, sid)
  {
    assert (log + [e])[..|log|] == log;
  }

  lemma {:induction false} LogGrows(log: seq<Event>, e: Event)
    ensures forall sid: Sid ::
      LastWritten(log + [e], sid) == if Writes(e) && e.sid == sid then Some(e.payload) else LastWritten(log, sid)
    ensures forall payload: Payload ::
      WasWritten(log + [e], payload) <==> WasWritten(log, payload) || (Writes(e) && e.payload == payload)
    ensures WrittenOnce(log) && (Writes(e) ==> !WasWritten(log, e.payload)) ==> WrittenOnce(log + [e])
  {
    hide LastWritten;
    var more := log + [e];
    forall sid: Sid
      ensures LastWritten(more, sid) == if Writes(e) && e.sid == sid then Some(e.payload) else LastWritten(log, sid)
    {
      LastOfMore(log, e, sid);
    }
    forall payload: Payload
      ensures WasWritten(more, payload) <==> WasWritten(log, payload) || (Writes(e) && e.payload == payload)
    {
      assert more[|log|] == e;
      if i :| 0 <= i < |log| && Writes(log[i]) && log[i].payload == payload {
        assert more[i] == log[i];
      }
    }
  }

  lemma ChainGrows(log: seq<Event>, e: Event)
    requires Chained(log) && LinkOk(log + [e], |log|)
    ensures Chained(log + [e])
  {
    hide LastWritten;
    var more := log + [e];
    forall k | 0 <= k < |more| ensures LinkOk(more, k) {
      if k < |log| {
        assert more[..k] == log[..k];
        assert LinkOk(log, k);
        assert forall i :: 0 <= i < k ==> more[i] == log[i];
      }
    }
  }

  lemma KnownGrows(log: seq<Event>, e: Event)
    ensures forall server: Server, held: Held :: Known(log, server, held) ==> Known(log + [e], server, held)
    ensures forall server: Server, held: Held ::
      Holds(e, server, held.sid, held.payload) ==> Known(log + [e], server, held)
  {
    assert (log + [e])[|log|] == e;
    assert forall i :: 0 <= i < |log| ==> (log + [e])[i] == log[i];
  }

  lemma KeepsLoad(s: State, server: Server, sid: Sid, ttl: nat)
    requires Inv(s) && Enabled(s, Load(server, sid))
    ensures Inv(Apply(s, Load(server, sid), ttl))
  {
    hide LastWritten, WasWritten, WrittenOnce, Chained, Known;
    var e := Loaded(server, sid, s.store[sid].payload);
    LogGrows(s.log, e);
    KnownGrows(s.log, e);
    assert (s.log + [e])[..|s.log|] == s.log;
    ChainGrows(s.log, e);
  }

  lemma KeepsRevoke(s: State, server: Server, answered: bool, ttl: nat)
    requires Inv(s) && Enabled(s, Revoke(server, answered))
    ensures Inv(Apply(s, Revoke(server, answered), ttl))
  {
    hide LastWritten, WasWritten, WrittenOnce, Chained, Known;
    var e := Revoked(server, Of(s, server).held.value.sid);
    LogGrows(s.log, e);
    KnownGrows(s.log, e);
    ChainGrows(s.log, e);
  }

  lemma {:induction false} SaveLinks(log: seq<Event>, e: Event)
    requires e.Saved? && LastWritten(log, e.sid) == Some(e.expected) && Known(log, e.server, Held(e.sid, e.expected))
    ensures LinkOk(log + [e], |log|)
  {
    assert (log + [e])[..|log|] == log;
    assert forall i :: 0 <= i < |log| ==> (log + [e])[i] == log[i];
  }

  lemma KeepsSave(s: State, server: Server, answered: bool, ttl: nat)
    requires Inv(s) && Enabled(s, Save(server, answered))
    ensures Inv(Apply(s, Save(server, answered), ttl))
  {
    hide LastWritten, WasWritten, WrittenOnce, Chained, Known;
    var session := Of(s, server);
    var held := session.held.value;
    if Accepts(s, held) {
      var e := Saved(server, held.sid, held.payload, session.task.payload);
      LogGrows(s.log, e);
      KnownGrows(s.log, e);
      SaveLinks(s.log, e);
      ChainGrows(s.log, e);
    }
  }

  lemma KeepsCreate(s: State, server: Server, sid: Sid, answered: bool, ttl: nat)
    requires Inv(s) && Enabled(s, Create(server, sid, answered))
    ensures Inv(Apply(s, Create(server, sid, answered), ttl))
  {
    hide LastWritten, WasWritten, WrittenOnce, Chained, Known;
    var e := Created(server, sid, Of(s, server).task.payload);
    LogGrows(s.log, e);
    KnownGrows(s.log, e);
    assert (s.log + [e])[..|s.log|] == s.log;
    ChainGrows(s.log, e);
  }

  /** The steps that reach no store command. */
  lemma KeepsQuiet(s: State, a: Action, ttl: nat)
    requires Inv(s) && Enabled(s, a) && !a.Load? && !a.Revoke? && !a.Save? && !a.Create?
    ensures Inv(Apply(s, a, ttl))
  {
    hide LastWritten, WasWritten, WrittenOnce, Chained, Known, ApplyRevoke, ApplySave, ApplyCreate;
  }

  lemma StepKeeps(s: State, a: Action, ttl: nat)
    requires Inv(s) && Enabled(s, a)
    ensures Inv(Apply(s, a, ttl))
  {
    hide Inv, Enabled, Apply;
    if a.Load? {
      KeepsLoad(s, a.server, a.sid, ttl);
    } else if a.Revoke? {
      KeepsRevoke(s, a.server, a.answered, ttl);
    } else if a.Save? {
      KeepsSave(s, a.server, a.answered, ttl);
    } else if a.Create? {
      KeepsCreate(s, a.server, a.sid, a.answered, ttl);
    } else {
      KeepsQuiet(s, a, ttl);
    }
  }

  // ---------------------------------------------------------------------
  // Runs
  // ---------------------------------------------------------------------

  ghost predicate Step(s: State, t: State, ttl: nat) {
    exists a :: Enabled(s, a) && t == Apply(s, a, ttl)
  }

  ghost predicate Run(states: seq<State>, ttl: nat) {
    && states != [] && states[0] == START
    && forall i :: 0 < i < |states| ==> Step(states[i - 1], states[i], ttl)
  }

  lemma {:induction false} InvHolds(states: seq<State>, ttl: nat, i: nat)
    requires Run(states, ttl) && i < |states|
    ensures Inv(states[i])
    decreases i
  {
    hide Enabled, Apply;
    if i > 0 {
      InvHolds(states, ttl, i - 1);
      assert Step(states[i - 1], states[i], ttl);
      var a :| Enabled(states[i - 1], a) && states[i] == Apply(states[i - 1], a, ttl);
      StepKeeps(states[i - 1], a, ttl);
    }
  }

  /** In every run the writes of an identifier form a chain: each save replaces what its server held. */
  lemma SavesFormChains(states: seq<State>, ttl: nat, i: nat)
    requires Run(states, ttl) && i < |states|
    ensures Chained(states[i].log) && WrittenOnce(states[i].log)
  {
    InvHolds(states, ttl, i);
  }

  lemma {:induction false} LastWrittenIs(log: seq<Event>, sid: Sid) returns (i: nat)
    requires LastWritten(log, sid).Some?
    ensures i < |log| && Writes(log[i]) && log[i].sid == sid && log[i].payload == LastWritten(log, sid).value
    ensures forall j :: i < j < |log| && Writes(log[j]) ==> log[j].sid != sid
  {
    var last := log[|log| - 1];
    if Writes(last) && last.sid == sid {
      i := |log| - 1;
    } else {
      i := LastWrittenIs(log[..|log| - 1], sid);
    }
  }

  /** Of all the saves from one loaded payload, one at most succeeds. */
  lemma OneSavePerPayload(states: seq<State>, ttl: nat, i: nat, j: nat, k: nat)
    requires Run(states, ttl) && i < |states| && j < k < |states[i].log|
    requires states[i].log[j].Saved? && states[i].log[k].Saved?
    ensures states[i].log[j].expected != states[i].log[k].expected
  {
    hide Run, LastWritten;
    SavesFormChains(states, ttl, i);
    var log := states[i].log;
    assert LinkOk(log, j) && LinkOk(log, k);
    var a := LastWrittenIs(log[..j], log[j].sid);
    var b := LastWrittenIs(log[..k], log[k].sid);
    assert log[a] == log[..j][a] && log[b] == log[..k][b];
    assert log[..k][j] == log[j];
  }

  /** A save is accepted exactly when its identifier is alive and nothing was written since it was loaded. */
  lemma SaveAccepted(states: seq<State>, ttl: nat, i: nat, server: Server)
    requires Run(states, ttl) && i < |states| && Enabled(states[i], Save(server, true))
    ensures var s := states[i];
      var held := Of(s, server).held.value;
      Accepts(s, held) <==> Live(s, held.sid) && LastWritten(s.log, held.sid) == Some(held.payload)
  {
    InvHolds(states, ttl, i);
  }

  lemma StaysDead(s: State, a: Action, ttl: nat, sid: Sid)
    requires Enabled(s, a) && sid in s.sids && !Live(s, sid)
    ensures sid in Apply(s, a, ttl).sids && !Live(Apply(s, a, ttl), sid)
  {
  }

  /** Once revoked or expired, an identifier never holds data again. */
  lemma {:induction false} NeverAgain(states: seq<State>, ttl: nat, i: nat, j: nat, sid: Sid)
    requires Run(states, ttl) && i <= j < |states|
    requires sid in states[i].sids && !Live(states[i], sid)
    ensures sid in states[j].sids && !Live(states[j], sid)
    decreases j
  {
    hide Enabled, Apply, Live;
    if i < j {
      NeverAgain(states, ttl, i, j - 1, sid);
      assert Step(states[j - 1], states[j], ttl);
      var a :| Enabled(states[j - 1], a) && states[j] == Apply(states[j - 1], a, ttl);
      StaysDead(states[j - 1], a, ttl, sid);
    }
  }

  /** A revocation leaves its identifier dead. */
  lemma RevokedIsDead(s: State, server: Server, answered: bool, ttl: nat)
    requires Inv(s) && Enabled(s, Revoke(server, answered))
    ensures var sid := Of(s, server).held.value.sid;
      sid in Apply(s, Revoke(server, answered), ttl).sids && !Live(Apply(s, Revoke(server, answered), ttl), sid)
  {
    hide LastWritten, Chained, WrittenOnce, PendingOk, WrittenDrawn, Known;
  }

  /** What a step logs, and which steps can log an identifier that is dead. */
  lemma StepLogs(s: State, a: Action, ttl: nat, sid: Sid)
    requires Enabled(s, a)
    ensures var t := Apply(s, a, ttl);
      && |s.log| <= |t.log| <= |s.log| + 1 && t.log[..|s.log|] == s.log
      && (|t.log| > |s.log| ==>
          && (t.log[|s.log|].Revoked? ==> a.Revoke? && Of(s, a.server).held.value.sid == t.log[|s.log|].sid)
          && (t.log[|s.log|].sid == sid && sid in s.sids && !Live(s, sid) ==> t.log[|s.log|].Revoked?))
  {
  }

  /**
   * In every run, what follows a revocation: the identifier is dead in every later state, and no
   * later command of any server loads, saves or creates it.
   */
  lemma {:induction false} RevokedForEver(states: seq<State>, ttl: nat, i: nat, k: nat)
    requires Run(states, ttl) && i < |states| && k < |states[i].log| && states[i].log[k].Revoked?
    ensures var sid := states[i].log[k].sid;
      && sid in states[i].sids && !Live(states[i], sid)
      && forall m :: k < m < |states[i].log| && states[i].log[m].sid == sid ==> states[i].log[m].Revoked?
    decreases i
  {
    hide Enabled, Apply, Live, Inv;
    var sid, log := states[i].log[k].sid, states[i].log;
    if i > 0 {
      var before := states[i - 1];
      assert Step(before, states[i], ttl);
      var a :| Enabled(before, a) && states[i] == Apply(before, a, ttl);
      StepLogs(before, a, ttl, sid);
      assert forall m :: 0 <= m < |before.log| ==> log[m] == log[..|before.log|][m];
      if k < |before.log| {
        RevokedForEver(states, ttl, i - 1, k);
        StaysDead(before, a, ttl, sid);
      } else {
        InvHolds(states, ttl, i - 1);
        RevokedIsDead(before, a.server, a.answered, ttl);
      }
    }
  }

  // ---------------------------------------------------------------------
  // What a save does to a session
  // ---------------------------------------------------------------------

  predicate RevokedBy(log: seq<Event>, server: Server, sid: Sid) {
    exists k :: 0 <= k < |log| && log[k] == Revoked(server, sid)
  }

  /**
   * Only what is to stay under its identifier is saved there; only what is not is revoked; and what
   * had an identifier is created anew only when the server has revoked that.
   */
  ghost predicate TaskOk(s: State, server: Server, session: Session) {
    match session.task
    case Idle => true
    case Saving(_) => session.modified && session.held.Some? && !session.rotated && !session.empty
    case Revoking(_) => session.modified && session.held.Some? && (session.rotated || session.empty)
    case Creating(_) =>
      && session.modified && !session.empty
      && (session.held.Some? ==>
            var sid := session.held.value.sid;
            session.rotated && sid in s.sids && !Live(s, sid) && RevokedBy(s.log, server, sid))
  }

  ghost predicate TasksOk(s: State) {
    forall p | p in s.sessions :: TaskOk(s, p, s.sessions[p])
  }

  lemma TaskStaysOk(s: State, a: Action, ttl: nat, server: Server, session: Session)
    requires Enabled(s, a) && TaskOk(s, server, session)
    ensures TaskOk(Apply(s, a, ttl), server, session)
  {
    hide Enabled, Apply, Live;
    if session.task.Creating? && session.held.Some? {
      StaysDead(s, a, ttl, session.held.value.sid);
      StepLogs(s, a, ttl, session.held.value.sid);
      var t := Apply(s, a, ttl);
      var k :| 0 <= k < |s.log| && s.log[k] == Revoked(server, session.held.value.sid);
      assert t.log[k] == t.log[..|s.log|][k];
    }
  }

  /** The sessions a step does not concern stay as they are. */
  lemma OthersStay(s: State, a: Action, ttl: nat, server: Server)
    requires Enabled(s, a) && (a.Tick? || a.server != server)
    ensures server in Apply(s, a, ttl).sessions <==> server in s.sessions
    ensures server in s.sessions ==> Apply(s, a, ttl).sessions[server] == s.sessions[server]
  {
  }

  /** A revocation leaves a session that is told of it to be created, under the identifier revoked. */
  lemma RevokeKeepsTask(s: State, server: Server, answered: bool, ttl: nat)
    requires Inv(s) && TasksOk(s) && Enabled(s, Revoke(server, answered))
    ensures var t := Apply(s, Revoke(server, answered), ttl);
      server in t.sessions && TaskOk(t, server, t.sessions[server])
  {
    RevokedIsDead(s, server, answered, ttl);
    hide Inv, Live;
    var t := Apply(s, Revoke(server, answered), ttl);
    assert t.log[|s.log|] == Revoked(server, Of(s, server).held.value.sid);
  }

  lemma OwnTaskOk(s: State, a: Action, ttl: nat)
    requires Inv(s) && TasksOk(s) && Enabled(s, a) && !a.Tick?
    ensures var t := Apply(s, a, ttl);
      a.server in t.sessions ==> TaskOk(t, a.server, t.sessions[a.server])
  {
    if a.Revoke? {
      RevokeKeepsTask(s, a.server, a.answered, ttl);
    } else {
      hide Inv, RevokedBy, LastWritten;
    }
  }

  lemma StepKeepsTasks(s: State, a: Action, ttl: nat)
    requires Inv(s) && TasksOk(s) && Enabled(s, a)
    ensures TasksOk(Apply(s, a, ttl))
  {
    hide Inv, Enabled, Apply, TaskOk;
    var t := Apply(s, a, ttl);
    forall p | p in t.sessions ensures TaskOk(t, p, t.sessions[p]) {
      if a.Tick? || a.server != p {
        OthersStay(s, a, ttl, p);
        TaskStaysOk(s, a, ttl, p, s.sessions[p]);
      } else {
        OwnTaskOk(s, a, ttl);
      }
    }
  }

  /**
   * In every run, a session that was cleared or emptied is never saved under its identifier, and what
   * it holds next goes to a new one only after the server has revoked the old, which is dead by then.
   */
  lemma {:induction false} ClearedMeansRevoked(states: seq<State>, ttl: nat, i: nat)
    requires Run(states, ttl) && i < |states|
    ensures TasksOk(states[i])
    decreases i
  {
    hide Enabled, Apply, Inv;
    if i > 0 {
      ClearedMeansRevoked(states, ttl, i - 1);
      InvHolds(states, ttl, i - 1);
      assert Step(states[i - 1], states[i], ttl);
      var a :| Enabled(states[i - 1], a) && states[i] == Apply(states[i - 1], a, ttl);
      StepKeepsTasks(states[i - 1], a, ttl);
    }
  }

  /** A session after a store command, if it is told the outcome and otherwise. */
  predicate After(before: Session, after: Session, held: Option<Held>, answered: bool) {
    after == if answered then Session(held, false, false, before.empty, Idle) else before.(task := Idle)
  }

  /** A save replaces the stored payload exactly when that is what the server held, or else changes nothing. */
  lemma SaveTakesEffect(states: seq<State>, ttl: nat, i: nat, server: Server, answered: bool)
    requires Run(states, ttl) && i < |states| && Enabled(states[i], Save(server, answered))
    ensures var s, t := states[i], Apply(states[i], Save(server, answered), ttl);
      var session := s.sessions[server];
      var Held(sid, expected), payload := session.held.value, session.task.payload;
      var fits := sid in s.store && s.now < s.store[sid].expires && LastWritten(s.log, sid) == Some(expected);
      && t.store == (if fits then s.store[sid := Stored(payload, s.now + ttl)] else s.store)
      && t.log == (if fits then s.log + [Saved(server, sid, expected, payload)] else s.log)
      && After(session, t.sessions[server], Some(Held(sid, payload)), fits && answered)
      && t.now == s.now && t.sessions.Keys == s.sessions.Keys
  {
    InvHolds(states, ttl, i);
    hide LastWritten, Run;
  }

  /** A creation stores the payload under an identifier that never was one, and the session holds it. */
  lemma {:induction false} CreateTakesEffect(states: seq<State>, ttl: nat, i: nat, server: Server, sid: Sid,
                                             answered: bool)
    requires Run(states, ttl) && i < |states| && Enabled(states[i], Create(server, sid, answered))
    ensures var s, t := states[i], Apply(states[i], Create(server, sid, answered), ttl);
      var session, payload := s.sessions[server], s.sessions[server].task.payload;
      && sid !in s.store && LastWritten(s.log, sid) == None && !WasWritten(s.log, payload)
      && t.store == s.store[sid := Stored(payload, s.now + ttl)] && t.log == s.log + [Created(server, sid, payload)]
      && After(session, t.sessions[server], Some(Held(sid, payload)), answered)
      && t.now == s.now && t.sessions.Keys == s.sessions.Keys
  {
    InvHolds(states, ttl, i);
    hide LastWritten, WasWritten, Run;
  }

  /** A revocation removes the identifier; told of it, the server creates what is left to store. */
  lemma RevokeTakesEffect(states: seq<State>, ttl: nat, i: nat, server: Server, answered: bool)
    requires Run(states, ttl) && i < |states| && Enabled(states[i], Revoke(server, answered))
    ensures var s, t := states[i], Apply(states[i], Revoke(server, answered), ttl);
      var session, after := s.sessions[server], t.sessions[server];
      && t.store == s.store - {session.held.value.sid} && t.log == s.log + [Revoked(server, session.held.value.sid)]
      && (!answered ==> after == session.(task := Idle))
      && (answered && session.empty ==> after == session.(held := None, task := Idle))
      && (answered && !session.empty ==> after == session.(task := Creating(session.task.payload)))
      && t.now == s.now && t.sessions.Keys == s.sessions.Keys
  {
  }

  /** A load gives a session the latest payload of an identifier that is alive. */
  lemma {:induction false} LoadTakesEffect(states: seq<State>, ttl: nat, i: nat, server: Server, sid: Sid)
    requires Run(states, ttl) && i < |states|
    ensures Enabled(states[i], Load(server, sid)) <==>
      && (server in states[i].sessions ==> states[i].sessions[server].task.Idle?)
      && sid in states[i].store && states[i].now < states[i].store[sid].expires
    ensures Enabled(states[i], Load(server, sid)) ==>
      var s, t := states[i], Apply(states[i], Load(server, sid), ttl);
      && LastWritten(s.log, sid).Some?
      && t.sessions
         == s.sessions[server := Session(Some(Held(sid, LastWritten(s.log, sid).value)), false, false, false, Idle)]
      && t.store == s.store && t.now == s.now
  {
    InvHolds(states, ttl, i);
    hide LastWritten, Run;
  }

  lemma {:induction false} Above(drawn: set<nat>) returns (m: nat)
    ensures forall x | x in drawn :: x < m
    decreases |drawn|
  {
    if drawn == {} {
      m := 0;
    } else {
      var x :| x in drawn;
      m := Above(drawn - {x});
      assert forall y | y in drawn :: y == x || y in drawn - {x};
      m := if m <= x then x + 1 else m;
    }
  }

  /**
   * A modified session can always be saved: beginning is possible with a fresh payload and comes to
   * a store command unless there is nothing to store and nothing to revoke; and the command a server
   * has come to can always be given.
   */
  lemma SavesGoOn(states: seq<State>, ttl: nat, i: nat, server: Server)
    requires Run(states, ttl) && i < |states| && server in states[i].sessions
    ensures var s, session := states[i], states[i].sessions[server];
      && (session.task.Idle? && session.modified ==>
            exists payload ::
              && Enabled(s, Begin(server, payload))
              && var after := Apply(s, Begin(server, payload), ttl).sessions[server];
                 && (after.task.Idle? <==> session.held.None? && session.empty)
                 && (!after.task.Idle? ==> after == session.(task := after.task) && after.task.payload == payload)
                 && (after.task.Creating? ==> session.held.None?))
      && (session.task.Saving? ==> Enabled(s, Save(server, true)))
      && (session.task.Revoking? ==> Enabled(s, Revoke(server, true)))
      && (session.task.Creating? ==> exists sid :: Enabled(s, Create(server, sid, true)))
  {
    ClearedMeansRevoked(states, ttl, i);
    hide Run;
    var s, session := states[i], states[i].sessions[server];
    var payload := Above(s.payloads);
    var sid := Above(s.sids);
    if session.task.Idle? && session.modified {
      assert Enabled(s, Begin(server, payload));
    }
    if session.task.Creating? {
      assert Enabled(s, Create(server, sid, true));
    }
  }

  lemma {:induction false} LogsGrow(states: seq<State>, ttl: nat, i: nat, j: nat)
    requires Run(states, ttl) && i <= j < |states|
    ensures |states[i].log| <= |states[j].log| && states[j].log[..|states[i].log|] == states[i].log
    decreases j
  {
    hide Enabled, Apply;
    if i < j {
      LogsGrow(states, ttl, i, j - 1);
      assert Step(states[j - 1], states[j], ttl);
      var a :| Enabled(states[j - 1], a) && states[j] == Apply(states[j - 1], a, ttl);
      StepLogs(states[j - 1], a, ttl, 0);
      assert states[j].log[..|states[i].log|] == states[j].log[..|states[j - 1].log|][..|states[i].log|];
    }
  }

  /** The events that change what an identifier holds. */
  predicate Changes(e: Event, sid: Sid) {
    !e.Loaded? && e.sid == sid
  }

  /** A step that logs no change of an identifier leaves what is stored under it. */
  lemma QuietStep(s: State, a: Action, ttl: nat, sid: Sid)
    requires Enabled(s, a)
    requires forall m :: |s.log| <= m < |Apply(s, a, ttl).log| ==> !Changes(Apply(s, a, ttl).log[m], sid)
    ensures var t := Apply(s, a, ttl);
      && t.now >= s.now && (sid in t.store <==> sid in s.store)
      && (sid in s.store ==> t.store[sid] == s.store[sid])
  {
    var t := Apply(s, a, ttl);
    if |t.log| > |s.log| {
      assert !Changes(t.log[|s.log|], sid);
    }
  }

  /** A step that logs a write stores it for the time to live. */
  lemma WriteStep(s: State, a: Action, ttl: nat)
    requires Enabled(s, a) && |Apply(s, a, ttl).log| == |s.log| + 1 && Writes(Apply(s, a, ttl).log[|s.log|])
    ensures var t := Apply(s, a, ttl);
      var e := t.log[|s.log|];
      t.now == s.now && e.sid in t.store && t.store[e.sid] == Stored(e.payload, s.now + ttl)
  {
  }

  /**
   * What was written under an identifier is there until the time to live has passed, and no longer,
   * unless a later write or revocation of the identifier comes between.
   */
  lemma {:induction false} LivesItsTime(states: seq<State>, ttl: nat, i: nat, j: nat, sid: Sid)
    requires Run(states, ttl) && 0 < i <= j < |states|
    requires |states[i].log| == |states[i - 1].log| + 1
    requires Writes(states[i].log[|states[i - 1].log|]) && states[i].log[|states[i - 1].log|].sid == sid
    requires forall m :: |states[i].log| <= m < |states[j].log| ==> !Changes(states[j].log[m], sid)
    ensures |states[i].log| <= |states[j].log| && states[j].log[..|states[i].log|] == states[i].log
    ensures sid in states[j].store
    ensures states[j].store[sid].payload == states[i].log[|states[i - 1].log|].payload
    ensures states[i].now <= states[j].now
    ensures states[j].store[sid].expires == states[i].now + ttl
    decreases j
  {
    hide Enabled, Apply, Changes, Writes;
    var before := states[j - 1];
    assert Step(before, states[j], ttl);
    var a :| Enabled(before, a) && states[j] == Apply(before, a, ttl);
    StepLogs(before, a, ttl, sid);
    if i == j {
      WriteStep(before, a, ttl);
    } else {
      assert forall m :: 0 <= m < |before.log| ==> states[j].log[m] == states[j].log[..|before.log|][m];
      LogsGrow(states, ttl, i, j - 1);
      LivesItsTime(states, ttl, i, j - 1, sid);
      QuietStep(before, a, ttl, sid);
    }
  }
}
