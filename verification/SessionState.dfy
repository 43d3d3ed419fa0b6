/**
  The session manager's two maps (sessions with their attached clients, and the client
  index), its event log and generation counter, and what each operation makes of them.
 */
module SessionState {
  import opened Bytes

  datatype Mode = Observe | Interact
  datatype Kind = WireBytes | LocalControl
  datatype ChanState = Open | Full | ChanClosed

  datatype Info = Info(id: string, startedAt: nat, title: string, cols: nat, rows: nat, lastActivity: nat)

  datatype Attached = Attached(mode: Mode, kind: Kind, cols: nat, rows: nat, terminalIo: bool)

  datatype Session = Session(info: Info, attached: map<string, Attached>, active: Option<string>, generation: nat)

  datatype Client = Client(session: Option<string>, mode: Option<Mode>, ws: Option<nat>)

  /** What is broadcast to every subscriber. */
  datatype Event = Registered(info: Info) | Updated(info: Info) | Closed(id: string)

  datatype State = State(sessions: map<string, Session>, clients: map<string, Client>, log: seq<Event>, next: nat)

  function Empty(): State {
    State(map[], map[], [], 1)
  }

  // ----- operations -----

  function AttachedIds(m: State, s: string): set<string> {
    if s in m.sessions then m.sessions[s].attached.Keys else {}
  }

  /** Replaces a session of the same id and forgets the clients that were attached to it. */
  function Register(m: State, info: Info): State {
    State(m.sessions[info.id := Session(info, map[], None, m.next)],
          m.clients - AttachedIds(m, info.id),
          m.log + [Registered(info)],
          m.next + 1)
  }

  /** `expected` is None for a forced removal. The client index is left as it is. */
  function Unregister(m: State, id: string, expected: Option<nat>): State {
    if id !in m.sessions || (expected.Some? && m.sessions[id].generation != expected.value) then m
    else m.(sessions := m.sessions - {id}, log := m.log + [Closed(id)])
  }

  function SetInfo(m: State, id: string, info: Info): State
    requires id in m.sessions
  {
    m.(sessions := m.sessions[id := m.sessions[id].(info := info)], log := m.log + [Updated(info)])
  }

  function Update(m: State, info: Info): State {
    if info.id in m.sessions then SetInfo(m, info.id, info) else m
  }

  function SetTitle(m: State, id: string, title: string): State {
    if id in m.sessions then SetInfo(m, id, m.sessions[id].info.(title := title)) else m
  }

  function AttachedRecord(m: State, s: string, c: string, mode: Mode): Client {
    Client(Some(s), Some(mode), if c in m.clients then m.clients[c].ws else None)
  }

  /** The index is written first, also when the session turns out not to exist. */
  function Attach(m: State, s: string, c: string, mode: Mode, kind: Kind): State {
    var clients := m.clients[c := AttachedRecord(m, s, c, mode)];
    if s !in m.sessions then m.(clients := clients) else
      var x := m.sessions[s];
      var y := x.(attached := x.attached[c := Attached(mode, kind, x.info.cols, x.info.rows, false)],
                  active := if mode == Observe then x.active else Some(c));
      m.(clients := clients, sessions := m.sessions[s := y])
  }

  function Detach(m: State, s: string, c: string): State {
    var clients := if c in m.clients then m.clients[c := Client(None, None, m.clients[c].ws)] else m.clients;
    if c !in AttachedIds(m, s) then m.(clients := clients) else
      var x := m.sessions[s];
      var y := x.(attached := x.attached - {c}, active := if x.active == Some(c) then None else x.active);
      m.(clients := clients, sessions := m.sessions[s := y])
  }

  function Sized(info: Info, cols: nat, rows: nat): Info {
    if cols > 0 && rows > 0 then info.(cols := cols, rows := rows) else info
  }

  function SetActive(m: State, s: string, c: string, cols: nat, rows: nat, now: nat): State {
    if s !in m.sessions then m else
      var x := m.sessions[s];
      m.(sessions := m.sessions[s := x.(active := Some(c), info := Sized(x.info, cols, rows).(lastActivity := now))])
  }

  function SetClientSize(m: State, s: string, c: string, cols: nat, rows: nat): State {
    if c !in AttachedIds(m, s) then m else
      var x := m.sessions[s];
      m.(sessions := m.sessions[s := x.(attached := x.attached[c := x.attached[c].(cols := cols, rows := rows)])])
  }

  function SetTerminalIo(m: State, s: string, c: string, on: bool): State {
    if c !in AttachedIds(m, s) then m else
      var x := m.sessions[s];
      m.(sessions := m.sessions[s := x.(attached := x.attached[c := x.attached[c].(terminalIo := on)])])
  }

  function SetWsHandle(m: State, c: string, ws: nat): State {
    var known := if c in m.clients then m.clients[c] else Client(None, None, None);
    m.(clients := m.clients[c := known.(ws := Some(ws))])
  }

  function DropFrom(m: State, s: string, ids: set<string>): map<string, Session> {
    if s !in m.sessions then m.sessions else
      m.sessions[s := m.sessions[s].(attached := m.sessions[s].attached - ids)]
  }

  function RemoveByIds(m: State, s: string, ids: set<string>): State {
    m.(sessions := DropFrom(m, s, ids), clients := m.clients - ids)
  }

  /** Finds the client's session through the index instead of scanning all sessions. */
  function RemoveClient(m: State, c: string): State {
    var named := if c in m.clients then m.clients[c].session else None;
    m.(sessions := if named.Some? then DropFrom(m, named.value, {c}) else m.sessions, clients := m.clients - {c})
  }

  // ----- queries -----

  predicate IsConnected(m: State, c: string) {
    c in m.clients
  }

  predicate IsObserver(m: State, s: string, c: string) {
    c in m.clients && m.clients[c].mode == Some(Observe) && m.clients[c].session == Some(s)
  }

  /** The id a client asks to keep, unless somebody is connected under it. */
  function ResolveId(m: State, previous: Option<string>, fallback: string): string {
    if previous.Some? && !IsConnected(m, previous.value) then previous.value else fallback
  }

  function DeadOf(m: State, s: string, chans: map<string, ChanState>): set<string> {
    set c | c in AttachedIds(m, s) && c in chans && chans[c] == ChanClosed
  }

  // ----- the agreement of the two maps -----

  predicate AttachedTo(m: State, s: string, c: string) {
    s in m.sessions && c in m.sessions[s].attached
  }

  ghost predicate AttachedAnywhere(m: State, c: string) {
    exists s :: AttachedTo(m, s, c)
  }

  /** Attached to a session other than `s`. */
  ghost predicate AttachedElsewhere(m: State, s: string, c: string) {
    exists t :: AttachedTo(m, t, c) && t != s
  }

  predicate Indexed(m: State, s: string, c: string)
    requires AttachedTo(m, s, c)
  {
    && c in m.clients
    && m.clients[c].session == Some(s)
    && m.clients[c].mode == Some(m.sessions[s].attached[c].mode)
  }

  /** Every attached client has an index record that names its session and mode. */
  ghost predicate Agree(m: State) {
    forall s, c | AttachedTo(m, s, c) :: Indexed(m, s, c)
  }

  lemma OneSessionPerClient(m: State, s: string, t: string, c: string)
    requires Agree(m) && AttachedTo(m, s, c) && AttachedTo(m, t, c)
    ensures s == t
  {
    assert Indexed(m, s, c) && Indexed(m, t, c);
  }

  lemma ObserverIsAttachedMode(m: State, s: string, c: string)
    requires Agree(m) && AttachedTo(m, s, c)
    ensures IsObserver(m, s, c) <==> m.sessions[s].attached[c].mode == Observe
  {
    assert Indexed(m, s, c);
  }

  // ----- which calls keep the agreement -----

  lemma RegisterKeeps(m: State, info: Info)
    requires Agree(m)
    ensures Agree(Register(m, info))
  {
    var r := Register(m, info);
    forall s, c | AttachedTo(r, s, c)
      ensures Indexed(r, s, c)
    {
      assert AttachedTo(m, s, c) && Indexed(m, s, c);
      if c in AttachedIds(m, info.id) {
        OneSessionPerClient(m, s, info.id, c);
      }
    }
  }

  lemma UnregisterKeeps(m: State, id: string, expected: Option<nat>)
    requires Agree(m)
    ensures Agree(Unregister(m, id, expected))
  {
    var r := Unregister(m, id, expected);
    forall s, c | AttachedTo(r, s, c)
      ensures Indexed(r, s, c)
    {
      assert AttachedTo(m, s, c) && Indexed(m, s, c);
    }
  }

  /** Operations that touch neither index records nor who is attached and how. */
  lemma SameAttachmentsKeep(m: State, r: State)
    requires Agree(m)
    requires forall c | c in m.clients ::
               && c in r.clients
               && r.clients[c].session == m.clients[c].session && r.clients[c].mode == m.clients[c].mode
    requires forall s, c | AttachedTo(r, s, c) ::
               AttachedTo(m, s, c) && r.sessions[s].attached[c].mode == m.sessions[s].attached[c].mode
    ensures Agree(r)
  {
    forall s, c | AttachedTo(r, s, c)
      ensures Indexed(r, s, c)
    {
      assert AttachedTo(m, s, c) && Indexed(m, s, c);
    }
  }

  lemma AttachKeepsIff(m: State, s: string, c: string, mode: Mode, kind: Kind)
    requires Agree(m)
    ensures Agree(Attach(m, s, c, mode, kind)) <==> !AttachedElsewhere(m, s, c)
  {
    var r := Attach(m, s, c, mode, kind);
    if AttachedElsewhere(m, s, c) {
      var t :| AttachedTo(m, t, c) && t != s;
      assert AttachedTo(r, t, c) && !Indexed(r, t, c);
    } else {
      forall t, d | AttachedTo(r, t, d)
        ensures Indexed(r, t, d)
      {
        if !(t == s && d == c) {
          assert AttachedTo(m, t, d) && Indexed(m, t, d);
        }
      }
    }
  }

  lemma DetachKeepsIff(m: State, s: string, c: string)
    requires Agree(m)
    ensures Agree(Detach(m, s, c)) <==> !AttachedElsewhere(m, s, c)
  {
    var r := Detach(m, s, c);
    if AttachedElsewhere(m, s, c) {
      var t :| AttachedTo(m, t, c) && t != s;
      assert Indexed(m, t, c);
      assert AttachedTo(r, t, c) && !Indexed(r, t, c);
    } else {
      forall t, d | AttachedTo(r, t, d)
        ensures Indexed(r, t, d)
      {
        assert AttachedTo(m, t, d) && Indexed(m, t, d);
      }
    }
  }

  lemma RemoveByIdsKeepsIff(m: State, s: string, ids: set<string>)
    requires Agree(m)
    ensures Agree(RemoveByIds(m, s, ids)) <==> forall c | c in ids :: !AttachedElsewhere(m, s, c)
  {
    var r := RemoveByIds(m, s, ids);
    if c :| c in ids && AttachedElsewhere(m, s, c) {
      var t :| AttachedTo(m, t, c) && t != s;
      assert AttachedTo(r, t, c) && !Indexed(r, t, c);
    } else {
      forall t, d | AttachedTo(r, t, d)
        ensures Indexed(r, t, d)
      {
        assert AttachedTo(m, t, d) && Indexed(m, t, d);
      }
    }
  }

  // ----- when an unregister acts -----

  /** A removal acts exactly when it is forced or carries the session's own generation, and says so in the log. */
  lemma UnregisterActsIff(m: State, id: string, expected: Option<nat>)
    ensures var r := Unregister(m, id, expected);
            && (id !in r.sessions <==>
                  id !in m.sessions || expected.None? || expected.value == m.sessions[id].generation)
            && r.sessions - {id} == m.sessions - {id}
            && r.clients == m.clients && r.next == m.next
            && r.log == m.log + (if id in m.sessions && id !in r.sessions then [Closed(id)] else [])
            && (id in r.sessions ==> r == m)
  {
    assert m.log + [] == m.log;
  }

  // ----- removing a client through the index -----

  /** What a scan over all sessions would leave. */
  function RemoveByScan(m: State, c: string): State {
    m.(sessions := map s | s in m.sessions :: m.sessions[s].(attached := m.sessions[s].attached - {c}),
       clients := m.clients - {c})
  }

  /** While the maps agree, the lookup through the index does exactly what a full scan would do. */
  lemma RemoveClientIsScan(m: State, c: string)
    requires Agree(m)
    ensures RemoveClient(m, c) == RemoveByScan(m, c)
    ensures !AttachedAnywhere(RemoveClient(m, c), c) && !IsConnected(RemoveClient(m, c), c)
  {
    var r, q := RemoveClient(m, c), RemoveByScan(m, c);
    forall s | s in m.sessions
      ensures r.sessions[s] == q.sessions[s]
    {
      if c in m.sessions[s].attached {
        assert AttachedTo(m, s, c) && Indexed(m, s, c);
      } else {
        assert m.sessions[s].attached - {c} == m.sessions[s].attached;
      }
    }
    assert r.sessions == q.sessions;
    assert forall s :: !AttachedTo(q, s, c);
  }

  /**
    In any state, reached or not: the removal leaves a client attached nowhere exactly when
    the client's record names every session it is attached to.
   */
  lemma RemoveLeavesNothingIff(m: State, c: string)
    ensures !AttachedAnywhere(RemoveClient(m, c), c)
       <==> forall s | AttachedTo(m, s, c) :: c in m.clients && m.clients[c].session == Some(s)
  {
    var r := RemoveClient(m, c);
    if s :| AttachedTo(m, s, c) && !(c in m.clients && m.clients[c].session == Some(s)) {
      assert AttachedTo(r, s, c);
    } else {
      forall s
        ensures !AttachedTo(r, s, c)
      {
        assert AttachedTo(r, s, c) ==> AttachedTo(m, s, c);
      }
    }
  }

  lemma ScanKeeps(m: State, c: string)
    requires Agree(m)
    ensures Agree(RemoveByScan(m, c))
  {
    var r := RemoveByScan(m, c);
    forall s, d | AttachedTo(r, s, d)
      ensures Indexed(r, s, d)
    {
      assert AttachedTo(m, s, d) && Indexed(m, s, d);
    }
  }

  lemma RemoveClientKeeps(m: State, c: string)
    requires Agree(m)
    ensures Agree(RemoveClient(m, c))
  {
    hide Agree, RemoveClient, RemoveByScan;
    RemoveClientIsScan(m, c);
    ScanKeeps(m, c);
  }

  // ----- how callers meet those conditions -----

  /** `client_attach` keeps the agreement: a kept id has no record, and a new one is attached nowhere. */
  lemma ResolvedIdIsFree(m: State, previous: Option<string>, fallback: string)
    requires Agree(m) && !AttachedAnywhere(m, fallback)
    ensures !AttachedAnywhere(m, ResolveId(m, previous, fallback))
  {
    var c := ResolveId(m, previous, fallback);
    forall s
      ensures !AttachedTo(m, s, c)
    {
      assert AttachedTo(m, s, c) ==> Indexed(m, s, c);
    }
  }

  lemma OwnDeadAreNotElsewhere(m: State, s: string, chans: map<string, ChanState>)
    requires Agree(m)
    ensures forall c | c in DeadOf(m, s, chans) :: !AttachedElsewhere(m, s, c)
  {
    forall c | c in DeadOf(m, s, chans)
      ensures !AttachedElsewhere(m, s, c)
    {
      assert AttachedTo(m, s, c) && Indexed(m, s, c);
      assert forall t :: AttachedTo(m, t, c) ==> Indexed(m, t, c);
    }
  }

  /**
    An attach to a session that does not exist leaves the id occupied: asked for again
    while no other operation intervenes, it is refused.
   */
  lemma FailedAttachOccupiesId(m: State, s: string, previous: string, mode: Mode, kind: Kind, fallback: string)
    requires s !in m.sessions && !IsConnected(m, previous)
    ensures var r := Attach(m, s, ResolveId(m, Some(previous), fallback), mode, kind);
            ResolveId(r, Some(previous), fallback) == fallback && !AttachedTo(r, s, previous)
  {
  }

  // ----- what one call changes -----

  /** An attach makes an interactive client the active one, and touches no other session or client. */
  lemma AttachIs(m: State, s: string, c: string, mode: Mode, kind: Kind)
    requires s in m.sessions
    ensures var r := Attach(m, s, c, mode, kind);
            && AttachedIds(r, s) == AttachedIds(m, s) + {c}
            && r.sessions[s].attached[c].mode == mode && r.sessions[s].attached[c].kind == kind
            && r.sessions[s].active == (if mode == Interact then Some(c) else m.sessions[s].active)
            && (forall t | t in m.sessions && t != s :: t in r.sessions && r.sessions[t] == m.sessions[t])
            && (forall d | d in m.clients && d != c :: d in r.clients && r.clients[d] == m.clients[d])
            && r.log == m.log && r.next == m.next
  {
  }

  /**
    Detaching undoes an attach: the sessions are as before, except that an interactive client
    leaves its session without an active one; the client keeps a record that names no session.
   */
  lemma DetachUndoesAttach(m: State, s: string, c: string, mode: Mode, kind: Kind)
    requires s in m.sessions && !AttachedTo(m, s, c) && m.sessions[s].active != Some(c)
    ensures var r := Detach(Attach(m, s, c, mode, kind), s, c);
            && r.sessions == m.sessions[
                 s := m.sessions[s].(active := if mode == Interact then None else m.sessions[s].active)]
            && r.clients == m.clients[c := Client(None, None, if c in m.clients then m.clients[c].ws else None)]
            && r.log == m.log && r.next == m.next
  {
    var x := m.sessions[s];
    assert x.attached[c := Attached(mode, kind, x.info.cols, x.info.rows, false)] - {c} == x.attached;
  }
}
