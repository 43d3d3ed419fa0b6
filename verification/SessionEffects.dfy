/**
  What single calls of the session manager change and what they leave alone, field by field:
  the laws a caller relies on between two calls.
 */
module SessionEffects {
  import opened Bytes
  import opened SessionState
  import opened SessionManager
  import opened ClientLoop

  /** Nothing changes but session `s`, which stays registered. */
  predicate OnlySession(m: State, r: State, s: string) {
    && r.clients == m.clients && r.next == m.next && r.sessions.Keys == m.sessions.Keys
    && forall t | t in m.sessions && t != s :: r.sessions[t] == m.sessions[t]
  }

  /** Session `s` keeps its clients, its active client and its generation. */
  predicate SameCompany(m: State, r: State, s: string)
    requires s in m.sessions && s in r.sessions
  {
    && r.sessions[s].attached == m.sessions[s].attached
    && r.sessions[s].active == m.sessions[s].active
    && r.sessions[s].generation == m.sessions[s].generation
  }

  /** A registration starts the session empty, and forgets exactly the clients of the one it replaces. */
  lemma RegisterEffect(m: State, info: Info)
    ensures var r := Register(m, info);
            && r.sessions.Keys == m.sessions.Keys + {info.id}
            && r.sessions[info.id].info == info && r.sessions[info.id].attached == map[]
            && r.sessions[info.id].active == None && r.sessions[info.id].generation == m.next
            && (forall t | t in m.sessions && t != info.id :: r.sessions[t] == m.sessions[t])
            && (forall d :: IsConnected(r, d) <==> IsConnected(m, d) && !AttachedTo(m, info.id, d))
            && (forall d | IsConnected(r, d) :: r.clients[d] == m.clients[d])
            && r.log == m.log + [Registered(info)] && r.next == m.next + 1
  {
  }

  /** A client of a replaced session can have its id back at once. */
  lemma ReplacedClientsAreFree(m: State, info: Info, d: string, fallback: string)
    requires AttachedTo(m, info.id, d)
    ensures ResolveId(Register(m, info), Some(d), fallback) == d
  {
  }

  lemma UpdateEffect(m: State, info: Info)
    ensures var r := Update(m, info);
            && OnlySession(m, r, info.id)
            && (info.id in m.sessions ==>
                  && r.sessions[info.id].info == info && SameCompany(m, r, info.id)
                  && r.log == m.log + [Updated(info)])
            && (info.id !in m.sessions ==> r == m)
  {
  }

  lemma TitleEffect(m: State, id: string, title: string)
    ensures var r := SetTitle(m, id, title);
            && OnlySession(m, r, id)
            && (id in m.sessions ==>
                  var was, now := m.sessions[id].info, r.sessions[id].info;
                  && now == Info(was.id, was.startedAt, title, was.cols, was.rows, was.lastActivity)
                  && SameCompany(m, r, id)
                  && r.log == m.log + [Updated(now)])
            && (id !in m.sessions ==> r == m)
  {
  }

  /** A new client starts with the session's size and without a terminal relay. */
  lemma AttachEffect(m: State, s: string, c: string, mode: Mode, kind: Kind)
    ensures var r := Attach(m, s, c, mode, kind);
            && r.sessions.Keys == m.sessions.Keys && r.log == m.log && r.next == m.next
            && r.clients.Keys == m.clients.Keys + {c}
            && r.clients[c] == Client(Some(s), Some(mode), if c in m.clients then m.clients[c].ws else None)
            && (forall d | d in m.clients && d != c :: r.clients[d] == m.clients[d])
            && (forall t | t in m.sessions && t != s :: r.sessions[t] == m.sessions[t])
            && (s in m.sessions ==>
                  var x, y := m.sessions[s], r.sessions[s];
                  && y.info == x.info && y.generation == x.generation
                  && y.attached.Keys == x.attached.Keys + {c}
                  && (forall d | d in x.attached && d != c :: y.attached[d] == x.attached[d])
                  && y.attached[c] == Attached(mode, kind, x.info.cols, x.info.rows, false)
                  && y.active == (if mode == Interact then Some(c) else x.active))
  {
  }

  lemma DetachEffect(m: State, s: string, c: string)
    ensures var r := Detach(m, s, c);
            && r.sessions.Keys == m.sessions.Keys && r.log == m.log && r.next == m.next
            && r.clients.Keys == m.clients.Keys
            && (forall d | d in m.clients ::
                  r.clients[d] == if d == c then Client(None, None, m.clients[d].ws) else m.clients[d])
            && (forall t | t in m.sessions && t != s :: r.sessions[t] == m.sessions[t])
            && (s in m.sessions ==>
                  var x, y := m.sessions[s], r.sessions[s];
                  && y.info == x.info && y.generation == x.generation
                  && y.attached == x.attached - {c}
                  && y.active == (if c in x.attached && x.active == Some(c) then None else x.active))
  {
    if s in m.sessions && c !in m.sessions[s].attached {
      assert m.sessions[s].attached - {c} == m.sessions[s].attached;
    }
  }

  /** A size counts only if neither side of it is zero; the activity time always does. */
  lemma SetActiveEffect(m: State, s: string, c: string, cols: nat, rows: nat, now: nat)
    ensures var r := SetActive(m, s, c, cols, rows, now);
            && OnlySession(m, r, s) && r.log == m.log
            && (s in m.sessions ==>
                  var x, y := m.sessions[s], r.sessions[s];
                  && y.active == Some(c) && y.attached == x.attached && y.generation == x.generation
                  && y.info.id == x.info.id && y.info.title == x.info.title && y.info.startedAt == x.info.startedAt
                  && y.info.lastActivity == now
                  && (cols == 0 || rows == 0 ==> y.info.cols == x.info.cols && y.info.rows == x.info.rows)
                  && (cols != 0 && rows != 0 ==> y.info.cols == cols && y.info.rows == rows))
  {
  }

  /** A client's size and relay flag are its own: nobody else's change, and one that is not attached has none. */
  lemma ClientFieldsEffect(m: State, s: string, c: string, cols: nat, rows: nat, on: bool)
    ensures var r := SetClientSize(m, s, c, cols, rows);
            && OnlySession(m, r, s) && r.log == m.log
            && (AttachedTo(m, s, c) ==>
                  var x, y := m.sessions[s], r.sessions[s];
                  && y.info == x.info && y.active == x.active && y.generation == x.generation
                  && y.attached.Keys == x.attached.Keys
                  && (forall d | d in x.attached && d != c :: y.attached[d] == x.attached[d])
                  && var was := x.attached[c];
                  y.attached[c] == Attached(was.mode, was.kind, cols, rows, was.terminalIo))
            && (!AttachedTo(m, s, c) ==> r == m)
    ensures var r := SetTerminalIo(m, s, c, on);
            && OnlySession(m, r, s) && r.log == m.log
            && (AttachedTo(m, s, c) ==>
                  var x, y := m.sessions[s], r.sessions[s];
                  && y.info == x.info && y.active == x.active && y.generation == x.generation
                  && y.attached.Keys == x.attached.Keys
                  && (forall d | d in x.attached && d != c :: y.attached[d] == x.attached[d])
                  && var was := x.attached[c];
                  y.attached[c] == Attached(was.mode, was.kind, was.cols, was.rows, on))
            && (!AttachedTo(m, s, c) ==> r == m)
  {
  }

  lemma WsHandleEffect(m: State, c: string, ws: nat)
    ensures var r := SetWsHandle(m, c, ws);
            && r.sessions == m.sessions && r.log == m.log && r.next == m.next
            && r.clients.Keys == m.clients.Keys + {c}
            && (forall d | d in m.clients && d != c :: r.clients[d] == m.clients[d])
            && r.clients[c] == (if c in m.clients then Client(m.clients[c].session, m.clients[c].mode, Some(ws))
                                else Client(None, None, Some(ws)))
  {
  }

  /** A removal by ids takes exactly those ids from the session and from the index. */
  lemma RemoveByIdsEffect(m: State, s: string, ids: set<string>)
    ensures var r := RemoveByIds(m, s, ids);
            && r.sessions.Keys == m.sessions.Keys && r.log == m.log && r.next == m.next
            && (forall t, d :: AttachedTo(r, t, d) <==> AttachedTo(m, t, d) && !(t == s && d in ids))
            && (forall t, d | AttachedTo(r, t, d) :: r.sessions[t].attached[d] == m.sessions[t].attached[d])
            && (forall t | t in m.sessions ::
                  && r.sessions[t].info == m.sessions[t].info && r.sessions[t].active == m.sessions[t].active
                  && r.sessions[t].generation == m.sessions[t].generation)
            && (forall d :: IsConnected(r, d) <==> IsConnected(m, d) && d !in ids)
            && (forall d | IsConnected(r, d) :: r.clients[d] == m.clients[d])
  {
  }

  /** An id is kept exactly when it is asked for and nobody is connected under it. */
  lemma ResolveIff(m: State, previous: Option<string>, fallback: string)
    ensures ResolveId(m, previous, fallback)
         == (match previous
             case None => fallback
             case Some(p) => if p in m.clients then fallback else p)
  {
  }

  /** A successful attach request: the client is attached as asked, reachable, and current. */
  lemma TryEffect(l: Loop, a: Attempt)
    ensures var r, c := Try(l, a), ResolveId(l.m, a.previous, a.fallback);
            && r.initial == l.initial && r.ws == l.ws
            && r.m.clients[c].session == Some(a.s) && r.m.clients[c].mode == Some(a.mode)
            && (a.s !in l.m.sessions ==> r.current == l.current && r.m.sessions == l.m.sessions)
            && (a.s in l.m.sessions ==>
                  && r.current == Some(c) && r.m.clients[c].ws == Some(l.ws)
                  && AttachedTo(r.m, a.s, c)
                  && r.m.sessions[a.s].attached[c].mode == a.mode
                  && r.m.sessions[a.s].attached[c].kind == WireBytes)
  {
  }
}
