/** The session manager as the server runs it: maps updated in place, one method per request. */
module SessionManager {
  import opened Bytes
  import opened SessionState

  datatype Forwarded = Forwarded(ok: bool, dead: set<string>)

  class Manager {
    var sessions: map<string, Session>
    var clients: map<string, Client>
    var log: seq<Event>
    var nextGeneration: nat

    ghost function Contents(): State
      reads this
    {
      State(sessions, clients, log, nextGeneration)
    }

    constructor ()
      ensures Contents() == Empty() && sessions == map[] && clients == map[] && log == [] && nextGeneration == 1
    {
      sessions, clients, log, nextGeneration := map[], map[], [], 1;
    }

    /** `told` are the in-process clients that were sent a SessionClose; others learn from the log. */
    method RegisterSession(info: Info) returns (generation: nat, told: set<string>)
      modifies this
      ensures Contents() == Register(old(Contents()), info)
      ensures generation == old(nextGeneration)
      ensures told == set c | c in AttachedIds(old(Contents()), info.id)
                              && old(sessions)[info.id].attached[c].kind == LocalControl
    {
      generation := nextGeneration;
      nextGeneration := nextGeneration + 1;
      told := {};
      var replaced := info.id in sessions;
      var before := if replaced then sessions[info.id].attached else map[];
      sessions := sessions[info.id := Session(info, map[], None, generation)];
      if replaced {
        told := OfKind(before, LocalControl);
        clients := Without(clients, before.Keys);
      }
      log := log + [Registered(info)];
    }

    method UnregisterSession(id: string, expected: Option<nat>) returns (told: set<string>)
      modifies this
      ensures Contents() == Unregister(old(Contents()), id, expected)
      ensures id !in sessions <==>
                id !in old(sessions) || expected.None? || expected.value == old(sessions)[id].generation
      ensures log == old(log) + (if id in old(sessions) && id !in sessions then [Closed(id)] else [])
      ensures told == if sessions == old(sessions) then {} else
                set c | c in AttachedIds(old(Contents()), id) && old(sessions)[id].attached[c].kind == LocalControl
    {
      if expected.Some? {
        if id in sessions {
          if sessions[id].generation != expected.value {
            return {};
          }
        } else {
          return {};
        }
      }
      if id in sessions {
        var gone := sessions[id];
        sessions := sessions - {id};
        told := OfKind(gone.attached, LocalControl);
        log := log + [Closed(id)];
        assert id in old(sessions) && id !in sessions;
      } else {
        told := {};
      }
    }

    method UpdateSession(info: Info)
      modifies this
      ensures Contents() == Update(old(Contents()), info)
    {
      if info.id in sessions {
        sessions := sessions[info.id := sessions[info.id].(info := info)];
        log := log + [Updated(info)];
      }
    }

    method SetSessionTitle(id: string, title: string)
      modifies this
      ensures Contents() == SetTitle(old(Contents()), id, title)
    {
      if id in sessions {
        var info := sessions[id].info.(title := title);
        sessions := sessions[id := sessions[id].(info := info)];
        log := log + [Updated(info)];
      }
    }

    /**
      `toAgent`: the agent is told ClientAttached; `told`: the clients on byte channels,
      the new one included, that are told ClientActive.
     */
    method AttachClient(s: string, c: string, mode: Mode, kind: Kind)
      returns (found: bool, toAgent: bool, told: set<string>)
      modifies this
      ensures Contents() == Attach(old(Contents()), s, c, mode, kind)
      ensures found == (s in old(sessions)) && toAgent == (found && mode == Interact)
      ensures told == set d | toAgent && d in AttachedIds(Contents(), s) && sessions[s].attached[d].kind == WireBytes
    {
      if c in clients {
        clients := clients[c := clients[c].(session := Some(s), mode := Some(mode))];
      } else {
        clients := clients[c := Client(Some(s), Some(mode), None)];
      }
      if s !in sessions {
        return false, false, {};
      }
      var x := sessions[s];
      x := x.(attached := x.attached[c := Attached(mode, kind, x.info.cols, x.info.rows, false)]);
      found, toAgent, told := true, false, {};
      if mode != Observe {
        x := x.(active := Some(c));
        toAgent := true;
        told := OfKind(x.attached, WireBytes);
      }
      sessions := sessions[s := x];
    }

    /** `toAgent`: the agent is told that the client detached. */
    method DetachClient(s: string, c: string) returns (toAgent: bool)
      modifies this
      ensures Contents() == Detach(old(Contents()), s, c)
      ensures toAgent == (c in AttachedIds(old(Contents()), s))
    {
      toAgent := false;
      if s in sessions && c in sessions[s].attached {
        var x := sessions[s];
        x := x.(attached := x.attached - {c});
        if x.active == Some(c) {
          x := x.(active := None);
        }
        toAgent := true;
        sessions := sessions[s := x];
      }
      if c in clients {
        clients := clients[c := clients[c].(session := None, mode := None)];
      }
    }

    method SetActiveClient(s: string, c: string, cols: nat, rows: nat, now: nat)
      returns (announce: bool, sizeChanged: bool)
      modifies this
      ensures Contents() == SetActive(old(Contents()), s, c, cols, rows, now)
      ensures sizeChanged <==> s in sessions && (sessions[s].info.cols, sessions[s].info.rows)
                                             != (old(sessions)[s].info.cols, old(sessions)[s].info.rows)
      ensures announce <==> s in sessions && (sizeChanged || sessions[s].active != old(sessions)[s].active)
    {
      if s !in sessions {
        return false, false;
      }
      var x := sessions[s];
      var clientChanged := x.active != Some(c);
      sizeChanged := cols > 0 && rows > 0 && (x.info.cols != cols || x.info.rows != rows);
      x := x.(active := Some(c), info := x.info.(lastActivity := now));
      if cols > 0 && rows > 0 {
        x := x.(info := x.info.(cols := cols, rows := rows));
      }
      sessions := sessions[s := x];
      announce := clientChanged || sizeChanged;
    }

    method UpdateClientSize(s: string, c: string, cols: nat, rows: nat)
      modifies this
      ensures Contents() == SetClientSize(old(Contents()), s, c, cols, rows)
    {
      if s in sessions && c in sessions[s].attached {
        var x := sessions[s];
        sessions := sessions[s := x.(attached := x.attached[c := x.attached[c].(cols := cols, rows := rows)])];
      }
    }

    method SetTerminalIoActive(s: string, c: string, on: bool)
      modifies this
      ensures Contents() == SetTerminalIo(old(Contents()), s, c, on)
    {
      if s in sessions && c in sessions[s].attached {
        var x := sessions[s];
        sessions := sessions[s := x.(attached := x.attached[c := x.attached[c].(terminalIo := on)])];
      }
    }

    method SetClientWsHandle(c: string, ws: nat)
      modifies this
      ensures Contents() == SetWsHandle(old(Contents()), c, ws)
    {
      if c in clients {
        clients := clients[c := clients[c].(ws := Some(ws))];
      } else {
        clients := clients[c := Client(None, None, Some(ws))];
      }
    }

    /** Delivers to every attached client whose channel has room, and reports the closed ones. */
    method ForwardToClient(s: string, chans: map<string, ChanState>) returns (ok: bool, dead: set<string>)
      requires AttachedIds(Contents(), s) <= chans.Keys
      ensures ok <==> exists c :: c in AttachedIds(Contents(), s) && chans[c] == Open
      ensures dead == DeadOf(Contents(), s, chans)
      ensures forall c :: c in dead <==> s in sessions && c in sessions[s].attached && chans[c] == ChanClosed
    {
      ok, dead := false, {};
      if s !in sessions {
        return;
      }
      var all := sessions[s].attached.Keys;
      var todo := all;
      while todo != {}
        invariant todo <= all
        invariant ok <==> exists c :: c in all - todo && chans[c] == Open
        invariant dead == set c | c in all - todo && chans[c] == ChanClosed
        decreases |todo|
      {
        var c :| c in todo;
        todo := todo - {c};
        match chans[c] {
          case ChanClosed => dead := dead + {c};
          case Open => ok := true; assert c in all - todo && chans[c] == Open;
          case Full =>
        }
      }
    }

    method RemoveClientsById(s: string, ids: set<string>)
      modifies this
      ensures Contents() == RemoveByIds(old(Contents()), s, ids)
    {
      if ids == {} {
        EmptyRemoval(Contents(), s);
        return;
      }
      if s in sessions {
        var x := sessions[s];
        var kept := Without(x.attached, ids);
        sessions := sessions[s := x.(attached := kept)];
      }
      clients := Without(clients, ids);
    }

    /** Forwards, then drops the clients found dead: the agreement of the maps survives. */
    method ForwardAndCleanup(s: string, chans: map<string, ChanState>) returns (ok: bool)
      requires AttachedIds(Contents(), s) <= chans.Keys
      modifies this
      ensures Contents() == RemoveByIds(old(Contents()), s, DeadOf(old(Contents()), s, chans))
      ensures ok <==> exists c :: c in AttachedIds(Contents(), s) && chans[c] == Open
      ensures old(Agree(Contents())) ==> Agree(Contents())
    {
      ghost var before := Contents();
      var dead;
      ok, dead := ForwardToClient(s, chans);
      if dead != {} {
        RemoveClientsById(s, dead);
      } else {
        EmptyRemoval(before, s);
      }
      if Agree(before) {
        OwnDeadAreNotElsewhere(before, s, chans);
        RemoveByIdsKeepsIff(before, s, dead);
      }
      assert forall c | c in AttachedIds(before, s) && chans[c] == Open :: c in AttachedIds(Contents(), s);
    }

    /** `toAgent` names the session whose agent is told that the client detached. */
    method RemoveClient(c: string) returns (toAgent: Option<string>)
      modifies this
      ensures Contents() == SessionState.RemoveClient(old(Contents()), c)
      ensures forall s :: toAgent == Some(s) <==>
                c in old(clients) && old(clients)[c].session == Some(s) && AttachedTo(old(Contents()), s, c)
    {
      toAgent := None;
      var named := if c in clients then clients[c].session else None;
      if named.Some? && named.value in sessions {
        var x := sessions[named.value];
        if c in x.attached {
          toAgent := named;
        }
        sessions := sessions[named.value := x.(attached := x.attached - {c})];
      }
      clients := clients - {c};
    }

    /**
      A resize request: ignored from a client that only observes the session, otherwise it
      makes the named client active. Returns whether the agent is told of a new size.
     */
    method HandleResize(from: string, s: string, c: string, cols: nat, rows: nat, now: nat) returns (tell: bool)
      modifies this
      ensures Contents() == Resize(old(Contents()), from, s, c, cols, rows, now)
      ensures tell <==> s in sessions && (sessions[s].info.cols, sessions[s].info.rows)
                                      != (old(sessions)[s].info.cols, old(sessions)[s].info.rows)
      ensures tell ==> sessions[s].info.cols == cols && sessions[s].info.rows == rows
    {
      if from in clients && clients[from].mode == Some(Observe) && clients[from].session == Some(s) {
        return false;
      }
      UpdateClientSize(s, c, cols, rows);
      var announce;
      announce, tell := SetActiveClient(s, c, cols, rows, now);
    }

    /** All sessions, the most recently started first. */
    method ListSessions() returns (list: seq<Info>)
      requires Keyed(Contents())
      ensures IsListing(Contents(), list)
      ensures NewestFirst(list)
    {
      hide Lists, NewestFirst;
      var live := sessions;
      NoneListed(live);
      list := [];
      var todo, listed := live.Keys, {};
      while todo != {}
        invariant sessions == live && Keyed(Contents())
        invariant listed + todo == live.Keys && listed !! todo
        invariant Lists(live, listed, list) && NewestFirst(list)
        decreases |todo|
      {
        var id :| id in todo;
        var k := PlaceFor(list, live[id].info);
        InsertLists(live, listed, list, id, k);
        list := list[..k] + [live[id].info] + list[k..];
        todo, listed := todo - {id}, listed + {id};
      }
      assert listed == live.Keys;
    }
  }

  /** Removes the named entries one at a time. */
  method Without<V>(entries: map<string, V>, ids: set<string>) returns (kept: map<string, V>)
    ensures kept == entries - ids
  {
    kept := entries;
    var todo := ids;
    while todo != {}
      invariant todo <= ids && kept == entries - (ids - todo)
      decreases |todo|
    {
      var c :| c in todo;
      kept := kept - {c};
      todo := todo - {c};
    }
    assert ids - todo == ids;
  }

  predicate NewestFirst(list: seq<Info>) {
    forall i, j | 0 <= i < j < |list| :: list[i].startedAt >= list[j].startedAt
  }

  method PlaceFor(list: seq<Info>, info: Info) returns (k: nat)
    requires NewestFirst(list)
    ensures k <= |list| && NewestFirst(list[..k] + [info] + list[k..])
  {
    k := 0;
    while k < |list| && list[k].startedAt >= info.startedAt
      invariant k <= |list|
      invariant forall i | 0 <= i < k :: list[i].startedAt >= info.startedAt
    {
      k := k + 1;
    }
  }

  /** The clients whose channel is of this kind. */
  method OfKind(attached: map<string, Attached>, kind: Kind) returns (told: set<string>)
    ensures told == set c | c in attached && attached[c].kind == kind
  {
    told := {};
    var todo, seen := attached.Keys, {};
    while todo != {}
      invariant seen + todo == attached.Keys
      invariant told == set c | c in seen && attached[c].kind == kind
      decreases |todo|
    {
      var c :| c in todo;
      if attached[c].kind == kind {
        told := told + {c};
      }
      todo, seen := todo - {c}, seen + {c};
    }
    assert seen == attached.Keys;
  }

  lemma EmptyRemoval(m: State, s: string)
    ensures RemoveByIds(m, s, {}) == m
  {
    assert m.clients - {} == m.clients;
    if s in m.sessions {
      assert m.sessions[s].attached - {} == m.sessions[s].attached;
    }
  }

  // ----- listings -----

  /** `list` holds the info of each session in `ids`, under its own id, once. */
  ghost predicate Lists(sessions: map<string, Session>, ids: set<string>, list: seq<Info>) {
    && ids <= sessions.Keys
    && (forall id | id in ids :: sessions[id].info in list)
    && (forall x | x in list :: x.id in ids && x == sessions[x.id].info)
    && |list| == |ids|
  }

  /** Every session sits under the id in its own info. */
  predicate Keyed(m: State) {
    forall id | id in m.sessions :: m.sessions[id].info.id == id
  }

  ghost predicate IsListing(m: State, list: seq<Info>) {
    Lists(m.sessions, m.sessions.Keys, list)
  }

  lemma NoneListed(sessions: map<string, Session>)
    ensures Lists(sessions, {}, []) && NewestFirst([])
  {
  }

  lemma Inserted(list: seq<Info>, k: nat, info: Info)
    requires k <= |list|
    ensures forall x :: x in list[..k] + [info] + list[k..] <==> x == info || x in list
  {
    assert list == list[..k] + list[k..];
  }

  lemma InsertLists(sessions: map<string, Session>, ids: set<string>, list: seq<Info>, id: string, k: nat)
    requires Lists(sessions, ids, list) && id in sessions && id !in ids && k <= |list|
    requires sessions[id].info.id == id
    ensures Lists(sessions, ids + {id}, list[..k] + [sessions[id].info] + list[k..])
  {
    Inserted(list, k, sessions[id].info);
  }

  // ----- resizing -----

  function Resize(m: State, from: string, s: string, c: string, cols: nat, rows: nat, now: nat): State {
    if IsObserver(m, s, from) then m
    else SetActive(SetClientSize(m, s, c, cols, rows), s, c, cols, rows, now)
  }

  /** Whoever is attached to a session in observe mode cannot resize it. */
  lemma ObserversCannotResize(m: State, from: string, s: string, c: string, cols: nat, rows: nat, now: nat)
    requires Agree(m) && AttachedTo(m, s, from)
    ensures m.sessions[s].attached[from].mode == Observe ==> Resize(m, from, s, c, cols, rows, now) == m
    ensures m.sessions[s].attached[from].mode == Interact ==>
              var r := Resize(m, from, s, c, cols, rows, now);
              && AttachedTo(r, s, from)
              && r.sessions[s].active == Some(c) && r.sessions[s].info.lastActivity == now
              && r.sessions.Keys == m.sessions.Keys && r.clients == m.clients && r.log == m.log
              && (forall t | t in m.sessions && t != s :: r.sessions[t] == m.sessions[t])
              && (cols > 0 && rows > 0 ==> r.sessions[s].info.cols == cols && r.sessions[s].info.rows == rows)
  {
    ObserverIsAttachedMode(m, s, from);
  }
}
