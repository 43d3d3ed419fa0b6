/**
  One browser connection and the client ids it uses: the one it starts with, one for each
  attach request, and the one it removes on exit.
 */
module ClientLoop {
  import opened Bytes
  import opened SessionState
  import opened SessionManager

  datatype Attempt = Attempt(s: string, previous: Option<string>, fallback: string, mode: Mode)

  datatype Loop = Loop(m: State, initial: string, current: Option<string>, ws: nat)

  function Begin(m: State, initial: string, ws: nat): Loop {
    Loop(SetWsHandle(m, initial, ws), initial, None, ws)
  }

  function IdFor(l: Loop, a: Attempt): string {
    ResolveId(l.m, a.previous, a.fallback)
  }

  /** One attach request; the connection keeps its old id when the session does not exist. */
  function Try(l: Loop, a: Attempt): Loop {
    var c := IdFor(l, a);
    var r := Attach(l.m, a.s, c, a.mode, WireBytes);
    if a.s in l.m.sessions then l.(m := SetWsHandle(r, c, l.ws), current := Some(c)) else l.(m := r)
  }

  function LastId(l: Loop): string {
    if l.current.Some? then l.current.value else l.initial
  }

  /** The loop breaks and cleans up, or a failed send or receive returns before the cleanup. */
  datatype Ending = Broke | Failed

  function End(l: Loop, how: Ending): State {
    if how == Broke then SessionState.RemoveClient(l.m, LastId(l)) else l.m
  }

  class Connection {
    const mgr: Manager
    const clientId: string
    const ws: nat
    var current: Option<string>

    constructor (mgr: Manager, clientId: string, ws: nat)
      modifies mgr
      ensures this.mgr == mgr
      ensures Value() == Begin(old(mgr.Contents()), clientId, ws)
    {
      this.mgr, this.clientId, this.ws, current := mgr, clientId, ws, None;
      new;
      mgr.SetClientWsHandle(clientId, ws);
    }

    ghost function Value(): Loop
      reads this, mgr
    {
      Loop(mgr.Contents(), clientId, current, ws)
    }

    method HandleAttach(a: Attempt) returns (ok: bool)
      modifies this, mgr
      ensures Value() == Try(old(Value()), a)
      ensures ok == (a.s in old(mgr.sessions))
    {
      var c := a.fallback;
      if a.previous.Some? && a.previous.value !in mgr.clients {
        c := a.previous.value;
      }
      var found, _, _ := mgr.AttachClient(a.s, c, a.mode, WireBytes);
      ok := found;
      if ok {
        mgr.SetClientWsHandle(c, ws);
        current := Some(c);
      }
    }

    method Leave(how: Ending)
      modifies mgr
      ensures mgr.Contents() == End(old(Value()), how)
    {
      if how == Failed {
        return;
      }
      var c := if current.Some? then current.value else clientId;
      var _ := mgr.RemoveClient(c);
    }
  }

  function TryAll(l: Loop, attempts: seq<Attempt>): Loop
    decreases |attempts|
  {
    if attempts == [] then l else TryAll(Try(l, attempts[0]), attempts[1..])
  }

  /** Does the request ask for an id that nobody is connected under? */
  predicate KeepsId(l: Loop, a: Attempt) {
    a.previous.Some? && !IsConnected(l.m, a.previous.value)
  }

  /** Ids made up for requests inside the loop are new to the server. */
  predicate AllFresh(l: Loop, attempts: seq<Attempt>)
    decreases |attempts|
  {
    attempts == [] ||
    (!IsConnected(l.m, attempts[0].fallback) && AllFresh(Try(l, attempts[0]), attempts[1..]))
  }

  /** Every such request adds a record of its own, and the last id always has one. */
  lemma {:induction false} RecordsGrow(l: Loop, attempts: seq<Attempt>)
    requires AllFresh(l, attempts) && LastId(l) in l.m.clients
    ensures var end := TryAll(l, attempts);
            && l.m.clients.Keys <= end.m.clients.Keys && LastId(end) in end.m.clients
            && (attempts != [] ==> IdFor(l, attempts[0]) in end.m.clients && IdFor(l, attempts[0]) !in l.m.clients)
    decreases |attempts|
  {
    if attempts != [] {
      RecordsGrow(Try(l, attempts[0]), attempts[1..]);
    }
  }

  /** The request a client may open with uses the connection's own id as its fallback. */
  function Opening(m: State, initial: string, ws: nat, first: Option<Attempt>): Loop {
    var l := Begin(m, initial, ws);
    if first.Some? then Try(l, first.value) else l
  }

  /**
    A connection leaves no index record behind exactly when its loop breaks, it attaches at
    most with the request it opens with, and that request does not get a kept id. Every
    attach inside the loop, a failed one included, leaks a record; so does a failed send.
   */
  lemma NothingLeftIff(m: State, initial: string, ws: nat, first: Option<Attempt>, later: seq<Attempt>, how: Ending)
    requires initial !in m.clients
    requires first.Some? ==> first.value.fallback == initial
    requires AllFresh(Opening(m, initial, ws, first), later)
    ensures var end := TryAll(Opening(m, initial, ws, first), later);
            End(end, how).clients.Keys <= m.clients.Keys <==>
              && how == Broke && later == []
              && (first.Some? ==> !KeepsId(Begin(m, initial, ws), first.value))
  {
    var l := Opening(m, initial, ws, first);
    RecordsGrow(l, later);
    var end := TryAll(l, later);
    assert initial in end.m.clients;
    var kept := if first.Some? && KeepsId(Begin(m, initial, ws), first.value) then first.value.previous else None;
    if kept.Some? {
      assert kept.value in end.m.clients && kept.value !in m.clients && kept.value != initial;
      assert LastId(end) != kept.value ==> how == Broke ==> kept.value in End(end, how).clients;
      assert LastId(end) != initial ==> how == Broke ==> initial in End(end, how).clients;
    } else if later != [] {
      var c := IdFor(l, later[0]);
      assert c in end.m.clients && c !in m.clients && c != initial;
      assert LastId(end) != c ==> how == Broke ==> c in End(end, how).clients;
      assert LastId(end) != initial ==> how == Broke ==> initial in End(end, how).clients;
    }
  }

  /** A reconnect that gets its previous id back leaves the record of the connection's first id for good. */
  lemma KeptIdLeavesRecord(m: State, initial: string, ws: nat, s: string, kept: string, mode: Mode)
    requires kept !in m.clients && initial !in m.clients && kept != initial && s in m.sessions
    ensures var l := Try(Begin(m, initial, ws), Attempt(s, Some(kept), initial, mode));
            && AttachedTo(l.m, s, kept)
            && End(l, Broke).clients.Keys == m.clients.Keys + {initial}
  {
  }
}
