/**
  All runs of the session manager: agents registering and leaving, clients attaching,
  resizing, detaching, being cleaned up or disconnecting, in any order. What the two maps,
  the generations and the event log keep, and what a subscriber makes of the log.
 */
module SessionRuns {
  import opened Bytes
  import opened SessionState
  import opened SessionManager

  datatype Op =
    | OpRegister(info: Info)
    | OpUnregister(id: string, expected: Option<nat>)
    | OpUpdate(info: Info)
    | OpSetTitle(id: string, title: string)
    | OpAttach(s: string, previous: Option<string>, fallback: string, mode: Mode, kind: Kind)
    | OpDetach(s: string, c: string)
    | OpResize(from: string, s: string, c: string, cols: nat, rows: nat, now: nat)
    | OpTerminalIo(s: string, c: string, on: bool)
    | OpWsHandle(c: string, ws: nat)
    | OpRemoveDead(s: string, ids: set<string>)
    | OpRemoveClient(c: string)

  function Act(m: State, op: Op): State {
    match op
    case OpRegister(info) => Register(m, info)
    case OpUnregister(id, expected) => Unregister(m, id, expected)
    case OpUpdate(info) => Update(m, info)
    case OpSetTitle(id, title) => SetTitle(m, id, title)
    case OpAttach(s, previous, fallback, mode, kind) => Attach(m, s, ResolveId(m, previous, fallback), mode, kind)
    case OpDetach(s, c) => Detach(m, s, c)
    case OpResize(from, s, c, cols, rows, now) => Resize(m, from, s, c, cols, rows, now)
    case OpTerminalIo(s, c, on) => SetTerminalIo(m, s, c, on)
    case OpWsHandle(c, ws) => SetWsHandle(m, c, ws)
    case OpRemoveDead(s, ids) => RemoveByIds(m, s, ids)
    case OpRemoveClient(c) => SessionState.RemoveClient(m, c)
  }

  /**
    Exactly what a step must respect (StepKeepsAgreementIff): an attach, a detach or a cleanup
    of dead clients names no client that is attached to another session. Attaches through
    `client_attach` meet it (ResolvedIdIsFree), and so does the cleanup of a session's own
    dead list (OwnDeadAreNotElsewhere). An SSH connection that attaches again under its one
    id without detaching does not (SecondAttachLeavesGhost).
   */
  ghost predicate Allowed(m: State, op: Op) {
    match op
    case OpAttach(s, previous, fallback, _, _) => !AttachedElsewhere(m, s, ResolveId(m, previous, fallback))
    case OpDetach(s, c) => !AttachedElsewhere(m, s, c)
    case OpRemoveDead(s, ids) => forall c | c in ids :: !AttachedElsewhere(m, s, c)
    case _ => true
  }

  function Run(m: State, ops: seq<Op>): State
    decreases |ops|
  {
    if ops == [] then m else Run(Act(m, ops[0]), ops[1..])
  }

  ghost predicate AllAllowed(m: State, ops: seq<Op>)
    decreases |ops|
  {
    ops == [] || (Allowed(m, ops[0]) && AllAllowed(Act(m, ops[0]), ops[1..]))
  }

  lemma {:induction false} RunConcat(m: State, a: seq<Op>, b: seq<Op>)
    ensures Run(m, a + b) == Run(Run(m, a), b)
    decreases |a|
  {
    hide Act;
    if a == [] {
      assert a + b == b;
    } else {
      assert (a + b)[1..] == a[1..] + b;
      RunConcat(Act(m, a[0]), a[1..], b);
    }
  }

  // ----- the two maps -----

  /** A step keeps the two maps in agreement exactly when it is allowed. */
  lemma StepKeepsAgreementIff(m: State, op: Op)
    requires Agree(m)
    ensures Agree(Act(m, op)) <==> Allowed(m, op)
  {
    hide Agree, AttachedAnywhere, AttachedElsewhere, Register, Unregister, Attach, Detach, SessionState.RemoveClient;
    match op {
      case OpRegister(info) => RegisterKeeps(m, info);
      case OpUnregister(id, expected) => UnregisterKeeps(m, id, expected);
      case OpAttach(s, previous, fallback, mode, kind) =>
        AttachKeepsIff(m, s, ResolveId(m, previous, fallback), mode, kind);
      case OpDetach(s, c) => DetachKeepsIff(m, s, c);
      case OpRemoveDead(s, ids) => RemoveByIdsKeepsIff(m, s, ids);
      case OpRemoveClient(c) => RemoveClientKeeps(m, c);
      case _ => SameAttachmentsKeep(m, Act(m, op));
    }
  }

  /** An attach through `client_attach` with a made-up id that is attached nowhere is allowed. */
  lemma ClientAttachIsAllowed(m: State, s: string, previous: Option<string>, fallback: string, mode: Mode, kind: Kind)
    requires Agree(m) && !AttachedAnywhere(m, fallback)
    ensures Allowed(m, OpAttach(s, previous, fallback, mode, kind))
  {
    hide Agree;
    ResolvedIdIsFree(m, previous, fallback);
    var c := ResolveId(m, previous, fallback);
    assert AttachedElsewhere(m, s, c) ==> AttachedAnywhere(m, c);
  }

  /** A cleanup of a dead list taken in this very state is allowed. */
  lemma OwnCleanupIsAllowed(m: State, s: string, chans: map<string, ChanState>)
    requires Agree(m)
    ensures Allowed(m, OpRemoveDead(s, DeadOf(m, s, chans)))
  {
    OwnDeadAreNotElsewhere(m, s, chans);
  }

  /**
    A client attached to `s` that attaches to `t` under the same id, as a second request on
    one SSH connection does, breaks the agreement; its detach from `t` and its removal through
    the index then leave it attached to `s`, until `s` ends or cleans up its dead clients.
   */
  lemma SecondAttachLeavesGhost(m: State, s: string, t: string, c: string, mode: Mode)
    requires Agree(m) && AttachedTo(m, s, c) && t in m.sessions && t != s
    ensures var twice := Act(m, OpAttach(t, None, c, mode, LocalControl));
            var gone := Run(twice, [OpDetach(t, c), OpRemoveClient(c)]);
            && !Agree(twice) && AttachedTo(twice, s, c) && AttachedTo(twice, t, c)
            && AttachedTo(gone, s, c) && !IsConnected(gone, c)
  {
    var twice := Act(m, OpAttach(t, None, c, mode, LocalControl));
    assert AttachedElsewhere(m, t, c) by { assert AttachedTo(m, s, c) && s != t; }
    AttachKeepsIff(m, t, c, mode, LocalControl);
    var ops := [OpDetach(t, c), OpRemoveClient(c)];
    assert ops[1..] == [OpRemoveClient(c)] && ops[1..][1..] == [];
    var once := Act(twice, ops[0]);
    assert AttachedTo(once, s, c) && once.clients[c].session == None;
    assert Run(twice, ops) == Run(Act(once, OpRemoveClient(c)), []);
  }

  /** Over every run of allowed steps: one session per client, named with its mode by the client's record. */
  lemma {:induction false} RunKeepsAgreement(m: State, ops: seq<Op>)
    requires Agree(m) && AllAllowed(m, ops)
    ensures Agree(Run(m, ops))
    decreases |ops|
  {
    hide Agree, Allowed, Act;
    if ops != [] {
      StepKeepsAgreementIff(m, ops[0]);
      RunKeepsAgreement(Act(m, ops[0]), ops[1..]);
    }
  }

  /** A client that disconnects after a run of allowed steps is attached nowhere and has no record. */
  lemma DisconnectLeavesNothing(ops: seq<Op>, c: string)
    requires AllAllowed(Empty(), ops)
    ensures var m := Run(Empty(), ops + [OpRemoveClient(c)]);
            !AttachedAnywhere(m, c) && !IsConnected(m, c)
  {
    hide Allowed, AttachedAnywhere, Agree, SessionState.RemoveClient;
    EmptyAgrees();
    RunKeepsAgreement(Empty(), ops);
    RunConcat(Empty(), ops, [OpRemoveClient(c)]);
    var m := Run(Empty(), ops);
    assert Run(m, [OpRemoveClient(c)]) == Run(Act(m, OpRemoveClient(c)), []);
    RemoveClientIsScan(m, c);
  }

  lemma EmptyAgrees()
    ensures Agree(Empty())
  {
  }

  // ----- generations -----

  /** Every live session carries a generation already handed out, no two the same, under its own id. */
  ghost predicate Stamped(m: State) {
    && Keyed(m)
    && (forall s | s in m.sessions :: m.sessions[s].generation < m.next)
    && (forall s, t | s in m.sessions && t in m.sessions && s != t ::
          m.sessions[s].generation != m.sessions[t].generation)
  }

  /** From m to r, generations are kept, except that one registration may take the next one. */
  ghost predicate Restamps(m: State, op: Op, r: State) {
    && r.next == m.next + (if op.OpRegister? then 1 else 0)
    && Keyed(r)
    && (forall s | s in r.sessions :: (s in m.sessions && r.sessions[s].generation == m.sessions[s].generation)
                                   || (op == OpRegister(r.sessions[s].info) && r.sessions[s].generation == m.next))
  }

  lemma StepKeepsKeys(m: State, op: Op)
    requires Keyed(m)
    ensures Keyed(Act(m, op))
  {
  }

  lemma StepKeepsGenerations(m: State, op: Op)
    requires !op.OpRegister?
    ensures var r := Act(m, op);
            && r.next == m.next
            && forall s | s in r.sessions ::
                 s in m.sessions && r.sessions[s].generation == m.sessions[s].generation
  {
  }

  /** One step changes a generation only by registering, which uses up the next one. */
  lemma StepStamps(m: State, op: Op)
    requires Stamped(m)
    ensures Stamped(Act(m, op)) && Restamps(m, op, Act(m, op))
  {
    StepKeepsKeys(m, op);
    if !op.OpRegister? {
      hide Act;
      StepKeepsGenerations(m, op);
    }
  }

  ghost predicate Superseded(m: State, id: string, generation: nat) {
    generation < m.next && (id in m.sessions ==> m.sessions[id].generation != generation)
  }

  /** A generation that has been superseded stays superseded: its late unregister changes nothing, ever. */
  lemma {:induction false} StaleUnregisterNeverActs(m: State, ops: seq<Op>, id: string, generation: nat)
    requires Stamped(m) && Superseded(m, id, generation)
    ensures Superseded(Run(m, ops), id, generation)
    ensures Unregister(Run(m, ops), id, Some(generation)) == Run(m, ops)
    decreases |ops|
  {
    hide Stamped, Act;
    if ops != [] {
      StepStamps(m, ops[0]);
      StaleUnregisterNeverActs(Act(m, ops[0]), ops[1..], id, generation);
    }
  }

  /**
    An agent that registers again cannot be thrown out by its own old connection: after any
    run from the re-registration on, the old generation's unregister is without effect.
   */
  lemma ReconnectSurvivesOldAgent(m: State, info: Info, between: seq<Op>, again: Info, later: seq<Op>)
    requires Stamped(m) && info.id == again.id
    ensures var first := m.next;
            var r := Run(Register(Run(Register(m, info), between), again), later);
            Unregister(r, info.id, Some(first)) == r
  {
    hide Stamped, Run, Register;
    StepStamps(m, OpRegister(info));
    var mid := Run(Register(m, info), between);
    RunStamps(Register(m, info), between);
    RegisterSupersedes(mid, again, m.next);
    StepStamps(mid, OpRegister(again));
    StaleUnregisterNeverActs(Register(mid, again), later, info.id, m.next);
  }

  /** No operation in the list registers `id`. */
  predicate NoRegistration(ops: seq<Op>, id: string) {
    forall op | op in ops && op.OpRegister? :: op.info.id != id
  }

  lemma {:induction false} GenerationStays(m: State, ops: seq<Op>, id: string, generation: nat)
    requires Stamped(m) && NoRegistration(ops, id)
    requires id in m.sessions ==> m.sessions[id].generation == generation
    ensures var r := Run(m, ops); id in r.sessions ==> r.sessions[id].generation == generation
    decreases |ops|
  {
    hide Act;
    if ops != [] {
      StepStamps(m, ops[0]);
      assert ops[0] in ops;
      GenerationStays(Act(m, ops[0]), ops[1..], id, generation);
    }
  }

  /**
    And an agent that leaves does take its session with it: the generation its registration
    returned removes the session in any later state, unless the id was registered again.
   */
  lemma OwnUnregisterActs(m: State, info: Info, between: seq<Op>)
    requires Stamped(m) && NoRegistration(between, info.id)
    ensures var r := Run(Register(m, info), between);
            var gone := Unregister(r, info.id, Some(m.next));
            && info.id !in gone.sessions
            && gone.log == r.log + (if info.id in r.sessions then [Closed(info.id)] else [])
  {
    hide Stamped, Run, Unregister;
    StepStamps(m, OpRegister(info));
    var r := Run(Register(m, info), between);
    GenerationStays(Register(m, info), between, info.id, m.next);
    UnregisterActsIff(r, info.id, Some(m.next));
  }

  lemma RegisterSupersedes(m: State, info: Info, generation: nat)
    requires generation < m.next
    ensures Superseded(Register(m, info), info.id, generation)
  {
  }

  lemma {:induction false} RunStamps(m: State, ops: seq<Op>)
    requires Stamped(m)
    ensures Stamped(Run(m, ops)) && Run(m, ops).next >= m.next
    decreases |ops|
  {
    hide Stamped, Act;
    if ops != [] {
      StepStamps(m, ops[0]);
      RunStamps(Act(m, ops[0]), ops[1..]);
    }
  }

  // ----- the event log -----

  function IdOf(e: Event): string {
    match e
    case Registered(info) => info.id
    case Updated(info) => info.id
    case Closed(id) => id
  }

  /**
    The life of one id in the log: (Registered (Registered | Updated)* Closed)*. Some(open)
    says whether the last group is still open, None that the log breaks the pattern.
   */
  function Life(log: seq<Event>, id: string): Option<bool> {
    if log == [] then Some(false) else
      var e := log[|log| - 1];
      var before := Life(log[..|log| - 1], id);
      if IdOf(e) != id || before.None? then before
      else if e.Registered? then Some(true)
      else if before == Some(false) then None
      else Some(e.Updated?)
  }

  /** The log tells of every id exactly whether it is live. */
  ghost predicate Told(m: State) {
    forall id :: Life(m.log, id) == Some(id in m.sessions)
  }

  lemma LifeStep(log: seq<Event>, e: Event, id: string)
    ensures Life(log + [e], id) ==
              (if IdOf(e) != id || Life(log, id).None? then Life(log, id)
               else if e.Registered? then Some(true)
               else if Life(log, id) == Some(false) then None
               else Some(e.Updated?))
  {
    assert (log + [e])[..|log|] == log;
  }

  function EventsOf(m: State, op: Op): seq<Event> {
    Act(m, op).log[Min(|m.log|, |Act(m, op).log|)..]
  }

  lemma StepAppends(m: State, op: Op)
    requires Keyed(m)
    ensures Act(m, op).log == m.log + EventsOf(m, op) && |EventsOf(m, op)| <= 1
    ensures forall e | e in EventsOf(m, op) && !e.Registered? :: IdOf(e) in m.sessions
  {
  }

  /** Each step logs at most one event, and that event is the whole change to the set of sessions. */
  lemma StepLogs(m: State, op: Op)
    requires Keyed(m)
    ensures Act(m, op).log == m.log + EventsOf(m, op) && |EventsOf(m, op)| <= 1
    ensures Act(m, op).sessions.Keys == FoldIds(EventsOf(m, op), m.sessions.Keys)
  {
    StepAppends(m, op);
  }

  lemma {:induction false} RunIsTold(m: State, ops: seq<Op>)
    requires Stamped(m) && Told(m)
    ensures Told(Run(m, ops))
    decreases |ops|
  {
    hide Act, Life;
    if ops != [] {
      StepStamps(m, ops[0]);
      var es := EventsOf(m, ops[0]);
      StepAppends(m, ops[0]);
      StepLogs(m, ops[0]);
      if es == [] {
        assert m.log + es == m.log;
      } else {
        assert es == [es[0]];
        forall id {
          LifeStep(m.log, es[0], id);
        }
        assert FoldIds(es[1..], FoldId(es[0], m.sessions.Keys)) == FoldId(es[0], m.sessions.Keys);
      }
      RunIsTold(Act(m, ops[0]), ops[1..]);
    }
  }

  /** From an empty server on, in every state: well-stamped sessions and a log that tells of every id. */
  lemma EveryStateIsTold(ops: seq<Op>)
    ensures Stamped(Run(Empty(), ops)) && Told(Run(Empty(), ops))
    ensures AllAllowed(Empty(), ops) ==> Agree(Run(Empty(), ops))
  {
    hide Run;
    EmptyIsTold();
    RunStamps(Empty(), ops);
    RunIsTold(Empty(), ops);
    if AllAllowed(Empty(), ops) {
      EmptyAgrees();
      RunKeepsAgreement(Empty(), ops);
    }
  }

  lemma EmptyIsTold()
    ensures Stamped(Empty()) && Told(Empty())
  {
  }

  // ----- ids as a subscriber sees them -----

  function FoldId(e: Event, ids: set<string>): set<string> {
    match e
    case Registered(info) => ids + {info.id}
    case Updated(_) => ids
    case Closed(id) => ids - {id}
  }

  function FoldIds(es: seq<Event>, ids: set<string>): set<string> {
    if es == [] then ids else FoldIds(es[1..], FoldId(es[0], ids))
  }

  lemma {:induction false} FoldIdsConcat(a: seq<Event>, b: seq<Event>, ids: set<string>)
    ensures FoldIds(a + b, ids) == FoldIds(b, FoldIds(a, ids))
  {
    if a == [] {
      assert a + b == b;
    } else {
      assert (a + b)[1..] == a[1..] + b;
      FoldIdsConcat(a[1..], b, FoldId(a[0], ids));
    }
  }

  lemma {:induction false} RunLogs(m: State, ops: seq<Op>) returns (es: seq<Event>)
    requires Stamped(m)
    ensures Run(m, ops).log == m.log + es
    ensures Run(m, ops).sessions.Keys == FoldIds(es, m.sessions.Keys)
    decreases |ops|
  {
    hide Act, FoldIds;
    if ops == [] {
      es := [];
      NoEvents(m);
    } else {
      StepStamps(m, ops[0]);
      var first := EventsOf(m, ops[0]);
      StepLogs(m, ops[0]);
      var later := RunLogs(Act(m, ops[0]), ops[1..]);
      es := first + later;
      FoldIdsConcat(first, later, m.sessions.Keys);
    }
  }

  lemma NoEvents(m: State)
    ensures m.log + [] == m.log && FoldIds([], m.sessions.Keys) == m.sessions.Keys
  {
  }

  /** Per id: folding `es` twice is folding it once, because only the last word on an id counts. */
  lemma {:induction false} FoldTwice(es: seq<Event>, ids: set<string>, other: set<string>, id: string)
    requires id in other <==> id in FoldIds(es, ids)
    ensures id in FoldIds(es, other) <==> id in FoldIds(es, ids)
  {
    if es != [] {
      var a, b := FoldId(es[0], ids), FoldId(es[0], other);
      if (id in a) == (id in b) {
        SameFate(es[1..], a, b, id);
      } else {
        FoldTwice(es[1..], a, b, id);
      }
    }
  }

  lemma {:induction false} SameFate(es: seq<Event>, a: set<string>, b: set<string>, id: string)
    requires id in a <==> id in b
    ensures id in FoldIds(es, a) <==> id in FoldIds(es, b)
  {
    if es != [] {
      SameFate(es[1..], FoldId(es[0], a), FoldId(es[0], b), id);
    }
  }
}
