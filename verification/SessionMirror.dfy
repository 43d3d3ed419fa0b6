/**
  A browser that subscribes to the event log, then takes a snapshot of the session list, then
  folds every event since the subscription over that snapshot.
 */
module SessionMirror {
  import opened Bytes
  import opened SessionState
  import opened SessionManager
  import opened SessionRuns

  // ----- the client's reducers -----

  function Replace(list: seq<Info>, info: Info): (r: seq<Info>)
    ensures |r| == |list|
    ensures forall i | 0 <= i < |list| :: r[i] == if list[i].id == info.id then info else list[i]
  {
    if list == [] then [] else [if list[0].id == info.id then info else list[0]] + Replace(list[1..], info)
  }

  function Without(list: seq<Info>, id: string): (r: seq<Info>)
    ensures forall x :: x in r <==> x in list && x.id != id
  {
    if list == [] then []
    else if list[0].id == id then Without(list[1..], id)
    else [list[0]] + Without(list[1..], id)
  }

  predicate Has(list: seq<Info>, id: string) {
    exists i :: 0 <= i < |list| && list[i].id == id
  }

  function Reduce(list: seq<Info>, e: Event): seq<Info> {
    match e
    case Updated(info) => Replace(list, info)
    case Registered(info) => if Has(list, info.id) then list else list + [info]
    case Closed(id) => Without(list, id)
  }

  function ReduceAll(list: seq<Info>, es: seq<Event>): seq<Info>
    decreases |es|
  {
    if es == [] then list else ReduceAll(Reduce(list, es[0]), es[1..])
  }

  /** The order of the list: what is there keeps its place, and a new session comes last. */
  lemma ReduceOrder(list: seq<Info>, e: Event)
    ensures e.Updated? ==>
              && |Reduce(list, e)| == |list|
              && forall i | 0 <= i < |list| ::
                   Reduce(list, e)[i] == if list[i].id == e.info.id then e.info else list[i]
    ensures e.Registered? && (forall x | x in list :: x.id != e.info.id) ==> Reduce(list, e) == list + [e.info]
    ensures e.Registered? && (exists x :: x in list && x.id == e.info.id) ==> Reduce(list, e) == list
  {
    hide Without, Replace;
    if e.Registered? && exists x :: x in list && x.id == e.info.id {
      var x :| x in list && x.id == e.info.id;
      var i :| 0 <= i < |list| && list[i] == x;
      assert list[i].id == e.info.id;
    }
  }

  /** A closed session is taken out, wherever it is, and the rest closes up. */
  lemma CloseOrder(a: seq<Info>, x: Info, b: seq<Info>, id: string)
    ensures Reduce(a + [x] + b, Closed(id))
         == Reduce(a, Closed(id)) + (if x.id == id then [] else [x]) + Reduce(b, Closed(id))
  {
    hide Without;
    WithoutConcat(a + [x], b, id);
    WithoutConcat(a, [x], id);
    WithoutOne(x, id);
  }

  lemma WithoutOne(x: Info, id: string)
    ensures Without([x], id) == if x.id == id then [] else [x]
  {
    assert [x][1..] == [];
  }

  lemma {:induction false} WithoutConcat(a: seq<Info>, b: seq<Info>, id: string)
    ensures Without(a + b, id) == Without(a, id) + Without(b, id)
  {
    if a == [] {
      assert a + b == b;
    } else {
      assert (a + b)[1..] == a[1..] + b;
      WithoutConcat(a[1..], b, id);
      Assoc(if a[0].id == id then [] else [a[0]], Without(a[1..], id), Without(b, id));
    }
  }

  // ----- ids -----

  function Ids(list: seq<Info>): set<string> {
    set i | 0 <= i < |list| :: list[i].id
  }

  lemma ReduceIds(list: seq<Info>, e: Event)
    ensures Ids(Reduce(list, e)) == FoldId(e, Ids(list))
  {
    match e {
      case Updated(info) =>
        forall id
          ensures id in Ids(Replace(list, info)) <==> id in Ids(list)
        {
          assert forall i | 0 <= i < |list| :: Replace(list, info)[i].id == list[i].id;
        }
      case Registered(info) =>
        var r := Reduce(list, e);
        assert forall i | 0 <= i < |list| :: r[i] == list[i];
        if !Has(list, info.id) {
          assert r[|list|] == info;
        }
      case Closed(id) => IdsWithout(list, id);
    }
  }

  lemma IdsByMembers(list: seq<Info>, id: string)
    ensures id in Ids(list) <==> exists x :: x in list && x.id == id
  {
  }

  lemma IdsWithout(list: seq<Info>, id: string)
    ensures Ids(Without(list, id)) == Ids(list) - {id}
  {
    forall other
      ensures other in Ids(Without(list, id)) <==> other in Ids(list) && other != id
    {
      IdsByMembers(list, other);
      IdsByMembers(Without(list, id), other);
    }
  }

  lemma {:induction false} ReduceAllIds(list: seq<Info>, es: seq<Event>)
    ensures Ids(ReduceAll(list, es)) == FoldIds(es, Ids(list))
    decreases |es|
  {
    hide Reduce, Ids, FoldId;
    if es != [] {
      ReduceIds(list, es[0]);
      ReduceAllIds(Reduce(list, es[0]), es[1..]);
    }
  }

  lemma ListingIds(m: State, list: seq<Info>)
    requires Keyed(m) && IsListing(m, list)
    ensures Ids(list) == m.sessions.Keys
  {
    forall id
      ensures id in Ids(list) <==> id in m.sessions
    {
      IdsByMembers(list, id);
    }
  }

  /**
    Subscribe, let the server run, take the list, let the server run on, and fold all events
    since the subscription over that list: the ids shown are exactly the server's, although
    the list already reflects some of those events.
   */
  lemma SnapshotConverges(m: State, before: seq<Op>, after: seq<Op>, list: seq<Info>)
    requires Stamped(m) && IsListing(Run(m, before), list)
    ensures var end := Run(m, before + after);
            && |end.log| >= |m.log|
            && Ids(ReduceAll(list, end.log[|m.log|..])) == end.sessions.Keys
  {
    hide Run, Stamped, IsListing, FoldIds, ReduceAll, Ids;
    RunConcat(m, before, after);
    RunStamps(m, before);
    var mid := Run(m, before);
    ListingOfStamped(mid, list);
    var p := RunLogs(m, before);
    var q := RunLogs(mid, after);
    Assoc(m.log, p, q);
    assert Run(m, before + after).log[|m.log|..] == p + q;
    ReduceAllIds(list, p + q);
    FoldIdsConcat(p, q, mid.sessions.Keys);
    assert FoldIds(p, mid.sessions.Keys) == mid.sessions.Keys by {
      FoldIsIdempotent(p, m.sessions.Keys);
    }
  }

  lemma ListingOfStamped(m: State, list: seq<Info>)
    requires Stamped(m) && IsListing(m, list)
    ensures Ids(list) == m.sessions.Keys
  {
    ListingIds(m, list);
  }

  lemma FoldIsIdempotent(es: seq<Event>, ids: set<string>)
    ensures FoldIds(es, FoldIds(es, ids)) == FoldIds(es, ids)
  {
    forall id {
      FoldTwice(es, ids, FoldIds(es, ids), id);
    }
  }

  // ----- infos -----

  /** Window size and last activity also change without an event; the rest is what events carry. */
  function Announced(info: Info): Info {
    info.(cols := 0, rows := 0, lastActivity := 0)
  }

  /** What an event makes of the announced info of one id at the server, and at a client. */
  function ServerSees(y: Option<Info>, e: Event, id: string): Option<Info> {
    if IdOf(e) != id then y else
      match e
      case Registered(info) => Some(Announced(info))
      case Updated(info) => Some(Announced(info))
      case Closed(_) => None
  }

  function ClientSees(z: Option<Info>, e: Event, id: string): Option<Info> {
    if IdOf(e) != id then z else
      match e
      case Registered(info) => if z.Some? then z else Some(Announced(info))
      case Updated(info) => if z.Some? then Some(Announced(info)) else None
      case Closed(_) => None
  }

  function ServerSeesAll(y: Option<Info>, es: seq<Event>, id: string): Option<Info>
    decreases |es|
  {
    if es == [] then y else ServerSeesAll(ServerSees(y, es[0], id), es[1..], id)
  }

  function ClientSeesAll(z: Option<Info>, es: seq<Event>, id: string): Option<Info>
    decreases |es|
  {
    if es == [] then z else ClientSeesAll(ClientSees(z, es[0], id), es[1..], id)
  }

  /** No registration of `id` finds it already registered. */
  predicate NoReplacement(y: Option<Info>, es: seq<Event>, id: string)
    decreases |es|
  {
    es == [] ||
    (&& (IdOf(es[0]) == id && es[0].Registered? ==> y.None?)
     && NoReplacement(ServerSees(y, es[0], id), es[1..], id))
  }

  /** Updates and closes of `id` find it registered. */
  predicate WellTold(y: Option<Info>, es: seq<Event>, id: string)
    decreases |es|
  {
    es == [] ||
    (&& (IdOf(es[0]) == id && !es[0].Registered? ==> y.Some?)
     && WellTold(ServerSees(y, es[0], id), es[1..], id))
  }

  /** Replaying events over a later state catches up: the two views are equal or the client is already final. */
  lemma {:induction false} ReplayCatchesUp(es: seq<Event>, y: Option<Info>, z: Option<Info>, id: string)
    requires NoReplacement(y, es, id) && WellTold(y, es, id)
    requires z == y || z == ServerSeesAll(y, es, id)
    ensures ClientSeesAll(z, es, id) == ServerSeesAll(y, es, id)
    decreases |es|
  {
    if es != [] {
      ReplayCatchesUp(es[1..], ServerSees(y, es[0], id), ClientSees(z, es[0], id), id);
    }
  }

  /** The announced info a list shows for an id: its first entry with that id. */
  function Shown(list: seq<Info>, id: string): Option<Info> {
    if list == [] then None
    else if list[0].id == id then Some(Announced(list[0]))
    else Shown(list[1..], id)
  }

  function Held(m: State, id: string): Option<Info> {
    if id in m.sessions then Some(Announced(m.sessions[id].info)) else None
  }

  lemma {:induction false} ShownReplace(list: seq<Info>, info: Info, id: string)
    ensures Shown(Replace(list, info), id)
         == if info.id == id && Shown(list, id).Some? then Some(Announced(info)) else Shown(list, id)
  {
    if list != [] {
      ShownReplace(list[1..], info, id);
    }
  }

  lemma {:induction false} ShownWithout(list: seq<Info>, gone: string, id: string)
    ensures Shown(Without(list, gone), id) == if gone == id then None else Shown(list, id)
  {
    if list != [] {
      ShownWithout(list[1..], gone, id);
    }
  }

  lemma {:induction false} ShownAppend(list: seq<Info>, info: Info, id: string)
    ensures Shown(list + [info], id)
         == if Shown(list, id).None? && info.id == id then Some(Announced(info)) else Shown(list, id)
  {
    if list != [] {
      assert (list + [info])[1..] == list[1..] + [info];
      ShownAppend(list[1..], info, id);
    }
  }

  lemma {:induction false} ShownIffHas(list: seq<Info>, id: string)
    ensures Shown(list, id).Some? <==> Has(list, id)
  {
    if list != [] {
      ShownIffHas(list[1..], id);
      if Has(list[1..], id) {
        var i :| 0 <= i < |list[1..]| && list[1..][i].id == id;
        assert list[i + 1].id == id;
      }
      if Has(list, id) {
        var i :| 0 <= i < |list| && list[i].id == id;
        assert i > 0 ==> list[1..][i - 1].id == id;
      }
    }
  }

  lemma ReduceShows(list: seq<Info>, e: Event, id: string)
    ensures Shown(Reduce(list, e), id) == ClientSees(Shown(list, id), e, id)
  {
    match e {
      case Updated(info) => ShownReplace(list, info, id);
      case Closed(gone) => ShownWithout(list, gone, id);
      case Registered(info) =>
        ShownIffHas(list, info.id);
        ShownAppend(list, info, id);
    }
  }

  lemma {:induction false} ReduceAllShows(list: seq<Info>, es: seq<Event>, id: string)
    ensures Shown(ReduceAll(list, es), id) == ClientSeesAll(Shown(list, id), es, id)
    decreases |es|
  {
    hide Reduce, Shown, ClientSees;
    if es != [] {
      ReduceShows(list, es[0], id);
      ReduceAllShows(Reduce(list, es[0]), es[1..], id);
    }
  }

  /** A step that logs nothing leaves the announced info alone; one that logs an event makes it what the event says. */
  lemma StepAnnounces(m: State, op: Op, id: string)
    requires Keyed(m)
    ensures var es := EventsOf(m, op);
            && (es == [] ==> Held(Act(m, op), id) == Held(m, id))
            && (es != [] ==> Held(Act(m, op), id) == ServerSees(Held(m, id), es[0], id))
  {
  }

  lemma StepHolds(m: State, op: Op, id: string)
    requires Keyed(m)
    ensures Held(Act(m, op), id) == ServerSeesAll(Held(m, id), EventsOf(m, op), id)
    ensures WellTold(Held(m, id), EventsOf(m, op), id)
  {
    hide Act, EventsOf;
    StepAppends(m, op);
    StepAnnounces(m, op, id);
  }

  lemma {:induction false} RunHolds(m: State, ops: seq<Op>, id: string) returns (es: seq<Event>)
    requires Stamped(m)
    ensures Run(m, ops).log == m.log + es
    ensures Held(Run(m, ops), id) == ServerSeesAll(Held(m, id), es, id)
    ensures WellTold(Held(m, id), es, id)
    decreases |ops|
  {
    hide Act, Held, ServerSeesAll, EventsOf, WellTold;
    if ops == [] {
      es := [];
      NothingSeen(m, id);
    } else {
      StepStamps(m, ops[0]);
      StepLogs(m, ops[0]);
      StepHolds(m, ops[0], id);
      var later := RunHolds(Act(m, ops[0]), ops[1..], id);
      es := EventsOf(m, ops[0]) + later;
      SeesConcat(Held(m, id), EventsOf(m, ops[0]), later, id);
    }
  }

  lemma NothingSeen(m: State, id: string)
    ensures m.log + [] == m.log && ServerSeesAll(Held(m, id), [], id) == Held(m, id) && WellTold(Held(m, id), [], id)
  {
  }

  lemma {:induction false} SeesConcat(y: Option<Info>, a: seq<Event>, b: seq<Event>, id: string)
    ensures ServerSeesAll(y, a + b, id) == ServerSeesAll(ServerSeesAll(y, a, id), b, id)
    ensures WellTold(y, a, id) && WellTold(ServerSeesAll(y, a, id), b, id) ==> WellTold(y, a + b, id)
    decreases |a|
  {
    if a == [] {
      assert a + b == b;
    } else {
      assert (a + b)[1..] == a[1..] + b;
      SeesConcat(ServerSees(y, a[0], id), a[1..], b, id);
    }
  }

  lemma {:induction false} NoReplacementConcat(y: Option<Info>, a: seq<Event>, b: seq<Event>, id: string)
    requires NoReplacement(y, a + b, id)
    ensures NoReplacement(y, a, id) && NoReplacement(ServerSeesAll(y, a, id), b, id)
    decreases |a|
  {
    if a == [] {
      assert a + b == b;
    } else {
      assert (a + b)[1..] == a[1..] + b;
      NoReplacementConcat(ServerSees(y, a[0], id), a[1..], b, id);
    }
  }

  lemma {:induction false} ClientConcat(z: Option<Info>, a: seq<Event>, b: seq<Event>, id: string)
    ensures ClientSeesAll(z, a + b, id) == ClientSeesAll(ClientSeesAll(z, a, id), b, id)
    decreases |a|
  {
    if a == [] {
      assert a + b == b;
    } else {
      assert (a + b)[1..] == a[1..] + b;
      ClientConcat(ClientSees(z, a[0], id), a[1..], b, id);
    }
  }

  lemma {:induction false} ListingShows(m: State, list: seq<Info>, id: string)
    requires Keyed(m) && IsListing(m, list)
    ensures Shown(list, id) == Held(m, id)
  {
    ShownIffHas(list, id);
    ShownIsMember(list, id);
  }

  lemma {:induction false} ShownIsMember(list: seq<Info>, id: string)
    ensures Shown(list, id).Some? ==> exists x :: x in list && x.id == id && Shown(list, id) == Some(Announced(x))
  {
    if list != [] && list[0].id != id {
      ShownIsMember(list[1..], id);
    }
  }

  // ----- when the shown info converges -----

  /** Is there any event on `id`? */
  predicate Mentioned(es: seq<Event>, id: string) {
    exists e :: e in es && IdOf(e) == id
  }

  /**
    The last word on `id` reaches the client: a final registration must find it showing
    nothing for `id`, or the very same info. Updates and closes always reach it.
   */
  predicate LastWordShown(z: Option<Info>, es: seq<Event>, id: string)
    decreases |es|
  {
    if es == [] then true else
      var front, e := es[..|es| - 1], es[|es| - 1];
      if IdOf(e) != id then LastWordShown(z, front, id)
      else if e.Registered? then
        var shown := ClientSeesAll(z, front, id);
        shown.None? || shown == Some(Announced(e.info))
      else true
  }

  lemma SeesSnoc(y: Option<Info>, es: seq<Event>, id: string)
    requires es != []
    ensures var front, e := es[..|es| - 1], es[|es| - 1];
            && ServerSeesAll(y, es, id) == ServerSees(ServerSeesAll(y, front, id), e, id)
            && ClientSeesAll(y, es, id) == ClientSees(ClientSeesAll(y, front, id), e, id)
  {
    var front, e := es[..|es| - 1], es[|es| - 1];
    assert es == front + [e];
    SeesConcat(y, front, [e], id);
    ClientConcat(y, front, [e], id);
    Single(ServerSeesAll(y, front, id), ClientSeesAll(y, front, id), e, id);
  }

  lemma Single(y: Option<Info>, z: Option<Info>, e: Event, id: string)
    ensures ServerSeesAll(y, [e], id) == ServerSees(y, e, id)
    ensures ClientSeesAll(z, [e], id) == ClientSees(z, e, id)
  {
    assert [e][1..] == [];
  }

  lemma {:induction false} SamePresence(es: seq<Event>, y: Option<Info>, z: Option<Info>, id: string)
    requires WellTold(y, es, id) && (z.Some? <==> y.Some?)
    ensures ClientSeesAll(z, es, id).Some? <==> ServerSeesAll(y, es, id).Some?
    decreases |es|
  {
    if es != [] {
      SamePresence(es[1..], ServerSees(y, es[0], id), ClientSees(z, es[0], id), id);
    }
  }

  /** A replay over a state that already reflects it ends with `id` shown exactly if it is held. */
  lemma {:induction false} PresenceCatchesUp(es: seq<Event>, y: Option<Info>, z: Option<Info>, id: string)
    requires WellTold(y, es, id) && (z.Some? <==> ServerSeesAll(y, es, id).Some?)
    ensures ClientSeesAll(z, es, id).Some? <==> ServerSeesAll(y, es, id).Some?
    decreases |es|
  {
    if es != [] {
      var y', z' := ServerSees(y, es[0], id), ClientSees(z, es[0], id);
      if z'.Some? == y'.Some? {
        SamePresence(es[1..], y', z', id);
      } else {
        PresenceCatchesUp(es[1..], y', z', id);
      }
    }
  }

  /** Two views that agree on presence agree altogether exactly when the last word is shown. */
  lemma {:induction false} LastWordDecides(es: seq<Event>, y: Option<Info>, z: Option<Info>, id: string)
    requires ClientSeesAll(z, es, id).Some? <==> ServerSeesAll(y, es, id).Some?
    requires Mentioned(es, id) || z == y
    ensures ClientSeesAll(z, es, id) == ServerSeesAll(y, es, id) <==> LastWordShown(z, es, id)
    decreases |es|
  {
    if es != [] {
      var front, e := es[..|es| - 1], es[|es| - 1];
      assert es == front + [e];
      SeesSnoc(y, es, id);
      SeesSnoc(z, es, id);
      if IdOf(e) != id {
        LastWordDecides(front, y, z, id);
      }
    }
  }

  lemma {:induction false} UnmentionedStays(es: seq<Event>, y: Option<Info>, id: string)
    requires !Mentioned(es, id)
    ensures ServerSeesAll(y, es, id) == y
    decreases |es|
  {
    if es != [] {
      assert es[0] in es;
      assert forall e | e in es[1..] :: e in es;
      UnmentionedStays(es[1..], y, id);
    }
  }

  lemma SplitLog(m: State, before: seq<Op>, after: seq<Op>, id: string) returns (p: seq<Event>, q: seq<Event>)
    requires Stamped(m)
    ensures var mid, end := Run(m, before), Run(m, before + after);
            && Stamped(mid)
            && |end.log| >= |m.log| && end.log[|m.log|..] == p + q
            && Held(mid, id) == ServerSeesAll(Held(m, id), p, id) && WellTold(Held(m, id), p, id)
            && Held(end, id) == ServerSeesAll(Held(mid, id), q, id) && WellTold(Held(mid, id), q, id)
  {
    hide Run, Stamped, Held, ServerSeesAll, WellTold;
    RunConcat(m, before, after);
    RunStamps(m, before);
    p := RunHolds(m, before, id);
    q := RunHolds(Run(m, before), after, id);
    Assoc(m.log, p, q);
  }

  /**
    Exactly when the shown info of an id converges: a client that folds all events since its
    subscription over a later list shows what the server holds if and only if the last event
    on the id is not a registration that it ignores in favour of another info.
   */
  lemma AnnouncedInfoConvergesIff(m: State, before: seq<Op>, after: seq<Op>, list: seq<Info>, id: string)
    requires Stamped(m) && IsListing(Run(m, before), list)
    ensures var mid, end := Run(m, before), Run(m, before + after);
            && |end.log| >= |m.log|
            && var es := end.log[|m.log|..];
            (Shown(ReduceAll(list, es), id) == Held(end, id) <==> LastWordShown(Held(mid, id), es, id))
  {
    hide Run, IsListing, ReduceAll, Shown, Held, Stamped;
    hide ServerSeesAll, ClientSeesAll, WellTold, LastWordShown, Mentioned;
    var y, mid := Held(m, id), Run(m, before);
    var z := Held(mid, id);
    var p, q := SplitLog(m, before, after, id);
    ListingOfStampedShows(mid, list, id);
    ReduceAllShows(list, p + q, id);
    PresenceCatchesUp(p, y, z, id);
    SamePresence(q, z, ClientSeesAll(z, p, id), id);
    ClientConcat(z, p, q, id);
    SeesConcat(y, p, q, id);
    if !Mentioned(p + q, id) {
      assert !Mentioned(p, id) by { MentionedPart(p, q, id); }
      UnmentionedStays(p, y, id);
    }
    LastWordDecides(p + q, y, z, id);
  }

  lemma MentionedPart(p: seq<Event>, q: seq<Event>, id: string)
    ensures Mentioned(p, id) ==> Mentioned(p + q, id)
  {
    assert forall e | e in p :: e in p + q;
  }

  lemma ListingOfStampedShows(m: State, list: seq<Info>, id: string)
    requires Stamped(m) && IsListing(m, list)
    ensures Shown(list, id) == Held(m, id)
  {
    ListingShows(m, list, id);
  }

  /** In particular it converges as long as no agent registers an id that is still open. */
  lemma AnnouncedInfoConverges(m: State, before: seq<Op>, after: seq<Op>, list: seq<Info>, id: string)
    requires Stamped(m) && IsListing(Run(m, before), list)
    requires var end := Run(m, before + after);
             |end.log| >= |m.log| && NoReplacement(Held(m, id), end.log[|m.log|..], id)
    ensures var end := Run(m, before + after);
            Shown(ReduceAll(list, end.log[|m.log|..]), id) == Held(end, id)
  {
    hide Run, IsListing, ReduceAll, Shown, Held, ServerSeesAll, ClientSeesAll, NoReplacement, WellTold, Stamped;
    var y, mid := Held(m, id), Run(m, before);
    var p, q := SplitLog(m, before, after, id);
    ListingOfStampedShows(mid, list, id);
    ReduceAllShows(list, p + q, id);
    NoReplacementConcat(y, p, q, id);
    ReplayCatchesUp(p, y, Held(mid, id), id);
    ReplayCatchesUp(q, Held(mid, id), Held(mid, id), id);
    ClientConcat(Held(mid, id), p, q, id);
    SeesConcat(y, p, q, id);
  }

  /** Otherwise it need not: a client keeps showing the old title after a re-registration. */
  lemma ReplacementIsNotShown(m: State, again: Info, list: seq<Info>)
    requires Stamped(m) && IsListing(m, list) && again.id in m.sessions
    requires again.title != m.sessions[again.id].info.title
    ensures var end := Run(m, [OpRegister(again)]);
            && end.log == m.log + [Registered(again)]
            && Shown(ReduceAll(list, [Registered(again)]), again.id) == Held(m, again.id)
            && Held(m, again.id) != Held(end, again.id)
  {
    ListingShows(m, list, again.id);
    assert Run(m, [OpRegister(again)]) == Run(Register(m, again), []);
    ReduceAllShows(list, [Registered(again)], again.id);
    assert ClientSeesAll(Shown(list, again.id), [Registered(again)], again.id)
        == ClientSeesAll(ClientSees(Shown(list, again.id), Registered(again), again.id), [], again.id);
  }
}
