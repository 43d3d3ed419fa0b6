/**
  The registry of open streams: streams by role and id, and for each connection the keys of
  its streams.
 */
module StreamRegistry {
  import opened Bytes
  import opened StreamContext

  // ----- keys -----

  function Digit(n: nat): char
    requires n < 16
  {
    "0123456789abcdef"[n]
  }

  function Hex(n: nat): (s: string)
    ensures s != ""
  {
    if n < 16 then [Digit(n)] else Hex(n / 16) + [Digit(n % 16)]
  }

  function RoleName(r: Role): string {
    match r
    case Agent => "Agent"
    case Client => "Client"
    case Server => "Server"
  }

  function MakeKey(r: Role, id: nat): string {
    RoleName(r) + "-" + Hex(id)
  }

  lemma {:induction false} HexIsInjective(a: nat, b: nat)
    requires Hex(a) == Hex(b)
    ensures a == b
  {
    var s := Hex(a);
    assert s[|s| - 1] == Digit(a % 16) && s[|s| - 1] == Digit(b % 16);
    DigitIsInjective(a % 16, b % 16);
    assert a >= 16 <==> |Hex(a)| > 1;
    assert b >= 16 <==> |Hex(b)| > 1;
    if a >= 16 {
      assert s[..|s| - 1] == Hex(a / 16) && s[..|s| - 1] == Hex(b / 16);
      HexIsInjective(a / 16, b / 16);
    }
  }

  lemma DigitIsInjective(a: nat, b: nat)
    requires a < 16 && b < 16 && Digit(a) == Digit(b)
    ensures a == b
  {
  }

  /** Different roles or ids never share a key. */
  lemma MakeKeyIsInjective(r: Role, a: nat, q: Role, b: nat)
    requires MakeKey(r, a) == MakeKey(q, b)
    ensures r == q && a == b
  {
    var k := MakeKey(r, a);
    assert k[0] == RoleName(r)[0] && k[0] == RoleName(q)[0];
    var n := |RoleName(r)| + 1;
    assert k[n..] == Hex(a) && k[n..] == Hex(b);
    HexIsInjective(a, b);
  }

  /** A key is the name of the role, a dash, and the id in lower-case hexadecimal. */
  lemma KeyForm(id: nat)
    ensures MakeKey(Agent, id) == "Agent" + "-" + Hex(id)
    ensures MakeKey(Client, id) == "Client" + "-" + Hex(id)
    ensures MakeKey(Server, id) == "Server" + "-" + Hex(id)
    ensures Hex(0) == "0" && Hex(0x2A) == "2a" && Hex(0xFF) == "ff"
  {
    assert Hex(0x2A) == Hex(2) + [Digit(10)];
    assert Hex(0xFF) == Hex(15) + [Digit(15)];
  }

  // ----- the two maps -----

  datatype State<S> = State(streams: map<string, S>, index: map<nat, set<string>>)

  function Owned<S>(m: State<S>, c: nat): set<string> {
    if c in m.index then m.index[c] else {}
  }

  function Insert<S>(m: State<S>, c: nat, k: string, s: S): State<S> {
    State(m.streams[k := s], m.index[c := Owned(m, c) + {k}])
  }

  function Remove<S>(m: State<S>, k: string): State<S> {
    if k !in m.streams then m else
      var left := m.streams - {k};
      State(left, map c | c in m.index :: m.index[c] * left.Keys)
  }

  function RemoveConnection<S>(m: State<S>, c: nat): State<S> {
    State(m.streams - Owned(m, c), m.index - {c})
  }

  /** Every live key belongs to exactly one connection, and every indexed key is live. */
  ghost predicate Partitioned<S>(m: State<S>) {
    && (forall k | k in m.streams :: exists c :: k in Owned(m, c))
    && (forall c, k | k in Owned(m, c) :: k in m.streams)
    && (forall c, d, k | k in Owned(m, c) && k in Owned(m, d) :: c == d)
  }

  ghost predicate OwnedByOther<S>(m: State<S>, c: nat, k: string) {
    exists d :: k in Owned(m, d) && d != c
  }

  lemma OwnedAfterInsert<S>(m: State<S>, c: nat, k: string, s: S, d: nat)
    ensures Owned(Insert(m, c, k, s), d) == Owned(m, d) + (if d == c then {k} else {})
  {
  }

  /** An insertion keeps the partition exactly when no other connection holds the key. */
  lemma InsertKeepsIff<S>(m: State<S>, c: nat, k: string, s: S)
    requires Partitioned(m)
    ensures Partitioned(Insert(m, c, k, s)) <==> !OwnedByOther(m, c, k)
  {
    hide Owned;
    var r := Insert(m, c, k, s);
    forall d: nat {
      OwnedAfterInsert(m, c, k, s, d);
    }
    assert k in Owned(r, c);
    if OwnedByOther(m, c, k) {
      var d :| k in Owned(m, d) && d != c;
      assert k in Owned(r, d);
    } else {
      forall x | x in r.streams
        ensures exists d :: x in Owned(r, d)
      {
        if x != k {
          var d :| x in Owned(m, d);
          assert x in Owned(r, d);
        }
      }
    }
  }

  lemma RemoveKeeps<S>(m: State<S>, k: string)
    requires Partitioned(m)
    ensures Partitioned(Remove(m, k))
    ensures forall c :: Owned(Remove(m, k), c) == Owned(m, c) - {k}
  {
    var r := Remove(m, k);
    forall c
      ensures Owned(r, c) == Owned(m, c) - {k}
    {
    }
    forall x | x in r.streams
      ensures exists c :: x in Owned(r, c)
    {
      var c :| x in Owned(m, c);
      assert x in Owned(r, c);
    }
  }

  /** Removing what is not there does nothing, and what is there is gone from the streams alone and with its key. */
  lemma RemoveIs<S>(m: State<S>, k: string)
    ensures k !in m.streams ==> Remove(m, k) == m
    ensures Remove(m, k).streams == m.streams - {k}
  {
    if k !in m.streams {
      assert m.streams - {k} == m.streams;
    }
  }

  lemma OwnedAfterDrop<S>(m: State<S>, c: nat, d: nat)
    ensures Owned(RemoveConnection(m, c), d) == if d == c then {} else Owned(m, d)
  {
  }

  /** Dropping a connection leaves every other connection's streams as they were. */
  lemma RemoveConnectionKeeps<S>(m: State<S>, c: nat)
    requires Partitioned(m)
    ensures var r := RemoveConnection(m, c);
            && Partitioned(r)
            && (forall d :: Owned(r, d) == if d == c then {} else Owned(m, d))
  {
    hide Owned;
    var r := RemoveConnection(m, c);
    forall d: nat {
      OwnedAfterDrop(m, c, d);
    }
    forall x | x in r.streams
      ensures exists d :: x in Owned(r, d)
    {
      var d :| x in Owned(m, d);
      assert x in Owned(r, d);
    }
  }

  lemma SizeSplits<S>(streams: map<string, S>, gone: set<string>)
    requires gone <= streams.Keys
    ensures |streams| == |streams - gone| + |gone|
  {
    assert (streams - gone).Keys == streams.Keys - gone;
  }

  /** The reported count is the number of streams that are gone. */
  lemma RemoveConnectionCounts<S>(m: State<S>, c: nat)
    requires Partitioned(m)
    ensures |m.streams| == |RemoveConnection(m, c).streams| + |Owned(m, c)|
  {
    hide Owned;
    SizeSplits(m.streams, Owned(m, c));
  }

  /** When the key of another connection is taken over, that one's cleanup removes the new stream. */
  lemma TakeoverIsUndone<S>(m: State<S>, c: nat, d: nat, k: string, s: S)
    requires c != d && k in Owned(m, d)
    ensures k in Insert(m, c, k, s).streams
    ensures k !in RemoveConnection(Insert(m, c, k, s), d).streams
  {
  }

  // ----- runs -----

  datatype Op<S> = OpInsert(c: nat, r: Role, id: nat, s: S) | OpRemove(r: Role, id: nat) | OpRemoveConnection(c: nat)

  function Act<S>(m: State<S>, op: Op<S>): State<S> {
    match op
    case OpInsert(c, r, id, s) => Insert(m, c, MakeKey(r, id), s)
    case OpRemove(r, id) => Remove(m, MakeKey(r, id))
    case OpRemoveConnection(c) => RemoveConnection(m, c)
  }

  ghost predicate Allowed<S>(m: State<S>, op: Op<S>) {
    op.OpInsert? ==> !OwnedByOther(m, op.c, MakeKey(op.r, op.id))
  }

  function Run<S>(m: State<S>, ops: seq<Op<S>>): State<S>
    decreases |ops|
  {
    if ops == [] then m else Run(Act(m, ops[0]), ops[1..])
  }

  ghost predicate AllAllowed<S>(m: State<S>, ops: seq<Op<S>>)
    decreases |ops|
  {
    ops == [] || (Allowed(m, ops[0]) && AllAllowed(Act(m, ops[0]), ops[1..]))
  }

  lemma {:induction false} RunKeepsPartition<S>(m: State<S>, ops: seq<Op<S>>)
    requires Partitioned(m) && AllAllowed(m, ops)
    ensures Partitioned(Run(m, ops))
    decreases |ops|
  {
    hide Partitioned, OwnedByOther, Insert, Remove, RemoveConnection, MakeKey;
    if ops != [] {
      match ops[0] {
        case OpInsert(c, r, id, s) => InsertKeepsIff(m, c, MakeKey(r, id), s);
        case OpRemove(r, id) => RemoveKeeps(m, MakeKey(r, id));
        case OpRemoveConnection(c) => RemoveConnectionKeeps(m, c);
      }
      RunKeepsPartition(Act(m, ops[0]), ops[1..]);
    }
  }

  /** A stream is found under its own role and id until it, its key or its connection is removed. */
  lemma LookupIsExact<S>(m: State<S>, c: nat, r: Role, id: nat, s: S, q: Role, other: nat)
    ensures var n := Insert(m, c, MakeKey(r, id), s);
            && n.streams[MakeKey(r, id)] == s
            && ((r, id) != (q, other) ==>
                  (MakeKey(q, other) in n.streams <==> MakeKey(q, other) in m.streams)
                  && (MakeKey(q, other) in m.streams ==> n.streams[MakeKey(q, other)] == m.streams[MakeKey(q, other)]))
  {
    hide MakeKey;
    if MakeKey(r, id) == MakeKey(q, other) {
      MakeKeyIsInjective(r, id, q, other);
    }
  }

  // ----- the registry as it runs -----

  class Registry<S> {
    var streams: map<string, S>
    var index: map<nat, set<string>>

    ghost function Value(): State<S>
      reads this
    {
      State(streams, index)
    }

    constructor ()
      ensures Value() == State(map[], map[])
    {
      streams, index := map[], map[];
    }

    method Add(c: nat, r: Role, id: nat, s: S)
      modifies this
      ensures Value() == Insert(old(Value()), c, MakeKey(r, id), s)
    {
      var key := MakeKey(r, id);
      if c !in index {
        index := index[c := {}];
      }
      index := index[c := index[c] + {key}];
      streams := streams[key := s];
    }

    method Drop(r: Role, id: nat) returns (s: Option<S>)
      modifies this
      ensures Value() == Remove(old(Value()), MakeKey(r, id))
      ensures s == if MakeKey(r, id) in old(streams) then Some(old(streams)[MakeKey(r, id)]) else None
    {
      var key := MakeKey(r, id);
      if key !in streams {
        return None;
      }
      s := Some(streams[key]);
      streams := streams - {key};
      var todo := index.Keys;
      while todo != {}
        invariant todo <= old(index).Keys && index.Keys == old(index).Keys
        invariant streams == old(streams) - {key}
        invariant forall c | c in index :: index[c] == if c in todo then old(index)[c] else old(index)[c] * streams.Keys
        decreases |todo|
      {
        var c :| c in todo;
        index := index[c := index[c] * streams.Keys];
        todo := todo - {c};
      }
      assert index == Remove(old(Value()), key).index;
    }

    method DropConnection(c: nat) returns (count: nat)
      modifies this
      ensures Value() == RemoveConnection(old(Value()), c)
      ensures count == |Owned(old(Value()), c)|
    {
      if c !in index {
        assert streams - {} == streams && index - {c} == index;
        return 0;
      }
      var keys := index[c];
      index := index - {c};
      count := |keys|;
      var todo := keys;
      while todo != {}
        invariant todo <= keys && index == old(index) - {c}
        invariant streams == old(streams) - (keys - todo)
        decreases |todo|
      {
        var key :| key in todo;
        streams := streams - {key};
        todo := todo - {key};
      }
      assert keys - todo == keys;
    }
  }
}
