/** The peer registry (crates/kodama/src/server/router.rs:181-256).

Registering is two atomic steps, taking a generation and inserting under the write
lock, and handlers interleave at will. A peer key is an opaque number. */
module Peers {
  import opened Bytes

  type Key = nat
  type Handler = nat

  datatype PeerRole = Camera | Client

  datatype PeerInfo = PeerInfo(role: PeerRole, generation: nat)

  /** The shared state; the two counters are machine words. */
  datatype Registry = Registry(nextGeneration: nat, peers: map<Key, PeerInfo>, cameras: U64, clients: U64)

  function FetchAdd(x: U64): U64 { (x + 1) % TWO_64 }

  function FetchSub(x: U64): U64 { (x - 1) % TWO_64 }

  /** The atomic step of register_peer under the lock: a replaced entry leaves the
  counters alone. */
  function Insert(r: Registry, key: Key, info: PeerInfo): Registry {
    var r' := r.(peers := r.peers[key := info]);
    if key in r.peers then r'
    else if info.role == Camera then r'.(cameras := FetchAdd(r.cameras))
    else r'.(clients := FetchAdd(r.clients))
  }

  /** unregister_peer: only the generation that is registered is removed. */
  function Unregister(r: Registry, key: Key, generation: nat): Registry {
    if key !in r.peers || r.peers[key].generation != generation then r
    else
      var r' := r.(peers := r.peers - {key});
      if r.peers[key].role == Camera then r'.(cameras := FetchSub(r.cameras))
      else r'.(clients := FetchSub(r.clients))
  }

  // ---- interleaved handlers ----

  /** How far a connection handler has come. */
  datatype Phase =
    | Allocated(key: Key, info: PeerInfo)
    | Registered(key: Key, info: PeerInfo)
    | Gone(key: Key, info: PeerInfo)

  /** The registry, its handlers, and for each key the handler that last inserted it. */
  datatype State = State(registry: Registry, handlers: map<Handler, Phase>, lastInserter: map<Key, Handler>)

  const START := State(Registry(0, map[], 0, 0), map[], map[])

  datatype Step = TakeGeneration(h: Handler, key: Key, role: PeerRole) | InsertPeer(h: Handler) | RemovePeer(h: Handler)

  /** One atomic step; a step out of turn does nothing. */
  function Next(s: State, step: Step): State {
    match step
    case TakeGeneration(h, key, role) =>
      if h in s.handlers then s
      else
        var generation := s.registry.nextGeneration;
        s.(registry := s.registry.(nextGeneration := generation + 1),
           handlers := s.handlers[h := Allocated(key, PeerInfo(role, generation))])
    case InsertPeer(h) =>
      if h !in s.handlers || !s.handlers[h].Allocated? then s
      else
        var p := s.handlers[h];
        s.(registry := Insert(s.registry, p.key, p.info),
           handlers := s.handlers[h := Registered(p.key, p.info)],
           lastInserter := s.lastInserter[p.key := h])
    case RemovePeer(h) =>
      if h !in s.handlers || !s.handlers[h].Registered? then s
      else
        var p := s.handlers[h];
        s.(registry := Unregister(s.registry, p.key, p.info.generation),
           handlers := s.handlers[h := Gone(p.key, p.info)])
  }

  function Run(steps: seq<Step>): State {
    if steps == [] then START
    else Next(Run(steps[..|steps| - 1]), steps[|steps| - 1])
  }

  /** Generations are handed out once. */
  ghost predicate UniqueGenerations(s: State) {
    && (forall h :: h in s.handlers ==> s.handlers[h].info.generation < s.registry.nextGeneration)
    && (forall h, h' | h in s.handlers && h' in s.handlers ::
          s.handlers[h].info.generation == s.handlers[h'].info.generation ==> h == h')
  }

  /** A key is present exactly while the handler that last inserted it has not
  unregistered, and the entry is that handler's. */
  ghost predicate EntryOfLastInserter(s: State, key: Key) {
    if key !in s.lastInserter then key !in s.registry.peers
    else
      var h := s.lastInserter[key];
      && h in s.handlers && !s.handlers[h].Allocated? && s.handlers[h].key == key
      && (key in s.registry.peers <==> s.handlers[h].Registered?)
      && (key in s.registry.peers ==> s.registry.peers[key] == s.handlers[h].info)
  }

  ghost predicate Valid(s: State) {
    UniqueGenerations(s) && forall key :: EntryOfLastInserter(s, key)
  }

  lemma NextKeepsUnique(s: State, step: Step)
    requires UniqueGenerations(s)
    ensures UniqueGenerations(Next(s, step))
  {
    hide Insert, Unregister;
    RegistryFrame(s, step);
  }

  lemma RegistryFrame(s: State, step: Step)
    ensures step.TakeGeneration? || Next(s, step).registry.nextGeneration == s.registry.nextGeneration
  {
  }

  lemma NextKeepsEntry(s: State, step: Step, key: Key)
    requires UniqueGenerations(s) && EntryOfLastInserter(s, key)
    ensures EntryOfLastInserter(Next(s, step), key)
  {
    var h := step.h;
    match step {
      case TakeGeneration(_, _, _) =>
      case InsertPeer(_) =>
      case RemovePeer(_) =>
        if h in s.handlers && s.handlers[h].Registered? && s.handlers[h].key == key && key in s.lastInserter {
          UnregisterEffect(s.registry, key, s.handlers[h].info.generation);
        }
    }
  }

  lemma UnregisterEffect(r: Registry, key: Key, generation: nat)
    ensures var peers := Unregister(r, key, generation).peers;
            && (key in peers <==> key in r.peers && r.peers[key].generation != generation)
            && forall k :: k != key ==> (k in peers <==> k in r.peers) && (k in peers ==> peers[k] == r.peers[k])
  {
  }

  lemma NextKeepsValid(s: State, step: Step)
    requires Valid(s)
    ensures Valid(Next(s, step))
  {
    hide UniqueGenerations, EntryOfLastInserter, Next;
    NextKeepsUnique(s, step);
    forall key
      ensures EntryOfLastInserter(Next(s, step), key)
    {
      NextKeepsEntry(s, step, key);
    }
  }

  /** Presence in every run: an entry is there exactly while its last inserter is. */
  lemma {:induction false} PresenceInEveryRun(steps: seq<Step>)
    ensures Valid(Run(steps))
    decreases |steps|
  {
    hide Next, Valid;
    if steps == [] {
      StartIsValid();
    } else {
      PresenceInEveryRun(steps[..|steps| - 1]);
      NextKeepsValid(Run(steps[..|steps| - 1]), steps[|steps| - 1]);
    }
  }

  lemma StartIsValid()
    ensures Valid(START)
  {
  }

  /** No handler removes the entry of another: when a handler unregisters, every
  entry it did not insert stays, and its own goes. */
  lemma RemovesOnlyItsOwn(steps: seq<Step>, h: Handler)
    requires var s := Run(steps); h in s.handlers && s.handlers[h].Registered?
    ensures var s := Run(steps);
            var key := s.handlers[h].key;
            Next(s, RemovePeer(h)).registry.peers ==
            if key in s.lastInserter && s.lastInserter[key] == h then s.registry.peers - {key} else s.registry.peers
  {
    hide Run;
    PresenceInEveryRun(steps);
    assert EntryOfLastInserter(Run(steps), Run(steps).handlers[h].key);
  }

  // ---- the counters ----

  function KeysOf(peers: map<Key, PeerInfo>, role: PeerRole): set<Key> {
    set k | k in peers && peers[k].role == role
  }

  /** Both counters are the numbers of entries, as machine words. */
  ghost predicate CountsRight(r: Registry) {
    && r.cameras == |KeysOf(r.peers, Camera)| % TWO_64
    && r.clients == |KeysOf(r.peers, Client)| % TWO_64
  }

  /** An insertion keeps the counters right exactly when it does not change the role
  of an entry. */
  lemma InsertKeepsCounts(r: Registry, key: Key, info: PeerInfo)
    requires CountsRight(r)
    ensures CountsRight(Insert(r, key, info)) <==> (key in r.peers ==> r.peers[key].role == info.role)
  {
    hide KeysOf, Insert;
    var turn := if key !in r.peers || r.peers[key].role == info.role then 0 else if info.role == Client then 1 else -1;
    InsertDrifts(r, key, info, 0);
    OffByNothing(Insert(r, key, info), turn);
  }

  lemma InsertCount(peers: map<Key, PeerInfo>, key: Key, info: PeerInfo, role: PeerRole)
    ensures var before, after := |KeysOf(peers, role)|, |KeysOf(peers[key := info], role)|;
            after == before + (if role == info.role && (key !in peers || peers[key].role != role) then 1 else 0)
                            - (if role != info.role && key in peers && peers[key].role == role then 1 else 0)
  {
    var keys, keys' := KeysOf(peers, role), KeysOf(peers[key := info], role);
    if role == info.role {
      assert keys' == keys + {key};
    } else {
      assert keys' == keys - {key};
    }
  }

  lemma RemoveCount(peers: map<Key, PeerInfo>, key: Key, role: PeerRole)
    requires key in peers
    ensures |KeysOf(peers - {key}, role)| == |KeysOf(peers, role)| - (if peers[key].role == role then 1 else 0)
  {
    if peers[key].role == role {
      assert KeysOf(peers - {key}, role) == KeysOf(peers, role) - {key};
    } else {
      assert KeysOf(peers - {key}, role) == KeysOf(peers, role);
    }
  }

  // ---- the counters after any run ----

  /** An insertion that turns a camera into a client, or back. */
  function Turn(s: State, step: Step): int {
    if !ChangesRole(s, step) then 0 else if s.handlers[step.h].info.role == Client then 1 else -1
  }

  /** The step inserts over an entry of the other role. */
  predicate ChangesRole(s: State, step: Step) {
    && step.InsertPeer? && step.h in s.handlers && s.handlers[step.h].Allocated?
    && s.handlers[step.h].key in s.registry.peers
    && s.registry.peers[s.handlers[step.h].key].role != s.handlers[step.h].info.role
  }

  /** How many cameras turned into clients in the run, less those that turned back. */
  function Drift(steps: seq<Step>): int
    decreases |steps|
  {
    if steps == [] then 0
    else Drift(steps[..|steps| - 1]) + Turn(Run(steps[..|steps| - 1]), steps[|steps| - 1])
  }

  /** The counters are off by this much, one up and the other down. */
  ghost predicate OffBy(r: Registry, drift: int) {
    && r.cameras == (|KeysOf(r.peers, Camera)| + drift) % TWO_64
    && r.clients == (|KeysOf(r.peers, Client)| - drift) % TWO_64
  }

  lemma WordSteps(n: int)
    ensures FetchAdd(n % TWO_64) == (n + 1) % TWO_64 && FetchSub(n % TWO_64) == (n - 1) % TWO_64
  {
    var q, r := n / TWO_64, n % TWO_64;
    if r + 1 < TWO_64 {
      WordOf(n + 1, q, r + 1);
    } else {
      WordOf(n + 1, q + 1, 0);
    }
    if r > 0 {
      WordOf(n - 1, q, r - 1);
    } else {
      WordOf(n - 1, q - 1, TWO_64 - 1);
    }
  }

  lemma InsertDrifts(r: Registry, key: Key, info: PeerInfo, drift: int)
    requires OffBy(r, drift)
    ensures var turn := if key !in r.peers || r.peers[key].role == info.role then 0
                        else if info.role == Client then 1 else -1;
            OffBy(Insert(r, key, info), drift + turn)
  {
    hide KeysOf, FetchAdd, FetchSub;
    WordSteps(|KeysOf(r.peers, Camera)| + drift);
    WordSteps(|KeysOf(r.peers, Client)| - drift);
    InsertCount(r.peers, key, info, Camera);
    InsertCount(r.peers, key, info, Client);
  }

  lemma UnregisterDrifts(r: Registry, key: Key, generation: nat, drift: int)
    requires OffBy(r, drift)
    ensures OffBy(Unregister(r, key, generation), drift)
  {
    hide KeysOf, FetchAdd, FetchSub;
    if key in r.peers {
      WordSteps(|KeysOf(r.peers, Camera)| + drift);
      WordSteps(|KeysOf(r.peers, Client)| - drift);
      RemoveCount(r.peers, key, Camera);
      RemoveCount(r.peers, key, Client);
    }
  }

  lemma NextDrifts(s: State, step: Step, drift: int)
    requires OffBy(s.registry, drift)
    ensures OffBy(Next(s, step).registry, drift + Turn(s, step))
  {
    hide Insert, Unregister, KeysOf;
    match step {
      case TakeGeneration(_, _, _) =>
      case InsertPeer(h) =>
        if h in s.handlers {
          InsertDrifts(s.registry, s.handlers[h].key, s.handlers[h].info, drift);
        }
      case RemovePeer(h) =>
        if h in s.handlers {
          UnregisterDrifts(s.registry, s.handlers[h].key, s.handlers[h].info.generation, drift);
        }
    }
  }

  /** After every run the counters are off by the drift, and are right if and only if that
  is no change of a machine word. */
  lemma {:induction false} DriftInEveryRun(steps: seq<Step>)
    ensures OffBy(Run(steps).registry, Drift(steps))
    ensures CountsRight(Run(steps).registry) <==> Drift(steps) % TWO_64 == 0
    decreases |steps|
  {
    hide Next, OffBy, CountsRight, Turn;
    if steps == [] {
      NothingToCount();
    } else {
      DriftInEveryRun(steps[..|steps| - 1]);
      NextDrifts(Run(steps[..|steps| - 1]), steps[|steps| - 1], Drift(steps[..|steps| - 1]));
    }
    OffByNothing(Run(steps).registry, Drift(steps));
  }

  lemma NothingToCount()
    ensures OffBy(START.registry, 0)
  {
    assert KeysOf(map[], Camera) == {} && KeysOf(map[], Client) == {};
  }

  lemma OffByNothing(r: Registry, drift: int)
    requires OffBy(r, drift)
    ensures CountsRight(r) <==> drift % TWO_64 == 0
  {
    hide KeysOf;
    SameWord(|KeysOf(r.peers, Camera)|, drift);
    SameWord(|KeysOf(r.peers, Client)|, -drift);
  }

  lemma WordOf(x: int, q: int, r: int)
    requires x == TWO_64 * q + r && 0 <= r < TWO_64
    ensures x % TWO_64 == r
  {
  }

  lemma SameWord(n: int, d: int)
    ensures (n + d) % TWO_64 == n % TWO_64 <==> d % TWO_64 == 0
    ensures d % TWO_64 == 0 <==> (-d) % TWO_64 == 0
  {
    var q, r, p, e := n / TWO_64, n % TWO_64, d / TWO_64, d % TWO_64;
    if e == 0 {
      WordOf(n + d, q + p, r);
      WordOf(-d, -p, 0);
    } else {
      WordOf(-d, -p - 1, TWO_64 - e);
      if r + e < TWO_64 {
        WordOf(n + d, q + p, r + e);
      } else {
        WordOf(n + d, q + p + 1, r + e - TWO_64);
      }
    }
  }

  predicate NoTurns(steps: seq<Step>) {
    forall i | 0 <= i < |steps| :: !TurnsAt(steps, i)
  }

  predicate TurnsAt(steps: seq<Step>, i: nat)
    requires i < |steps|
  {
    ChangesRole(Run(steps[..i]), steps[i])
  }

  lemma DriftSnoc(steps: seq<Step>, n: nat)
    requires n < |steps|
    ensures Drift(steps[..n + 1]) == Drift(steps[..n]) + Turn(Run(steps[..n]), steps[n])
  {
    hide Run, Turn;
    var upTo := steps[..n + 1];
    assert upTo[..|upTo| - 1] == steps[..n];
  }

  lemma {:induction false} NoTurnsNoDrift(steps: seq<Step>, n: nat)
    requires NoTurns(steps) && n <= |steps|
    ensures Drift(steps[..n]) == 0
  {
    hide Run, Drift;
    if n == 0 {
      DriftOfNothing(steps);
    } else {
      NoTurnsNoDrift(steps, n - 1);
      DriftSnoc(steps, n - 1);
      assert !TurnsAt(steps, n - 1);
    }
  }

  lemma DriftOfNothing(steps: seq<Step>)
    ensures Drift(steps[..0]) == 0
  {
  }

  /** The counters are right all through a run if and only if no step of it inserts over an
  entry of the other role. */
  lemma CountersExactly(steps: seq<Step>)
    ensures (forall n | 0 <= n <= |steps| :: CountsRight(Run(steps[..n]).registry)) <==> NoTurns(steps)
  {
    hide Run, Drift, CountsRight;
    forall n: nat | n <= |steps|
      ensures CountsRight(Run(steps[..n]).registry) <==> Drift(steps[..n]) % TWO_64 == 0
      ensures NoTurns(steps) ==> Drift(steps[..n]) == 0
    {
      DriftInEveryRun(steps[..n]);
      if NoTurns(steps) {
        NoTurnsNoDrift(steps, n);
      }
    }
    if !NoTurns(steps) {
      var i: nat :| i < |steps| && TurnsAt(steps, i);
      DriftSnoc(steps, i);
    }
  }

  /** Every handler of a key uses the same role. */
  predicate OneRolePerKey(steps: seq<Step>, roles: map<Key, PeerRole>) {
    forall i | 0 <= i < |steps| :: steps[i].TakeGeneration?
        ==> steps[i].key in roles && roles[steps[i].key] == steps[i].role
  }

  ghost predicate RolesKept(s: State, roles: map<Key, PeerRole>) {
    && (forall h :: h in s.handlers ==> HasRole(roles, s.handlers[h].key, s.handlers[h].info))
    && (forall key :: key in s.registry.peers ==> HasRole(roles, key, s.registry.peers[key]))
  }

  predicate HasRole(roles: map<Key, PeerRole>, key: Key, info: PeerInfo) {
    key in roles && roles[key] == info.role
  }

  lemma NextKeepsRoles(s: State, step: Step, roles: map<Key, PeerRole>)
    requires RolesKept(s, roles) && (step.TakeGeneration? ==> step.key in roles && roles[step.key] == step.role)
    ensures RolesKept(Next(s, step), roles)
  {
  }

  lemma {:induction false} NoChangesInEveryRun(steps: seq<Step>, roles: map<Key, PeerRole>)
    requires OneRolePerKey(steps, roles)
    ensures Drift(steps) == 0 && RolesKept(Run(steps), roles)
    decreases |steps|
  {
    hide Next;
    if steps != [] {
      var before, step := steps[..|steps| - 1], steps[|steps| - 1];
      assert forall i | 0 <= i < |before| :: before[i] == steps[i];
      NoChangesInEveryRun(before, roles);
      NextKeepsRoles(Run(before), step, roles);
    }
  }

  /** With one role per key the counters are right after every run; below 2^64 peers
  they are the exact counts, so they never underflow. */
  lemma CountersInEveryRun(steps: seq<Step>, roles: map<Key, PeerRole>)
    requires OneRolePerKey(steps, roles)
    ensures var r := Run(steps).registry;
            && CountsRight(r)
            && (|KeysOf(r.peers, Camera)| < TWO_64 ==> r.cameras == |KeysOf(r.peers, Camera)|)
            && (|KeysOf(r.peers, Client)| < TWO_64 ==> r.clients == |KeysOf(r.peers, Client)|)
  {
    hide Run, Drift, KeysOf;
    NoChangesInEveryRun(steps, roles);
    DriftInEveryRun(steps);
  }

  /** Without that premise a counter wraps: a camera comes back as a client and
  leaves, and the client counter is one below zero. */
  lemma RoleChangeUnderflows(key: Key)
    ensures var camera, client := TakeGeneration(0, key, Camera), TakeGeneration(1, key, Client);
            var s := Run([camera, InsertPeer(0), client, InsertPeer(1), RemovePeer(1)]);
            s.registry == Registry(2, map[], 1, TWO_64 - 1)
  {
    var a, b, c := TakeGeneration(0, key, Camera), InsertPeer(0), TakeGeneration(1, key, Client);
    var d, e := InsertPeer(1), RemovePeer(1);
    assert [a, b, c, d, e][..4] == [a, b, c, d] && [a, b, c, d][..3] == [a, b, c] && [a, b, c][..2] == [a, b]
        && [a, b][..1] == [a];
    assert [a][..0] == [];
    var i0, i1 := PeerInfo(Camera, 0), PeerInfo(Client, 1);
    assert Run([a]) == State(Registry(1, map[], 0, 0), map[0 := Allocated(key, i0)], map[]);
    assert Run([a, b]) == State(Registry(1, map[key := i0], 1, 0), map[0 := Registered(key, i0)], map[key := 0]);
    assert Run([a, b, c]) == State(Registry(2, map[key := i0], 1, 0),
      map[0 := Registered(key, i0), 1 := Allocated(key, i1)], map[key := 0]);
    assert Run([a, b, c, d]) == State(Registry(2, map[key := i1], 1, 0),
      map[0 := Registered(key, i0), 1 := Registered(key, i1)], map[key := 1]);
    assert map[key := i1] - {key} == map[];
  }

  // ---- the registry in place ----

  class PeerRegistry {
    var peers: map<Key, PeerInfo>
    var camerasConnected: U64
    var clientsConnected: U64
    var connectionGeneration: nat

    ghost function State(): Registry
      reads this
    {
      Registry(connectionGeneration, peers, camerasConnected, clientsConnected)
    }

    constructor ()
      ensures State() == START.registry
    {
      peers, camerasConnected, clientsConnected, connectionGeneration := map[], 0, 0, 0;
    }

    /** The first atomic step of register_peer. */
    method FetchGeneration() returns (generation: nat)
      modifies this`connectionGeneration
      ensures generation == old(connectionGeneration) && connectionGeneration == generation + 1
    {
      generation := connectionGeneration;
      connectionGeneration := connectionGeneration + 1;
    }

    /** The second, under the write lock. */
    method InsertEntry(key: Key, role: PeerRole, generation: nat)
      modifies this
      ensures State() == Insert(old(State()), key, PeerInfo(role, generation))
    {
      var isNew := key !in peers;
      peers := peers[key := PeerInfo(role, generation)];
      if isNew {
        match role {
          case Camera => camerasConnected := FetchAdd(camerasConnected);
          case Client => clientsConnected := FetchAdd(clientsConnected);
        }
      }
    }

    /** unregister_peer, under the write lock. */
    method UnregisterEntry(key: Key, generation: nat)
      modifies this
      ensures State() == Unregister(old(State()), key, generation)
    {
      if key in peers {
        var info := peers[key];
        if info.generation == generation {
          peers := peers - {key};
          match info.role {
            case Camera => camerasConnected := FetchSub(camerasConnected);
            case Client => clientsConnected := FetchSub(clientsConnected);
          }
        }
      }
    }
  }
}
