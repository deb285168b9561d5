/**
 What the relay tells its clients, and that they are right to believe it.

 A join or a leave changes the registry and then emits. `Agree` says that every member's last
 roster is the room's, and that the clients told to sync are sockets of the room's one syncer,
 among them every socket that can.
 */
module Relay {
  import opened Basics
  import opened Registry

  datatype Emit =
    | RoomUserChange(to: set<string>, list: seq<UserPresence>)
    | UserJoined(to: set<string>, newcomer: Member, asSyncer: bool)
    | SyncDesignate(sockets: seq<string>, isSyncer: bool)

  /** What each socket was last told of the roster and of its own role; user-joined says neither. */
  datatype Clients = Clients(told: map<string, bool>, rosters: map<string, seq<UserPresence>>)

  function Deliver(c: Clients, e: Emit): Clients {
    match e
    case RoomUserChange(to, list) =>
      c.(rosters := map s | s in c.rosters.Keys + to :: if s in to then list else c.rosters[s])
    case UserJoined(_, _, _) => c
    case SyncDesignate(sockets, isSyncer) =>
      var targets := set s | s in sockets;
      c.(told := map s | s in c.told.Keys + targets :: if s in targets then isSyncer else c.told[s])
  }

  function DeliverAll(c: Clients, es: seq<Emit>): Clients
    decreases |es|
  {
    if es == [] then c else DeliverAll(Deliver(c, es[0]), es[1..])
  }

  lemma DeliverFirst(c: Clients, a: Emit, es: seq<Emit>)
    ensures DeliverAll(c, [a] + es) == DeliverAll(Deliver(c, a), es)
  {
    assert ([a] + es)[1..] == es;
  }

  lemma DeliverThree(c: Clients, a: Emit, b: Emit, d: Emit)
    ensures DeliverAll(c, [a, b, d]) == Deliver(Deliver(Deliver(c, a), b), d)
  {
    assert [a, b, d] == [a] + [b, d];
    DeliverFirst(c, a, [b, d]);
    DeliverTwo(Deliver(c, a), b, d);
  }

  lemma DeliverTwo(c: Clients, a: Emit, b: Emit)
    ensures DeliverAll(c, [a, b]) == Deliver(Deliver(c, a), b)
  {
    assert [a, b] == [a] + [b] && [b] == [b] + [];
    DeliverFirst(c, a, [b]);
    DeliverFirst(Deliver(c, a), b, []);
  }

  function Sockets(members: seq<Member>): set<string> {
    set m | m in members :: m.socketID
  }

  /** The emits of a join: everybody gets the roster and hears of the joiner, who gets its designation. */
  function JoinEmits(r: Roster, m: Member, added: bool, isSyncer: bool): seq<Emit> {
    if !added then []
    else
      [RoomUserChange(Sockets(r.members), Presence(r.members)), UserJoined(Sockets(r.members), m, isSyncer),
       SyncDesignate([m.socketID], isSyncer)]
  }

  /** emitSyncDesignate for an election's outcome. */
  function Designations(outcome: ElectionOutcome): seq<Emit> {
    if outcome.changed then [SyncDesignate(outcome.promoted, true), SyncDesignate(outcome.demoted, false)] else []
  }

  /** The emits of a leave, to those who stay. */
  function LeaveEmits(r: Roster, outcome: ElectionOutcome): seq<Emit> {
    if r.members == [] then []
    else [RoomUserChange(Sockets(r.members), Presence(r.members))] + Designations(outcome)
  }

  // -------------------------------------------------------------- invariants

  /** Sockets are distinct and users have ids, as sockets and session claims do. */
  ghost predicate Proper(members: seq<Member>) {
    && (forall i, j :: 0 <= i < j < |members| ==> members[i].socketID != members[j].socketID)
    && (forall i :: 0 <= i < |members| ==> members[i].userID != "")
  }

  /** A named syncer can save; a room without one has only users whose earliest socket cannot. */
  ghost predicate Sound(r: Roster) {
    && Proper(r.members)
    && (r.syncer != "" ==> HoldsWriter(r.members, r.syncer))
    && (r.syncer == "" ==> forall i :: 0 <= i < |r.members| ==> !Qualifies(r.members, i))
  }

  ghost predicate Believes(r: Roster, c: Clients, m: Member) {
    && m.socketID in c.told && m.socketID in c.rosters
    && c.rosters[m.socketID] == Presence(r.members)
    && (c.told[m.socketID] ==> m.userID == r.syncer)
    && (m.userID == r.syncer && m.canWrite ==> c.told[m.socketID])
  }

  ghost predicate Agree(r: Roster, c: Clients) {
    Sound(r) && forall i :: 0 <= i < |r.members| ==> Believes(r, c, r.members[i])
  }

  // --------------------------------------------------------- about elections

  lemma {:induction false} NextFromMeans(members: seq<Member>, i: nat)
    requires i <= |members| && forall k :: 0 <= k < |members| ==> members[k].userID != ""
    ensures var u := NextFrom(members, i);
      if u == "" then forall k :: i <= k < |members| ==> !Qualifies(members, k)
      else exists k :: i <= k < |members| && Qualifies(members, k) && members[k].userID == u
                       && forall j :: i <= j < k ==> !Qualifies(members, j)
    decreases |members| - i
  {
    if i == |members| {
    } else if !Qualifies(members, i) {
      NextFromMeans(members, i + 1);
    }
  }

  lemma {:induction false} SocketsOfMeans(members: seq<Member>, userID: string, s: string)
    requires userID != ""
    ensures s in SocketsOf(members, userID) <==>
      exists i :: 0 <= i < |members| && members[i].userID == userID && members[i].socketID == s
  {
    if members == [] {
    } else {
      var n := |members| - 1;
      SocketsOfMeans(members[..n], userID, s);
      assert members == members[..n] + [members[n]];
      assert forall i :: 0 <= i < n ==> members[..n][i] == members[i];
    }
  }

  /** Among proper members the sockets of a user are exactly its members' sockets. */
  lemma SocketsAreTheUsers(members: seq<Member>, userID: string, m: Member)
    requires Proper(members) && m in members && userID != ""
    ensures m.socketID in SocketsOf(members, userID) <==> m.userID == userID
  {
    SocketsOfMeans(members, userID, m.socketID);
  }

  /** The election leaves a sound room, whatever the syncer was before. */
  lemma ElectionIsSound(members: seq<Member>, current: string)
    requires Proper(members)
    ensures Sound(Roster(members, ElectSyncer(members, current).0))
  {
    NextFromMeans(members, 0);
  }

  /** An election with nobody to hold the role leaves the room without a syncer exactly if nobody qualifies. */
  lemma ElectsNobodyIff(members: seq<Member>, current: string)
    requires Proper(members) && (current == "" || !HoldsWriter(members, current))
    ensures ElectSyncer(members, current).0 == "" <==> forall i :: 0 <= i < |members| ==> !Qualifies(members, i)
  {
    NextFromMeans(members, 0);
  }

  predicate Designated(told: map<string, bool>, m: Member, syncer: string) {
    && m.socketID in told
    && (told[m.socketID] ==> m.userID == syncer)
    && (m.userID == syncer && m.canWrite ==> told[m.socketID])
  }

  /** The designations an election causes put every member right. */
  lemma DesignationsAreRight(members: seq<Member>, current: string, c: Clients, m: Member)
    requires Proper(members) && m in members && Designated(c.told, m, current)
    ensures var (next, o) := ElectSyncer(members, current);
      var after := DeliverAll(c, Designations(o));
      after.rosters == c.rosters && Designated(after.told, m, next)
  {
    var (next, o) := ElectSyncer(members, current);
    if o.changed {
      DeliverTwo(c, SyncDesignate(o.promoted, true), SyncDesignate(o.demoted, false));
      if next != "" { SocketsAreTheUsers(members, next, m); }
      if current != "" { SocketsAreTheUsers(members, current, m); }
    }
  }

  // ------------------------------------------------------- one join, one leave

  /** A join is right for everybody once its emits are delivered. */
  lemma {:induction false} JoinAgrees(r: Roster, c: Clients, m: Member)
    requires Agree(r, c) && m.userID != ""
    ensures var (r', added, isSyncer) := JoinRoster(r, m);
      Agree(r', DeliverAll(c, JoinEmits(r', m, added, isSyncer)))
  {
    var (r', added, isSyncer) := JoinRoster(r, m);
    if added {
      JoinIsSound(r, m);
      NewRosterAgrees(r, c, m, r');
      DeliverThree(c, RoomUserChange(Sockets(r'.members), Presence(r'.members)),
                   UserJoined(Sockets(r'.members), m, isSyncer), SyncDesignate([m.socketID], isSyncer));
    }
  }

  /** Everybody in the room, the newcomer included, hears who came, and whether it is to sync. */
  lemma JoinIsAnnounced(r: Roster, m: Member)
    requires forall i :: 0 <= i < |r.members| ==> r.members[i].socketID != m.socketID
    ensures var (r', added, isSyncer) := JoinRoster(r, m);
      && added && r'.members == r.members + [m] && (isSyncer <==> r'.syncer == m.userID && m.canWrite)
      && exists to :: UserJoined(to, m, isSyncer) in JoinEmits(r', m, added, isSyncer)
                      && forall k :: 0 <= k < |r'.members| ==> r'.members[k].socketID in to
  {
    var (r', added, isSyncer) := JoinRoster(r, m);
    assert JoinEmits(r', m, added, isSyncer)[1] == UserJoined(Sockets(r'.members), m, isSyncer);
    forall k | 0 <= k < |r'.members| ensures r'.members[k].socketID in Sockets(r'.members) {
      assert r'.members[k] in r'.members;
    }
  }

  /** What a join makes of a sound room: the newcomer last, and the role with its holder or the newcomer. */
  ghost predicate Welcomes(r: Roster, m: Member, r': Roster) {
    && r'.members == r.members + [m] && Sound(r')
    && (r'.syncer == r.syncer
        || (r.syncer == "" && r'.syncer == m.userID
            && forall i :: 0 <= i < |r.members| ==> r.members[i].userID != m.userID))
  }

  lemma JoinIsSound(r: Roster, m: Member)
    requires Sound(r) && m.userID != "" && JoinRoster(r, m).1
    ensures Welcomes(r, m, JoinRoster(r, m).0)
    ensures JoinRoster(r, m).2 == (JoinRoster(r, m).0.syncer == m.userID && m.canWrite)
  {
    assert Proper(r.members + [m]);
    ElectionIsSound(r.members + [m], r.syncer);
    NewcomerOnly(r, m);
  }

  /** The clients after the emits of `m` joining. */
  function Told(c: Clients, r': Roster, m: Member): Clients {
    Deliver(Deliver(c, RoomUserChange(Sockets(r'.members), Presence(r'.members))),
            SyncDesignate([m.socketID], r'.syncer == m.userID && m.canWrite))
  }

  lemma NewRosterAgrees(r: Roster, c: Clients, m: Member, r': Roster)
    requires Agree(r, c) && Welcomes(r, m, r')
    ensures Agree(r', Told(c, r', m))
  {
    forall i | 0 <= i < |r'.members| ensures Believes(r', Told(c, r', m), r'.members[i]) {
      assert r'.members[i].socketID in Sockets(r'.members);
      if i < |r.members| {
        assert Believes(r, c, r.members[i]);
        assert r'.members[i] == r.members[i] && r'.members[|r.members|] == m;
        assert r'.members[i].socketID != m.socketID && r'.members[i].userID != "";
        StayerOnJoin(r, c, m, r', r.members[i]);
      }
    }
  }

  lemma StayerOnJoin(r: Roster, c: Clients, m: Member, r': Roster, x: Member)
    requires Believes(r, c, x) && x.socketID != m.socketID && x.socketID in Sockets(r'.members) && x.userID != ""
    requires r'.syncer == r.syncer || (r.syncer == "" && r'.syncer == m.userID != x.userID)
    ensures Believes(r', Told(c, r', m), x)
  {
  }

  /** Nobody among the old members qualifies, so only the newcomer can. */
  lemma OnlyNewcomerQualifies(members: seq<Member>, m: Member, k: nat)
    requires forall i :: 0 <= i < |members| ==> !Qualifies(members, i)
    requires k < |members| + 1 && Qualifies(members + [m], k)
    ensures k == |members| && forall i :: 0 <= i < |members| ==> members[i].userID != m.userID
  {
    var all := members + [m];
    assert forall j :: 0 <= j < |members| ==> all[j] == members[j];
    assert forall i :: 0 <= i < |members| ==> (Qualifies(all, i) <==> Qualifies(members, i));
  }

  /** A join can only give the role to the newcomer, and only in a room without a syncer. */
  lemma NewcomerOnly(r: Roster, m: Member)
    requires Sound(r) && m.userID != "" && IndexOf(r.members, m.socketID) == |r.members|
    ensures var r' := JoinRoster(r, m).0;
      if r.syncer != "" then r'.syncer == r.syncer
      else
        || r'.syncer == ""
        || (r'.syncer == m.userID && forall i :: 0 <= i < |r.members| ==> r.members[i].userID != m.userID)
  {
    var members := r.members + [m];
    if r.syncer != "" {
      var i :| 0 <= i < |r.members| && r.members[i].userID == r.syncer && r.members[i].canWrite;
      assert members[i] == r.members[i];
    } else {
      NextFromMeans(members, 0);
      if k :| 0 <= k < |members| && Qualifies(members, k) && members[k].userID == ElectNext(members) {
        OnlyNewcomerQualifies(r.members, m, k);
      }
    }
  }

  /** A leave is right for everybody who stays once its emits are delivered. */
  lemma {:induction false} LeaveAgrees(r: Roster, c: Clients, socketID: string)
    requires Agree(r, c)
    ensures var (r', outcome) := LeaveRoster(r, socketID);
      Agree(r', DeliverAll(c, LeaveEmits(r', outcome)))
  {
    var (r', outcome) := LeaveRoster(r, socketID);
    if r'.members != [] {
      LeaveIsSound(r, socketID);
      var e := RoomUserChange(Sockets(r'.members), Presence(r'.members));
      DeliverFirst(c, e, Designations(outcome));
      forall i | 0 <= i < |r'.members| ensures Believes(r', DeliverAll(c, LeaveEmits(r', outcome)), r'.members[i]) {
        StayerBelieves(r, c, socketID, i);
      }
    }
  }

  lemma StayerBelieves(r: Roster, c: Clients, socketID: string, i: nat)
    requires Agree(r, c) && Proper(LeaveRoster(r, socketID).0.members) && i < |LeaveRoster(r, socketID).0.members|
    ensures var (r', outcome) := LeaveRoster(r, socketID);
      var e := RoomUserChange(Sockets(r'.members), Presence(r'.members));
      Believes(r', DeliverAll(Deliver(c, e), Designations(outcome)), r'.members[i])
  {
    var (r', outcome) := LeaveRoster(r, socketID);
    var m := r'.members[i];
    StayerWas(r, socketID, i);
    var j :| 0 <= j < |r.members| && r.members[j] == m;
    assert Believes(r, c, r.members[j]);
    var c1 := Deliver(c, RoomUserChange(Sockets(r'.members), Presence(r'.members)));
    assert m.socketID in Sockets(r'.members);
    assert Designated(c1.told, m, r.syncer);
    if IndexOf(r.members, socketID) < |r.members| { DesignationsAreRight(r'.members, r.syncer, c1, m); }
  }

  lemma LeaveIsSound(r: Roster, socketID: string)
    requires Sound(r)
    ensures Sound(LeaveRoster(r, socketID).0)
  {
    var k := IndexOf(r.members, socketID);
    if k < |r.members| && Without(r.members, k) != [] {
      var members := Without(r.members, k);
      assert forall i :: 0 <= i < |members| ==> members[i] == r.members[if i < k then i else i + 1];
      ElectionIsSound(members, r.syncer);
    }
  }

  lemma StayerWas(r: Roster, socketID: string, i: nat)
    requires i < |LeaveRoster(r, socketID).0.members|
    ensures LeaveRoster(r, socketID).0.members[i] in r.members
  {
  }

  // ------------------------------------------------------------------ all runs

  datatype Visit = Joins(m: Member) | Leaves(socketID: string)

  datatype Scene = Scene(roster: Roster, clients: Clients)

  function VisitStep(s: Scene, v: Visit): Scene {
    match v
    case Joins(m) =>
      var (r', added, isSyncer) := JoinRoster(s.roster, m);
      Scene(r', DeliverAll(s.clients, JoinEmits(r', m, added, isSyncer)))
    case Leaves(socketID) =>
      var (r', outcome) := LeaveRoster(s.roster, socketID);
      Scene(r', DeliverAll(s.clients, LeaveEmits(r', outcome)))
  }

  const EMPTY: Scene := Scene(Roster([], ""), Clients(map[], map[]))

  function Visited(vs: seq<Visit>): Scene {
    if vs == [] then EMPTY else VisitStep(Visited(vs[..|vs| - 1]), vs[|vs| - 1])
  }

  /** Every session names its user. */
  predicate Named(vs: seq<Visit>) {
    forall i :: 0 <= i < |vs| && vs[i].Joins? ==> vs[i].m.userID != ""
  }

  lemma {:induction false} BeliefsAgree(vs: seq<Visit>)
    requires Named(vs)
    ensures Agree(Visited(vs).roster, Visited(vs).clients)
  {
    if vs == [] {
    } else {
      var before := vs[..|vs| - 1];
      BeliefsAgree(before);
      match vs[|vs| - 1] {
        case Joins(m) => JoinAgrees(Visited(before).roster, Visited(before).clients, m);
        case Leaves(socketID) => LeaveAgrees(Visited(before).roster, Visited(before).clients, socketID);
      }
    }
  }

  /**
   After any run of joins and leaves two members told to sync are sockets of one user, the named
   syncer, who can save, and every socket of that user that can save was told.
   */
  lemma {:induction false} OneSyncerBelieved(vs: seq<Visit>, i: nat, j: nat)
    requires Named(vs)
    ensures var Scene(r, c) := Visited(vs);
      i < |r.members| && j < |r.members| ==>
        var a, b := r.members[i], r.members[j];
        && a.socketID in c.told && b.socketID in c.told
        && (c.told[a.socketID] && c.told[b.socketID] ==>
              a.userID == b.userID == r.syncer && HoldsWriter(r.members, r.syncer))
        && (a.userID == r.syncer && a.canWrite ==> c.told[a.socketID])
  {
    BeliefsAgree(vs);
    var Scene(r, c) := Visited(vs);
    if i < |r.members| && j < |r.members| {
      assert Believes(r, c, r.members[i]) && Believes(r, c, r.members[j]);
    }
  }

  /** A room without a syncer has only users who came first with a read-only socket. */
  lemma {:induction false} SyncerlessMeansReadOnlyFirst(vs: seq<Visit>, i: nat)
    requires Named(vs)
    ensures var r := Visited(vs).roster;
      r.syncer == "" && i < |r.members| ==>
        var k := FirstAt(r.members, r.members[i].userID); k < |r.members| && !r.members[k].canWrite
  {
    BeliefsAgree(vs);
    var r := Visited(vs).roster;
    if r.syncer == "" && i < |r.members| {
      var k := FirstAt(r.members, r.members[i].userID);
      assert k < |r.members| && (r.members[k].canWrite ==> Qualifies(r.members, k));
    }
  }

  /**
   The role is sticky: a join never moves it off a named syncer, and a leave does so only when
   the socket that leaves was that user's last one able to save.
   */
  lemma {:induction false} SyncerIsSticky(vs: seq<Visit>, v: Visit)
    requires Named(vs + [v])
    ensures var r, r' := Visited(vs).roster, Visited(vs + [v]).roster;
      r.syncer != "" && r'.syncer != r.syncer ==>
        v.Leaves? && SyncersWriter(r, v.socketID) && !HoldsWriter(r'.members, r.syncer)
  {
    assert Named(vs) by { assert forall i :: 0 <= i < |vs| ==> (vs + [v])[i] == vs[i]; }
    assert (vs + [v])[..|vs|] == vs && (vs + [v])[|vs|] == v;
    BeliefsAgree(vs);
    var r := Visited(vs).roster;
    if r.syncer != "" {
      match v {
        case Joins(m) => if IndexOf(r.members, m.socketID) == |r.members| { NewcomerOnly(r, m); }
        case Leaves(socketID) => LeaveIsSticky(r, socketID);
      }
    }
  }

  /** The socket is one of the syncer's that can write. */
  ghost predicate SyncersWriter(r: Roster, socketID: string) {
    exists i :: 0 <= i < |r.members| &&
      r.members[i].socketID == socketID && r.members[i].userID == r.syncer && r.members[i].canWrite
  }

  lemma LeaveIsSticky(r: Roster, socketID: string)
    requires Sound(r) && r.syncer != ""
    ensures var r' := LeaveRoster(r, socketID).0;
      r'.syncer != r.syncer ==> SyncersWriter(r, socketID) && !HoldsWriter(r'.members, r.syncer)
  {
    var k := IndexOf(r.members, socketID);
    if k < |r.members| && !SyncersWriter(r, socketID) {
      var i :| 0 <= i < |r.members| && r.members[i].userID == r.syncer && r.members[i].canWrite;
      assert i != k;
      assert Without(r.members, k)[if i < k then i else i - 1] == r.members[i];
    }
  }

  /** Access is the same for all of a user's sockets. */
  ghost predicate Uniform(members: seq<Member>) {
    forall i, j :: 0 <= i < |members| && 0 <= j < |members| && members[i].userID == members[j].userID ==>
      members[i].canWrite == members[j].canWrite
  }

  /** With uniform access a room with a writer has a syncer. */
  lemma WriterMeansSyncer(vs: seq<Visit>, m: Member)
    requires Named(vs) && Uniform(Visited(vs).roster.members)
    requires m in Visited(vs).roster.members && m.canWrite
    ensures Visited(vs).roster.syncer != ""
  {
    var members := Visited(vs).roster.members;
    var i :| 0 <= i < |members| && members[i] == m;
    SyncerlessMeansReadOnlyFirst(vs, i);
    assert members[FirstAt(members, m.userID)].userID == m.userID;
  }

  lemma ReadOnlyFirst(m: Member, second: Member)
    requires !m.canWrite && second.userID == m.userID != "" && second.socketID != m.socketID
    ensures JoinRoster(Roster([], ""), m).0 == Roster([m], "")
    ensures JoinRoster(Roster([m], ""), second).0 == Roster([m, second], "")
  {
    assert [] + [m] == [m] && [m] + [second] == [m, second];
    NextFromMeans([m], 0);
    NextFromMeans([m, second], 0);
  }

  /** Without it a user who came read-only first keeps a room syncer-less with a writable tab. */
  lemma MixedAccessCanStrand(m: Member, second: Member)
    requires !m.canWrite && second.canWrite && second.userID == m.userID != "" && second.socketID != m.socketID
    ensures var r := Visited([Joins(m), Joins(second)]).roster;
      r == Roster([m, second], "") && HoldsWriter(r.members, second.userID)
  {
    var vs := [Joins(m), Joins(second)];
    assert vs[..1] == [Joins(m)] && vs[..1][..0] == [];
    ReadOnlyFirst(m, second);
    assert Visited(vs[..1]) == VisitStep(EMPTY, Joins(m));
    assert Visited(vs) == VisitStep(Visited(vs[..1]), Joins(second));
    assert Visited(vs).roster.members[1] == second;
  }

  // ---------------------------------------------------------------- handlers

  /** The handlers of one process, over its registry; `roomOf` is each socket's state.roomID. */
  class Handlers {
    const registry: Registry
    var roomOf: map<string, string>

    constructor (registry: Registry)
      ensures this.registry == registry && roomOf == map[]
    {
      this.registry, roomOf := registry, map[];
    }

    /** onJoinRoom inside the room's emit lock: the emits in order, and whether the manager hears OnJoin. */
    method OnJoinRoom(roomID: string, m: Member, connected: bool) returns (emits: seq<Emit>, onJoin: bool)
      requires registry.Valid()
      modifies this, registry
      ensures registry.Valid()
      ensures !connected ==> emits == [] && !onJoin && unchanged(registry) && unchanged(this)
      ensures connected ==>
        var (r', added, isSyncer) := JoinRoster(old(registry.RosterOf(roomID)), m);
        && registry.RosterOf(roomID) == r' && emits == JoinEmits(r', m, added, isSyncer) && onJoin == added
        && roomOf == if added then old(roomOf)[m.socketID := roomID] else old(roomOf)
      ensures forall other :: other != roomID ==> registry.RosterOf(other) == old(registry.RosterOf(other))
    {
      if !connected { return [], false; }
      var presenceList, added, isSyncer := registry.Join(roomID, m);
      if !added { return [], false; }
      roomOf := roomOf[m.socketID := roomID];
      var sockets := Sockets(registry.RosterOf(roomID).members);
      emits := [RoomUserChange(sockets, presenceList)];
      emits := emits + [UserJoined(sockets, m, isSyncer)];
      emits := emits + [SyncDesignate([m.socketID], isSyncer)];
      onJoin := true;
    }

    /** onDisconnecting: the emits in order, and what the manager hears of the leave, if anything. */
    method OnDisconnecting(socketID: string) returns (emits: seq<Emit>, onLeave: Option<bool>)
      requires registry.Valid()
      modifies registry
      ensures registry.Valid()
      ensures socketID !in roomOf ==> emits == [] && onLeave.None? && unchanged(registry)
      ensures socketID in roomOf ==>
        var (r', outcome) := LeaveRoster(old(registry.RosterOf(roomOf[socketID])), socketID);
        && registry.RosterOf(roomOf[socketID]) == r' && emits == LeaveEmits(r', outcome)
        && onLeave == Some(r'.members == [])
      ensures forall other :: (socketID in roomOf ==> other != roomOf[socketID]) ==>
        registry.RosterOf(other) == old(registry.RosterOf(other))
    {
      if socketID !in roomOf { return [], None; }
      var roomID := roomOf[socketID];
      var presenceList, remaining, outcome := registry.Leave(roomID, socketID);
      onLeave := Some(!remaining);
      if !remaining { return [], onLeave; }
      emits := [RoomUserChange(Sockets(registry.RosterOf(roomID).members), presenceList)];
      if outcome.changed {
        emits := emits + [SyncDesignate(outcome.promoted, true)];
        emits := emits + [SyncDesignate(outcome.demoted, false)];
      }
    }
  }
}
