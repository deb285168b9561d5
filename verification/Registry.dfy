/**
 The relay's membership registry and its syncer election.

 Functions say what a join or a leave makes of one room's roster; class `Registry` keeps every
 room's members and syncer in maps it changes in place, with loops, and is proved against them.
 */
module Registry {

  datatype Member = Member(socketID: string, userID: string, userName: string, canWrite: bool)

  datatype UserPresence = UserPresence(socketID: string, userID: string, userName: string, socketIDs: seq<string>)

  datatype ElectionOutcome = ElectionOutcome(changed: bool, promoted: seq<string>, demoted: seq<string>)

  const NO_CHANGE: ElectionOutcome := ElectionOutcome(false, [], [])

  /** One room: its members in join order, and the syncer's user id, "" for none. */
  datatype Roster = Roster(members: seq<Member>, syncer: string)

  // --------------------------------------------------------------- election

  predicate HoldsWriter(members: seq<Member>, userID: string) {
    exists i :: 0 <= i < |members| && members[i].userID == userID && members[i].canWrite
  }

  /** Member i is its user's earliest socket, and can write. */
  predicate Qualifies(members: seq<Member>, i: nat)
    requires i < |members|
  {
    members[i].canWrite && forall j :: 0 <= j < i ==> members[j].userID != members[i].userID
  }

  /** The user of the first qualifying member from `i` on. */
  function NextFrom(members: seq<Member>, i: nat): string
    requires i <= |members|
    decreases |members| - i
  {
    if i == |members| then ""
    else if Qualifies(members, i) then members[i].userID
    else NextFrom(members, i + 1)
  }

  function ElectNext(members: seq<Member>): string {
    NextFrom(members, 0)
  }

  /** The sockets of `userID`, in join order. */
  function SocketsOf(members: seq<Member>, userID: string): seq<string> {
    if userID == "" || members == [] then []
    else
      var n := |members| - 1;
      SocketsOf(members[..n], userID) + if members[n].userID == userID then [members[n].socketID] else []
  }

  /** The syncer after an election, and the sockets to be told. */
  function ElectSyncer(members: seq<Member>, current: string): (string, ElectionOutcome) {
    if current != "" && HoldsWriter(members, current) then (current, NO_CHANGE)
    else
      var next := ElectNext(members);
      if next == current then (current, NO_CHANGE)
      else (next, ElectionOutcome(true, SocketsOf(members, next), SocketsOf(members, current)))
  }

  // --------------------------------------------------------------- presence

  /** The row of `userID`, or `|rows|`. */
  function RowOf(rows: seq<UserPresence>, userID: string): (k: nat)
    ensures k <= |rows|
    ensures k < |rows| ==> rows[k].userID == userID
    ensures forall i :: 0 <= i < k ==> rows[i].userID != userID
  {
    if rows == [] then 0
    else if rows[0].userID == userID then 0
    else 1 + RowOf(rows[1..], userID)
  }

  function AddPresence(rows: seq<UserPresence>, m: Member): seq<UserPresence> {
    var k := RowOf(rows, m.userID);
    if k < |rows| then rows[k := rows[k].(socketIDs := rows[k].socketIDs + [m.socketID])]
    else rows + [UserPresence(m.socketID, m.userID, m.userName, [m.socketID])]
  }

  /** One row per user, in first-join order, with all of the user's sockets. */
  function Presence(members: seq<Member>): seq<UserPresence> {
    if members == [] then [] else AddPresence(Presence(members[..|members| - 1]), members[|members| - 1])
  }

  /** The first member of `userID`, or `|members|`. */
  function FirstAt(members: seq<Member>, userID: string): (k: nat)
    ensures k <= |members|
    ensures k < |members| ==> members[k].userID == userID
    ensures forall i :: 0 <= i < k ==> members[i].userID != userID
  {
    if members == [] then 0
    else
      var n := |members| - 1;
      var k := FirstAt(members[..n], userID);
      if k < n then k else if members[n].userID == userID then n else n + 1
  }

  /** Row k of the list stands for its user: the sockets of that user, led by the first to join. */
  ghost predicate RowIsRight(members: seq<Member>, rows: seq<UserPresence>, k: nat)
    requires k < |rows|
  {
    var row := rows[k];
    var first := FirstAt(members, row.userID);
    && first < |members|
    && row.socketID == members[first].socketID && row.userName == members[first].userName
    && (row.userID != "" ==> row.socketIDs == SocketsOf(members, row.userID))
  }

  lemma {:induction false} NoSockets(members: seq<Member>, userID: string)
    requires FirstAt(members, userID) == |members|
    ensures SocketsOf(members, userID) == []
  {
    if members == [] {
    } else {
      NoSockets(members[..|members| - 1], userID);
    }
  }

  ghost predicate Lists(members: seq<Member>, rows: seq<UserPresence>) {
    && (forall k :: 0 <= k < |rows| ==> RowIsRight(members, rows, k))
    && (forall k, l :: 0 <= k < l < |rows| ==> FirstAt(members, rows[k].userID) < FirstAt(members, rows[l].userID))
    && (forall i :: 0 <= i < |members| ==> RowOf(rows, members[i].userID) < |rows|)
  }

  lemma Unlisted(members: seq<Member>, rows: seq<UserPresence>, userID: string)
    requires Lists(members, rows) && RowOf(rows, userID) == |rows|
    ensures FirstAt(members, userID) == |members|
  {
    forall i | 0 <= i < |members| ensures members[i].userID != userID {
      assert RowOf(rows, members[i].userID) < |rows|;
    }
  }

  /** A row of another user than the newcomer's stays right; the newcomer's own row becomes right. */
  lemma RowStaysRight(members: seq<Member>, rows: seq<UserPresence>, m: Member, k: nat)
    requires Lists(members, rows) && k < |AddPresence(rows, m)|
    ensures RowIsRight(members + [m], AddPresence(rows, m), k)
  {
    var all := members + [m];
    assert all[..|members|] == members;
    if k < |rows| {
      assert RowIsRight(members, rows, k);
      if RowOf(rows, m.userID) < |rows| {
        assert RowIsRight(members, rows, RowOf(rows, m.userID));
      }
    } else {
      Unlisted(members, rows, m.userID);
      NoSockets(members, m.userID);
    }
  }

  lemma {:induction false} ListsAdd(members: seq<Member>, rows: seq<UserPresence>, m: Member)
    requires Lists(members, rows)
    ensures Lists(members + [m], AddPresence(rows, m))
  {
    var all, after := members + [m], AddPresence(rows, m);
    assert all[..|members|] == members;
    forall k | 0 <= k < |after| ensures RowIsRight(all, after, k) { RowStaysRight(members, rows, m, k); }
    forall k, l | 0 <= k < l < |after| ensures FirstAt(all, after[k].userID) < FirstAt(all, after[l].userID) {
      assert RowIsRight(members, rows, k);
      if l < |rows| { assert RowIsRight(members, rows, l); }
    }
    forall i | 0 <= i < |all| ensures RowOf(after, all[i].userID) < |after| {
      var r := RowOf(rows, all[i].userID);
      assert r < |rows| || i == |members|;
      assert after[if r < |rows| then r else |rows|].userID == all[i].userID;
    }
  }

  /** A roster lists every user once, in first-join order, with exactly that user's sockets. */
  lemma {:induction false} PresenceMeaning(members: seq<Member>)
    ensures Lists(members, Presence(members))
  {
    if members == [] {
    } else {
      var n := |members| - 1;
      PresenceMeaning(members[..n]);
      ListsAdd(members[..n], Presence(members[..n]), members[n]);
      assert members == members[..n] + [members[n]];
    }
  }

  // ------------------------------------------------------------ join and leave

  /** The position of the socket, or `|members|`. */
  function IndexOf(members: seq<Member>, socketID: string): (k: nat)
    ensures k <= |members|
    ensures k < |members| ==> members[k].socketID == socketID
    ensures forall i :: 0 <= i < k ==> members[i].socketID != socketID
  {
    if members == [] then 0
    else if members[0].socketID == socketID then 0
    else 1 + IndexOf(members[1..], socketID)
  }

  /** join: the roster after it, whether `m` was added, and whether it is told it syncs. */
  function JoinRoster(r: Roster, m: Member): (Roster, bool, bool) {
    if IndexOf(r.members, m.socketID) < |r.members| then (r, false, r.syncer == m.userID)
    else
      var members := r.members + [m];
      var next := ElectSyncer(members, r.syncer).0;
      (Roster(members, next), true, next == m.userID && m.canWrite)
  }

  function Without(members: seq<Member>, k: nat): seq<Member>
    requires k < |members|
  {
    members[..k] + members[k + 1..]
  }

  /** leave: the roster after it, and what the election says to whom. */
  function LeaveRoster(r: Roster, socketID: string): (Roster, ElectionOutcome) {
    var k := IndexOf(r.members, socketID);
    if k == |r.members| then (r, NO_CHANGE)
    else
      var members := Without(r.members, k);
      if members == [] then (Roster([], ""), NO_CHANGE)
      else
        var (next, outcome) := ElectSyncer(members, r.syncer);
        (Roster(members, next), outcome)
  }

  // ---------------------------------------------------------------- registry

  class Registry {
    var rooms: map<string, seq<Member>>
    var syncers: map<string, string>

    function RosterOf(roomID: string): Roster
      reads this
    {
      Roster(if roomID in rooms then rooms[roomID] else [], if roomID in syncers then syncers[roomID] else "")
    }

    /** No empty room is kept. */
    ghost predicate Valid()
      reads this
    {
      syncers.Keys <= rooms.Keys && forall id :: id in rooms ==> rooms[id] != []
    }

    constructor ()
      ensures Valid() && rooms == map[] && syncers == map[]
    {
      rooms, syncers := map[], map[];
    }

    static method ElectNextUser(members: seq<Member>) returns (userID: string)
      ensures userID == ElectNext(members)
    {
      var seen: set<string> := {};
      for i := 0 to |members|
        invariant seen == set j | 0 <= j < i :: members[j].userID
        invariant ElectNext(members) == NextFrom(members, i)
      {
        var m := members[i];
        if m.userID !in seen {
          seen := seen + {m.userID};
          if m.canWrite { return m.userID; }
        }
      }
      userID := "";
    }

    static method HasSocket(members: seq<Member>, userID: string) returns (found: bool)
      ensures found == HoldsWriter(members, userID)
    {
      for i := 0 to |members|
        invariant forall j :: 0 <= j < i ==> !(members[j].userID == userID && members[j].canWrite)
      {
        if members[i].userID == userID && members[i].canWrite { return true; }
      }
      found := false;
    }

    static method SocketIDsForUser(members: seq<Member>, userID: string) returns (out: seq<string>)
      ensures out == SocketsOf(members, userID)
    {
      out := [];
      if userID == "" { return; }
      for i := 0 to |members|
        invariant out == SocketsOf(members[..i], userID)
      {
        assert members[..i + 1][..i] == members[..i];
        if members[i].userID == userID {
          out := out + [members[i].socketID];
        }
      }
      assert members[..|members|] == members;
    }

    static method DemotionTargets(members: seq<Member>, oldSyncer: string, newSyncer: string) returns (out: seq<string>)
      ensures out == if oldSyncer == newSyncer then [] else SocketsOf(members, oldSyncer)
    {
      if oldSyncer == "" || oldSyncer == newSyncer { return []; }
      out := SocketIDsForUser(members, oldSyncer);
    }

    static method Elect(members: seq<Member>, current: string) returns (next: string, outcome: ElectionOutcome)
      ensures (next, outcome) == ElectSyncer(members, current)
    {
      var held := HasSocket(members, current);
      if current != "" && held { return current, NO_CHANGE; }
      next := ElectNextUser(members);
      if next == current { return current, NO_CHANGE; }
      var promoted: seq<string> := [];
      if next != "" {
        promoted := SocketIDsForUser(members, next);
      }
      var demoted := DemotionTargets(members, current, next);
      outcome := ElectionOutcome(true, promoted, demoted);
    }

    /** The map and the order list hold the rows. */
    static ghost predicate Gathered(rows: seq<UserPresence>, order: seq<string>, byUser: map<string, UserPresence>) {
      && |order| == |rows|
      && (forall k :: 0 <= k < |rows| ==>
            order[k] == rows[k].userID && order[k] in byUser && byUser[order[k]] == rows[k])
      && (forall u :: u in byUser ==> u in order)
      && (forall k, l :: 0 <= k < l < |order| ==> order[k] != order[l])
    }

    /** One member's turn: a new user gets a row, and the socket joins its user's row. */
    static method Gather(order: seq<string>, byUser: map<string, UserPresence>, m: Member,
                         ghost rows: seq<UserPresence>)
      returns (order': seq<string>, byUser': map<string, UserPresence>)
      requires Gathered(rows, order, byUser)
      ensures Gathered(AddPresence(rows, m), order', byUser')
    {
      order', byUser' := order, byUser;
      if m.userID !in byUser {
        assert RowOf(rows, m.userID) == |rows|;
        byUser' := byUser'[m.userID := UserPresence(m.socketID, m.userID, m.userName, [])];
        order' := order' + [m.userID];
      }
      var entry := byUser'[m.userID];
      byUser' := byUser'[m.userID := entry.(socketIDs := entry.socketIDs + [m.socketID])];
    }

    /** The rows in first-join order, gathered in a map by user. */
    static method ListPresence(members: seq<Member>) returns (out: seq<UserPresence>)
      ensures out == Presence(members)
    {
      var order: seq<string> := [];
      var byUser: map<string, UserPresence> := map[];
      for i := 0 to |members|
        invariant Gathered(Presence(members[..i]), order, byUser)
      {
        assert members[..i + 1][..i] == members[..i] && members[..i + 1][i] == members[i];
        order, byUser := Gather(order, byUser, members[i], Presence(members[..i]));
      }
      assert members[..|members|] == members;
      out := [];
      for i := 0 to |order|
        invariant out == Presence(members)[..i]
      {
        out := out + [byUser[order[i]]];
      }
    }

    method Join(roomID: string, m: Member) returns (presenceList: seq<UserPresence>, added: bool, isSyncer: bool)
      requires Valid()
      modifies this
      ensures Valid()
      ensures (RosterOf(roomID), added, isSyncer) == JoinRoster(old(RosterOf(roomID)), m)
      ensures presenceList == Presence(RosterOf(roomID).members)
      ensures forall other :: other != roomID ==> RosterOf(other) == old(RosterOf(other))
    {
      var r := RosterOf(roomID);
      for i := 0 to |r.members|
        invariant forall j :: 0 <= j < i ==> r.members[j].socketID != m.socketID
      {
        if r.members[i].socketID == m.socketID {
          presenceList := ListPresence(r.members);
          return presenceList, false, r.syncer == m.userID;
        }
      }
      var members := r.members + [m];
      rooms := rooms[roomID := members];
      var next, _ := Elect(members, r.syncer);
      syncers := syncers[roomID := next];
      presenceList := ListPresence(members);
      added, isSyncer := true, next == m.userID && m.canWrite;
    }

    /** The position of the socket's member, or the number of members. */
    static method Find(members: seq<Member>, socketID: string) returns (idx: nat)
      ensures idx == IndexOf(members, socketID)
    {
      idx := 0;
      while idx < |members| && members[idx].socketID != socketID
        invariant idx <= IndexOf(members, socketID)
      {
        idx := idx + 1;
      }
    }

    /** The registry after the members of a room changed to a non-empty list without one of them. */
    method Reelect(roomID: string, members: seq<Member>, current: string) returns (outcome: ElectionOutcome)
      requires Valid() && members != [] && roomID in rooms && current == RosterOf(roomID).syncer
      modifies this
      ensures Valid() && RosterOf(roomID) == Roster(members, ElectSyncer(members, current).0)
      ensures outcome == ElectSyncer(members, current).1
      ensures forall other :: other != roomID ==> RosterOf(other) == old(RosterOf(other))
    {
      rooms := rooms[roomID := members];
      var next;
      next, outcome := Elect(members, current);
      if outcome.changed {
        syncers := syncers[roomID := next];
      }
    }

    method Leave(roomID: string, socketID: string)
      returns (presenceList: seq<UserPresence>, remaining: bool, outcome: ElectionOutcome)
      requires Valid()
      modifies this
      ensures Valid()
      ensures (RosterOf(roomID), outcome) == LeaveRoster(old(RosterOf(roomID)), socketID)
      ensures presenceList == Presence(RosterOf(roomID).members) && remaining == (RosterOf(roomID).members != [])
      ensures forall other :: other != roomID ==> RosterOf(other) == old(RosterOf(other))
    {
      var r := RosterOf(roomID);
      var idx := Find(r.members, socketID);
      if idx == |r.members| {
        presenceList := ListPresence(r.members);
        return presenceList, |r.members| > 0, NO_CHANGE;
      }
      var members := r.members[..idx] + r.members[idx + 1..];
      if |members| == 0 {
        rooms, syncers := rooms - {roomID}, syncers - {roomID};
        return [], false, NO_CHANGE;
      }
      outcome := Reelect(roomID, members, r.syncer);
      presenceList := ListPresence(members);
      remaining := true;
    }
  }
}
