/**
 Which replica owns a file: rendezvous hashing over the peers DNS reported.

 Every statement is for any scoring function; `score` stands for the first eight bytes of the
 SHA-256 of the file id and the peer.
 */
module Peers {
  import opened Basics
  import Order

  type Score = (string, string) -> nat

  /** Peer `a` goes before peer `b` for the file: by score, then by name. */
  predicate Beats(score: Score, fileID: string, a: string, b: string) {
    score(fileID, a) > score(fileID, b) || (score(fileID, a) == score(fileID, b) && Order.Less(b, a))
  }

  ghost predicate Wins(score: Score, fileID: string, peers: set<string>, owner: string) {
    owner in peers && forall p :: p in peers && p != owner ==> Beats(score, fileID, owner, p)
  }

  lemma BeatsIsOrder(score: Score, fileID: string, a: string, b: string, c: string)
    ensures a != b ==> (Beats(score, fileID, a, b) <==> !Beats(score, fileID, b, a))
    ensures !Beats(score, fileID, a, a)
    ensures Beats(score, fileID, a, b) && Beats(score, fileID, b, c) ==> Beats(score, fileID, a, c)
  {
    Order.Trichotomy(a, b);
    Order.Trichotomy(a, a);
    if Order.Less(c, b) && Order.Less(b, a) { Order.Transitive(c, b, a); }
  }

  lemma {:induction false} WinnerExists(score: Score, fileID: string, peers: set<string>)
    requires peers != {}
    ensures exists owner :: Wins(score, fileID, peers, owner)
    decreases |peers|
  {
    var x :| x in peers;
    if y :| y in peers && y != x {
      var rest := peers - {x};
      assert y in rest;
      WinnerExists(score, fileID, rest);
      var w :| Wins(score, fileID, rest, w);
      BeatsIsOrder(score, fileID, w, x, x);
      if Beats(score, fileID, w, x) {
        assert Wins(score, fileID, peers, w);
      } else {
        forall p | p in peers && p != x ensures Beats(score, fileID, x, p) { BeatsIsOrder(score, fileID, x, w, p); }
        assert Wins(score, fileID, peers, x);
      }
    } else {
      assert Wins(score, fileID, peers, x);
    }
  }

  lemma WinnerUnique(score: Score, fileID: string, peers: set<string>, a: string, b: string)
    requires Wins(score, fileID, peers, a) && Wins(score, fileID, peers, b)
    ensures a == b
  {
    BeatsIsOrder(score, fileID, a, b, a);
  }

  /** The peer that beats every other one. */
  ghost function Winner(score: Score, fileID: string, peers: set<string>): (owner: string)
    requires peers != {}
    ensures Wins(score, fileID, peers, owner)
  {
    WinnerExists(score, fileID, peers);
    var owner :| Wins(score, fileID, peers, owner);
    owner
  }

  /** The loop finds the winner among the list's peers, whatever their order and however often each is listed. */
  method RendezvousOwner(score: Score, fileID: string, peers: seq<string>) returns (best: string)
    requires forall i :: 0 <= i < |peers| ==> peers[i] != ""
    ensures peers == [] ==> best == ""
    ensures peers != [] ==> best in Order.Elements(peers) && best == Winner(score, fileID, Order.Elements(peers))
    ensures forall p :: p in Order.Elements(peers) && p != best ==>
      score(fileID, p) < score(fileID, best) || (score(fileID, p) == score(fileID, best) && Order.Less(p, best))
  {
    best := "";
    var bestScore := 0;
    for i := 0 to |peers|
      invariant i == 0 ==> best == ""
      invariant i > 0 ==> best != "" && bestScore == score(fileID, best)
      invariant i > 0 ==> Wins(score, fileID, Order.Elements(peers[..i]), best)
    {
      var p := peers[i];
      assert peers[..i + 1] == peers[..i] + [p];
      assert Order.Elements(peers[..i + 1]) == Order.Elements(peers[..i]) + {p};
      var s := score(fileID, p);
      BeatsIsOrder(score, fileID, p, best, best);
      if best == "" || s > bestScore || (s == bestScore && Order.Less(best, p)) {
        forall q | q in Order.Elements(peers[..i]) && q != p ensures Beats(score, fileID, p, q) {
          BeatsIsOrder(score, fileID, p, best, q);
        }
        best := p;
        bestScore := s;
      }
    }
    assert peers[..|peers|] == peers;
    if peers != [] {
      assert peers[0] in Order.Elements(peers);
      WinnerUnique(score, fileID, Order.Elements(peers), best, Winner(score, fileID, Order.Elements(peers)));
    }
  }

  // -------------------------------------------------------- minimal disruption

  /** A peer that leaves takes only its own files along. */
  lemma RemovalKeepsOthersFiles(score: Score, fileID: string, peers: set<string>, gone: string)
    requires peers != {} && gone != Winner(score, fileID, peers)
    ensures peers - {gone} != {} && Winner(score, fileID, peers - {gone}) == Winner(score, fileID, peers)
  {
    var owner := Winner(score, fileID, peers);
    assert owner in peers - {gone};
    WinnerUnique(score, fileID, peers - {gone}, owner, Winner(score, fileID, peers - {gone}));
  }

  /** A peer that joins takes files over, and no file moves between two old peers. */
  lemma AdditionMovesOnlyToNewcomer(score: Score, fileID: string, peers: set<string>, newcomer: string)
    requires peers != {}
    ensures Winner(score, fileID, peers + {newcomer}) in {Winner(score, fileID, peers), newcomer}
  {
    var owner := Winner(score, fileID, peers + {newcomer});
    if owner != newcomer { WinnerUnique(score, fileID, peers, owner, Winner(score, fileID, peers)); }
  }

  // ------------------------------------------------------------------ replicas

  /** A replica's configuration and its current snapshot of the peers. */
  datatype Replica = Replica(enabled: bool, self: string, snapshot: seq<string>)

  ghost function OwnerSeenBy(score: Score, r: Replica, fileID: string): string {
    if !r.enabled then ""
    else if r.snapshot == [] then r.self
    else
      assert r.snapshot[0] in Order.Elements(r.snapshot);
      Winner(score, fileID, Order.Elements(r.snapshot))
  }

  ghost predicate Owns(score: Score, r: Replica, fileID: string) {
    !r.enabled || OwnerSeenBy(score, r, fileID) == r.self
  }

  /** What the replicas of one service have in common: routing is on, and they listed the same peers. */
  ghost predicate SameView(replicas: seq<Replica>, peers: set<string>) {
    && (forall i :: 0 <= i < |replicas| ==> replicas[i].enabled && Order.Elements(replicas[i].snapshot) == peers)
    && (forall i, j :: 0 <= i < j < |replicas| ==> replicas[i].self != replicas[j].self)
  }

  lemma AgreeOnOwner(score: Score, fileID: string, replicas: seq<Replica>, peers: set<string>, i: nat)
    requires SameView(replicas, peers) && i < |replicas|
    ensures OwnerSeenBy(score, replicas[i], fileID) ==
      if peers == {} then replicas[i].self else Winner(score, fileID, peers)
  {
    Order.OnlyEmptyHasNone(replicas[i].snapshot);
  }

  /**
   Among replicas that listed the same peers two own a file if and only if the list is empty, as it
   is before the first lookup succeeds: then each of them does. With every one of them listed, and
   any at all, one of them owns it.
   */
  lemma OneOwner(score: Score, fileID: string, replicas: seq<Replica>, peers: set<string>)
    requires SameView(replicas, peers)
    ensures forall i, j :: 0 <= i < j < |replicas| ==>
      (Owns(score, replicas[i], fileID) && Owns(score, replicas[j], fileID) <==> peers == {})
    ensures replicas != [] && peers == (set r | r in replicas :: r.self) ==>
      exists i :: 0 <= i < |replicas| && Owns(score, replicas[i], fileID)
  {
    forall i, j | 0 <= i < j < |replicas|
      ensures Owns(score, replicas[i], fileID) && Owns(score, replicas[j], fileID) <==> peers == {}
    {
      AgreeOnOwner(score, fileID, replicas, peers, i);
      AgreeOnOwner(score, fileID, replicas, peers, j);
    }
    if replicas != [] && peers == (set r | r in replicas :: r.self) {
      assert replicas[0].self in peers;
      var r :| r in replicas && r.self == Winner(score, fileID, peers);
      var i :| 0 <= i < |replicas| && replicas[i] == r;
      AgreeOnOwner(score, fileID, replicas, peers, i);
      assert Owns(score, replicas[i], fileID);
    }
  }

  // ------------------------------------------------------------------- cluster

  /** sort.Strings on a list without duplicates. */
  method SortStrings(items: seq<string>) returns (sorted: seq<string>)
    requires forall i, j :: 0 <= i < j < |items| ==> items[i] != items[j]
    ensures sorted == Order.Sorted(Order.Elements(items))
  {
    sorted := [];
    for i := 0 to |items|
      invariant Order.Increasing(sorted) && Order.Elements(sorted) == Order.Elements(items[..i])
    {
      assert items[..i + 1] == items[..i] + [items[i]];
      assert items[i] !in items[..i];
      assert items[i] in sorted <==> items[i] in Order.Elements(sorted);
      sorted := InsertString(sorted, items[i]);
    }
    assert items[..|items|] == items;
    Order.IncreasingUnique(sorted, Order.Sorted(Order.Elements(items)));
  }

  method InsertString(sorted: seq<string>, s: string) returns (r: seq<string>)
    requires Order.Increasing(sorted) && s !in sorted
    ensures Order.Increasing(r) && Order.Elements(r) == Order.Elements(sorted) + {s}
  {
    var i := 0;
    while i < |sorted| && Order.Less(sorted[i], s)
      invariant 0 <= i <= |sorted| && forall k :: 0 <= k < i ==> Order.Less(sorted[k], s)
    {
      i := i + 1;
    }
    forall k | i <= k < |sorted| ensures Order.Less(s, sorted[k]) {
      Order.Trichotomy(sorted[i], s);
      if k > i { Order.Transitive(s, sorted[i], sorted[k]); }
    }
    r := sorted[..i] + [s] + sorted[i..];
    assert sorted == sorted[..i] + sorted[i..];
  }

  function PeerURL(hostPort: string): string {
    "http://" + hostPort
  }

  /** A replica's view of its peers; `resolveOnce` replaces the snapshot. */
  class Cluster {
    const enabled: bool
    const self: string
    const score: Score
    var snapshot: seq<string>

    constructor (enabled: bool, self: string, score: Score)
      ensures this.enabled == enabled && this.self == self && this.score == score && snapshot == [] && Valid()
    {
      this.enabled, this.self, this.score, snapshot := enabled, self, score, [];
    }

    /** Every listed peer is a URL. */
    ghost predicate Valid()
      reads this
    {
      forall i :: 0 <= i < |snapshot| ==> snapshot[i] != ""
    }

    function Model(): Replica
      reads this
    {
      Replica(enabled, self, snapshot)
    }

    /** A lookup's answers, or None for a failed lookup, which keeps the previous snapshot. */
    method ResolveOnce(addrs: Option<seq<string>>)
      requires Valid()
      modifies this
      ensures Valid()
      ensures snapshot == match addrs
                          case None => old(snapshot)
                          case Some(list) => Order.Sorted(set a | a in list :: PeerURL(a))
    {
      if addrs.None? { return; }
      var list := addrs.value;
      var seen: set<string> := {};
      var peersList: seq<string> := [];
      for i := 0 to |list|
        invariant snapshot == old(snapshot)
        invariant seen == Order.Elements(peersList) == set a | a in list[..i] :: PeerURL(a)
        invariant forall k, l :: 0 <= k < l < |peersList| ==> peersList[k] != peersList[l]
      {
        var u := PeerURL(list[i]);
        assert list[..i + 1] == list[..i] + [list[i]];
        if u !in seen {
          assert Order.Elements(peersList + [u]) == Order.Elements(peersList) + {u};
          assert forall k :: 0 <= k < |peersList| ==> peersList[k] in Order.Elements(peersList);
          seen := seen + {u};
          peersList := peersList + [u];
        }
      }
      assert list[..|list|] == list;
      snapshot := SortStrings(peersList);
      forall i | 0 <= i < |snapshot| ensures snapshot[i] != "" {
        assert snapshot[i] in Order.Elements(snapshot);
      }
    }

    method Owner(fileID: string) returns (owner: string)
      requires Valid()
      ensures owner == OwnerSeenBy(score, Model(), fileID)
      ensures !enabled ==> owner == ""
      ensures enabled && snapshot == [] ==> owner == self
      ensures enabled && snapshot != [] ==>
        && owner in snapshot
        && forall p :: p in snapshot ==> score(fileID, p) <= score(fileID, owner)
    {
      if !enabled { return ""; }
      if |snapshot| == 0 { return self; }
      owner := RendezvousOwner(score, fileID, snapshot);
      assert owner in Order.Elements(snapshot);
      forall p | p in snapshot ensures score(fileID, p) <= score(fileID, owner) {
        assert p in Order.Elements(snapshot);
      }
    }

    method IsSelf(fileID: string) returns (isSelf: bool)
      requires Valid()
      ensures isSelf == Owns(score, Model(), fileID)
      ensures !enabled ==> isSelf
    {
      if !enabled { return true; }
      var owner := Owner(fileID);
      isSelf := owner == self;
    }
  }
}
