/**
 When a fleet keeps a room's lease. The managers of one file share one lock value, so a second
 manager's LOCK or REFRESH_LOCK only prolongs the lease, and its UNLOCK is the one thing that
 ends it.
 */
module FleetLease {
  import opened Basics
  import opened WopiHost
  import opened RoomModel
  import opened SaveMachine
  import opened Replicas
  import FirstPass
  import Lease
  import LockSafety
  import SaveSafety
  import Takeover

  // ------------------------------------------------------- one replica's view

  /** A move of the fleet, as replica k sees it. */
  ghost function Seen(w: World, f: Fleet, k: nat, m: Move): Label {
    match m
    case Pass(now) => Tick(now)
    case By(j, step) => if j == k && Own(step) then step else Others(MoveStep(w, f, m).host)
    case _ => Others(MoveStep(w, f, m).host)
  }

  ghost function AllSeen(w: World, f: Fleet, k: nat, ms: seq<Move>): seq<Label> {
    if ms == [] then []
    else
      var before := ms[..|ms| - 1];
      AllSeen(w, f, k, before) + [Seen(w, FleetRun(w, f, before), k, ms[|ms| - 1])]
  }

  lemma MoveSeen(w: World, f: Fleet, k: nat, m: Move)
    requires k < |f.replicas|
    ensures var g := MoveStep(w, f, m);
      |g.replicas| >= |f.replicas| && View(g, k) == Step(w, View(f, k), Seen(w, f, k, m))
  {
    if m.By? && m.k == k && m.step.Work? { SaveSafety.HostOnlyByRequest(w, View(f, k), m.step.choice); }
  }

  /** What a replica sees of a fleet's run is a run of its own machine. */
  lemma {:induction false} RunSeen(w: World, f: Fleet, k: nat, ms: seq<Move>)
    requires k < |f.replicas|
    ensures var g := FleetRun(w, f, ms);
      k < |g.replicas| && View(g, k) == Run(w, View(f, k), AllSeen(w, f, k, ms))
  {
    if ms == [] {
    } else {
      var before, m := ms[..|ms| - 1], ms[|ms| - 1];
      RunSeen(w, f, k, before);
      MoveSeen(w, FleetRun(w, f, before), k, m);
      RunExtends(w, View(f, k), AllSeen(w, f, k, before), Seen(w, FleetRun(w, f, before), k, m));
    }
  }

  /** Every replica of a fleet's run has a run from the fresh room it joined with. */
  lemma {:induction false} ViewReached(w: World, h: HostFile, t: Time, ms: seq<Move>, k: nat)
    returns (joined: HostFile, at: Time, past: seq<Label>)
    requires k < |FleetRun(w, Fleet([], h, t), ms).replicas|
    ensures Run(w, Start(w, joined, at), past) == View(FleetRun(w, Fleet([], h, t), ms), k)
  {
    if ms == [] {
      assert false;
    } else {
      var f, m := FleetRun(w, Fleet([], h, t), ms[..|ms| - 1]), ms[|ms| - 1];
      if k < |f.replicas| {
        joined, at, past := ViewReached(w, h, t, ms[..|ms| - 1], k);
        MoveSeen(w, f, k, m);
        RunExtends(w, Start(w, joined, at), past, Seen(w, f, k, m));
        past := past + [Seen(w, f, k, m)];
      } else {
        joined, at, past := f.host, f.now, [];
      }
    }
  }

  // ------------------------------------------------------------ other replicas

  /** Another replica's UNLOCK, granted. */
  ghost predicate Unlocks(w: World, f: Fleet, k: nat, m: Move) {
    && m.By? && m.k != k && m.k < |f.replicas| && Own(m.step) && m.step.Work?
    && var s := View(f, m.k);
    && RequestOf(s.pc).Some? && RequestOf(s.pc).value.Unlock?
    && Call(w, s, m.step.choice, RequestOf(s.pc).value).1.Ok?
  }

  /**
   What the rest of the fleet does to replica k's lease: any move keeps it, or prolongs it, but
   another replica's granted UNLOCK, which ends it while replica k's room knows nothing of it.
   */
  lemma MoveIsHonest(w: World, f: Fleet, k: nat, m: Move)
    requires FleetInv(w, f) && w.own != "" && k < |f.replicas| && !(m.By? && m.k == k)
    ensures var g := MoveStep(w, f, m);
      && (Lease.Honest(w, View(f, k), g.host) <==> !Unlocks(w, f, k, m))
      && (Unlocks(w, f, k, m) ==> EffectiveLock(g.host, g.now) == "" && g.replicas[k] == f.replicas[k])
  {
    if m.By? && m.k < |f.replicas| && Own(m.step) && m.step.Work? {
      var s, ch := View(f, m.k), m.step.choice;
      SaveSafety.HostOnlyByRequest(w, s, ch);
      if RequestOf(s.pc).Some? { CallIsHonest(w, s, ch, RequestOf(s.pc).value); }
    }
  }

  lemma CallIsHonest(w: World, s: Sys, ch: Choice, q: Request)
    requires Inv(w, s) && w.own != "" && RequestOf(s.pc) == Some(q)
    ensures var (h, a) := Call(w, s, ch, q);
      && (Lease.Honest(w, s, h) <==> !(q.Unlock? && a.Ok?))
      && (q.Unlock? && a.Ok? ==> EffectiveLock(h, s.now) == "")
  {
    if ch.glitch.None? { Lease.OthersAreHonest(w, s, q); }
  }

  // ---------------------------------------------------------------- theorems

  /** The run `ms` keeps, for replica k, the lease's assumptions, and no other replica unlocks. */
  ghost predicate Kept(w: World, f: Fleet, k: nat, ms: seq<Move>, d: nat)
    requires k < |f.replicas|
  {
    ms != [] ==>
      var before, m := ms[..|ms| - 1], ms[|ms| - 1];
      && Kept(w, f, k, before, d)
      && var g, g' := FleetRun(w, f, before), FleetRun(w, f, ms);
      && k < |g.replicas| && k < |g'.replicas|
      && (m.By? && m.k == k && Own(m.step) ==> Lease.Fits(w, View(g, k), m.step))
      && !Unlocks(w, g, k, m)
      && Lease.Timely(View(g', k), d) && Lease.Attended(View(g', k))
  }

  lemma {:induction false} KeptAlone(w: World, f: Fleet, k: nat, ms: seq<Move>, d: nat)
    requires k < |f.replicas| && FleetInv(w, f) && w.own != "" && Kept(w, f, k, ms, d)
    ensures FleetInv(w, FleetRun(w, f, ms)) && Lease.Kept(w, View(f, k), AllSeen(w, f, k, ms), d, false)
  {
    if ms == [] {
    } else {
      var before, m := ms[..|ms| - 1], ms[|ms| - 1];
      KeptAlone(w, f, k, before, d);
      RunSeen(w, f, k, before);
      RunSeen(w, f, k, ms);
      var g := FleetRun(w, f, before);
      KeepsMove(w, g, m);
      if !(m.By? && m.k == k) { MoveIsHonest(w, g, k, m); }
      var ls := AllSeen(w, f, k, ms);
      assert ls[..|ls| - 1] == AllSeen(w, f, k, before);
    }
  }

  /**
   A fleet keeps a room's lease as long as no other replica's UNLOCK is granted. After any run of
   the fleet, from the moment replica k joins, or rests with a young lease or none: its lock is
   live at the host at every moment it has it, whatever else the others do.
   */
  lemma {:induction false} FleetKeepsLease(w: World, h: HostFile, t: Time, past: seq<Move>, ms: seq<Move>,
                                            k: nat, d: nat)
    requires w.own != "" && h.lock in {"", w.own} && LOCK_REFRESH_INTERVAL + d < LOCK_TTL
    requires var f := FleetRun(w, Fleet([], h, t), past);
      && k < |f.replicas| && (View(f, k) == Start(w, f.host, f.now) || Lease.RestsLeased(w, View(f, k), d))
      && Kept(w, f, k, ms, d)
    ensures var f := FleetRun(w, FleetRun(w, Fleet([], h, t), past), ms);
      k < |f.replicas| && (f.replicas[k].room.lock.haveLock ==> EffectiveLock(f.host, f.now) == w.own)
  {
    Reachable(w, h, t, past);
    var f := FleetRun(w, Fleet([], h, t), past);
    KeptAlone(w, f, k, ms, d);
    RunSeen(w, f, k, ms);
    var ls := AllSeen(w, f, k, ms);
    if View(f, k) == Start(w, f.host, f.now) {
      Lease.LeaseNeverLapses(w, f.host, f.now, [], ls, d);
    } else {
      var joined, at, alone := ViewReached(w, h, t, past, k);
      Lease.LeaseNeverLapses(w, joined, at, alone, ls, d);
    }
  }

  // -------------------------------------------------------------- the limit

  /** Replica k's undisturbed steps move no other replica, and no clock. */
  lemma {:induction false} StepsElsewhere(w: World, f: Fleet, k: nat, n: nat, j: nat)
    requires k < |f.replicas| && j < |f.replicas| && j != k
    ensures var g := FleetRun(w, f, Steps(k, n));
      |g.replicas| == |f.replicas| && g.replicas[j] == f.replicas[j] && g.now == f.now
  {
    if n == 0 {
    } else {
      StepsElsewhere(w, f, k, n - 1, j);
      assert Steps(k, n)[..n - 1] == Steps(k, n - 1);
      assert FleetRun(w, f, Steps(k, n)) == MoveStep(w, FleetRun(w, f, Steps(k, n - 1)), By(k, Work(Takeover.QUIET)));
    }
  }

  /** A run of the fleet in which only the last replica's worker moves, undisturbed, from `s` to `s'`. */
  lemma Walks(w: World, f: Fleet, s': Sys) returns (ms: seq<Move>)
    requires f.replicas != [] && Takeover.Leads(w, View(f, |f.replicas| - 1), s')
    ensures var g := FleetRun(w, f, ms);
      && |g.replicas| == |f.replicas| && View(g, |f.replicas| - 1) == s'
      && forall j :: 0 <= j < |f.replicas| - 1 ==> g.replicas[j] == f.replicas[j]
  {
    var k := |f.replicas| - 1;
    var n: nat :| Takeover.Iterate(Takeover.Alone(w), View(f, k), n) == s';
    ms := Steps(k, n);
    StepsAreAlone(w, f, k, n);
    forall j | 0 <= j < k ensures FleetRun(w, f, ms).replicas[j] == f.replicas[j] { StepsElsewhere(w, f, k, n, j); }
  }

  /** The token is good for a write until well after the grace. */
  ghost predicate LongGood(h: HostFile, now: Time, info: TokenInfo) {
    FirstPass.Good(h, now, info) && now + CLOSE_GRACE + TOKEN_EXPIRY_WARN_WINDOW < info.expiresAt
  }

  /** At rest with the lock it took at this instant, one user known and nothing to save. */
  ghost predicate Settled(w: World, s: Sys, user: string, info: TokenInfo) {
    && s.pc == Idle && !s.room.life.inFlight && s.indexed && !s.room.doc.dirty && s.room.doc.lastWriter == ""
    && s.room.tok == Tokens(map[user := info], map[]) && s.room.lock == LockState(w.own, true, s.now, "")
    && Takeover.JustLocked(w, s) && Takeover.Accepts(s.host, info.token)
  }

  /** One more manager opens the room, and its first pass takes or prolongs the lock. */
  lemma Settles(w: World, f: Fleet, user: string, info: TokenInfo) returns (ms: seq<Move>)
    requires w.own != "" && f.host.lock in {"", w.own} && LongGood(f.host, f.now, info)
    ensures var g := FleetRun(w, f, ms);
      && |g.replicas| == |f.replicas| + 1 && g.now == f.now && Settled(w, View(g, |f.replicas|), user, info)
      && g.host.access == f.host.access
      && forall j :: 0 <= j < |f.replicas| ==> g.replicas[j] == f.replicas[j]
  {
    var k := |f.replicas|;
    var open := Opening(k, user, info);
    var f1 := FleetRun(w, f, open);
    OpensAlone(w, f, user, info);
    FirstPass.LongLived(Tokens(map[user := info], map[]), f.now);
    var s := FirstPass.ComesToRest(w, View(f1, k));
    var more := Walks(w, f1, s);
    ms := open + more;
    FleetRunAppend(w, f, open, more);
  }

  lemma OpensAlone(w: World, f: Fleet, user: string, info: TokenInfo)
    requires w.own != "" && f.host.lock in {"", w.own} && LongGood(f.host, f.now, info)
    ensures var k := |f.replicas|; var g := FleetRun(w, f, Opening(k, user, info));
      && |g.replicas| == k + 1 && g.now == f.now && g.host == f.host
      && FirstPass.Opened(w, View(g, k)) && !View(g, k).room.doc.dirty && View(g, k).room.doc.lastWriter == ""
      && View(g, k).room.tok == Tokens(map[user := info], map[]) && !View(g, k).room.life.closing
      && forall j :: 0 <= j < k ==> g.replicas[j] == f.replicas[j]
  {
    OpeningOpens(w, f, user, info);
    var k := |f.replicas|;
    var none: seq<Move> := [];
    var observe, enter := By(k, DoObserve(user, info)), By(k, Enter(false));
    assert Opening(k, user, info) == none + [Join] + [observe] + [enter];
    FleetNext(w, f, none, Join);
    FleetNext(w, f, none + [Join], observe);
    FleetNext(w, f, none + [Join] + [observe], enter);
    FirstPass.ObservedReached(w, f.host, f.now, user, info);
  }

  /** Its only member gone for the grace, the settled room is entered by its worker. */
  ghost predicate Closing(w: World, s: Sys, user: string, info: TokenInfo) {
    && s.pc == Begin(false) && CloseDue(s.room.life, s.now) && !s.room.doc.dirty && s.room.lock.haveLock
    && s.room.lock.lockValue == w.own && EffectiveLock(s.host, s.now) == w.own
    && Takeover.Accepts(s.host, info.token)
    && Ladder(s.room, s.now) == [Candidate(user, info.token)]
  }

  /** A handler or the guard of the last replica, or the clock, moves no other replica. */
  lemma LastMoves(w: World, f: Fleet, m: Move)
    requires f.replicas != [] && (m.By? ==> m.k == |f.replicas| - 1) && !m.Join?
    ensures var k := |f.replicas| - 1; var g := MoveStep(w, f, m);
      && |g.replicas| == |f.replicas| && View(g, k) == Step(w, View(f, k), Seen(w, f, k, m))
      && forall j :: 0 <= j < k ==> g.replicas[j] == f.replicas[j]
  {
    MoveSeen(w, f, |f.replicas| - 1, m);
  }

  /** The last member of the last replica's room leaves, the grace elapses, and its worker enters. */
  function Departure(f: Fleet): (ms: seq<Move>)
    requires f.replicas != []
  {
    var k := |f.replicas| - 1;
    [By(k, DoLeave(true)), Move.Pass(f.now + CLOSE_GRACE), By(k, Enter(false))]
  }

  /** The room of `s` after that. */
  ghost function Departed(w: World, s: Sys): Sys {
    Step(w, Step(w, Step(w, s, DoLeave(true)), Tick(s.now + CLOSE_GRACE)), Enter(false))
  }

  /** Two moves that leave the other replicas alone. */
  lemma LeavesAndWaits(w: World, f: Fleet)
    requires f.replicas != []
    ensures var k := |f.replicas| - 1; var none: seq<Move> := [];
      var g := FleetRun(w, f, none + [By(k, DoLeave(true))] + [Move.Pass(f.now + CLOSE_GRACE)]);
      && |g.replicas| == |f.replicas|
      && View(g, k) == Step(w, Step(w, View(f, k), DoLeave(true)), Tick(f.now + CLOSE_GRACE))
      && forall j :: 0 <= j < k ==> g.replicas[j] == f.replicas[j]
  {
    var k := |f.replicas| - 1;
    var none: seq<Move> := [];
    var leave, wait := By(k, DoLeave(true)), Move.Pass(f.now + CLOSE_GRACE);
    FleetNext(w, f, none, leave);
    FleetNext(w, f, none + [leave], wait);
    LastMoves(w, f, leave);
    LastMoves(w, FleetRun(w, f, none + [leave]), wait);
  }

  lemma Departs(w: World, f: Fleet)
    requires f.replicas != []
    ensures var k := |f.replicas| - 1; var g := FleetRun(w, f, Departure(f));
      && |g.replicas| == |f.replicas| && View(g, k) == Departed(w, View(f, k))
      && forall j :: 0 <= j < k ==> g.replicas[j] == f.replicas[j]
  {
    var k := |f.replicas| - 1;
    var none: seq<Move> := [];
    var two := none + [By(k, DoLeave(true))] + [Move.Pass(f.now + CLOSE_GRACE)];
    assert Departure(f) == two + [By(k, Enter(false))];
    LeavesAndWaits(w, f);
    FleetNext(w, f, two, By(k, Enter(false)));
    LastMoves(w, FleetRun(w, f, two), By(k, Enter(false)));
  }

  lemma EntersClosing(w: World, s: Sys, user: string, info: TokenInfo)
    requires w.own != "" && Settled(w, s, user, info)
    requires TokenLadder(s.room.tok, "", s.now + CLOSE_GRACE) == [Candidate(user, info.token)]
    ensures Closing(w, Departed(w, s), user, info)
  {
  }

  /** The close finds nothing to save, and gives the lock up at the host. */
  lemma GivesLockUp(w: World, s: Sys, user: string, info: TokenInfo) returns (s': Sys)
    requires Closing(w, s, user, info) && w.own != ""
    ensures Takeover.Leads(w, s, s') && EffectiveLock(s'.host, s'.now) == ""
  {
    var pass := PlanOf(s.room, s.now);
    var s1 := Takeover.PassBegins(w, s);
    assert s1.pc == Shutting(pass, CloseRead);
    var s2 := LooksTwice(w, s1, pass);
    s' := Unlocked(w, s2, pass, user, info);
    Takeover.LeadsTrans(w, s, s1, s2);
    Takeover.LeadsTrans(w, s, s2, s');
  }

  lemma Unlocked(w: World, s: Sys, pass: Pass, user: string, info: TokenInfo) returns (s': Sys)
    requires s.pc == Shutting(pass, CloseLadder(w.own)) && pass.now == s.now && w.own != ""
    requires Ladder(s.room, s.now) == [Candidate(user, info.token)] && Takeover.Accepts(s.host, info.token)
    requires EffectiveLock(s.host, s.now) == w.own
    ensures Takeover.Leads(w, s, s') && EffectiveLock(s'.host, s'.now) == ""
  {
    var s1, i1 := Takeover.Section(w, s);
    assert s1 == s.(pc := Shutting(pass, CloseUnlock(info.token, w.own)));
    var i2;
    s', i2 := Takeover.Asks(w, s1, Unlock(info.token, w.own));
    Takeover.LeadsTrans(w, s, s1, s');
  }

  lemma LooksTwice(w: World, s: Sys, pass: Pass) returns (s': Sys)
    requires s.pc == Shutting(pass, CloseRead) && pass.now == s.now && CloseDue(s.room.life, s.now)
    requires !s.room.doc.dirty && s.room.lock.haveLock
    ensures Takeover.Leads(w, s, s') && s'.pc == Shutting(pass, CloseLadder(s.room.lock.lockValue))
    ensures s'.now == s.now && s'.host == s.host && s'.room == s.room
  {
    var s1, i1 := Takeover.Section(w, s);
    assert s1 == s.(pc := Shutting(pass, CloseRecheck));
    var i2;
    s', i2 := Takeover.Section(w, s1);
    Takeover.LeadsTrans(w, s, s1, s');
  }

  /** The last replica's settled room closes and takes the fleet's lock along. */
  lemma LastCloses(w: World, f: Fleet, user: string, info: TokenInfo) returns (ms: seq<Move>)
    requires f.replicas != [] && w.own != "" && LongGood(f.host, f.now, info)
    requires Settled(w, View(f, |f.replicas| - 1), user, info)
    ensures var g := FleetRun(w, f, ms);
      && |g.replicas| == |f.replicas| && EffectiveLock(g.host, g.now) == ""
      && forall j :: 0 <= j < |f.replicas| - 1 ==> g.replicas[j] == f.replicas[j]
  {
    var k := |f.replicas| - 1;
    var g := FleetRun(w, f, Departure(f));
    Departs(w, f);
    FirstPass.OneTokenLadder(user, info, "", f.now + CLOSE_GRACE);
    EntersClosing(w, View(f, k), user, info);
    var s := GivesLockUp(w, View(g, k), user, info);
    var more := Walks(w, g, s);
    ms := Departure(f) + more;
    FleetRunAppend(w, f, Departure(f), more);
    assert View(FleetRun(w, f, ms), k) == s;
  }

  lemma SettleBoth(w: World, f: Fleet, user: string, info: TokenInfo) returns (ms: seq<Move>)
    requires f.replicas == [] && w.own != "" && f.host.lock in {"", w.own} && LongGood(f.host, f.now, info)
    ensures var g := FleetRun(w, f, ms);
      && |g.replicas| == 2 && g.now == f.now && g.host.access == f.host.access
      && g.replicas[0].room.lock.haveLock && Settled(w, View(g, 1), user, info)
  {
    var m1 := Settles(w, f, user, info);
    var f1 := FleetRun(w, f, m1);
    assert Settled(w, View(f1, 0), user, info);
    var m2 := Settles(w, f1, user, info);
    ms := m1 + m2;
    FleetRunAppend(w, f, m1, m2);
  }

  /**
   The limit is reached: two managers of one file both hold the lock, the second one's room closes,
   and the first one believes it holds a lock the host no longer has.
   */
  lemma SecondCloseEndsLease(w: World, h: HostFile, t: Time, user: string, info: TokenInfo)
    requires w.own != "" && h.lock in {"", w.own} && LongGood(h, t, info)
    ensures exists ms :: var f := FleetRun(w, Fleet([], h, t), ms);
      |f.replicas| == 2 && f.replicas[0].room.lock.haveLock && EffectiveLock(f.host, f.now) == ""
  {
    var f0 := Fleet([], h, t);
    var m1 := SettleBoth(w, f0, user, info);
    var m2 := LastCloses(w, FleetRun(w, f0, m1), user, info);
    FleetRunAppend(w, f0, m1, m2);
    assert |FleetRun(w, f0, m1 + m2).replicas| == 2;
  }
}
