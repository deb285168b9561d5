/**
 What a pass does and leaves: the lock on collection and close, a close that a rejoin cancelled,
 a flush outside the schedule, a conflict in the way of the refresh, and the hourly log.
 */
module PassLaws {
  import opened Basics
  import opened WopiHost
  import opened RoomModel
  import opened SaveMachine
  import FirstPass
  import Lease
  import LockSafety
  import RoomLaws
  import SaveSafety

  // ---------------------------------------------------------------- collection

  /** The host has no user's lock on the file but ours, and would let this user write. */
  ghost predicate CanUnlock(w: World, s: Sys, info: TokenInfo) {
    && info.canWrite && s.now < info.expiresAt && info.token != ""
    && info.token in s.host.access && s.host.access[info.token]
    && w.own != "" && EffectiveLock(s.host, s.now) == w.own
  }

  /** A deserted room with a lock, idle for a quarter of an hour, whose pass is about to be planned. */
  ghost predicate IdleWithLock(w: World, s: Sys) {
    && s.pc == Plan(s.now) && s.indexed && Deserted(s.room, s.now)
    && s.room.life.idleSince != 0 && s.now >= s.room.life.idleSince + 15 * MINUTE
    && s.room.lock.haveLock && s.room.lock.lockValue == w.own && s.room.tok == Tokens(map[], map[])
  }

  lemma PlansCollection(w: World, s: Sys, ch: Choice)
    requires IdleWithLock(w, s)
    ensures var s1 := WorkerStep(w, s, ch);
      && s1.pc.Passing? && s1.pc.passAt.Warn?
      && s1.pc.pass.gcDue && s1.pc.pass.haveLock && s1.pc.pass.lockValue == w.own
      && s1.pc.pass.now == s.now
      && s1.room.tok == s.room.tok && s1.room.lock == s.room.lock && s1.indexed && s1.host == s.host && s1.now == s.now
  {
    assert Prune(s.room.tok, s.now) == s.room.tok;
    assert !Live(s.room.(tok := s.room.tok), s.now);
  }

  /** The lock is gone at the host, the room knows, and it stays in the index. */
  ghost predicate GaveUp(s: Sys) {
    EffectiveLock(s.host, s.now) == "" && !s.room.lock.haveLock && s.indexed
  }

  /** A user gets in after the plan. */
  ghost function Visited(w: World, s: Sys, ch: Choice, user: string, info: TokenInfo): Sys {
    Step(w, WorkerStep(w, s, ch), DoObserve(user, info))
  }

  lemma VisitorListed(w: World, s: Sys, ch: Choice, user: string, info: TokenInfo)
    requires IdleWithLock(w, s) && CanUnlock(w, s, info)
    ensures var s1 := Visited(w, s, ch, user, info);
      && s1.pc == WorkerStep(w, s, ch).pc && s1.indexed && s1.host == s.host && s1.now == s.now
      && s1.room.lock == s.room.lock && s1.room.tok == Tokens(map[user := info], map[])
      && Ladder(s1.room, s.now) == [Candidate(user, info.token)]
  {
    PlansCollection(w, s, ch);
    FirstPass.OneTokenLadder(user, info, Visited(w, s, ch, user, info).room.doc.lastWriter, s.now);
    assert Prune(Tokens(map[user := info], map[]), s.now) == Tokens(map[user := info], map[]);
  }

  /**
   An idle collection of a room with a lock, when a user gets in after it was planned, gives the lock
   up with that user's token. The room stays, and knows that it has no lock.
   */
  lemma RevivedRoomGaveLockUp(w: World, s: Sys, ch: Choice, user: string, info: TokenInfo)
    requires IdleWithLock(w, s) && CanUnlock(w, s, info) && ch.glitch.None?
    ensures var s1 := Visited(w, s, ch, user, info);
      && RequestOf(Two(w, s1, ch).pc) == Some(Unlock(info.token, w.own))
      && GaveUp(WorkerStep(w, Two(w, Two(w, s1, ch), ch), ch))
  {
    PlansCollection(w, s, ch);
    VisitorListed(w, s, ch, user, info);
    var s1, c := Visited(w, s, ch, user, info), Candidate(user, info.token);
    ComesToUnlock(w, s1, ch, c);
    UnlocksAndStays(w, Two(w, s1, ch), ch, s1.pc.pass, c);
  }

  /** The collection comes to its UNLOCK. */
  lemma ComesToUnlock(w: World, s: Sys, ch: Choice, c: Candidate)
    requires s.pc.Passing? && s.pc.passAt.Warn? && s.pc.pass.gcDue && s.pc.pass.haveLock && s.pc.pass.now == s.now
    requires Ladder(s.room, s.now) == [c]
    ensures var s2 := Two(w, s, ch);
      && s2.pc == Collecting(s.pc.pass, GcUnlock(c.token)) && s2.host == s.host && s2.now == s.now
      && s2.indexed == s.indexed && s2.room == s.room.(tok := WarnTokens(s.room.tok, s.now))
      && Ladder(s2.room, s.now) == [c]
  {
    Lease.WarnLadder(s.room.tok, s.room.doc.lastWriter, s.now);
    assert WorkerStep(w, s, ch).pc == Collecting(s.pc.pass, GcLadder);
  }

  /** And from there to its end. */
  lemma UnlocksAndStays(w: World, s: Sys, ch: Choice, pass: Pass, c: Candidate)
    requires s.pc == Collecting(pass, GcUnlock(c.token)) && s.indexed && pass.lockValue == w.own != ""
    requires ch.glitch.None?
    requires EffectiveLock(s.host, s.now) == w.own && Ladder(s.room, s.now) == [c]
    requires c.token in s.host.access && s.host.access[c.token] && c.token != ""
    ensures GaveUp(WorkerStep(w, Two(w, s, ch), ch))
  {
    var s1, s2 := WorkerStep(w, s, ch), Two(w, s, ch);
    assert s1.pc == Collecting(pass, GcDropLock) && s1.room == s.room && EffectiveLock(s1.host, s1.now) == "";
    assert s2.pc == Collecting(pass, GcDelete) && s2.room == WithoutLock(s.room) && s2.host == s1.host;
    assert Ladder(s.room, s.now)[0] == c;
    assert Unexpired(s2.room.tok, s2.now, c.user);
  }

  /** A collection of a room with a lock sends its UNLOCK exactly if some user has a usable token by then. */
  lemma CollectionUnlocksIff(w: World, s: Sys, ch: Choice)
    requires s.pc.Collecting? && s.pc.gcAt.GcLadder?
    ensures RequestOf(WorkerStep(w, s, ch).pc).Some? <==> exists u :: RoomLaws.Usable(s.room.tok, s.now, u)
  {
    var ladder := Ladder(s.room, s.now);
    if ladder != [] {
      RoomLaws.LadderMeaning(s.room.tok, s.room.doc.lastWriter, s.now, ladder[0], 0, 0);
      assert ladder[0] in ladder;
    }
    if u :| RoomLaws.Usable(s.room.tok, s.now, u) {
      RoomLaws.LadderMeaning(s.room.tok, s.room.doc.lastWriter, s.now, Candidate(u, s.room.tok.tokens[u].token), 0, 0);
    }
  }

  /**
   A deserted room has no such token, so unless a user gets in after the plan the collection leaves the
   lock at the host to its lifetime, and the room is dropped believing in it.
   */
  lemma QuietCollectionKeepsLock(w: World, s: Sys, ch: Choice)
    requires s.pc == Plan(s.now) && s.indexed && Deserted(s.room, s.now) && s.room.lock.haveLock
    requires s.room.life.idleSince != 0 && s.now >= s.room.life.idleSince + 15 * MINUTE
    ensures var s4 := Two(w, Two(w, s, ch), ch);
      !s4.indexed && s4.host == s.host && s4.now == s.now && s4.room.lock == s.room.lock
  {
    var s1 := WorkerStep(w, s, ch);
    PlansDeserted(w, s, ch);
    assert Two(w, s, ch).pc == Collecting(s1.pc.pass, GcLadder);
    NobodyUsable(Two(w, s, ch));
    DropsQuietly(w, Two(w, s, ch), ch);
  }

  lemma PlansDeserted(w: World, s: Sys, ch: Choice)
    requires s.pc == Plan(s.now) && Deserted(s.room, s.now) && s.room.lock.haveLock
    requires s.room.life.idleSince != 0 && s.now >= s.room.life.idleSince + 15 * MINUTE
    ensures var s1 := WorkerStep(w, s, ch);
      && s1.pc.Passing? && s1.pc.passAt.Warn? && s1.pc.pass.gcDue && s1.pc.pass.haveLock
      && s1.room.tok.tokens == map[] && s1.room.lock == s.room.lock && Deserted(s1.room, s1.now)
      && s1.indexed == s.indexed && s1.host == s.host && s1.now == s.now
  {
    assert Prune(s.room.tok, s.now).tokens == map[];
    assert !Live(s.room.(tok := Prune(s.room.tok, s.now)), s.now);
  }

  lemma NobodyUsable(s: Sys)
    requires s.room.tok.tokens == map[]
    ensures Ladder(s.room, s.now) == [] && !exists u :: RoomLaws.Usable(s.room.tok, s.now, u)
  {
    RoomLaws.HasHead(Ladder(s.room, s.now));
    forall c ensures c !in Ladder(s.room, s.now) { RoomLaws.Listed(s.room.tok, s.room.doc.lastWriter, s.now, c); }
  }

  lemma DropsQuietly(w: World, s: Sys, ch: Choice)
    requires s.pc.Collecting? && s.pc.gcAt.GcLadder? && s.indexed && Deserted(s.room, s.now)
    requires Ladder(s.room, s.now) == [] && s.room.tok.tokens == map[]
    ensures var s2 := Two(w, s, ch); !s2.indexed && s2.host == s.host && s2.now == s.now && s2.room.lock == s.room.lock
  {
    var s1 := WorkerStep(w, s, ch);
    assert s1 == s.(pc := Collecting(s.pc.pass, GcDelete));
    assert !Live(s1.room, s1.now);
  }

  /** The delete of a collection looks again: a room in use by then stays, and its idle time starts over. */
  lemma CollectionLooksAgain(w: World, s: Sys, ch: Choice)
    requires s.pc.Collecting? && s.pc.gcAt.GcDelete? && s.indexed
    ensures var s1 := WorkerStep(w, s, ch);
      if Deserted(s.room, s.now) then !s1.indexed && s1.log == Then(s.log, Removed(false, false))
      else s1.indexed && s1.log == s.log && s1.room == s.room.(life := s.room.life.(idleSince := 0))
  {
    if u :| u in s.room.tok.tokens && s.now < s.room.tok.tokens[u].expiresAt {
      assert Unexpired(s.room.tok, s.now, u);
    }
    if u :| Unexpired(s.room.tok, s.now, u) { assert s.now < s.room.tok.tokens[u].expiresAt; }
  }

  /** A collection whose UNLOCK fails leaves the room as it is, */
  lemma FailedUnlockKeepsRoom(w: World, s: Sys, ch: Choice)
    requires RequestOf(s.pc).Some? && RequestOf(s.pc).value.Unlock? && s.pc.Collecting?
    requires Call(w, s, ch, RequestOf(s.pc).value).1.Err? && s.indexed
    ensures var s1 := WorkerStep(w, s, ch); s1.pc == FINISH && s1.indexed && s1.room == s.room && s1.log == s.log
  {
  }

  /** while a close goes on without it. */
  lemma FailedUnlockCloses(w: World, s: Sys, ch: Choice)
    requires RequestOf(s.pc).Some? && RequestOf(s.pc).value.Unlock? && s.pc.Shutting?
    requires Call(w, s, ch, RequestOf(s.pc).value).1.Err?
    ensures var s2 := Two(w, s, ch); !s2.indexed && s2.log == Then(s.log, Removed(s.room.doc.dirty, true))
  {
    var s1 := WorkerStep(w, s, ch);
    assert s1.pc == Shutting(s.pc.pass, CloseDelete) && s1.room == s.room && s1.log == s.log;
  }

  // --------------------------------------------------------------------- close

  /** A rejoin cancels a close at each of its two looks, and the room stays with its lock. */
  lemma RejoinCancelsClose(w: World, s: Sys, ch: Choice)
    requires s.pc.Shutting? && (s.pc.closeAt.CloseRead? || s.pc.closeAt.CloseRecheck?) && s.indexed
    ensures var s1 := Step(w, s, DoJoin); var s2 := WorkerStep(w, s1, ch);
      s2.pc == FINISH && s2.indexed && s2.room == s1.room && s2.host == s1.host && s2.log == s1.log
  {
  }

  /** The last look of a close is at a clean room whose close is still due. */
  lemma LooksAtCleanRoom(w: World, s: Sys, ch: Choice)
    ensures WorkerStep(w, s, ch).log == Then(s.log, Looked) ==>
      s.pc.Shutting? && !s.room.doc.dirty && s.room.life.closing && s.pc.pass.now >= s.room.life.closeAt
  {
    SaveSafety.HostOnlyByRequest(w, s, ch);
    LockSafety.Longer(s.log, Looked);
  }

  // --------------------------------------------------------------------- flush

  /** Shutdown's flush starts a save of an unsaved, unconflicted room whatever the schedule says. */
  lemma FlushIgnoresSchedule(w: World, s: Sys, ch: Choice)
    requires s.pc == Begin(true) && s.room.doc.dirty && !s.room.conf.conflict
    ensures Two(w, s, ch).log == Then(s.log, Started(Flushing, s.now))
  {
  }

  // --------------------------------------------------------- refresh and checks

  /** A conflict the drift check has raised stops this pass's refresh before its first call. */
  lemma ConflictStopsRefresh(w: World, s: Sys, ch: Choice)
    requires s.pc.Passing? && s.pc.passAt.RefreshGuard?
    ensures s.room.conf.conflict ==> WorkerStep(w, s, ch).pc == Passing(s.pc.pass, SaveCheck)
    ensures !s.room.conf.conflict && Ladder(s.room, s.pc.pass.now) != [] ==>
      RequestOf(Two(w, s, ch).pc)
      == Some(RefreshLock(Ladder(s.room, s.pc.pass.now)[0].token, s.room.lock.lockValue))
  {
  }

  /** A pending check survives a pass that closes the room instead. */
  lemma CloseKeepsPendingCheck(r: Room, now: Time)
    requires r.life.closing && now >= r.life.closeAt
    ensures RoomModel.Planned(r, now).ver.pendingCheck == r.ver.pendingCheck
  {
  }

  /** A stuck conflict is logged once an hour: never twice within one, and again after one. */
  lemma StuckLoggedHourly(r: Room, now: Time, later: Time)
    requires 0 < now <= later && r.conf.conflict && r.doc.dirty && r.life.liveUserCount == 0
    ensures var r' := RoomModel.Planned(r, now);
      && (r.life.lastStuckLogAt == 0 ==> StuckLogDue(r, now))
      && (StuckLogDue(r, now) ==> (StuckLogDue(r', later) <==> later >= now + 60 * MINUTE))
      && !StuckLogDue(r.(conf := r.conf.(conflict := false)), now)
  {
  }
}
