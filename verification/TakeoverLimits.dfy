/**
 The limit of the two resolutions is reached: a run from a fresh room to a live foreign lock under
 a conflict, while the room believes that it holds a lock old enough to refresh.

 refreshLock's first token finds the lock expired and meets a foreign one on re-locking, so the
 conflict is raised; the second token finds that one gone and locks again. Half an hour later the
 lock has lapsed and the foreign one is back.
 */
module TakeoverLimits {
  import opened Basics
  import opened WopiHost
  import opened RoomModel
  import opened SaveMachine
  import opened Takeover
  import opened FirstPass

  const LATER: nat := 31 * MINUTE

  /** Two tokens the host accepts, both valid for hours. */
  ghost predicate TwoGood(h: HostFile, t: Time, a: TokenInfo, b: TokenInfo) {
    && a.canWrite && b.canWrite && Accepts(h, a.token) && Accepts(h, b.token)
    && t + 2 * LATER + TOKEN_EXPIRY_WARN_WINDOW < a.expiresAt
    && t + 2 * LATER + TOKEN_EXPIRY_WARN_WINDOW < b.expiresAt
  }

  function Both(a: TokenInfo, b: TokenInfo): Tokens {
    Tokens(map["a" := a, "b" := b], map[])
  }

  function BothTokens(a: TokenInfo, b: TokenInfo): seq<Candidate> {
    [Candidate("a", a.token), Candidate("b", b.token)]
  }

  /** At rest in the room of `a` and `b`, with or without a conflict over `foreign`. */
  ghost predicate Rests(w: World, h: HostFile, s: Sys, a: TokenInfo, b: TokenInfo, foreign: Option<string>) {
    && s.pc == Idle && !s.room.life.inFlight && s.indexed && !s.room.life.closing
    && s.room.tok == Both(a, b) && s.room.doc.lastWriter == "" && !s.room.doc.dirty && !s.room.ver.have
    && s.room.lock == LockState(w.own, true, s.now, "")
    && s.room.conf.conflict == foreign.Some? && (foreign.Some? ==> s.room.conf.foreignLock == foreign.value)
    && s.host.access == h.access && JustLocked(w, s)
  }

  /** The first pass takes the lock. */
  lemma LockedAtFirst(w: World, h: HostFile, t: Time, a: TokenInfo, b: TokenInfo) returns (s: Sys)
    requires w.own != "" && EffectiveLock(h, t) in {"", w.own} && TwoGood(h, t, a, b)
    ensures Reached(w, h, t, s) && Rests(w, h, s, a, b, None) && s.now == t
  {
    ObservedReached(w, h, t, "a", a);
    var s1 := Observed(w, h, t, "a", a);
    ReachedNext(w, h, t, s1, DoObserve("b", b));
    var s2 := Step(w, s1, DoObserve("b", b));
    assert s2.room.tok == Both(a, b) by {
      assert map["a" := a]["b" := b] == map["a" := a, "b" := b];
      LongLived(Both(a, b), t);
    }
    ReachedNext(w, h, t, s2, Enter(false));
    var s3 := Step(w, s2, Enter(false));
    TwoTokenLadder(a, b, t);
    LongLived(Both(a, b), t);
    s := ComesToRest(w, s3);
    ReachedAlone(w, h, t, s3, s);
  }

  /** Half an hour later the pass comes to its refresh. */
  lemma ComesToRefresh(w: World, h: HostFile, t: Time, s0: Sys, a: TokenInfo, b: TokenInfo)
    returns (s: Sys, rf: Refresh)
    requires Reached(w, h, t, s0) && Rests(w, h, s0, a, b, None) && s0.now == t && TwoGood(h, t, a, b)
    ensures Reached(w, h, t, s) && s.pc == RefreshTry(rf) && s.now == t + LATER
    ensures rf == Refresh(rf.pass, w.own, BothTokens(a, b), 0, true, Silent) && rf.pass.now == s.now
    ensures s.host == s0.host && s.room.lock == s0.room.lock && s.room.tok == Both(a, b) && s.room.doc == s0.room.doc
    ensures s.indexed && !s.room.life.closing && !s.room.ver.have
  {
    ReachedNext(w, h, t, s0, Tick(t + LATER));
    var s1 := Step(w, s0, Tick(t + LATER));
    ReachedNext(w, h, t, s1, Enter(false));
    var s2 := Step(w, s1, Enter(false));
    var pass := PlanOf(s2.room, s2.now);
    TwoTokenLadder(a, b, s2.now);
    LongLived(Both(a, b), s2.now);
    var s3 := PassBegins(w, s2);
    StillLive(s2.room, s2.now);
    var s4 := s3;
    if pass.versionCheckDue {
      s4 := NoVersionToCheck(w, s3, pass);
      LeadsTrans(w, s2, s3, s4);
    }
    assert s4.pc == Passing(pass, RefreshGuard);
    s := RefreshStarts(w, s4, pass);
    rf := Refresh(pass, w.own, BothTokens(a, b), 0, true, Silent);
    LeadsTrans(w, s2, s4, s);
    ReachedAlone(w, h, t, s2, s);
  }

  /** A token's refresh finds no lock at the host, and the re-lock begins. */
  lemma FindsNoLock(w: World, s: Sys, rf: Refresh) returns (s': Sys)
    requires s.pc == RefreshTry(rf) && rf.lockValue == w.own
    requires rf.i < |rf.ladder| && Accepts(s.host, rf.ladder[rf.i].token)
    requires EffectiveLock(s.host, s.now) == "" && s.room.lock.forceUnlockValue == ""
    ensures Leads(w, s, s') && s'.host == Expire(s.host, s.now) && s'.now == s.now && s'.indexed == s.indexed
    ensures s'.room == s.room
    ensures s'.pc == Ensuring(ForRefresh(rf), rf.ladder[rf.i].token, LockCall(s.room.lock.lockValue))
  {
    var s1, i := Asks(w, s, RefreshLock(rf.ladder[rf.i].token, w.own));
    assert s1.pc == Ensuring(ForRefresh(rf), rf.ladder[rf.i].token, TakeForce);
    s' := ForceTaken(w, s1);
    assert s'.room.lock == s.room.lock;
    LeadsTrans(w, s, s1, s');
  }

  /** Somebody else's lock is there first: a conflict, and the next token. */
  lemma MeetsForeign(w: World, s: Sys, rf: Refresh, token: string, v: string) returns (s': Sys)
    requires s.pc == Ensuring(ForRefresh(rf), token, LockCall(w.own)) && Accepts(s.host, token)
    requires EffectiveLock(s.host, s.now) == v && v !in {"", w.own}
    ensures Leads(w, s, s') && s'.pc == RefreshTry(RefreshAdvance(rf, LockConflict("")))
    ensures s'.host == s.host && s'.now == s.now && s'.indexed == s.indexed
    ensures s'.room ==
      s.room.(conf := Conflict(true, v), lock := s.room.lock.(haveLock := false), reported := s'.room.reported)
  {
    var s1, i1 := Asks(w, s, Lock(token, w.own));
    assert s1.pc == Raise(v, true, Denied(ForRefresh(rf), token, LockConflict(v)));
    var s2, i2 := Section(w, s1);
    assert s2.pc == Notify(Denied(ForRefresh(rf), token, LockConflict(v)));
    s' := NotifyStep(w, s2);
    LeadsTrans(w, s, s1, s2);
    LeadsTrans(w, s, s2, s');
  }

  /** The foreign lock has gone: the second token locks, and the pass ends in conflict with the lock. */
  lemma LocksAgain(w: World, s: Sys, rf: Refresh, token: string) returns (s': Sys)
    requires s.pc == Ensuring(ForRefresh(rf), token, LockCall(w.own)) && Accepts(s.host, token) && w.own != ""
    requires EffectiveLock(s.host, s.now) == "" && s.room.conf.conflict && rf.pass.now == s.now
    ensures Leads(w, s, s') && Same(s, s') && s'.pc == Idle && JustLocked(w, s')
    ensures s'.room == s.room.(lock := s.room.lock.(haveLock := true, lastLockAt := s.now),
                               reported := s'.room.reported, life := s.room.life.(inFlight := false))
  {
    var s1 := AskAccepted(w, s, "");
    var s2 := Marked(w, s1);
    var s3 := ConflictSkipsSave(w, s2, rf.pass);
    s' := PassEnds(w, s3);
    LeadsTrans(w, s, s1, s2);
    LeadsTrans(w, s, s2, s3);
    LeadsTrans(w, s, s3, s');
  }

  /** The refresh: one token raises the conflict, the other takes the lock. */
  lemma RaisesAndLocks(w: World, h: HostFile, t: Time, s0: Sys, a: TokenInfo, b: TokenInfo, v: string) returns (s: Sys)
    requires Reached(w, h, t, s0) && Rests(w, h, s0, a, b, None) && s0.now == t && TwoGood(h, t, a, b)
    requires v !in {"", w.own} && w.own != ""
    ensures Reached(w, h, t, s) && Rests(w, h, s, a, b, Some(v)) && s.now == t + LATER
  {
    var s1, rf := ComesToRefresh(w, h, t, s0, a, b);
    var s2 := FindsNoLock(w, s1, rf);
    ReachedAlone(w, h, t, s1, s2);
    var foreign := s2.host.(lock := v, lockExp := s2.now + LOCK_TTL);
    ReachedNext(w, h, t, s2, Others(foreign));
    var s3 := Step(w, s2, Others(foreign));
    var s4 := MeetsForeign(w, s3, rf, a.token, v);
    ReachedAlone(w, h, t, s3, s4);
    s := SecondToken(w, h, t, s4, RefreshAdvance(rf, LockConflict("")), a, b, v);
  }

  lemma SecondToken(w: World, h: HostFile, t: Time, s0: Sys, rf: Refresh, a: TokenInfo, b: TokenInfo, v: string)
    returns (s: Sys)
    requires Reached(w, h, t, s0) && s0.pc == RefreshTry(rf) && s0.now == rf.pass.now == t + LATER
    requires rf.lockValue == w.own != "" && rf.ladder == BothTokens(a, b) && rf.i == 1 && Accepts(s0.host, b.token)
    requires s0.indexed && !s0.room.life.closing && s0.room.conf == Conflict(true, v) && s0.host.access == h.access
    requires s0.room.tok == Both(a, b) && s0.room.doc.lastWriter == "" && !s0.room.doc.dirty && !s0.room.ver.have
    requires s0.room.lock.lockValue == w.own && s0.room.lock.forceUnlockValue == ""
    ensures Reached(w, h, t, s) && Rests(w, h, s, a, b, Some(v)) && s.now == t + LATER
  {
    var gone := s0.host.(lock := "");
    ReachedNext(w, h, t, s0, Others(gone));
    var s1 := Step(w, s0, Others(gone));
    var s2 := FindsNoLock(w, s1, rf);
    ReachedAlone(w, h, t, s1, s2);
    s := LocksAgain(w, s2, rf, b.token);
    ReachedAlone(w, h, t, s2, s);
  }

  /**
   From a fresh room a run leads to a live foreign lock under a conflict over it while the room
   believes it holds an aged lock, with its first token accepted: there neither an overwrite nor a
   reload carries through.
   */
  lemma HeldConflictIsReached(w: World, h: HostFile, t: Time, a: TokenInfo, b: TokenInfo, v: string)
    requires w.own != "" && EffectiveLock(h, t) in {"", w.own} && TwoGood(h, t, a, b) && v !in {"", w.own}
    ensures exists s ::
      && Reached(w, h, t, s) && ForeignConflict(w, s) && FirstAccepted(s, 0) && !CloseDue(s.room.life, s.now)
      && RefreshAged(s)
  {
    var s0 := LockedAtFirst(w, h, t, a, b);
    var s1 := RaisesAndLocks(w, h, t, s0, a, b, v);
    ReachedNext(w, h, t, s1, Tick(t + 2 * LATER));
    var s2 := Step(w, s1, Tick(t + 2 * LATER));
    var back := s2.host.(lock := v, lockExp := s2.now + LOCK_TTL);
    ReachedNext(w, h, t, s2, Others(back));
    var s3 := Step(w, s2, Others(back));
    TwoTokenLadder(a, b, s3.now);
    assert ForeignConflict(w, s3) && FirstAccepted(s3, 0) && RefreshAged(s3);
  }
}
