/**
 A fresh room's first pass, undisturbed: it comes to rest holding the lock, and with an edit
 waiting it stores the edit. The runs that show a limit of a property start from here.
 */
module FirstPass {
  import opened Basics
  import opened WopiHost
  import opened RoomModel
  import opened SaveMachine
  import opened Takeover
  import Order

  // -------------------------------------------------------------------- ladders

  lemma SortedIs(users: set<string>, q: seq<string>)
    requires Order.Increasing(q) && Order.Elements(q) == users
    ensures Order.Sorted(users) == q
  {
    Order.IncreasingUnique(Order.Sorted(users), q);
  }

  /** A room with one user's usable token, whoever wrote last. */
  lemma OneTokenLadder(user: string, info: TokenInfo, lastWriter: string, now: Time)
    requires info.canWrite && now < info.expiresAt
    ensures TokenLadder(Tokens(map[user := info], map[]), lastWriter, now) == [Candidate(user, info.token)]
  {
    var t := Tokens(map[user := info], map[]);
    assert EligibleUsers(t, now) == {user};
    SortedIs({}, []);
    SortedIs({user}, [user]);
    if lastWriter == user {
      assert EligibleUsers(t, now) - {lastWriter} == {};
    } else {
      assert EligibleUsers(t, now) - {lastWriter} == {user};
    }
  }

  /** A room with two users' usable tokens, before anybody wrote. */
  lemma TwoTokenLadder(a: TokenInfo, b: TokenInfo, now: Time)
    requires a.canWrite && b.canWrite && now < a.expiresAt && now < b.expiresAt
    ensures TokenLadder(Tokens(map["a" := a, "b" := b], map[]), "", now) ==
      [Candidate("a", a.token), Candidate("b", b.token)]
  {
    var t := Tokens(map["a" := a, "b" := b], map[]);
    assert EligibleUsers(t, now) - {""} == {"a", "b"};
    SortedIs({"a", "b"}, ["a", "b"]);
  }

  /** Tokens far from their expiry, none of them refused, are left alone by a pass. */
  lemma LongLived(t: Tokens, now: Time)
    requires t.failed == map[] && forall u :: u in t.tokens ==> now + TOKEN_EXPIRY_WARN_WINDOW < t.tokens[u].expiresAt
    ensures Prune(t, now) == t && WarnTokens(Prune(t, now), now) == t
  {
  }

  // -------------------------------------------------------------------- the pass

  /** The worker enters a room without a lock or a conflict, and the host accepts its first token. */
  ghost predicate Opened(w: World, s: Sys) {
    && s.pc == Begin(false) && s.indexed && w.own != ""
    && s.room.lock.lockValue == w.own && !s.room.lock.haveLock && s.room.lock.forceUnlockValue == ""
    && !s.room.conf.conflict && !s.room.life.closing && !s.room.ver.pendingCheck
    && s.room.saves.nextRetryAt == 0 && s.room.saves.lastAttemptAt == 0
    && EffectiveLock(s.host, s.now) in {"", w.own}
    && FirstAccepted(s, 0)
  }

  /** The room holds the lock since this instant, at the host too. */
  ghost predicate Holds(w: World, s: Sys) {
    && s.room.lock == LockState(w.own, true, s.now, "") && JustLocked(w, s) && EffectiveLock(s.host, s.now) == w.own
    && LastPlanned(s.log) == Some(s.now)
  }

  /** The eager acquisition comes before any save. */
  lemma LocksFirst(w: World, s: Sys) returns (s': Sys)
    requires Opened(w, s)
    ensures Leads(w, s, s') && Alike(s, s') && Holds(w, s')
    ensures s'.pc == Passing(PlanOf(s.room, s.now), SaveCheck)
    ensures s'.room.tok == WarnTokens(Prune(s.room.tok, s.now), s.now)
    ensures Ladder(s'.room, s.now) == Ladder(s.room, s.now)
    ensures s'.room.saves == s.room.saves && s'.room.life.closing == s.room.life.closing
    ensures s'.room.ver.have == s.room.ver.have
  {
    var pass := PlanOf(s.room, s.now);
    var s1 := PassBegins(w, s);
    StillLive(s.room, s.now);
    assert s1.pc == Passing(pass, EagerRead);
    s' := EagerPart(w, s1, "", pass);
    LeadsTrans(w, s, s1, s');
  }

  /** A clean room comes to rest with the lock. */
  lemma ComesToRest(w: World, s: Sys) returns (s': Sys)
    requires Opened(w, s) && !s.room.doc.dirty
    ensures Leads(w, s, s') && Alike(s, s') && Holds(w, s')
    ensures s'.pc == Idle && !s'.room.life.inFlight && s'.room.life.closing == s.room.life.closing
    ensures s'.room.tok == WarnTokens(Prune(s.room.tok, s.now), s.now)
    ensures s'.room.saves == s.room.saves && s'.room.ver.have == s.room.ver.have
  {
    var s1 := LocksFirst(w, s);
    s' := NothingToSave(w, s1, PlanOf(s.room, s.now));
    LeadsTrans(w, s, s1, s');
  }

  /** A dirty one comes to rest with its scene stored. */
  lemma StoresFirst(w: World, s: Sys) returns (s': Sys)
    requires Opened(w, s) && s.room.doc.dirty
    ensures Leads(w, s, s') && Takeover.Stored(w, s', s.room.doc.scene)
    ensures s'.room.saves.lastAttemptAt == s.now == s'.now && s'.stamps == s.stamps
  {
    var s1 := LocksFirst(w, s);
    s' := SavePart(w, s1, "", PlanOf(s.room, s.now), 0);
    LeadsTrans(w, s, s1, s');
  }

  // ------------------------------------------------------------------------ runs

  /** Undisturbed steps are steps of a run. */
  lemma {:induction false} AloneIsRun(w: World, h: HostFile, t: Time, s: Sys, n: nat)
    requires Reached(w, h, t, s)
    ensures Reached(w, h, t, Iterate(Alone(w), s, n))
    decreases n
  {
    if n == 0 {
    } else {
      ReachedNext(w, h, t, s, Work(QUIET));
      AloneIsRun(w, h, t, Alone(w)(s), n - 1);
    }
  }

  lemma ReachedAlone(w: World, h: HostFile, t: Time, s: Sys, s': Sys)
    requires Reached(w, h, t, s) && Leads(w, s, s')
    ensures Reached(w, h, t, s')
  {
    var n: nat :| Iterate(Alone(w), s, n) == s';
    AloneIsRun(w, h, t, s, n);
  }

  /** A fresh room after one user's observation. */
  ghost function Observed(w: World, h: HostFile, t: Time, user: string, info: TokenInfo): Sys {
    Step(w, Start(w, h, t), DoObserve(user, info))
  }

  /** The token is good for a write, in the room's eyes and the host's. */
  ghost predicate Good(h: HostFile, now: Time, info: TokenInfo) {
    info.canWrite && now < info.expiresAt && Accepts(h, info.token)
  }

  lemma StartReached(w: World, h: HostFile, t: Time)
    ensures Reached(w, h, t, Start(w, h, t))
  {
    assert Run(w, Start(w, h, t), []) == Start(w, h, t);
  }

  lemma ObservedReached(w: World, h: HostFile, t: Time, user: string, info: TokenInfo)
    requires t < info.expiresAt
    ensures Reached(w, h, t, Observed(w, h, t, user, info))
    ensures Observed(w, h, t, user, info) ==
      Start(w, h, t).(room := Start(w, h, t).room.(tok := Tokens(map[user := info], map[])))
  {
    StartReached(w, h, t);
    ReachedNext(w, h, t, Start(w, h, t), DoObserve(user, info));
    assert Prune(Tokens(map[user := info], map[]), t) == Tokens(map[user := info], map[]);
  }
}
