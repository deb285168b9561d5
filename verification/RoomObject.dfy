/**
 The room record as the manager keeps it, changed in place under the mutex.

 Each method is one critical section, or a step of one, and is proved to turn the record into
 what `RoomModel` says; `Model` is the record's value. The record's fields are held in the
 groups `RoomModel` names.
 */
module RoomObject {
  import opened Basics
  import opened RoomModel
  import Order

  // ------------------------------------------------------- sorting candidates

  ghost function Users(cs: seq<Candidate>): seq<string> {
    seq(|cs|, i requires 0 <= i < |cs| => cs[i].user)
  }

  ghost predicate DistinctUsers(cs: seq<Candidate>) {
    forall i, j :: 0 <= i < j < |cs| ==> cs[i].user != cs[j].user
  }

  lemma UsersOf(cs: seq<Candidate>, u: string)
    ensures u in Users(cs) <==> exists i :: 0 <= i < |cs| && cs[i].user == u
  {
    if u in Users(cs) {
      var i :| 0 <= i < |cs| && Users(cs)[i] == u;
      assert cs[i].user == u;
    }
    if i :| 0 <= i < |cs| && cs[i].user == u {
      assert Users(cs)[i] == u;
    }
  }

  /** Puts `c` before the first candidate with a greater user id. */
  method InsertByUser(sorted: seq<Candidate>, c: Candidate) returns (r: seq<Candidate>)
    requires Order.Increasing(Users(sorted)) && c.user !in Users(sorted)
    ensures Order.Increasing(Users(r))
    ensures forall x :: x in r <==> x == c || x in sorted
  {
    var i := 0;
    while i < |sorted| && Order.Less(sorted[i].user, c.user)
      invariant 0 <= i <= |sorted|
      invariant forall k :: 0 <= k < i ==> Order.Less(Users(sorted)[k], c.user)
    {
      i := i + 1;
    }
    r := sorted[..i] + [c] + sorted[i..];
    forall k | i <= k < |sorted| ensures Order.Less(c.user, Users(sorted)[k]) {
      Order.Trichotomy(sorted[i].user, c.user);
      assert Users(sorted)[i] == sorted[i].user && Users(sorted)[i] in Users(sorted);
      if k > i { Order.Transitive(c.user, Users(sorted)[i], Users(sorted)[k]); }
    }
    assert Users(r) == Users(sorted)[..i] + [c.user] + Users(sorted)[i..];
    assert sorted == sorted[..i] + sorted[i..];
  }

  method SortByUser(cs: seq<Candidate>) returns (sorted: seq<Candidate>)
    requires DistinctUsers(cs)
    ensures Order.Increasing(Users(sorted))
    ensures forall x :: x in sorted <==> x in cs
  {
    sorted := [];
    for k := 0 to |cs|
      invariant Order.Increasing(Users(sorted))
      invariant forall x :: x in sorted <==> x in cs[..k]
    {
      forall i | 0 <= i < |sorted| ensures sorted[i].user != cs[k].user {
        assert sorted[i] in cs[..k];
      }
      UsersOf(sorted, cs[k].user);
      sorted := InsertByUser(sorted, cs[k]);
      assert cs[..k + 1] == cs[..k] + [cs[k]];
    }
    assert cs[..|cs|] == cs;
  }

  /** Candidates sorted by user are the ladder's tail. */
  lemma SortedTail(t: Tokens, users: set<string>, sorted: seq<Candidate>)
    requires Order.Increasing(Users(sorted))
    requires forall u :: u in users ==> u in t.tokens
    requires forall c :: c in sorted <==> c.user in users && c.user in t.tokens && c.token == t.tokens[c.user].token
    ensures var tail := Order.Sorted(users);
      && (forall i :: 0 <= i < |tail| ==> tail[i] in t.tokens)
      && sorted == Candidates(t, tail)
  {
    var tail := Order.Sorted(users);
    forall u ensures u in Order.Elements(Users(sorted)) <==> u in users {
      UsersOf(sorted, u);
      if u in users { assert Candidate(u, t.tokens[u].token) in sorted; }
    }
    assert Order.Elements(Users(sorted)) == users == Order.Elements(tail);
    Order.IncreasingUnique(Users(sorted), tail);
    assert forall i :: 0 <= i < |sorted| ==> sorted[i] in sorted && Users(sorted)[i] == sorted[i].user;
    assert forall i :: 0 <= i < |tail| ==> tail[i] in Order.Elements(tail);
  }

  class RoomState {
    var wopiSrcs: set<string>
    var fileID: string
    var doc: Scene
    var tok: Tokens
    var lock: LockState
    var ver: Versions
    var conf: Conflict
    var reported: Reported
    var saves: Saves
    var life: Life

    /** The record as a value. */
    ghost function Model(): Room
      reads this
    {
      Room(doc, tok, lock, ver, conf, reported, saves, life)
    }

    constructor ()
      ensures Model() == FRESH && wopiSrcs == {} && fileID == ""
    {
      wopiSrcs, fileID := {}, "";
      doc := Scene(None, false, 0, "", 0);
      tok := Tokens(map[], map[]);
      lock := LockState("", false, 0, "");
      ver := Versions(false, "", false, false);
      conf, reported := Conflict(false, ""), Reported(false, false);
      saves := Saves(0, 0, 0, false, 0, false);
      life := Life(0, false, 0, 0, 0, false);
    }

    // ------------------------------------------------------ reading the tokens

    method TokenRecentlyFailed(token: string, now: Time) returns (failed: bool)
      ensures failed == RecentlyFailed(tok.failed, token, now)
    {
      if token !in tok.failed { return false; }
      failed := now as int - tok.failed[token] < FAILED_TOKEN_TTL;
    }

    method TokenLadder(now: Time) returns (ladder: seq<Candidate>)
      ensures ladder == Ladder(Model(), now)
    {
      var writer := doc.lastWriter;
      var head: Option<Candidate> := None;
      var rest: seq<Candidate> := [];
      var todo := tok.tokens.Keys;
      while todo != {}
        invariant todo <= tok.tokens.Keys
        invariant head == if writer !in todo && writer in EligibleUsers(tok, now)
                          then Some(Candidate(writer, tok.tokens[writer].token)) else None
        invariant forall c :: c in rest <==>
          && c.user !in todo && c.user != writer && c.user in EligibleUsers(tok, now)
          && c.token == tok.tokens[c.user].token
        invariant DistinctUsers(rest)
        decreases |todo|
      {
        var user :| user in todo;
        var info := tok.tokens[user];
        var failed := TokenRecentlyFailed(info.token, now);
        if info.canWrite && now < info.expiresAt && !failed {
          assert user in EligibleUsers(tok, now);
          if user == writer {
            head := Some(Candidate(user, info.token));
          } else {
            rest := rest + [Candidate(user, info.token)];
          }
        }
        todo := todo - {user};
      }
      rest := SortByUser(rest);
      SortedTail(tok, EligibleUsers(tok, now) - {writer}, rest);
      ladder := if head.Some? then [head.value] + rest else rest;
    }

    /** `pick` is the user whose unexpired token map iteration came to first. */
    method AnyLiveToken(now: Time) returns (token: string, ghost pick: string)
      ensures FairPick(Model(), now, pick) && token == RoomModel.AnyLiveToken(Model(), now, pick)
      ensures if exists u :: Unexpired(tok, now, u)
              then exists u :: Unexpired(tok, now, u) && token == tok.tokens[u].token
              else token == ""
    {
      pick := "";
      var ladder := TokenLadder(now);
      if |ladder| > 0 {
        assert Unexpired(tok, now, ladder[0].user);
        return ladder[0].token, "";
      }
      var todo := tok.tokens.Keys;
      while todo != {}
        invariant forall u :: u in tok.tokens && u !in todo ==> tok.tokens[u].expiresAt <= now
        decreases |todo|
      {
        var user :| user in todo;
        if user in tok.tokens && now < tok.tokens[user].expiresAt {
          assert Unexpired(Model().tok, now, user);
          return tok.tokens[user].token, user;
        }
        todo := todo - {user};
      }
      token := "";
    }

    method RoomLive(now: Time) returns (live: bool)
      ensures live == Live(Model(), now)
    {
      if doc.dirty || life.liveUserCount > 0 { return true; }
      var todo := tok.tokens.Keys;
      while todo != {}
        invariant todo <= tok.tokens.Keys
        invariant forall u :: u in tok.tokens && u !in todo ==> tok.tokens[u].expiresAt <= now
        decreases |todo|
      {
        var user :| user in todo;
        if now < tok.tokens[user].expiresAt {
          assert Unexpired(Model().tok, now, user);
          return true;
        }
        todo := todo - {user};
      }
      live := false;
    }

    // ----------------------------------------------------- changing the tokens

    method PruneTokens(now: Time)
      modifies `tok
      ensures tok == Prune(old(tok), now)
    {
      var live: set<string> := {};
      var todo := tok.tokens.Keys;
      while todo != {}
        invariant todo <= old(tok).tokens.Keys && tok.failed == old(tok).failed
        invariant tok.tokens == map u | u in old(tok).tokens &&
          (u in todo || now < old(tok).tokens[u].expiresAt) :: old(tok).tokens[u]
        invariant live == set u | u in old(tok).tokens &&
          u !in todo && now < old(tok).tokens[u].expiresAt :: old(tok).tokens[u].token
        decreases |todo|
      {
        var user :| user in todo;
        if tok.tokens[user].expiresAt <= now {
          tok := tok.(tokens := tok.tokens - {user});
        } else {
          live := live + {tok.tokens[user].token};
        }
        todo := todo - {user};
      }
      DropFailed(now, live);
    }

    /** pruneTokensLocked's second loop. */
    method DropFailed(now: Time, live: set<string>)
      modifies `tok
      ensures tok.tokens == old(tok).tokens
      ensures tok.failed == map k | k in old(tok).failed &&
        k in live && now as int - old(tok).failed[k] < FAILED_TOKEN_TTL :: old(tok).failed[k]
    {
      var todo := tok.failed.Keys;
      while todo != {}
        invariant todo <= old(tok).failed.Keys && tok.tokens == old(tok).tokens
        invariant tok.failed == map k | k in old(tok).failed &&
          (k in todo || (k in live && now as int - old(tok).failed[k] < FAILED_TOKEN_TTL)) :: old(tok).failed[k]
        decreases |todo|
      {
        var token :| token in todo;
        if token !in live || now as int - tok.failed[token] >= FAILED_TOKEN_TTL {
          tok := tok.(failed := tok.failed - {token});
        }
        todo := todo - {token};
      }
    }

    /** classifyTokenAttempt's record of a refused token: markTokenFailed, markTokenNoWrite. */
    method MarkRefused(now: Time, token: string, noWrite: bool)
      modifies `tok
      ensures tok == MarkToken(old(tok), now, token, noWrite)
    {
      tok := tok.(failed := tok.failed[token := now]);
      if noWrite {
        var todo := tok.tokens.Keys;
        while todo != {}
          invariant todo <= tok.tokens.Keys && tok.failed == old(tok).failed[token := now]
          invariant tok.tokens == map u | u in old(tok).tokens ::
            if u !in todo && old(tok).tokens[u].token == token then old(tok).tokens[u].(canWrite := false)
            else old(tok).tokens[u]
          decreases |todo|
        {
          var user :| user in todo;
          if tok.tokens[user].token == token {
            tok := tok.(tokens := tok.tokens[user := tok.tokens[user].(canWrite := false)]);
          }
          todo := todo - {user};
        }
      }
    }

    /** checkTokenExpiry: each token is warned about once, in the last minutes before it expires. */
    method CheckTokenExpiry(now: Time) returns (toWarn: set<string>)
      modifies `tok
      ensures tok == WarnTokens(old(tok), now)
      ensures toWarn == set u | u in old(tok).tokens && ExpiresSoon(old(tok).tokens[u], now)
    {
      ghost var t := tok;
      toWarn := {};
      var todo := tok.tokens.Keys;
      while todo != {}
        invariant todo <= t.tokens.Keys && tok.failed == t.failed
        invariant toWarn == set u | u in t.tokens && u !in todo && ExpiresSoon(t.tokens[u], now)
        invariant tok.tokens == map u | u in t.tokens ::
          if u !in todo && ExpiresSoon(t.tokens[u], now) then t.tokens[u].(warned := true) else t.tokens[u]
        decreases |todo|
      {
        var user :| user in todo;
        var info := tok.tokens[user];
        if !(info.warned || info.expiresAt <= now) {
          if info.expiresAt - now <= TOKEN_EXPIRY_WARN_WINDOW {
            assert info == t.tokens[user];
            tok := tok.(tokens := tok.tokens[user := info.(warned := true)]);
            toWarn := toWarn + {user};
          }
        }
        todo := todo - {user};
      }
    }

    // -------------------------------------------------------------- handlers

    method PutScene(now: Time, data: Bytes, user: string)
      modifies `doc
      ensures doc == RoomModel.PutScene(old(doc), now, data, user)
    {
      doc := doc.(scene := Some(data), dirty := true);
      doc := doc.(seqNo := doc.seqNo + 1, lastPutSceneAt := now);
      if user != "" {
        doc := doc.(lastWriter := user);
      }
    }

    method Observe(now: Time, lockValue: string, user: string, info: TokenInfo)
      modifies `lock, `tok, `ver
      ensures Model() == RoomModel.Observe(old(Model()), now, lockValue, user, info)
    {
      lock := lock.(lockValue := lockValue);
      var existed := user in tok.tokens;
      tok := tok.(tokens := tok.tokens[user := info]);
      PruneTokens(now);
      if !existed && ver.have && !conf.conflict {
        ver := ver.(pendingCheck := true);
      }
    }

    method OnJoin()
      modifies `life
      ensures life == RoomModel.OnJoin(old(life))
    {
      life := life.(liveUserCount := life.liveUserCount + 1);
      life := life.(closing := false);
    }

    method OnLeave(now: Time, roomEmpty: bool)
      modifies `life
      ensures life == RoomModel.OnLeave(old(life), now, roomEmpty)
    {
      if life.liveUserCount > 0 {
        life := life.(liveUserCount := life.liveUserCount - 1);
      }
      if roomEmpty {
        life := life.(closing := true, closeAt := now + CLOSE_GRACE);
      }
    }

    method ResolveConflict(overwrite: bool)
      modifies `doc, `lock, `ver, `conf, `saves
      ensures Model() == RoomModel.ResolveConflict(old(Model()), overwrite)
    {
      if !conf.conflict { return; }
      var foreignLock := conf.foreignLock;
      conf := Conflict(false, "");
      if overwrite {
        doc := doc.(dirty := true);
        saves := saves.(backoff := 0, nextRetryAt := 0);
        saves := saves.(lastAttemptAt := 0);
        ver := ver.(skipCheckOnce := true);
        if foreignLock != "" {
          lock := lock.(forceUnlockValue := foreignLock);
        }
      } else {
        doc := doc.(scene := None, dirty := false);
        ver := ver.(have := false);
        if foreignLock != "" {
          lock := lock.(forceUnlockValue := foreignLock);
        }
      }
    }

    method EnterConflict(foreignLock: string, dropLock: bool)
      modifies `conf, `lock
      ensures Model() == RoomModel.EnterConflict(old(Model()), foreignLock, dropLock)
    {
      conf := conf.(conflict := true);
      if foreignLock != "" {
        conf := conf.(foreignLock := foreignLock);
      }
      if dropLock {
        lock := lock.(haveLock := false);
      }
    }

    method SaveStalled(now: Time) returns (stalled: bool)
      ensures stalled == RoomModel.SaveStalled(Model(), now)
    {
      var windowElapsed := saves.firstFailedAt != 0 && now as int - saves.firstFailedAt >= SAVE_STALLED_WINDOW;
      stalled := doc.dirty && (saves.writeLost || windowElapsed);
    }

    /** The hook is called, with what is now reported, exactly when the client-facing state changed. */
    method NotifyState(now: Time) returns (changed: bool)
      modifies `reported
      ensures reported == Facing(old(Model()), now)
      ensures changed <==> reported != old(reported)
    {
      var inConflict := conf.conflict;
      var saveStalled := SaveStalled(now);
      changed := inConflict != reported.conflict || saveStalled != reported.saveStalled;
      if changed {
        reported := Reported(inConflict, saveStalled);
      }
    }

    // ------------------------------------------------------------- schedules

    method SaveDue(now: Time) returns (due: bool)
      ensures due == RoomModel.SaveDue(Model(), now)
    {
      if !doc.dirty || conf.conflict { return false; }
      if saves.nextRetryAt != 0 { return now >= saves.nextRetryAt; }
      if saves.lastAttemptAt == 0 { return true; }
      var throttleDue := saves.lastAttemptAt + SERVER_SAVE_INTERVAL;
      var idleDue := doc.lastPutSceneAt + IDLE_FLUSH_INTERVAL;
      var at := throttleDue;
      if idleDue < at {
        at := idleDue;
      }
      due := now >= at;
    }

    method CloseSaveDue(now: Time) returns (due: bool)
      ensures due == RoomModel.CloseSaveDue(Model(), now)
    {
      if !doc.dirty || conf.conflict { return false; }
      if saves.nextRetryAt != 0 { return now >= saves.nextRetryAt; }
      due := true;
    }

    method VersionCheckPlan(now: Time, live: bool, closeDue: bool) returns (versionCheckDue: bool, needRefresh: bool)
      modifies `ver
      ensures needRefresh == RefreshDue(old(Model()), now, live)
      ensures versionCheckDue == VersionCheckDue(old(ver), needRefresh)
      ensures ver == old(ver).(skipCheckOnce := false,
                               pendingCheck := old(ver).pendingCheck && !(versionCheckDue && !closeDue))
    {
      versionCheckDue := ver.pendingCheck;
      needRefresh := lock.haveLock && !conf.conflict && live && now as int - lock.lastLockAt >= LOCK_REFRESH_INTERVAL;
      if needRefresh {
        versionCheckDue := true;
      }
      if ver.skipCheckOnce {
        versionCheckDue := false;
        ver := ver.(skipCheckOnce := false);
      }
      if versionCheckDue && !closeDue {
        ver := ver.(pendingCheck := false);
      }
    }

    method IdleGCPlan(now: Time, live: bool) returns (gcDue: bool)
      modifies `life
      ensures life == old(life).(idleSince := IdleSince(old(Model()), now, live))
      ensures gcDue == (Idling(old(Model()), live) && now as int - life.idleSince >= GC_IDLE_TIMEOUT)
    {
      var idle := !live && !doc.dirty && !life.closing;
      if idle {
        if life.idleSince == 0 {
          life := life.(idleSince := now);
        }
      } else {
        life := life.(idleSince := 0);
      }
      gcDue := idle && now as int - life.idleSince >= GC_IDLE_TIMEOUT;
    }

    method StuckConflictPlan(now: Time) returns (logStuck: bool)
      modifies `life
      ensures logStuck == StuckLogDue(old(Model()), now)
      ensures life == old(life).(lastStuckLogAt := if logStuck then now else old(life).lastStuckLogAt)
    {
      var stuckConflict := conf.conflict && doc.dirty && life.liveUserCount == 0;
      logStuck := stuckConflict
        && (life.lastStuckLogAt == 0 || now as int - life.lastStuckLogAt >= STUCK_CONFLICT_LOG_INTERVAL);
      if logStuck {
        life := life.(lastStuckLogAt := now);
      }
    }

    /** planPass once the tokens are pruned. */
    method PlanPruned(now: Time) returns (pass: Pass, logStuck: bool)
      modifies `ver, `life
      ensures Model() == PlannedFrom(old(Model()), now) && pass == PlanFrom(old(Model()), now)
      ensures logStuck == StuckLogDue(old(Model()), now)
    {
      var live := RoomLive(now);
      var closeDue := life.closing && now >= life.closeAt;
      var ladder := TokenLadder(now);
      var versionCheckDue, needRefresh := VersionCheckPlan(now, live, closeDue);
      var lockDue := !lock.haveLock && !conf.conflict && !closeDue && |ladder| > 0;
      var gcDue := IdleGCPlan(now, live);
      logStuck := StuckConflictPlan(now);
      pass := Pass(now, versionCheckDue, closeDue, lockDue, gcDue, needRefresh, lock.haveLock, lock.lockValue);
    }

    /** The plan, and whether the pass logs a conflict nobody is there to resolve. */
    method PlanPass(now: Time) returns (pass: Pass, logStuck: bool)
      modifies `tok, `ver, `life
      ensures Model() == Planned(old(Model()), now) && pass == PlanOf(old(Model()), now)
      ensures logStuck == StuckLogDue(old(Model()), now)
    {
      PruneTokens(now);
      assert Model() == old(Model()).(tok := Prune(old(tok), now));
      pass, logStuck := PlanPruned(now);
    }

    // ---------------------------------------------------------------- worker

    method MarkLocked(now: Time)
      modifies `lock
      ensures lock == old(lock).(haveLock := true, lastLockAt := now)
    {
      lock := lock.(haveLock := true);
      lock := lock.(lastLockAt := now);
    }

    method DropLock()
      modifies `lock
      ensures lock == old(lock).(haveLock := false)
    {
      lock := lock.(haveLock := false);
    }

    /** ensureLocked's first section: the one-shot takeover value leaves the room. */
    method TakeForceUnlock() returns (lockValue: string, forceUnlock: string)
      modifies `lock
      ensures lockValue == lock.lockValue && forceUnlock == old(lock).forceUnlockValue
      ensures lock == old(lock).(forceUnlockValue := "")
    {
      lockValue := lock.lockValue;
      forceUnlock := lock.forceUnlockValue;
      lock := lock.(forceUnlockValue := "");
    }

    method RestoreForceUnlock(forceUnlock: string)
      modifies `lock
      ensures lock == old(lock).(forceUnlockValue := forceUnlock)
    {
      lock := lock.(forceUnlockValue := forceUnlock);
    }

    method LoseWrite()
      modifies `saves
      ensures saves == old(saves).(writeLost := true)
    {
      saves := saves.(writeLost := true);
    }

    method RecordSaveSuccess(now: Time, version: string, seqNo: nat)
      modifies `doc, `ver, `saves
      ensures Model() == RoomModel.RecordSaveSuccess(old(Model()), now, version, seqNo)
    {
      if doc.seqNo == seqNo {
        doc := doc.(dirty := false);
      }
      saves := saves.(lastAttemptAt := now);
      ver := ver.(expected := version, have := true);
      saves := saves.(backoff := 0, nextRetryAt := 0, firstFailedAt := 0);
      saves := saves.(writeLost := false);
    }

    method RecordSaveFailure(now: Time, allNoWrite: bool)
      modifies `saves
      ensures saves == RoomModel.RecordSaveFailure(old(saves), now, allNoWrite)
    {
      saves := saves.(lastAttemptAt := now);
      if saves.backoff == 0 {
        saves := saves.(backoff := INITIAL_BACKOFF);
      } else {
        saves := saves.(backoff := saves.backoff * 2);
        if saves.backoff > MAX_BACKOFF {
          saves := saves.(backoff := MAX_BACKOFF);
        }
      }
      saves := saves.(nextRetryAt := now + saves.backoff);
      if saves.firstFailedAt == 0 {
        saves := saves.(firstFailedAt := now);
      }
      if allNoWrite {
        saves := saves.(writeLost := true);
      }
    }

    method TryEnterInFlight() returns (entered: bool)
      modifies `life
      ensures life == old(life).(inFlight := true) && entered == !old(life).inFlight
    {
      if life.inFlight { return false; }
      life := life.(inFlight := true);
      entered := true;
    }

    method ExitInFlight()
      modifies `life
      ensures life == old(life).(inFlight := false)
    {
      life := life.(inFlight := false);
    }
  }
}
