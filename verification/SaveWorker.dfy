/**
 The background worker's own code: evaluateRoom and everything it calls, as loops and branches
 over a room record and a host that are both changed in place.

 The machine of `SaveMachine` rides along as ghost state. `Valid` says that the objects are what
 the machine says after the steps in `trail`, so each method is proved to walk the machine: it
 finds the program counter where the function starts and leaves it where the function returns.
 Between any two critical sections or host calls `Yield` lets everybody else move. Whatever
 holds of every run therefore holds of this code at each of those points.
 */
module SaveWorker {
  import opened Basics
  import opened WopiHost
  import opened RoomModel
  import opened SaveMachine
  import opened RoomObject
  import LockSafety
  import SaveSafety

  /** A host call changes nothing but the worker's position and the history. */
  lemma CallKeepsRest(s: Sys, i: Input)
    requires RequestOf(s.pc).Some?
    ensures var s' := Act(s, i);
      && s'.room == s.room && s'.host == s.host
      && s'.now == s.now && s'.indexed == s.indexed && s'.stamps == s.stamps
  {
  }

  /** What attemptSave tells performSave's loop. */
  datatype Outcome = SaveDone | ConflictHandled | TryNextToken(error: WopiError, noWrite: bool)

  class Worker {
    const w: World
    const room: RoomState
    const host: Host
    var now: Time
    var indexed: bool
    /** When the posts that wait for the mutex read the clock. */
    var stamps: set<Time>

    ghost const start: Sys
    ghost var sys: Sys
    ghost var trail: seq<Label>

    /** The machine is where its steps so far lead. */
    ghost predicate Traced()
      reads this
    {
      sys == Run(w, start, trail)
    }

    ghost predicate Valid()
      reads this, room, host
    {
      && Traced()
      && sys.room == room.Model() && sys.host == host.Model()
      && sys.now == now && sys.indexed == indexed && sys.stamps == stamps
    }

    /** A fresh room for a file whose host side is `host`. */
    constructor (w: World, room: RoomState, host: Host, now: Time)
      requires room.Model() == Start(w, host.Model(), now).room
      ensures Valid() && sys == start == Start(w, host.Model(), now) && trail == []
      ensures this.room == room && this.host == host && this.w == w
    {
      this.w, this.room, this.host, this.now := w, room, host, now;
      indexed, stamps := true, {};
      start := Start(w, host.Model(), now);
      sys := Start(w, host.Model(), now);
      trail := [];
    }

    // ------------------------------------------------------------- ghost steps

    ghost method Commit(l: Label)
      requires Traced()
      modifies `sys, `trail
      ensures Traced() && sys == Step(w, old(sys), l) && trail == old(trail) + [l]
    {
      RunExtends(w, start, trail, l);
      sys := Step(w, sys, l);
      trail := trail + [l];
    }

    /** The worker finished a critical section. */
    ghost method Section(pick: string) returns (i: Input)
      requires Traced() && RequestOf(sys.pc).None?
      modifies `sys, `trail
      ensures Traced() && i == InputOf(old(sys), pick, Ok("")) && sys == Act(old(sys), i)
      ensures old(trail) <= trail
    {
      i := InputOf(sys, pick, Ok(""));
      Commit(Work(Choice(None, pick)));
    }

    /** Everybody else's turn: any number of handler calls, host changes and clock ticks. */
    method Yield()
      requires Valid()
      modifies this, room, host
      ensures Valid() && sys.pc == old(sys.pc) && old(trail) <= trail
    {
      var turns: nat := *;
      while turns > 0
        invariant Valid() && sys.pc == old(sys.pc) && old(trail) <= trail
      {
        var l: Label := *;
        if !l.Work? && !l.Enter? {
          Handle(l);
        }
        turns := turns - 1;
      }
    }

    method Handle(l: Label)
      requires Valid() && !l.Work? && !l.Enter?
      modifies this, room, host
      ensures Valid() && sys.pc == old(sys.pc) && old(trail) <= trail
      ensures sys == Step(w, old(sys), l)
    {
      if l.ReadClock? || l.DoNotify? || l.Others? || l.Tick? {
        HandleOutside(l);
      } else {
        if indexed { HandleRoom(l); }
        Commit(l);
      }
    }

    /** What happens whether or not the room is still indexed. */
    method HandleOutside(l: Label)
      requires Valid() && (l.ReadClock? || l.DoNotify? || l.Others? || l.Tick?)
      modifies this, room, host
      ensures Valid() && sys.pc == old(sys.pc) && trail == old(trail) + [l] && sys == Step(w, old(sys), l)
    {
      match l {
        case ReadClock => PostReadsClock();
        case DoNotify => Renotify();
        case Others(h) => ChangeHost(h);
        case Tick(t) => PassTime(t);
      }
    }

    /** A post reads the clock and goes on to wait for the mutex. */
    method PostReadsClock()
      requires Valid()
      modifies this
      ensures Valid() && sys.pc == old(sys.pc) && trail == old(trail) + [Label.ReadClock]
      ensures sys == Step(w, old(sys), Label.ReadClock)
    {
      stamps := stamps + {now};
      Commit(Label.ReadClock);
    }

    method Renotify()
      requires Valid()
      modifies this, room
      ensures Valid() && sys.pc == old(sys.pc) && trail == old(trail) + [DoNotify] && sys == Step(w, old(sys), DoNotify)
    {
      var _ := room.NotifyState(now);
      Commit(DoNotify);
    }

    method ChangeHost(h: HostFile)
      requires Valid()
      modifies this, host
      ensures Valid() && sys.pc == old(sys.pc) && trail == old(trail) + [Others(h)]
      ensures sys == Step(w, old(sys), Others(h))
    {
      host.content, host.version, host.lock, host.lockExp := h.content, h.version, h.lock, h.lockExp;
      host.putCount, host.access := h.putCount, h.access;
      Commit(Others(h));
    }

    method PassTime(t: Time)
      requires Valid()
      modifies this
      ensures Valid() && sys.pc == old(sys.pc) && trail == old(trail) + [Tick(t)] && sys == Step(w, old(sys), Tick(t))
    {
      if t >= now { now := t; }
      Commit(Tick(t));
    }

    /** The request handlers' critical sections. */
    method HandleRoom(l: Label)
      requires room.Model() == sys.room && sys.now == now && sys.stamps == stamps
      requires !l.Work? && !l.Enter? && !l.ReadClock? && !l.DoNotify? && !l.Others? && !l.Tick?
      modifies room
      ensures room.Model() == HandlerStep(w, sys, l).room
    {
      match l {
        case DoPutScene(data, user, at) => if at in stamps { room.PutScene(at, data, user); }
        case DoObserve(user, info) => room.Observe(now, w.own, user, info);
        case DoJoin => room.OnJoin();
        case DoLeave(roomEmpty) => room.OnLeave(now, roomEmpty);
        case DoResolve(overwrite) => room.ResolveConflict(overwrite);
      }
    }

    /** One host call: the host's own code, or an error without effect. */
    method Ask(q: Request) returns (a: Answer)
      requires Valid() && RequestOf(sys.pc) == Some(q)
      modifies this, host
      ensures Valid() && old(trail) <= trail
      ensures exists i: Input :: i.answer == a && sys == Act(old(sys).(host := host.Model()), i)
    {
      var glitch: Option<WopiError> := *;
      if glitch.Some? {
        a := Err(glitch.value);
      } else {
        var r: Response;
        match q {
          case CheckFileInfo(token) => r := host.HandleCheckFileInfo(w.versionOf, now, token);
          case PutFile(token, lock, body) => r := host.HandlePutFile(w.versionOf, now, token, lock, body);
          case _ => r := host.HandleFileOp(w.versionOf, now, q);
        }
        a := ReadResponse(r);
      }
      ghost var ch := Choice(glitch, "");
      assert (host.Model(), a) == Call(w, sys, ch, q);
      ghost var i := InputOf(sys, "", a);
      CallKeepsRest(sys.(host := host.Model()), i);
      Commit(Work(ch));
      assert i.answer == a;
    }

    // ----------------------------------------------------- conflicts and pushes

    method Notify(ghost next: PC)
      requires Valid() && sys.pc == PC.Notify(next)
      modifies this, room, host
      ensures Valid() && sys.pc == next && old(trail) <= trail
    {
      var _ := room.NotifyState(now);
      ghost var _ := Section("");
      Yield();
    }

    method EnterConflict(foreignLock: string, dropLock: bool, ghost next: PC)
      requires Valid() && sys.pc == Raise(foreignLock, dropLock, next)
      modifies this, room, host
      ensures Valid() && sys.pc == next && old(trail) <= trail
    {
      room.EnterConflict(foreignLock, dropLock);
      ghost var _ := Section("");
      Yield();
      Notify(next);
    }

    // ---------------------------------------------------------------- locking

    method MarkLocked(at: Time, token: string, ghost c: Caller)
      requires Valid() && sys.pc == Ensuring(c, token, Mark) && at == CallerNow(c)
      modifies this, room, host
      ensures Valid() && sys.pc == Locked(c, token) && old(trail) <= trail
    {
      room.MarkLocked(at);
      ghost var _ := Section("");
      Yield();
    }

    /** ensureLocked's first section. */
    method TakeForce(token: string, ghost c: Caller) returns (lockValue: string, forceUnlock: string)
      requires Valid() && sys.pc == Ensuring(c, token, EnsureAt.TakeForce)
      modifies this, room, host
      ensures Valid() && old(trail) <= trail
      ensures sys.pc ==
        Ensuring(c, token, if forceUnlock != "" then Swap(lockValue, forceUnlock) else LockCall(lockValue))
    {
      lockValue, forceUnlock := room.TakeForceUnlock();
      ghost var _ := Section("");
      Yield();
    }

    method RestoreForce(token: string, forceUnlock: string, error: WopiError, ghost c: Caller)
      requires Valid() && sys.pc == Ensuring(c, token, EnsureAt.RestoreForce(forceUnlock, error))
      modifies this, room, host
      ensures Valid() && sys.pc == Denied(c, token, error) && old(trail) <= trail
    {
      room.RestoreForceUnlock(forceUnlock);
      ghost var _ := Section("");
      Yield();
    }

    /** resolveForeignLock: the error, unless the foreign value is the room's own. */
    method ResolveForeignLock(token: string, lockValue: string, current: string, at: Time, ghost c: Caller)
      returns (err: Option<WopiError>)
      requires Valid() && sys.pc == ResolveForeign(c, token, lockValue, current) && at == CallerNow(c)
      modifies this, room, host
      ensures Valid() && old(trail) <= trail
      ensures match err case None => sys.pc == Locked(c, token) case Some(e) => sys.pc == Denied(c, token, e)
    {
      if current == lockValue {
        MarkLocked(at, token, c);
        return None;
      }
      EnterConflict(current, true, Denied(c, token, LockConflict(current)));
      err := Some(LockConflict(current));
    }

    /** What a LOCK's answer comes to, unless it is an empty-lock 409. */
    method TakeAnswer(token: string, lockValue: string, at: Time, a: Answer, retry: bool, ghost c: Caller)
      returns (err: Option<WopiError>)
      requires Valid() && sys.pc == LockReply(c, token, lockValue, retry, a) && at == CallerNow(c)
      requires !(retry && a.Err? && a.error == LockConflict(""))
      modifies this, room, host
      ensures Valid() && old(trail) <= trail
      ensures match err case None => sys.pc == Locked(c, token) case Some(e) => sys.pc == Denied(c, token, e)
    {
      if a.Ok? {
        MarkLocked(at, token, c);
        return None;
      }
      if !a.error.LockConflict? || a.error.currentLock == "" { return Some(a.error); }
      err := ResolveForeignLock(token, lockValue, a.error.currentLock, at, c);
    }

    /** The part of ensureLocked from the plain LOCK on: an empty-lock 409 gets one retry. */
    method LockPlainly(token: string, lockValue: string, at: Time, ghost c: Caller) returns (err: Option<WopiError>)
      requires Valid() && sys.pc == Ensuring(c, token, LockCall(lockValue)) && at == CallerNow(c)
      modifies this, room, host
      ensures Valid() && old(trail) <= trail
      ensures match err case None => sys.pc == Locked(c, token) case Some(e) => sys.pc == Denied(c, token, e)
    {
      var a := Ask(Lock(token, lockValue));
      assert sys.pc == LockReply(c, token, lockValue, true, a);
      Yield();
      if a.Ok? || a.error != LockConflict("") {
        err := TakeAnswer(token, lockValue, at, a, true, c);
      } else {
        var again := Ask(Lock(token, lockValue));
        assert sys.pc == LockReply(c, token, lockValue, false, again);
        Yield();
        err := TakeAnswer(token, lockValue, at, again, false, c);
      }
    }

    /** ensureLocked's takeover: `plain` says that the code falls through to the plain LOCK. */
    method TakeOver(token: string, lockValue: string, forceUnlock: string, at: Time, ghost c: Caller)
      returns (plain: bool, err: Option<WopiError>)
      requires Valid() && sys.pc == Ensuring(c, token, Swap(lockValue, forceUnlock)) && at == CallerNow(c)
      modifies this, room, host
      ensures Valid() && old(trail) <= trail
      ensures plain ==> sys.pc == Ensuring(c, token, LockCall(lockValue))
      ensures !plain ==> match err case None => sys.pc == Locked(c, token) case Some(e) => sys.pc == Denied(c, token, e)
    {
      plain, err := false, None;
      var a := Ask(UnlockAndRelock(token, lockValue, forceUnlock));
      assert sys.pc == SwapReply(c, token, lockValue, forceUnlock, a);
      Yield();
      if a.Ok? {
        MarkLocked(at, token, c);
      } else if !a.error.LockConflict? {
        RestoreForce(token, forceUnlock, a.error, c);
        err := Some(a.error);
      } else if a.error.currentLock != "" && a.error.currentLock != lockValue {
        EnterConflict(a.error.currentLock, true, Denied(c, token, a.error));
        err := Some(a.error);
      } else {
        plain := true;
      }
    }

    method EnsureLocked(token: string, at: Time, ghost c: Caller) returns (err: Option<WopiError>)
      requires Valid() && sys.pc == Ensuring(c, token, EnsureAt.TakeForce) && at == CallerNow(c)
      modifies this, room, host
      ensures Valid() && old(trail) <= trail
      ensures match err case None => sys.pc == Locked(c, token) case Some(e) => sys.pc == Denied(c, token, e)
    {
      var lockValue, forceUnlock := TakeForce(token, c);
      if forceUnlock != "" {
        var plain;
        plain, err := TakeOver(token, lockValue, forceUnlock, at, c);
        if !plain { return; }
      }
      err := LockPlainly(token, lockValue, at, c);
    }

    // ------------------------------------------------------------- performSave

    method RecordSaveSuccess(at: Time, version: string, seqNo: nat, ghost sv: Save)
      requires Valid() && sys.pc == Saving(sv, Record(version)) && at == sv.pass.now && seqNo == sv.seqNo
      modifies this, room, host
      ensures Valid() && sys.pc == AfterSave(sv.origin, sv.pass) && old(trail) <= trail
    {
      room.RecordSaveSuccess(at, version, seqNo);
      ghost var _ := Section("");
      Yield();
    }

    method RecordSaveFailure(at: Time, allNoWrite: bool, ghost sv: Save)
      requires Valid() && sys.pc == Saving(sv, Fail) && at == sv.pass.now && allNoWrite == sv.allNoWrite
      modifies this, room, host
      ensures Valid() && sys.pc == AfterSave(sv.origin, sv.pass) && old(trail) <= trail
    {
      room.RecordSaveFailure(at, allNoWrite);
      ghost var _ := Section("");
      Yield();
    }

    /** classifyTokenAttempt's record of a refused token, in performSave's loop. */
    method MarkSaveToken(at: Time, token: string, noWrite: bool, ghost sv: Save)
      requires Valid() && sys.pc == Saving(sv, SaveMarkToken(token, noWrite)) && at == sv.pass.now
      modifies this, room, host
      ensures Valid() && sys.pc == Try(sv) && old(trail) <= trail
    {
      room.MarkRefused(at, token, noWrite);
      ghost var _ := Section("");
      Yield();
    }

    /** A candidate failed: classify its error and move on. */
    method NextToken(at: Time, token: string, error: WopiError, ghost sv: Save) returns (r: Outcome)
      requires Valid() && sys.pc == TryNext(sv, token, error) && at == sv.pass.now
      modifies this, room, host
      ensures Valid() && sys.pc == Try(Advance(sv, error)) && old(trail) <= trail
      ensures r == TryNextToken(error, error.NoWriteAccess?)
    {
      if error.TokenRejected? || error.NoWriteAccess? {
        MarkSaveToken(at, token, error.NoWriteAccess?, Advance(sv, error));
      }
      r := TryNextToken(error, error.NoWriteAccess?);
    }

    ghost predicate Tried(r: Outcome, sv: Save)
      reads this
    {
      match r
      case TryNextToken(error, noWrite) => noWrite == error.NoWriteAccess? && sys.pc == Try(Advance(sv, error))
      case _ => sys.pc == AfterSave(sv.origin, sv.pass)
    }

    /** A 409 on PutFile under an empty or the own lock: transient, so the next pass re-locks. */
    method DropLockAndRetry(error: WopiError, ghost sv: Save)
      requires Valid() && sys.pc == Saving(sv, DropLock(error))
      modifies this, room, host
      ensures Valid() && sys.pc == Try(Advance(sv, error)) && old(trail) <= trail
    {
      room.DropLock();
      ghost var _ := Section("");
      Yield();
    }

    /** attemptSave after ensureLocked failed. */
    method AttemptUnlocked(token: string, at: Time, scene: Option<Bytes>, seqNo: nat, firstEver: bool, error: WopiError,
                           ghost sv: Save)
      returns (r: Outcome)
      requires Valid() && sys.pc == Denied(ForSave(sv), token, error) && at == sv.pass.now
      requires scene == sv.scene && seqNo == sv.seqNo && firstEver == sv.firstEver
      modifies this, room, host
      ensures Valid() && Tried(r, sv) && old(trail) <= trail
    {
      if error.LockConflict? { return ConflictHandled; }
      if !error.TokenRejected? && !error.NoWriteAccess? && firstEver {
        var a := Ask(PutFile(token, "", Body(scene)));
        Yield();
        if a.Ok? {
          RecordSaveSuccess(at, a.version, seqNo, sv);
          return SaveDone;
        }
        return TryNextToken(error, false);
      }
      r := NextToken(at, token, error, sv);
    }

    method AttemptSave(token: string, at: Time, scene: Option<Bytes>, seqNo: nat, lockValue: string, firstEver: bool,
                       ghost sv: Save)
      returns (r: Outcome)
      requires Valid() && sys.pc == Ensuring(ForSave(sv), token, EnsureAt.TakeForce) && at == sv.pass.now
      requires scene == sv.scene && seqNo == sv.seqNo && lockValue == sv.lockValue && firstEver == sv.firstEver
      modifies this, room, host
      ensures Valid() && Tried(r, sv) && old(trail) <= trail
    {
      var err := EnsureLocked(token, at, ForSave(sv));
      if err.Some? {
        r := AttemptUnlocked(token, at, scene, seqNo, firstEver, err.value, sv);
        return;
      }
      var a := Ask(PutFile(token, lockValue, Body(scene)));
      assert sys.pc == PutReply(sv, token, a);
      Yield();
      if a.Ok? {
        RecordSaveSuccess(at, a.version, seqNo, sv);
        return SaveDone;
      }
      if a.error.LockConflict? {
        if a.error.currentLock != "" && a.error.currentLock != lockValue {
          EnterConflict(a.error.currentLock, true, AfterSave(sv.origin, sv.pass));
          return ConflictHandled;
        }
        DropLockAndRetry(a.error, sv);
        return TryNextToken(a.error, false);
      }
      r := NextToken(at, token, a.error, sv);
    }

    /** performSave's first section: what this save sends, or nothing to do. */
    method SnapshotScene(at: Time, ghost origin: Origin, ghost pass: Pass)
      returns (proceed: bool, scene: Option<Bytes>, seqNo: nat, lockValue: string, ladder: seq<Candidate>,
               firstEver: bool)
      requires Valid() && sys.pc == Snapshot(origin, pass) && at == pass.now
      modifies this, room, host
      ensures Valid() && old(trail) <= trail
      ensures sys.pc == if proceed
        then Try(Save(origin, pass, scene, seqNo, lockValue, ladder, firstEver, 0, ladder != [], Silent))
        else AfterSave(origin, pass)
    {
      proceed, scene, seqNo, lockValue, ladder, firstEver := false, None, 0, "", [], false;
      if room.doc.dirty && !room.conf.conflict {
        proceed := true;
        scene, seqNo, lockValue := room.doc.scene, room.doc.seqNo, room.lock.lockValue;
        ladder := room.TokenLadder(at);
        firstEver := !room.saves.firstDone;
        room.saves := room.saves.(firstDone := true);
      }
      ghost var _ := Section("");
      Yield();
    }

    /** performSave's walk down the ladder: one accepted candidate ends it, or a conflict does. */
    method WalkLadder(at: Time, scene: Option<Bytes>, seqNo: nat, lockValue: string, ladder: seq<Candidate>,
                      firstEver: bool, ghost start: Save)
      requires Valid() && sys.pc == Try(start) && at == start.pass.now && ladder != []
      requires start == Save(start.origin, start.pass, scene, seqNo, lockValue, ladder, firstEver, 0, true, Silent)
      modifies this, room, host
      ensures Valid() && sys.pc == AfterSave(start.origin, start.pass) && old(trail) <= trail
    {
      ghost var sv := start;
      var allNoWrite := true;
      var k := 0;
      while k < |ladder|
        invariant 0 <= k <= |ladder|
        invariant sv == start.(i := k, allNoWrite := allNoWrite, answers := sv.answers)
        invariant Valid() && sys.pc == Try(sv) && old(trail) <= trail
      {
        var r := AttemptSave(ladder[k].token, at, scene, seqNo, lockValue, firstEver, sv);
        if !r.TryNextToken? { return; }
        sv := Advance(sv, r.error);
        if !r.noWrite { allNoWrite := false; }
        k := k + 1;
      }
      RecordSaveFailure(at, allNoWrite, sv);
    }

    method PerformSave(at: Time, ghost origin: Origin, ghost pass: Pass)
      requires Valid() && sys.pc == Snapshot(origin, pass) && at == pass.now
      modifies this, room, host
      ensures Valid() && sys.pc == AfterSave(origin, pass) && old(trail) <= trail
    {
      var proceed, scene, seqNo, lockValue, ladder, firstEver := SnapshotScene(at, origin, pass);
      if !proceed { return; }
      ghost var sv := Save(origin, pass, scene, seqNo, lockValue, ladder, firstEver, 0, ladder != [], Silent);
      if |ladder| == 0 {
        RecordSaveFailure(at, false, sv);
      } else {
        WalkLadder(at, scene, seqNo, lockValue, ladder, firstEver, sv);
      }
    }

    // ------------------------------------------------------------- refreshLock

    method MarkRefreshed(at: Time, ghost pass: Pass)
      requires Valid() && sys.pc == Passing(pass, RefreshMark) && at == pass.now
      modifies this, room, host
      ensures Valid() && sys.pc == Passing(pass, SaveCheck) && old(trail) <= trail
    {
      room.MarkLocked(at);
      ghost var _ := Section("");
      Yield();
    }

    method MarkRefreshToken(at: Time, token: string, noWrite: bool, ghost rf: Refresh)
      requires Valid() && sys.pc == Refreshing(rf, RefreshMarkToken(token, noWrite)) && at == rf.pass.now
      modifies this, room, host
      ensures Valid() && sys.pc == RefreshTry(rf) && old(trail) <= trail
    {
      room.MarkRefused(at, token, noWrite);
      ghost var _ := Section("");
      Yield();
    }

    method RefreshFails(allNoWrite: bool, ghost rf: Refresh)
      requires Valid() && sys.pc == Refreshing(rf, RefreshDone) && allNoWrite == rf.allNoWrite
      modifies this, room, host
      ensures Valid() && sys.pc == Passing(rf.pass, SaveCheck) && old(trail) <= trail
    {
      if allNoWrite { room.LoseWrite(); }
      ghost var _ := Section("");
      Yield();
    }

    method ReadLadder(at: Time, ghost pass: Pass) returns (ladder: seq<Candidate>, lockValue: string)
      requires Valid() && sys.pc == Passing(pass, RefreshRead) && at == pass.now
      modifies this, room, host
      ensures Valid() && old(trail) <= trail
      ensures sys.pc == if ladder == [] then Passing(pass, SaveCheck)
                        else RefreshTry(Refresh(pass, lockValue, ladder, 0, true, Silent))
    {
      ladder := room.TokenLadder(at);
      lockValue := room.lock.lockValue;
      ghost var _ := Section("");
      Yield();
    }

    /** A candidate's refresh failed with no lock in the way. */
    method RefreshRefused(token: string, at: Time, error: WopiError, allNoWrite: bool, ghost rf: Refresh)
      returns (stillNoWrite: bool, ghost next: Refresh)
      requires Valid() && sys.pc == RefreshNext(rf, token, error) && at == rf.pass.now && allNoWrite == rf.allNoWrite
      modifies this, room, host
      ensures Valid() && old(trail) <= trail && sys.pc == RefreshTry(next)
      ensures next == RefreshAdvance(rf, error) && stillNoWrite == next.allNoWrite
    {
      stillNoWrite := allNoWrite && error.NoWriteAccess?;
      next := RefreshAdvance(rf, error);
      if error.TokenRejected? || error.NoWriteAccess? {
        MarkRefreshToken(at, token, error.NoWriteAccess?, next);
      }
    }

    /** One candidate of refreshLock's loop: `more` says that the loop goes on, with `rf'`. */
    method RefreshWith(token: string, lockValue: string, at: Time, allNoWrite: bool, ghost rf: Refresh)
      returns (more: bool, stillNoWrite: bool, ghost next: Refresh)
      requires Valid() && sys.pc == Refreshing(rf, RefreshCall(token))
      requires at == rf.pass.now && lockValue == rf.lockValue && allNoWrite == rf.allNoWrite
      modifies this, room, host
      ensures Valid() && old(trail) <= trail
      ensures sys.pc == if more then RefreshTry(next) else Passing(rf.pass, SaveCheck)
      ensures next == rf.(i := rf.i + 1, allNoWrite := stillNoWrite, answers := next.answers)
    {
      more, stillNoWrite := false, false;
      next := rf.(i := rf.i + 1, allNoWrite := false);
      var a := Ask(RefreshLock(token, lockValue));
      assert sys.pc == RefreshReply(rf, token, a);
      Yield();
      if a.Ok? {
        MarkRefreshed(at, rf.pass);
      } else if a.error.LockConflict? {
        if a.error.currentLock == "" {
          var err := EnsureLocked(token, at, ForRefresh(rf));
          more := err.Some?;
          next := RefreshAdvance(rf, LockConflict(""));
        } else if a.error.currentLock == lockValue {
          MarkRefreshed(at, rf.pass);
        } else {
          EnterConflict(a.error.currentLock, true, Passing(rf.pass, SaveCheck));
        }
      } else {
        more := true;
        stillNoWrite, next := RefreshRefused(token, at, a.error, allNoWrite, rf);
      }
    }

    method RefreshTheLock(at: Time, ghost pass: Pass)
      requires Valid() && sys.pc == Passing(pass, RefreshRead) && at == pass.now
      modifies this, room, host
      ensures Valid() && sys.pc == Passing(pass, SaveCheck) && old(trail) <= trail
    {
      var ladder, lockValue := ReadLadder(at, pass);
      if |ladder| == 0 { return; }
      ghost var rf := Refresh(pass, lockValue, ladder, 0, true, Silent);
      var allNoWrite := true;
      var k := 0;
      while k < |ladder|
        invariant 0 <= k <= |ladder|
        invariant rf == Refresh(pass, lockValue, ladder, k, allNoWrite, rf.answers)
        invariant Valid() && sys.pc == RefreshTry(rf) && old(trail) <= trail
      {
        var more;
        more, allNoWrite, rf := RefreshWith(ladder[k].token, lockValue, at, allNoWrite, rf);
        if !more { return; }
        k := k + 1;
      }
      RefreshFails(allNoWrite, rf);
    }

    // ------------------------------------------------------------ checkVersion

    method ReadVersion(at: Time, ghost pass: Pass) returns (token: string, expected: string, haveVersion: bool)
      requires Valid() && sys.pc == Passing(pass, CheckRead) && at == pass.now
      modifies this, room, host
      ensures Valid() && old(trail) <= trail
      ensures sys.pc ==
        if token == "" || !haveVersion then AfterCheck(pass) else Passing(pass, CheckCall(token, expected))
    {
      ghost var pick;
      token, pick := room.AnyLiveToken(at);
      expected, haveVersion := room.ver.expected, room.ver.have;
      ghost var i := Section(pick);
      assert i.token == Some(token);
      Yield();
    }

    method CheckVersion(at: Time, ghost pass: Pass)
      requires Valid() && sys.pc == Passing(pass, CheckRead) && at == pass.now
      modifies this, room, host
      ensures Valid() && sys.pc == AfterCheck(pass) && old(trail) <= trail
    {
      var token, expected, haveVersion := ReadVersion(at, pass);
      if token == "" || !haveVersion { return; }
      var a := Ask(CheckFileInfo(token));
      Yield();
      if a.Err? { return; }
      if a.version != expected {
        EnterConflict("", false, AfterCheck(pass));
      }
    }

    // ------------------------------------------------------- gcRoom, performClose

    /** deleteRoomLocked, as far as this room is concerned. */
    method GcDeletes(ghost pass: Pass)
      requires Valid() && sys.pc == Collecting(pass, GcDelete)
      modifies this, room, host
      ensures Valid() && sys.pc == FINISH && old(trail) <= trail
    {
      var live := room.RoomLive(now);
      if !live && !room.doc.dirty && !room.life.closing {
        indexed := false;
      } else {
        room.life := room.life.(idleSince := 0);
      }
      ghost var _ := Section("");
      Yield();
    }

    method GcReadLadder(ghost pass: Pass) returns (ladder: seq<Candidate>)
      requires Valid() && sys.pc == Collecting(pass, GcLadder)
      modifies this, room, host
      ensures Valid() && old(trail) <= trail
      ensures sys.pc == Collecting(pass, if ladder == [] then GcDelete else GcUnlock(ladder[0].token))
    {
      ladder := room.TokenLadder(now);
      ghost var _ := Section("");
      Yield();
    }

    method GcDropsLock(ghost pass: Pass)
      requires Valid() && sys.pc == Collecting(pass, GcDropLock)
      modifies this, room, host
      ensures Valid() && sys.pc == Collecting(pass, GcDelete) && old(trail) <= trail
    {
      room.DropLock();
      ghost var _ := Section("");
      Yield();
    }

    /** The unlock of a collection: a failure keeps the room for another pass. */
    method GcUnlocks(lockValue: string, ghost pass: Pass) returns (released: bool)
      requires Valid() && sys.pc == Collecting(pass, GcLadder) && lockValue == pass.lockValue
      modifies this, room, host
      ensures Valid() && sys.pc == (if released then Collecting(pass, GcDelete) else FINISH) && old(trail) <= trail
    {
      var ladder := GcReadLadder(pass);
      if |ladder| > 0 {
        var a := Ask(Unlock(ladder[0].token, lockValue));
        Yield();
        if a.Err? { return false; }
        GcDropsLock(pass);
      }
      released := true;
    }

    method GcRoom(haveLock: bool, lockValue: string, ghost pass: Pass)
      requires Valid() && sys.pc == Collecting(pass, if haveLock then GcLadder else GcDelete)
      requires lockValue == pass.lockValue
      modifies this, room, host
      ensures Valid() && sys.pc == FINISH && old(trail) <= trail
    {
      if haveLock {
        var released := GcUnlocks(lockValue, pass);
        if !released { return; }
      }
      GcDeletes(pass);
    }

    method CloseReads(at: Time, ghost pass: Pass) returns (closing: bool, dirty: bool, conflict: bool, due: bool)
      requires Valid() && sys.pc == Shutting(pass, CloseRead) && at == pass.now
      modifies this, room, host
      ensures Valid() && old(trail) <= trail
      ensures sys.pc == if !closing then FINISH
        else if dirty && !conflict then (if due then Snapshot(Closing, pass) else FINISH)
        else Shutting(pass, CloseRecheck)
    {
      closing := room.life.closing && at >= room.life.closeAt;
      dirty, conflict := room.doc.dirty, room.conf.conflict;
      due := room.CloseSaveDue(at);
      ghost var _ := Section("");
      Yield();
    }

    /** The close's final flush, exempt from the throttle but not from a pending retry. */
    method CloseSaves(at: Time, ghost pass: Pass) returns (flushed: bool)
      requires Valid() && sys.pc == Shutting(pass, CloseRead) && at == pass.now
      modifies this, room, host
      ensures Valid() && sys.pc == (if flushed then Shutting(pass, CloseRecheck) else FINISH) && old(trail) <= trail
    {
      var closing, dirty, conflict, due := CloseReads(at, pass);
      if !closing { return false; }
      if dirty && !conflict {
        if !due { return false; }
        PerformSave(at, Closing, pass);
      }
      flushed := true;
    }

    method CloseRechecks(at: Time, ghost pass: Pass)
      returns (stillClosing: bool, stillDirty: bool, haveLock: bool, lockValue: string)
      requires Valid() && sys.pc == Shutting(pass, CloseRecheck) && at == pass.now
      modifies this, room, host
      ensures Valid() && old(trail) <= trail
      ensures sys.pc == if !stillClosing || stillDirty then FINISH
        else Shutting(pass, if haveLock then CloseLadder(lockValue) else CloseDelete)
    {
      stillClosing := room.life.closing && at >= room.life.closeAt;
      stillDirty, haveLock, lockValue := room.doc.dirty, room.lock.haveLock, room.lock.lockValue;
      ghost var _ := Section("");
      Yield();
    }

    method CloseReadsLadder(at: Time, lockValue: string, ghost pass: Pass) returns (ladder: seq<Candidate>)
      requires Valid() && sys.pc == Shutting(pass, CloseLadder(lockValue)) && at == pass.now
      modifies this, room, host
      ensures Valid() && old(trail) <= trail
      ensures sys.pc == Shutting(pass, if ladder == [] then CloseDelete else CloseUnlock(ladder[0].token, lockValue))
    {
      ladder := room.TokenLadder(at);
      ghost var _ := Section("");
      Yield();
    }

    method CloseDropsLock(ghost pass: Pass)
      requires Valid() && sys.pc == Shutting(pass, CloseDropLock)
      modifies this, room, host
      ensures Valid() && sys.pc == Shutting(pass, CloseDelete) && old(trail) <= trail
    {
      room.DropLock();
      ghost var _ := Section("");
      Yield();
    }

    /** The best-effort unlock of a close: whatever comes of it, the room goes. */
    method CloseUnlocks(at: Time, lockValue: string, ghost pass: Pass)
      requires Valid() && sys.pc == Shutting(pass, CloseLadder(lockValue)) && at == pass.now
      modifies this, room, host
      ensures Valid() && sys.pc == Shutting(pass, CloseDelete) && old(trail) <= trail
    {
      var ladder := CloseReadsLadder(at, lockValue, pass);
      if |ladder| > 0 {
        var a := Ask(Unlock(ladder[0].token, lockValue));
        Yield();
        if a.Ok? { CloseDropsLock(pass); }
      }
    }

    method CloseDeletes(ghost pass: Pass)
      requires Valid() && sys.pc == Shutting(pass, CloseDelete)
      modifies this, room, host
      ensures Valid() && sys.pc == FINISH && old(trail) <= trail
    {
      indexed := false;
      ghost var _ := Section("");
      Yield();
    }

    method PerformClose(at: Time, ghost pass: Pass)
      requires Valid() && sys.pc == Shutting(pass, CloseRead) && at == pass.now
      modifies this, room, host
      ensures Valid() && sys.pc == FINISH && old(trail) <= trail
    {
      var flushed := CloseSaves(at, pass);
      if !flushed { return; }
      var stillClosing, stillDirty, haveLock, lockValue := CloseRechecks(at, pass);
      if !stillClosing { return; }
      if stillDirty { return; }
      if haveLock { CloseUnlocks(at, lockValue, pass); }
      CloseDeletes(pass);
    }

    // ------------------------------------------------------------- evaluateRoom

    method ReadClock() returns (at: Time)
      requires Valid() && sys.pc == Begin(false)
      modifies this, room, host
      ensures Valid() && sys.pc == Plan(at) && old(trail) <= trail
    {
      at := now;
      ghost var _ := Section("");
      Yield();
    }

    method PlanPass(at: Time) returns (plan: Pass)
      requires Valid() && sys.pc == Plan(at)
      modifies this, room, host
      ensures Valid() && sys.pc == Passing(plan, Warn) && plan.now == at && old(trail) <= trail
    {
      var logStuck;
      plan, logStuck := room.PlanPass(at);
      ghost var _ := Section("");
      Yield();
    }

    method WarnAboutTokens(at: Time, ghost plan: Pass)
      requires Valid() && sys.pc == Passing(plan, Warn) && at == plan.now
      modifies this, room, host
      ensures Valid() && sys.pc == AfterWarn(plan) && old(trail) <= trail
    {
      var _ := room.CheckTokenExpiry(at);
      ghost var _ := Section("");
      Yield();
    }

    method StillUnconflicted(ghost plan: Pass) returns (ok: bool)
      requires Valid() && sys.pc == Passing(plan, RefreshGuard)
      modifies this, room, host
      ensures Valid() && sys.pc == Passing(plan, if ok then RefreshRead else SaveCheck) && old(trail) <= trail
    {
      ok := !room.conf.conflict;
      ghost var _ := Section("");
      Yield();
    }

    method EagerLadder(at: Time, ghost plan: Pass) returns (ladder: seq<Candidate>)
      requires Valid() && sys.pc == Passing(plan, EagerRead) && at == plan.now
      modifies this, room, host
      ensures Valid() && old(trail) <= trail
      ensures sys.pc == if ladder == [] then Passing(plan, SaveCheck)
                        else Ensuring(ForEager(plan), ladder[0].token, EnsureAt.TakeForce)
    {
      ladder := room.TokenLadder(at);
      ghost var _ := Section("");
      Yield();
    }

    method LockEagerly(at: Time, ghost plan: Pass)
      requires Valid() && sys.pc == Passing(plan, EagerRead) && at == plan.now
      modifies this, room, host
      ensures Valid() && sys.pc == Passing(plan, SaveCheck) && old(trail) <= trail
    {
      var ladder := EagerLadder(at, plan);
      if |ladder| > 0 {
        var _ := EnsureLocked(ladder[0].token, at, ForEager(plan));
      }
    }

    method CheckSaveDue(at: Time, ghost plan: Pass) returns (due: bool)
      requires Valid() && sys.pc == Passing(plan, SaveCheck) && at == plan.now
      modifies this, room, host
      ensures Valid() && sys.pc == (if due then Snapshot(Scheduled, plan) else FINISH) && old(trail) <= trail
    {
      due := room.SaveDue(at);
      ghost var _ := Section("");
      Yield();
    }

    /** The lock's and the save's turn in a pass that neither closes nor collects the room. */
    method LockAndSave(at: Time, plan: Pass)
      requires Valid() && sys.pc == AfterCheck(plan) && at == plan.now && !plan.closeDue
      modifies this, room, host
      ensures Valid() && sys.pc == FINISH && old(trail) <= trail
    {
      if plan.needRefresh {
        var ok := StillUnconflicted(plan);
        if ok { RefreshTheLock(at, plan); }
      } else if plan.lockDue {
        LockEagerly(at, plan);
      }
      var due := CheckSaveDue(at, plan);
      if due { PerformSave(at, Scheduled, plan); }
    }

    /** evaluateRoom after the plan and the warnings: collect, or check, close, lock and save. */
    method Dispatch(at: Time, plan: Pass)
      requires Valid() && sys.pc == AfterWarn(plan) && at == plan.now
      modifies this, room, host
      ensures Valid() && sys.pc == FINISH && old(trail) <= trail
    {
      if plan.gcDue {
        GcRoom(plan.haveLock, plan.lockValue, plan);
        return;
      }
      if plan.versionCheckDue && !plan.closeDue { CheckVersion(at, plan); }
      if plan.closeDue { PerformClose(at, plan); } else { LockAndSave(at, plan); }
    }

    method EvaluateRoom()
      requires Valid() && sys.pc == Begin(false)
      modifies this, room, host
      ensures Valid() && sys.pc == Exit && old(trail) <= trail
    {
      var at := ReadClock();
      var plan := PlanPass(at);
      WarnAboutTokens(at, plan);
      Dispatch(at, plan);
      Notify(Exit);
    }

    // ------------------------------------------------- evaluateAll and flushAll

    method TryEnter(flush: bool) returns (entered: bool)
      requires Valid() && sys.pc == Idle
      modifies this, room, host
      ensures Valid() && sys.pc == (if entered then Begin(flush) else Idle) && old(trail) <= trail
    {
      entered := room.TryEnterInFlight();
      Commit(Enter(flush));
      Yield();
    }

    method ExitInFlight()
      requires Valid() && sys.pc == Exit
      modifies this, room, host
      ensures Valid() && sys.pc == Idle && old(trail) <= trail
    {
      room.ExitInFlight();
      ghost var _ := Section("");
      Yield();
    }

    /** evaluateAll, for this room: one background pass. */
    method Evaluate()
      requires Valid() && sys.pc == Idle
      modifies this, room, host
      ensures Valid() && sys.pc == Idle && old(trail) <= trail
    {
      var entered := TryEnter(false);
      if entered {
        EvaluateRoom();
        ExitInFlight();
      }
    }

    method FlushClock() returns (at: Time, ghost pass: Pass)
      requires Valid() && sys.pc == Begin(true)
      modifies this, room, host
      ensures Valid() && sys.pc == Snapshot(Flushing, pass) && at == pass.now && old(trail) <= trail
    {
      at := now;
      pass := FlushPass(sys);
      ghost var _ := Section("");
      Yield();
    }

    /**
     flushAll, for this room: one save attempt past the schedule, unless a pass is under way. The
     room counts as incomplete if it was still dirty when the attempt returned, `seen` steps in.
     */
    method Flush() returns (incomplete: bool, ghost seen: nat)
      requires Valid() && sys.pc == Idle
      modifies this, room, host
      ensures Valid() && sys.pc == Idle && old(trail) <= trail
      ensures |old(trail)| <= seen <= |trail|
      ensures incomplete ==> Run(w, start, trail[..seen]).pc == Exit
      ensures Run(w, start, trail[..seen]).pc == Exit ==> incomplete == Run(w, start, trail[..seen]).room.doc.dirty
    {
      incomplete, seen := false, |trail|;
      assert trail[..seen] == trail;
      if room.doc.dirty && !room.conf.conflict {
        var entered := TryEnter(true);
        if entered {
          var at, pass := FlushClock();
          PerformSave(at, Flushing, pass);
          incomplete := room.doc.dirty;
          seen := |trail|;
          ghost var sofar := trail;
          assert sofar[..seen] == sofar;
          ExitInFlight();
          assert trail[..seen] == sofar;
        } else {
          assert trail[..seen] == old(trail);
        }
      }
    }

    // ---------------------------------------------------------------- theorems

    /** The loop: any number of passes with everybody else moving in between and inside them. */
    method Loop(passes: nat)
      requires Valid() && sys.pc == Idle && start == Start(w, start.host, start.now)
      modifies this, room, host
      ensures Valid() && sys.pc == Idle && old(trail) <= trail
      ensures room.doc.scene.Some? && !room.doc.dirty ==>
        room.doc.scene == SaveSafety.LastEdited(sys.log) == SaveSafety.LastStored(sys.log)
      ensures room.doc.dirty <==> SaveSafety.Unsaved(sys.log)
      ensures SaveSafety.Frozen(sys.log) && room.conf.conflict == SaveSafety.InConflict(sys.log)
      ensures room.reported == SaveSafety.LastPushed(sys.log) && SaveSafety.NoRepeatedPush(sys.log)
      ensures room.lock.lockValue == w.own
      ensures forall v :: v != "" ==> LockSafety.Consented(sys.log, v)
    {
      for k := 0 to passes
        invariant Valid() && sys.pc == Idle && old(trail) <= trail
      {
        Evaluate();
        Yield();
      }
      SaveSafety.Reachable(w, start.host, start.now, trail);
      LockSafety.Reachable(w, start.host, start.now, trail);
      forall v | v != "" ensures LockSafety.Consented(sys.log, v) { assert LockSafety.ConsentInv(sys, v); }
    }
  }
}
