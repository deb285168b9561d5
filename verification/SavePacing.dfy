/** How often a room bothers its host: backoff, the retry bound, and the spacing of saves. */
module SavePacing {
  import opened Basics
  import opened WopiHost
  import opened RoomModel
  import opened SaveMachine
  import FirstPass
  import SaveSafety

  // ------------------------------------------------------------ the backoff

  /** The wait after the n-th failure in a row. */
  function Wait(n: nat): nat {
    if n == 0 then 0 else NextBackoff(Wait(n - 1))
  }

  function Pow2(n: nat): nat {
    if n == 0 then 1 else 2 * Pow2(n - 1)
  }

  /** 1 s, doubling, capped at 5 minutes. */
  lemma {:induction false} WaitClosedForm(n: nat)
    requires n > 0
    ensures Wait(n) == if Pow2(n - 1) <= 300 then Pow2(n - 1) * SECOND else 300 * SECOND
  {
    if n == 1 {
    } else {
      WaitClosedForm(n - 1);
    }
  }

  // ----------------------------------------------------- reading the history

  /** A recorded save or a forced overwrite ends a failing streak. */
  predicate EndsStreak(e: Event) {
    e.Saved? || (e.Resolved? && e.overwrite)
  }

  /** Whether the last recorded save attempt failed. */
  predicate Failing(h: History) {
    match h
    case Nothing => false
    case Then(past, e) => !EndsStreak(e) && (e.Failed? || Failing(past))
  }

  /** The wait the current streak has grown to. */
  function BackoffIn(h: History): nat {
    match h
    case Nothing => 0
    case Then(past, e) =>
      if EndsStreak(e) then 0 else if e.Failed? then NextBackoff(BackoffIn(past)) else BackoffIn(past)
  }

  /** The earliest next retry the streak allows. */
  function RetryAt(h: History): Time {
    match h
    case Nothing => 0
    case Then(past, e) =>
      if EndsStreak(e) then 0 else if e.Failed? then e.at + BackoffIn(h) else RetryAt(past)
  }

  /** When the attempts of the current failing streak began. */
  function Failures(h: History): seq<Time> {
    match h
    case Nothing => []
    case Then(past, e) =>
      if EndsStreak(e) then [] else if e.Failed? then Failures(past) + [e.at] else Failures(past)
  }

  /** The background loop, not Shutdown's flush, made every attempt of the current streak. */
  predicate LoopDriven(h: History) {
    match h
    case Nothing => true
    case Then(past, e) => EndsStreak(e) || (LoopDriven(past) && (e.Failed? ==> !e.origin.Flushing?))
  }

  /** The last recorded attempt the throttle counts from. */
  function LastAttempt(h: History): Time {
    match h
    case Nothing => 0
    case Then(past, e) =>
      if e.Saved? then e.at
      else if e.Failed? then e.at
      else if e.Resolved? && e.overwrite then 0
      else LastAttempt(past)
  }

  /** When the last scene posted was stamped. */
  function LastStamp(h: History): Time {
    match h
    case Nothing => 0
    case Then(past, e) => if e.Edited? then e.at else LastStamp(past)
  }

  /** How long the last post waited for the mutex after it read the clock. */
  function LastWait(h: History): nat {
    match h
    case Nothing => 0
    case Then(past, e) => if e.Edited? then (if e.at < e.landed then e.landed - e.at else 0) else LastWait(past)
  }

  /** The longest a post waited for the mutex after it read the clock. */
  function LongestWait(h: History): nat {
    match h
    case Nothing => 0
    case Then(past, e) =>
      if e.Edited? && e.at + LongestWait(past) < e.landed then e.landed - e.at else LongestWait(past)
  }

  lemma {:induction false} LastWaitBound(h: History)
    ensures LastWait(h) <= LongestWait(h)
  {
    match h {
      case Nothing =>
      case Then(past, e) => LastWaitBound(past);
    }
  }

  /**
   Retries keep their backoff, and scheduled saves outside a streak keep half a minute's distance
   but for what a post waited.
   */
  ghost predicate Paced(h: History) {
    match h
    case Nothing => true
    case Then(past, e) =>
      && Paced(past)
      && (e.Started? && !e.origin.Flushing? ==> e.at >= RetryAt(past))
      && (e.Failed? && !e.origin.Flushing? ==> e.at >= RetryAt(past))
      && (e.Started? && e.origin.Scheduled? && !Failing(past) && LastAttempt(past) != 0 ==>
            e.at + LongestWait(past) >= LastAttempt(past) + IDLE_FLUSH_INTERVAL)
  }

  // -------------------------------------------------------------- invariant

  ghost predicate DataInv(doc: Scene, saves: Saves, now: Time, log: History) {
    && Paced(log)
    && saves.backoff == BackoffIn(log)
    && saves.nextRetryAt == RetryAt(log)
    && (saves.nextRetryAt != 0 <==> Failing(log))
    && saves.lastAttemptAt == LastAttempt(log)
    && saves.lastAttemptAt <= now
    && doc.lastPutSceneAt == LastStamp(log)
    && (doc.dirty && saves.nextRetryAt == 0 ==> LastStamp(log) + LastWait(log) >= saves.lastAttemptAt)
  }

  /** The pass the worker is in began no later than `now`, and no conflict returns into a snapshot. */
  predicate Begun(pc: PC, now: Time) {
    match pc
    case Plan(start) => start <= now
    case Passing(pass, _) => pass.now <= now
    case Collecting(pass, _) => pass.now <= now
    case Shutting(pass, _) => pass.now <= now
    case Refreshing(rf, _) => rf.pass.now <= now
    case Ensuring(c, _, _) => CallerNow(c) <= now
    case Snapshot(_, pass) => pass.now <= now
    case Saving(sv, _) => sv.pass.now <= now
    case Raise(_, _, next) => !next.Snapshot? && Begun(next, now)
    case Notify(next) => !next.Snapshot? && Begun(next, now)
    case _ => true
  }

  lemma {:induction false} BegunLater(pc: PC, now: Time, later: Time)
    requires Begun(pc, now) && now <= later
    ensures Begun(pc, later)
  {
    match pc {
      case Raise(_, _, next) => BegunLater(next, now, later);
      case Notify(next) => BegunLater(next, now, later);
      case _ =>
    }
  }

  /** `pc` is no later than the save `from` was, and if it is still a save, it is that one. */
  predicate Carries(pc: PC, now: Time, from: Option<Save>) {
    && Begun(pc, now) && !pc.Snapshot?
    && (SaveSafety.InSave(pc).Some? ==>
          && from.Some?
          && SaveSafety.InSave(pc).value.origin == from.value.origin
          && SaveSafety.InSave(pc).value.pass == from.value.pass
          && SaveSafety.InSave(pc).value.seqNo == from.value.seqNo)
  }

  function SaveOf(c: Caller): Option<Save> {
    if c.ForSave? then Some(c.sv) else None
  }

  lemma CarriesDenied(c: Caller, token: string, error: WopiError, now: Time)
    requires CallerNow(c) <= now
    ensures Carries(Denied(c, token, error), now, SaveOf(c))
  {
  }

  lemma CarriesTryNext(sv: Save, token: string, error: WopiError, now: Time)
    requires sv.pass.now <= now
    ensures Carries(TryNext(sv, token, error), now, Some(sv)) && Carries(Try(Advance(sv, error)), now, Some(sv))
  {
  }

  lemma CarriesLock(c: Caller, token: string, lockValue: string, retry: bool, a: Answer, now: Time)
    requires CallerNow(c) <= now
    ensures Carries(LockReply(c, token, lockValue, retry, a), now, SaveOf(c))
  {
    if a.Err? {
      CarriesDenied(c, token, a.error, now);
      if a.error.LockConflict? { CarriesDenied(c, token, LockConflict(a.error.currentLock), now); }
    }
  }

  lemma CarriesAfterCheck(pass: Pass, now: Time)
    requires pass.now <= now
    ensures Carries(AfterCheck(pass), now, None) && Carries(AfterWarn(pass), now, None)
  {
  }

  /** A save's instant respects the pending retry, and edits during it landed no earlier than it. */
  ghost predicate SaveInv(doc: Scene, nextRetryAt: Time, log: History, sv: Save) {
    && (!sv.origin.Flushing? ==> sv.pass.now >= nextRetryAt)
    && (sv.seqNo < doc.seqNo ==> LastStamp(log) + LastWait(log) >= sv.pass.now)
  }

  ghost predicate SnapshotInv(doc: Scene, conflict: bool, saves: Saves, log: History, origin: Origin, pass: Pass) {
    !origin.Flushing? ==>
      && doc.dirty && !conflict
      && pass.now >= saves.nextRetryAt
      && (origin.Scheduled? && saves.nextRetryAt == 0 && saves.lastAttemptAt != 0 ==>
            pass.now + LongestWait(log) >= saves.lastAttemptAt + IDLE_FLUSH_INTERVAL)
  }

  ghost predicate PcInv(s: Sys) {
    && Begun(s.pc, s.now)
    && (s.pc.Snapshot? ==>
          SnapshotInv(s.room.doc, s.room.conf.conflict, s.room.saves, s.log, s.pc.origin, s.pc.pass))
    && (SaveSafety.InSave(s.pc).Some? ==>
          SaveInv(s.room.doc, s.room.saves.nextRetryAt, s.log, SaveSafety.InSave(s.pc).value))
  }

  ghost predicate Inv(s: Sys) {
    DataInv(s.room.doc, s.room.saves, s.now, s.log) && PcInv(s)
  }

  lemma KeepsPass(s: Sys, i: Input, pass: Pass, at: PassAt)
    requires Inv(s) && s.pc == Passing(pass, at)
    ensures Inv(PassStep(s, i, pass, at))
  {
    CarriesAfterCheck(pass, s.now);
    LastWaitBound(s.log);
  }

  lemma KeepsGc(s: Sys, i: Input, pass: Pass, at: GcAt)
    requires Inv(s) && s.pc == Collecting(pass, at)
    ensures Inv(GcStep(s, i, pass, at))
  {
  }

  lemma KeepsClose(s: Sys, i: Input, pass: Pass, at: CloseAt)
    requires Inv(s) && s.pc == Shutting(pass, at) && (at.CloseRead? || at.CloseRecheck?)
    ensures Inv(CloseStep(s, i, pass, at))
  {
  }

  lemma KeepsUnlock(s: Sys, i: Input, pass: Pass, at: CloseAt)
    requires Inv(s) && s.pc == Shutting(pass, at) && !at.CloseRead? && !at.CloseRecheck?
    ensures Inv(CloseStep(s, i, pass, at))
  {
  }

  lemma KeepsRefresh(s: Sys, i: Input, rf: Refresh, at: RefreshAt)
    requires Inv(s) && s.pc == Refreshing(rf, at)
    ensures Inv(RefreshStep(s, i, rf, at))
  {
  }

  lemma {:induction false} KeepsEnsure(s: Sys, i: Input, c: Caller, token: string, at: EnsureAt)
    requires Inv(s) && s.pc == Ensuring(c, token, at)
    ensures Inv(EnsureStep(s, i, c, token, at))
  {
    match at {
      case Swap(lockValue, force) =>
        if i.answer.Err? { CarriesDenied(c, token, i.answer.error, s.now); }
      case RestoreForce(_, error) => CarriesDenied(c, token, error, s.now);
      case LockCall(lockValue) => CarriesLock(c, token, lockValue, true, i.answer, s.now);
      case LockAgain(lockValue) => CarriesLock(c, token, lockValue, false, i.answer, s.now);
      case _ =>
    }
  }

  lemma KeepsSnapshot(s: Sys, i: Input, origin: Origin, pass: Pass)
    requires Inv(s) && s.pc == Snapshot(origin, pass)
    ensures Inv(SnapshotStep(s, i, origin, pass))
  {
  }

  lemma KeepsPut(s: Sys, i: Input, sv: Save, at: SaveAt)
    requires Inv(s) && s.pc == Saving(sv, at) && at.Put?
    ensures Inv(SaveStep(s, i, sv, at))
  {
    if i.answer.Err? { CarriesTryNext(sv, at.token, i.answer.error, s.now); }
  }

  lemma {:induction false} KeepsFallback(s: Sys, i: Input, sv: Save, at: SaveAt)
    requires Inv(s) && s.pc == Saving(sv, at) && at.PutUnlocked?
    ensures Inv(SaveStep(s, i, sv, at))
  {
    CarriesTryNext(sv, "", at.error, s.now);
  }

  lemma {:induction false} KeepsNext(s: Sys, i: Input, sv: Save, at: SaveAt)
    requires Inv(s) && s.pc == Saving(sv, at) && at.DropLock?
    ensures Inv(SaveStep(s, i, sv, at))
  {
    CarriesTryNext(sv, "", at.error, s.now);
  }

  lemma KeepsMarkToken(s: Sys, i: Input, sv: Save, at: SaveAt)
    requires Inv(s) && s.pc == Saving(sv, at) && at.SaveMarkToken?
    ensures Inv(SaveStep(s, i, sv, at))
  {
  }

  lemma KeepsRecord(s: Sys, i: Input, sv: Save, at: SaveAt)
    requires Inv(s) && SaveSafety.Inv(s) && s.pc == Saving(sv, at) && at.Record?
    ensures Inv(SaveStep(s, i, sv, at))
  {
  }

  lemma KeepsFail(s: Sys, i: Input, sv: Save, at: SaveAt)
    requires Inv(s) && s.pc == Saving(sv, at) && at.Fail?
    ensures Inv(SaveStep(s, i, sv, at))
  {
  }

  lemma KeepsTail(s: Sys, i: Input)
    requires Inv(s) && SaveSafety.Inv(s)
    requires s.pc.Begin? || s.pc.Plan? || s.pc.Raise? || s.pc.Notify? || s.pc.Exit?
    ensures Inv(Act(s, i))
  {
  }

  lemma KeepsPost(w: World, s: Sys, l: Label)
    requires Inv(s) && SaveSafety.Inv(s) && (l.DoPutScene? || l.DoResolve?)
    ensures Inv(HandlerStep(w, s, l))
  {
  }

  lemma KeepsHandler(w: World, s: Sys, l: Label)
    requires Inv(s) && SaveSafety.Inv(s) && !l.Work? && !l.DoPutScene? && !l.DoResolve?
    ensures Inv(Step(w, s, l))
  {
    if l.Tick? && l.now >= s.now { BegunLater(s.pc, s.now, l.now); }
  }

  lemma {:induction false} KeepsAct(s: Sys, i: Input)
    requires Inv(s) && SaveSafety.Inv(s)
    ensures Inv(Act(s, i))
  {
    match s.pc {
      case Idle =>
      case Passing(pass, at) => KeepsPass(s, i, pass, at);
      case Collecting(pass, at) => KeepsGc(s, i, pass, at);
      case Shutting(pass, at) =>
        if at.CloseRead? || at.CloseRecheck? { KeepsClose(s, i, pass, at); } else { KeepsUnlock(s, i, pass, at); }
      case Refreshing(rf, at) => KeepsRefresh(s, i, rf, at);
      case Ensuring(c, token, at) => KeepsEnsure(s, i, c, token, at);
      case Snapshot(origin, pass) => KeepsSnapshot(s, i, origin, pass);
      case Saving(sv, at) =>
        if at.Record? { KeepsRecord(s, i, sv, at); }
        else if at.Fail? { KeepsFail(s, i, sv, at); }
        else if at.Put? { KeepsPut(s, i, sv, at); }
        else if at.SaveMarkToken? { KeepsMarkToken(s, i, sv, at); }
        else if at.PutUnlocked? { KeepsFallback(s, i, sv, at); }
        else { KeepsNext(s, i, sv, at); }
      case _ => KeepsTail(s, i);
    }
  }

  lemma {:induction false} KeepsStep(w: World, s: Sys, l: Label)
    requires Inv(s) && SaveSafety.Inv(s)
    ensures Inv(Step(w, s, l))
  {
    if l.DoPutScene? || l.DoResolve? { KeepsPost(w, s, l); }
    else if !l.Work? { KeepsHandler(w, s, l); }
    else {
      match RequestOf(s.pc) {
        case None => KeepsAct(s, InputOf(s, l.choice.pick, Ok("")));
        case Some(q) =>
          var (h, a) := Call(w, s, l.choice, q);
          KeepsAct(s.(host := h), InputOf(s, l.choice.pick, a));
      }
    }
  }

  lemma {:induction false} Reachable(w: World, h: HostFile, t: Time, ls: seq<Label>)
    ensures Inv(Run(w, Start(w, h, t), ls))
  {
    if ls == [] {
    } else {
      var before := ls[..|ls| - 1];
      Reachable(w, h, t, before);
      SaveSafety.Reachable(w, h, t, before);
      KeepsStep(w, Run(w, Start(w, h, t), before), ls[|ls| - 1]);
    }
  }

  // --------------------------------------------------------------- theorems

  ghost predicate Spaced(times: seq<Time>) {
    forall k :: 0 <= k < |times| - 1 ==> times[k + 1] >= times[k] + Wait(k + 1)
  }

  lemma {:induction false} StreakSpaced(h: History)
    ensures var times := Failures(h);
      && BackoffIn(h) == Wait(|times|)
      && (Failing(h) <==> times != [])
      && RetryAt(h) == (if times == [] then 0 else times[|times| - 1] + Wait(|times|))
      && (Paced(h) && LoopDriven(h) ==> Spaced(times))
  {
    match h {
      case Nothing =>
      case Then(past, e) => if !EndsStreak(e) { StreakSpaced(past); }
    }
  }

  /** The k+1 first attempts of a spaced streak take at least the sum of their waits. */
  lemma {:induction false} StreakTakes(times: seq<Time>, k: nat)
    requires Spaced(times) && k < |times|
    ensures times[k] >= times[0] + (if k >= 9 then 300 * SECOND * (k - 9) else 0)
    ensures k >= 9 ==> Wait(k + 1) == MAX_BACKOFF
  {
    if k == 0 {
    } else {
      StreakTakes(times, k - 1);
      WaitClosedForm(k + 1);
      assert times[k - 1 + 1] >= times[k - 1] + Wait(k - 1 + 1);
      if k == 9 { assert Pow2(9) == 512; }
    }
  }

  lemma AttemptsWithin(T: nat, k: nat)
    requires k >= 9 ==> T >= 300 * SECOND * (k - 9)
    ensures k + 1 <= 10 + T / (300 * SECOND)
  {
  }

  /**
   A failing streak the background loop drives never bothers the host with more than 10 + T/300 s
   attempts within any T of its first one, and its waits follow the doubling schedule.
   */
  lemma {:induction false} RetryBound(w: World, h: HostFile, t: Time, ls: seq<Label>, T: nat, k: nat)
    ensures var s := Run(w, Start(w, h, t), ls); var times := Failures(s.log);
      && s.room.saves.backoff == Wait(|times|)
      && (LoopDriven(s.log) ==>
            && Spaced(times)
            && (k < |times| && times[k] <= times[0] + T ==> k + 1 <= 10 + T / (300 * SECOND)))
  {
    Reachable(w, h, t, ls);
    var log := Run(w, Start(w, h, t), ls).log;
    StreakSpaced(log);
    if LoopDriven(log) {
      var times := Failures(log);
      if k < |times| && times[k] <= times[0] + T {
        StreakTakes(times, k);
        AttemptsWithin(T, k);
      }
    }
  }

  /** The room leaves the host alone for half a minute after its last recorded attempt. */
  ghost predicate KeepsDistance(r: Room) {
    forall now: Time :: SaveDue(r, now) ==> now >= r.saves.lastAttemptAt + 30 * SECOND
  }

  /**
   Outside a failing streak and a forced overwrite a dirty, unconflicted room is due by 60 s after
   the last recorded attempt, and never before 30 s after it, exactly if the last post was stamped
   no earlier than that attempt. Its first save, and one that a user forced, is due at once. It is
   early by no more than that post waited for the mutex, and a scheduled save in the room's past by
   no more than some post before it did.
   */
  lemma {:induction false} SaveSpacing(w: World, h: HostFile, t: Time, ls: seq<Label>, now: Time)
    ensures var s := Run(w, Start(w, h, t), ls); var last := s.room.saves.lastAttemptAt;
      && Paced(s.log) && last == LastAttempt(s.log)
      && (!Failing(s.log) && last != 0 && s.room.doc.dirty && !s.room.conf.conflict ==>
            && (KeepsDistance(s.room) <==> LastStamp(s.log) >= last)
            && (SaveDue(s.room, now) ==> now + LastWait(s.log) >= last + 30 * SECOND))
      && (!Failing(s.log) && s.room.doc.dirty && !s.room.conf.conflict && (last == 0 || now >= last + 60 * SECOND) ==>
            SaveDue(s.room, now))
      && (SaveDue(s.room, now) ==>
            s.room.doc.dirty && !s.room.conf.conflict && (Failing(s.log) ==> now >= RetryAt(s.log)))
  {
    Reachable(w, h, t, ls);
    var s := Run(w, Start(w, h, t), ls);
    if !Failing(s.log) && s.room.saves.lastAttemptAt != 0 && s.room.doc.dirty && !s.room.conf.conflict {
      DistanceIff(s.room);
    }
  }

  /** A close flushes an unsaved, unconflicted room at once, unless a retry is pending. */
  lemma {:induction false} CloseFlushes(w: World, h: HostFile, t: Time, ls: seq<Label>, ch: Choice)
    requires var s := Run(w, Start(w, h, t), ls);
      s.pc.Shutting? && s.pc.closeAt.CloseRead? && CloseDue(s.room.life, s.pc.pass.now)
      && s.room.doc.dirty && !s.room.conf.conflict
    ensures var s := Run(w, Start(w, h, t), ls); var s2 := WorkerStep(w, WorkerStep(w, s, ch), ch);
      if Failing(s.log) && s.pc.pass.now < RetryAt(s.log) then WorkerStep(w, s, ch).pc == FINISH
      else s2.log == Then(s.log, Started(Closing, s.pc.pass.now))
  {
    Reachable(w, h, t, ls);
  }

  lemma DistanceIff(r: Room)
    requires r.doc.dirty && !r.conf.conflict && r.saves.nextRetryAt == 0 && r.saves.lastAttemptAt != 0
    ensures KeepsDistance(r) <==> r.doc.lastPutSceneAt >= r.saves.lastAttemptAt
  {
    if r.doc.lastPutSceneAt < r.saves.lastAttemptAt {
      assert SaveDue(r, r.doc.lastPutSceneAt + IDLE_FLUSH_INTERVAL);
    }
  }

  lemma InvOfReached(w: World, h: HostFile, t: Time, s: Sys)
    requires Reached(w, h, t, s)
    ensures Inv(s)
  {
    var ls :| Run(w, Start(w, h, t), ls) == s;
    Reachable(w, h, t, ls);
  }

  /** Two posts read the clock at `t`; the first lands at once, and a second later the worker enters. */
  lemma TwoPostsRead(w: World, h: HostFile, t: Time, user: string, info: TokenInfo, first: Bytes) returns (s: Sys)
    requires w.own != "" && EffectiveLock(h, t + SECOND) in {"", w.own} && FirstPass.Good(h, t + SECOND, info)
    ensures Reached(w, h, t, s) && FirstPass.Opened(w, s)
    ensures s.now == t + SECOND && s.stamps == {t} && s.room.doc.dirty
  {
    FirstPass.ObservedReached(w, h, t, user, info);
    var s0 := FirstPass.Observed(w, h, t, user, info);
    ReachedNext(w, h, t, s0, ReadClock);
    var s1 := Step(w, s0, ReadClock);
    ReachedNext(w, h, t, s1, DoPutScene(first, user, t));
    var s2 := Step(w, s1, DoPutScene(first, user, t));
    ReachedNext(w, h, t, s2, Tick(t + SECOND));
    var s3 := Step(w, s2, Tick(t + SECOND));
    ReachedNext(w, h, t, s3, Enter(false));
    s := Step(w, s3, Enter(false));
    FirstPass.OneTokenLadder(user, info, s.room.doc.lastWriter, s.now);
  }

  /**
   The condition on the stamp is not idle: a post that read the clock a second before a pass began,
   and got the mutex after that pass recorded its save, makes the room due a second early.
   */
  lemma LatePostIsDueEarly(w: World, h: HostFile, t: Time, user: string, info: TokenInfo, first: Bytes, second: Bytes)
    requires w.own != "" && EffectiveLock(h, t + SECOND) in {"", w.own} && FirstPass.Good(h, t + SECOND, info)
    ensures exists s ::
      && Reached(w, h, t, s) && !Failing(s.log) && s.room.doc.scene == Some(second) && LastStamp(s.log) == t
      && s.room.saves.lastAttemptAt == t + SECOND && SaveDue(s.room, t + IDLE_FLUSH_INTERVAL)
  {
    var s1 := TwoPostsRead(w, h, t, user, info, first);
    var s2 := FirstPass.StoresFirst(w, s1);
    FirstPass.ReachedAlone(w, h, t, s1, s2);
    var late := DoPutScene(second, user, t);
    ReachedNext(w, h, t, s2, late);
    InvOfReached(w, h, t, Step(w, s2, late));
  }
}
