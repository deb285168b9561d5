/**
 No lock is taken without the user's consent, and no PutFile lands outside the room's own lock.

 A foreign lock goes away under this room's hand only by an UnlockAndRelock naming it, after a
 conflict over that very lock was open and the user resolved it. Each such decision pays for one
 takeover of that lock, and for none of another.
 */
module LockSafety {
  import opened Basics
  import opened WopiHost
  import opened RoomModel
  import opened SaveMachine
  import SaveSafety

  // ----------------------------------------------------- reading the history

  /** The foreign lock the open conflict is over: the last one named since the last resolve. */
  function OpenLock(h: History): string {
    match h
    case Nothing => ""
    case Then(past, e) =>
      if e.Resolved? then "" else if e.Raised? && e.foreign != "" then e.foreign else OpenLock(past)
  }

  /** How often the user resolved a conflict over the lock `v`. */
  function Grants(h: History, v: string): nat {
    match h
    case Nothing => 0
    case Then(past, e) => Grants(past, v) + if e.Resolved? && OpenLock(past) == v then 1 else 0
  }

  /** How often the room took the lock `v` over. */
  function Takeovers(h: History, v: string): nat {
    match h
    case Nothing => 0
    case Then(past, e) => Takeovers(past, v) + if e == Took(v) then 1 else 0
  }

  /** Every takeover of `v` had a decision over `v` of its own. */
  ghost predicate Consented(h: History, v: string) {
    match h
    case Nothing => true
    case Then(past, e) => Consented(past, v) && Takeovers(h, v) <= Grants(h, v)
  }

  // --------------------------------------------------- whose lock is at hand

  predicate OwnCaller(w: World, c: Caller) {
    match c
    case ForSave(sv) => sv.lockValue == w.own && sv.pass.lockValue == w.own
    case ForRefresh(rf) => rf.lockValue == w.own && rf.pass.lockValue == w.own
    case ForEager(pass) => pass.lockValue == w.own
  }

  /** Every lock value the worker carries along is the room's own one. */
  predicate OwnPc(w: World, pc: PC) {
    match pc
    case Passing(pass, _) => pass.lockValue == w.own
    case Collecting(pass, _) => pass.lockValue == w.own
    case Shutting(pass, at) =>
      && pass.lockValue == w.own
      && (at.CloseLadder? ==> at.lockValue == w.own)
      && (at.CloseUnlock? ==> at.lockValue == w.own)
    case Refreshing(rf, _) => OwnCaller(w, ForRefresh(rf))
    case Ensuring(c, _, at) =>
      && OwnCaller(w, c)
      && (at.Swap? || at.LockCall? || at.LockAgain? ==> at.lockValue == w.own)
      && (at.Swap? || at.RestoreForce? ==> at.force != "")
    case Snapshot(_, pass) => pass.lockValue == w.own
    case Saving(sv, _) => OwnCaller(w, ForSave(sv))
    case Raise(_, _, next) => OwnPc(w, next)
    case Notify(next) => OwnPc(w, next)
    case _ => true
  }

  ghost predicate OwnInv(w: World, s: Sys) {
    s.room.lock.lockValue == w.own && OwnPc(w, s.pc)
  }

  // ---------------------------------------------------------------- consent

  /** The takeover value ensureLocked has taken out of the room and not yet spent. */
  function InHand(pc: PC): string {
    match pc
    case Ensuring(_, _, Swap(_, force)) => force
    case Ensuring(_, _, RestoreForce(force, _)) => force
    case Raise(_, _, next) => InHand(next)
    case Notify(next) => InHand(next)
    case _ => ""
  }

  function One(b: bool): nat { if b then 1 else 0 }

  /** What is known of `v`: decisions not yet spent cover what is in the room and in hand. */
  ghost predicate ConsentInv(s: Sys, v: string) {
    && s.room.conf.foreignLock == OpenLock(s.log)
    && (s.room.conf.foreignLock != "" ==> s.room.conf.conflict)
    && (v != "" ==>
          && Consented(s.log, v)
          && Takeovers(s.log, v) + One(s.room.lock.forceUnlockValue == v) + One(InHand(s.pc) == v) <= Grants(s.log, v))
  }

  ghost predicate InvFor(w: World, s: Sys, v: string) {
    OwnInv(w, s) && ConsentInv(s, v)
  }

  ghost predicate Inv(w: World, s: Sys) {
    OwnInv(w, s) && forall v :: ConsentInv(s, v)
  }

  /** A position that names only the own lock and holds no takeover value. */
  predicate Plain(w: World, pc: PC) {
    OwnPc(w, pc) && InHand(pc) == ""
  }

  lemma PlainDenied(w: World, c: Caller, token: string, error: WopiError)
    requires OwnCaller(w, c)
    ensures Plain(w, Denied(c, token, error))
  {
  }

  lemma PlainTryNext(w: World, sv: Save, token: string, error: WopiError)
    requires OwnCaller(w, ForSave(sv))
    ensures Plain(w, TryNext(sv, token, error)) && Plain(w, Try(Advance(sv, error)))
  {
  }

  lemma PlainLock(w: World, c: Caller, token: string, retry: bool, a: Answer)
    requires OwnCaller(w, c)
    ensures Plain(w, LockReply(c, token, w.own, retry, a))
  {
    if a.Err? {
      PlainDenied(w, c, token, a.error);
      if a.error.LockConflict? { PlainDenied(w, c, token, LockConflict(a.error.currentLock)); }
    }
  }

  lemma PlainPut(w: World, sv: Save, token: string, a: Answer)
    requires OwnCaller(w, ForSave(sv))
    ensures Plain(w, PutReply(sv, token, a))
  {
    if a.Err? { PlainTryNext(w, sv, token, a.error); }
  }

  lemma PlainRefresh(w: World, rf: Refresh, token: string, a: Answer)
    requires OwnCaller(w, ForRefresh(rf))
    ensures Plain(w, RefreshReply(rf, token, a))
  {
  }

  lemma PlainAfterCheck(w: World, pass: Pass)
    requires pass.lockValue == w.own
    ensures Plain(w, AfterCheck(pass)) && Plain(w, AfterWarn(pass))
  {
  }

  lemma KeepsPass(w: World, s: Sys, i: Input, v: string, pass: Pass, at: PassAt)
    requires InvFor(w, s, v) && s.pc == Passing(pass, at)
    ensures InvFor(w, PassStep(s, i, pass, at), v)
  {
    PlainAfterCheck(w, pass);
  }

  lemma KeepsGc(w: World, s: Sys, i: Input, v: string, pass: Pass, at: GcAt)
    requires InvFor(w, s, v) && s.pc == Collecting(pass, at)
    ensures InvFor(w, GcStep(s, i, pass, at), v)
  {
  }

  lemma KeepsTail(w: World, s: Sys, i: Input, v: string)
    requires InvFor(w, s, v) && (s.pc.Begin? || s.pc.Plan? || s.pc.Notify? || s.pc.Exit?)
    ensures InvFor(w, Act(s, i), v)
  {
  }

  lemma KeepsRaise(w: World, s: Sys, v: string, foreign: string, dropLock: bool, next: PC)
    requires InvFor(w, s, v) && s.pc == Raise(foreign, dropLock, next)
    ensures InvFor(w, RaiseStep(s, foreign, dropLock, next), v)
  {
  }

  lemma KeepsClose(w: World, s: Sys, i: Input, v: string, pass: Pass, at: CloseAt)
    requires InvFor(w, s, v) && s.pc == Shutting(pass, at) && (at.CloseRead? || at.CloseRecheck?)
    ensures InvFor(w, CloseStep(s, i, pass, at), v)
  {
  }

  lemma KeepsUnlock(w: World, s: Sys, i: Input, v: string, pass: Pass, at: CloseAt)
    requires InvFor(w, s, v) && s.pc == Shutting(pass, at) && !at.CloseRead? && !at.CloseRecheck?
    ensures InvFor(w, CloseStep(s, i, pass, at), v)
  {
  }

  lemma KeepsRefresh(w: World, s: Sys, i: Input, v: string, rf: Refresh, at: RefreshAt)
    requires InvFor(w, s, v) && s.pc == Refreshing(rf, at)
    ensures InvFor(w, RefreshStep(s, i, rf, at), v)
  {
    if at.RefreshCall? { PlainRefresh(w, rf, at.token, i.answer); }
  }

  lemma KeepsEnsure(w: World, s: Sys, i: Input, v: string, c: Caller, token: string, at: EnsureAt)
    requires InvFor(w, s, v) && s.pc == Ensuring(c, token, at) && (at.TakeForce? || at.RestoreForce? || at.Mark?)
    ensures InvFor(w, EnsureStep(s, i, c, token, at), v)
  {
    if at.RestoreForce? { PlainDenied(w, c, token, at.error); }
  }

  lemma KeepsSwap(w: World, s: Sys, i: Input, v: string, c: Caller, token: string, at: EnsureAt)
    requires InvFor(w, s, v) && s.pc == Ensuring(c, token, at) && at.Swap?
    ensures InvFor(w, EnsureStep(s, i, c, token, at), v)
  {
    if i.answer.Err? { PlainDenied(w, c, token, i.answer.error); }
  }

  lemma KeepsLock(w: World, s: Sys, i: Input, v: string, c: Caller, token: string, at: EnsureAt)
    requires InvFor(w, s, v) && s.pc == Ensuring(c, token, at) && (at.LockCall? || at.LockAgain?)
    ensures InvFor(w, EnsureStep(s, i, c, token, at), v)
  {
    PlainLock(w, c, token, at.LockCall?, i.answer);
  }

  lemma KeepsSnapshot(w: World, s: Sys, i: Input, v: string, origin: Origin, pass: Pass)
    requires InvFor(w, s, v) && s.pc == Snapshot(origin, pass)
    ensures InvFor(w, SnapshotStep(s, i, origin, pass), v)
  {
  }

  lemma KeepsPut(w: World, s: Sys, i: Input, v: string, sv: Save, at: SaveAt)
    requires InvFor(w, s, v) && s.pc == Saving(sv, at) && (at.Put? || at.PutUnlocked?)
    ensures InvFor(w, SaveStep(s, i, sv, at), v)
  {
    if at.Put? { PlainPut(w, sv, at.token, i.answer); }
    else { PlainTryNext(w, sv, at.token, at.error); }
  }

  lemma KeepsSave(w: World, s: Sys, i: Input, v: string, sv: Save, at: SaveAt)
    requires InvFor(w, s, v) && s.pc == Saving(sv, at) && !at.Put? && !at.PutUnlocked?
    ensures InvFor(w, SaveStep(s, i, sv, at), v)
  {
    if at.DropLock? { PlainTryNext(w, sv, "", at.error); }
  }

  lemma {:induction false} ActKeepsFor(w: World, s: Sys, i: Input, v: string)
    requires InvFor(w, s, v)
    ensures InvFor(w, Act(s, i), v)
  {
    match s.pc {
      case Idle =>
      case Shutting(pass, at) =>
        if at.CloseRead? || at.CloseRecheck? { KeepsClose(w, s, i, v, pass, at); }
        else { KeepsUnlock(w, s, i, v, pass, at); }
      case Refreshing(rf, at) => KeepsRefresh(w, s, i, v, rf, at);
      case Ensuring(c, token, at) =>
        if at.Swap? { KeepsSwap(w, s, i, v, c, token, at); }
        else if at.LockCall? || at.LockAgain? { KeepsLock(w, s, i, v, c, token, at); }
        else { KeepsEnsure(w, s, i, v, c, token, at); }
      case Snapshot(origin, pass) => KeepsSnapshot(w, s, i, v, origin, pass);
      case Saving(sv, at) =>
        if at.Put? || at.PutUnlocked? { KeepsPut(w, s, i, v, sv, at); } else { KeepsSave(w, s, i, v, sv, at); }
      case Passing(pass, at) => KeepsPass(w, s, i, v, pass, at);
      case Collecting(pass, at) => KeepsGc(w, s, i, v, pass, at);
      case Raise(foreign, dropLock, next) => KeepsRaise(w, s, v, foreign, dropLock, next);
      case _ => KeepsTail(w, s, i, v);
    }
  }

  lemma {:induction false} StepKeepsFor(w: World, s: Sys, l: Label, v: string)
    requires InvFor(w, s, v)
    ensures InvFor(w, Step(w, s, l), v)
  {
    if l.Work? {
      match RequestOf(s.pc) {
        case None => ActKeepsFor(w, s, InputOf(s, l.choice.pick, Ok("")), v);
        case Some(q) =>
          var (h, a) := Call(w, s, l.choice, q);
          ActKeepsFor(w, s.(host := h), InputOf(s, l.choice.pick, a), v);
      }
    }
  }

  lemma {:induction false} KeepsStep(w: World, s: Sys, l: Label)
    requires Inv(w, s)
    ensures Inv(w, Step(w, s, l))
  {
    assert ConsentInv(s, "");
    StepKeepsFor(w, s, l, "");
    forall v ensures ConsentInv(Step(w, s, l), v) {
      assert ConsentInv(s, v);
      StepKeepsFor(w, s, l, v);
    }
  }

  lemma {:induction false} Reachable(w: World, h: HostFile, t: Time, ls: seq<Label>)
    ensures Inv(w, Run(w, Start(w, h, t), ls))
  {
    if ls == [] {
    } else {
      Reachable(w, h, t, ls[..|ls| - 1]);
      KeepsStep(w, Run(w, Start(w, h, t), ls[..|ls| - 1]), ls[|ls| - 1]);
    }
  }

  // --------------------------------------------------------------- theorems

  /** A live foreign lock moved: to the room's own value, on a decision over it that was still unspent. */
  ghost predicate TakenWithConsent(w: World, s: Sys, s': Sys) {
    var before, after := EffectiveLock(s.host, s.now), EffectiveLock(s'.host, s'.now);
    before !in {"", w.own} && after != before ==>
      && after == w.own && s'.log == Then(s.log, Took(before))
      && Takeovers(s.log, before) < Grants(s.log, before)
  }

  /** A lock that changed hands through a granted request. */
  lemma MovedWithConsent(w: World, s: Sys, s': Sys, q: Request, ok: bool)
    requires InvFor(w, s, EffectiveLock(s.host, s.now)) && InvFor(w, s', EffectiveLock(s.host, s.now))
    requires RequestOf(s.pc) == Some(q)
    requires var before, after := EffectiveLock(s.host, s.now), EffectiveLock(s'.host, s'.now);
      && (!ok ==> after == before)
      && (ok && q.Lock? ==> before in {"", q.lock})
      && (ok && q.UnlockAndRelock? ==> before == q.oldLock && after == q.lock && s'.log == Then(s.log, Took(q.oldLock)))
      && (ok && q.Unlock? ==> before == q.lock)
      && (ok && (q.RefreshLock? || q.CheckFileInfo? || q.PutFile?) ==> after == before)
    ensures TakenWithConsent(w, s, s')
  {
  }

  lemma StepTakesWithConsent(w: World, s: Sys, ch: Choice)
    requires InvFor(w, s, EffectiveLock(s.host, s.now))
    ensures TakenWithConsent(w, s, WorkerStep(w, s, ch))
  {
    StepKeepsFor(w, s, Work(ch), EffectiveLock(s.host, s.now));
    SaveSafety.HostOnlyByRequest(w, s, ch);
    if RequestOf(s.pc).Some? {
      var q := RequestOf(s.pc).value;
      SaveSafety.CallChanges(w, s, ch, q);
      MovedWithConsent(w, s, WorkerStep(w, s, ch), q, Call(w, s, ch, q).1.Ok?);
    }
  }

  /**
   The only worker step that moves a live foreign lock is an UnlockAndRelock that puts the room's
   own value in its place, and a decision of the user over that lock, of its own, paid for it: at
   no moment of a run was a lock taken over more often than the user resolved a conflict over it.
   */
  lemma {:induction false} LockOnlyTakenWithConsent(w: World, h: HostFile, t: Time, ls: seq<Label>,
                                                     ch: Choice, v: string)
    ensures var s, s' := Run(w, Start(w, h, t), ls), Run(w, Start(w, h, t), ls + [Work(ch)]);
      TakenWithConsent(w, s, s') && (v != "" ==> Consented(s'.log, v))
  {
    Reachable(w, h, t, ls);
    Reachable(w, h, t, ls + [Work(ch)]);
    RunExtends(w, Start(w, h, t), ls, Work(ch));
    var s := Run(w, Start(w, h, t), ls);
    assert ConsentInv(s, EffectiveLock(s.host, s.now));
    assert ConsentInv(Step(w, s, Work(ch)), v);
    StepTakesWithConsent(w, s, ch);
  }

  lemma {:induction false} Longer(h: History, e: Event)
    ensures Then(h, e) != h
  {
    match h {
      case Nothing =>
      case Then(past, last) => Longer(past, last);
    }
  }

  lemma StepPutsUnderOwnLock(w: World, s: Sys, ch: Choice)
    requires Inv(w, s) && SaveSafety.Inv(s)
    ensures var s' := WorkerStep(w, s, ch);
      var before := EffectiveLock(s.host, s.now);
      forall body, locked :: s'.log == Then(s.log, Stored(body, locked)) ==>
        if locked then before == w.own
        else before == "" && s.host.content == [] && SaveSafety.Starts(s.log) == 1
  {
    SaveSafety.HostOnlyByRequest(w, s, ch);
    if RequestOf(s.pc).Some? { SaveSafety.CallChanges(w, s, ch, RequestOf(s.pc).value); }
    forall body, locked | WorkerStep(w, s, ch).log == Then(s.log, Stored(body, locked))
      ensures if locked then EffectiveLock(s.host, s.now) == w.own
              else EffectiveLock(s.host, s.now) == "" && s.host.content == [] && SaveSafety.Starts(s.log) == 1
    {
      Longer(s.log, Stored(body, locked));
    }
  }

  /**
   A PutFile the host accepts lands under the room's own live lock, or, in this room's first save
   attempt only, on an unlocked empty file.
   */
  lemma {:induction false} PutLandsUnderOwnLock(w: World, h: HostFile, t: Time, ls: seq<Label>, ch: Choice)
    ensures var s, s' := Run(w, Start(w, h, t), ls), Run(w, Start(w, h, t), ls + [Work(ch)]);
      var before := EffectiveLock(s.host, s.now);
      forall body, locked :: s'.log == Then(s.log, Stored(body, locked)) ==>
        if locked then before == w.own
        else before == "" && s.host.content == [] && SaveSafety.Starts(s.log) == 1
  {
    Reachable(w, h, t, ls);
    SaveSafety.Reachable(w, h, t, ls);
    RunExtends(w, Start(w, h, t), ls, Work(ch));
    StepPutsUnderOwnLock(w, Run(w, Start(w, h, t), ls), ch);
  }
}
