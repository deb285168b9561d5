/**
 The lease past the close grace, for every run: no pass refreshes the lock, so unless a save's own
 LOCK is granted, the lock a room rests with past its grace is gone once its lifetime is over.
 */
module PastGrace {
  import opened Basics
  import opened WopiHost
  import opened RoomModel
  import opened SaveMachine

  /** Positions of a pass whose close was due when it was planned: none of them refreshes. */
  predicate Past(pc: PC) {
    match pc
    case Passing(pass, at) => pass.closeDue && at.Warn?
    case Refreshing(_, _) => false
    case Ensuring(c, _, _) => c.ForSave?
    case Raise(_, _, next) => !next.Plan? && Past(next)
    case Notify(next) => !next.Plan? && Past(next)
    case _ => true
  }

  ghost predicate Inv(w: World, s: Sys, until: Time) {
    && Past(s.pc)
    && (s.pc.Plan? ==> CloseDue(s.room.life, s.pc.now))
    && (s.host.lock == w.own ==> s.host.lockExp <= until)
  }

  lemma PastDenied(sv: Save, token: string, error: WopiError)
    ensures Past(Denied(ForSave(sv), token, error))
  {
  }

  lemma PastTryNext(sv: Save, token: string, error: WopiError)
    ensures Past(TryNext(sv, token, error)) && Past(Try(Advance(sv, error)))
  {
  }

  lemma PastEnsure(s: Sys, i: Input, sv: Save, token: string, at: EnsureAt)
    requires s.pc == Ensuring(ForSave(sv), token, at)
    ensures Past(EnsureStep(s, i, ForSave(sv), token, at).pc)
  {
    if i.answer.Err? {
      PastDenied(sv, token, i.answer.error);
      if i.answer.error.LockConflict? { PastDenied(sv, token, LockConflict(i.answer.error.currentLock)); }
    }
    if at.RestoreForce? { PastDenied(sv, token, at.error); }
  }

  lemma PastSave(s: Sys, i: Input, sv: Save, at: SaveAt)
    requires s.pc == Saving(sv, at)
    ensures Past(SaveStep(s, i, sv, at).pc)
  {
    match at {
      case Put(token) => if i.answer.Err? { PastTryNext(sv, token, i.answer.error); }
      case PutUnlocked(token, error) => PastTryNext(sv, token, error);
      case DropLock(error) => PastTryNext(sv, "", error);
      case _ =>
    }
  }

  lemma PastElsewhere(s: Sys, i: Input)
    requires Past(s.pc) && !s.pc.Ensuring? && !s.pc.Saving? && (s.pc.Plan? ==> CloseDue(s.room.life, s.pc.now))
    ensures Past(Act(s, i).pc)
  {
  }

  lemma {:induction false} PastAct(w: World, s: Sys, i: Input, until: Time)
    requires Inv(w, s, until) && CloseDue(s.room.life, s.now)
    ensures Inv(w, Act(s, i), until)
  {
    match s.pc {
      case Ensuring(c, token, at) => PastEnsure(s, i, c.sv, token, at);
      case Saving(sv, at) => PastSave(s, i, sv, at);
      case _ => PastElsewhere(s, i);
    }
  }

  /** A call that takes no lock does not prolong one. */
  lemma CallProlongsNothing(w: World, s: Sys, ch: Choice, q: Request, until: Time)
    requires w.own != "" && (s.host.lock == w.own ==> s.host.lockExp <= until) && !q.RefreshLock?
    requires q.Lock? || q.UnlockAndRelock? ==> Call(w, s, ch, q).1.Err?
    ensures var h := Call(w, s, ch, q).0; h.lock == w.own ==> h.lockExp <= until
  {
  }

  /** The step takes or prolongs no lock for the room: not the worker's LOCK, nor anybody else. */
  ghost predicate TakesNoLock(w: World, s: Sys, l: Label) {
    match l
    case Work(ch) =>
      RequestOf(s.pc).Some? && (RequestOf(s.pc).value.Lock? || RequestOf(s.pc).value.UnlockAndRelock?) ==>
        Call(w, s, ch, RequestOf(s.pc).value).1.Err?
    case Others(h) => h.lock == w.own ==> s.host.lock == w.own && h.lockExp <= s.host.lockExp
    case _ => true
  }

  /** The room stays past its grace throughout the run, and no step takes a lock. */
  ghost predicate Overdue(w: World, s0: Sys, ls: seq<Label>) {
    && CloseDue(Run(w, s0, ls).room.life, Run(w, s0, ls).now)
    && (ls != [] ==>
          var before := ls[..|ls| - 1];
          Overdue(w, s0, before) && TakesNoLock(w, Run(w, s0, before), ls[|ls| - 1]))
  }

  lemma StepStaysPast(w: World, s: Sys, l: Label, until: Time)
    requires w.own != "" && Inv(w, s, until) && CloseDue(s.room.life, s.now) && TakesNoLock(w, s, l)
    requires var s' := Step(w, s, l); CloseDue(s'.room.life, s'.now)
    ensures Inv(w, Step(w, s, l), until)
  {
    if l.Work? {
      match RequestOf(s.pc) {
        case None => PastAct(w, s, InputOf(s, l.choice.pick, Ok("")), until);
        case Some(q) =>
          var (h, a) := Call(w, s, l.choice, q);
          CallProlongsNothing(w, s, l.choice, q, until);
          PastAct(w, s.(host := h), InputOf(s, l.choice.pick, a), until);
      }
    }
  }

  lemma {:induction false} StaysPast(w: World, s0: Sys, ls: seq<Label>)
    requires w.own != "" && s0.pc == Idle && Overdue(w, s0, ls)
    ensures Inv(w, Run(w, s0, ls), s0.host.lockExp)
  {
    if ls == [] {
    } else {
      var before := ls[..|ls| - 1];
      StaysPast(w, s0, before);
      StepStaysPast(w, Run(w, s0, before), ls[|ls| - 1], s0.host.lockExp);
    }
  }

  /**
   From any room at rest past its grace, in any run in which it stays past it: the worker never
   sends REFRESH_LOCK, and unless a step takes the lock anew, it is gone when its lifetime is over.
   */
  lemma {:induction false} LeaseEndsPastGrace(w: World, s0: Sys, ls: seq<Label>)
    requires w.own != "" && s0.pc == Idle && Overdue(w, s0, ls)
    ensures var s := Run(w, s0, ls);
      && (RequestOf(s.pc).Some? ==> !RequestOf(s.pc).value.RefreshLock?)
      && (s.now > s0.host.lockExp ==> EffectiveLock(s.host, s.now) != w.own)
  {
    StaysPast(w, s0, ls);
  }
}
