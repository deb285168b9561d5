/**
 What the worker makes of the host's answers, in any run: a foreign lock opens a conflict, the own
 one counts as held, an empty 409 is retried once, a refused token is set aside, a fault costs
 the candidate its turn and nothing else, and a first save may go out unlocked.
 */
module HostAnswers {
  import opened Basics
  import opened WopiHost
  import opened RoomModel
  import opened SaveMachine
  import LockSafety
  import RoomLaws
  import SaveSafety

  /** The worker's next step calls the host and is answered `a`. */
  ghost predicate Answered(w: World, s: Sys, ch: Choice, a: Answer) {
    RequestOf(s.pc).Some? && Call(w, s, ch, RequestOf(s.pc).value).1 == a
  }

  predicate AboutTheLock(q: Request) {
    q.Lock? || q.RefreshLock? || q.UnlockAndRelock? || (q.PutFile? && q.lock != "")
  }

  // -------------------------------------------------------------------- conflicts

  lemma RaisesForeign(w: World, s: Sys, ch: Choice, v: string)
    requires LockSafety.OwnInv(w, s) && Answered(w, s, ch, Err(LockConflict(v))) && v !in {"", w.own}
    requires AboutTheLock(RequestOf(s.pc).value)
    ensures var s1 := WorkerStep(w, s, ch);
      && s1.pc.Raise? && s1.pc.foreign == v && s1.pc.dropLock
      && s1.log == s.log && s1.room == s.room
  {
  }

  /**
   A 409 that names a foreign lock opens a conflict over it, the room stops believing in its own lock,
   and clients are told, all before the next call.
   */
  lemma {:induction false} ForeignLockOpensConflict(w: World, h: HostFile, t: Time, ls: seq<Label>,
                                                     ch: Choice, v: string)
    requires var s := Run(w, Start(w, h, t), ls);
      Answered(w, s, ch, Err(LockConflict(v))) && v !in {"", w.own} && AboutTheLock(RequestOf(s.pc).value)
    ensures var s := Run(w, Start(w, h, t), ls); var s2 := Two(w, s, ch); var s3 := WorkerStep(w, s2, ch);
      && s2.log == Then(s.log, Raised(v)) && !s2.room.lock.haveLock
      && SaveSafety.LastPushed(s3.log).conflict
      && RequestOf(WorkerStep(w, s, ch).pc).None? && RequestOf(s2.pc).None?
  {
    LockSafety.Reachable(w, h, t, ls);
    SaveSafety.Reachable(w, h, t, ls);
    var s := Run(w, Start(w, h, t), ls);
    RaisesForeign(w, s, ch, v);
    ConflictIsTold(w, WorkerStep(w, s, ch), ch);
  }

  lemma ConflictIsTold(w: World, s: Sys, ch: Choice)
    requires s.pc.Raise?
    ensures var s1 := WorkerStep(w, s, ch); var s2 := WorkerStep(w, s1, ch);
      && s1.log == Then(s.log, Raised(s.pc.foreign)) && (s.pc.dropLock ==> !s1.room.lock.haveLock)
      && RequestOf(s1.pc).None?
      && (s.room.reported == SaveSafety.LastPushed(s.log) ==> SaveSafety.LastPushed(s2.log).conflict)
  {
  }

  /** A granted LOCK, REFRESH_LOCK or UNLOCK_AND_RELOCK, or a 409 that names the own value, means the lock is held. */
  lemma {:induction false} OwnLockCountsAsHeld(w: World, h: HostFile, t: Time, ls: seq<Label>, ch: Choice, a: Answer)
    requires var s := Run(w, Start(w, h, t), ls);
      && Answered(w, s, ch, a) && AboutTheLock(RequestOf(s.pc).value) && !RequestOf(s.pc).value.PutFile? && w.own != ""
      && (a.Ok? || (a == Err(LockConflict(w.own)) && !RequestOf(s.pc).value.UnlockAndRelock?))
    ensures var s := Run(w, Start(w, h, t), ls);
      Two(w, s, ch).room.lock.haveLock && RequestOf(WorkerStep(w, s, ch).pc).None?
  {
    LockSafety.Reachable(w, h, t, ls);
    ComesToMark(w, Run(w, Start(w, h, t), ls), ch, a);
    Marks(w, WorkerStep(w, Run(w, Start(w, h, t), ls), ch), ch);
  }

  predicate Marking(pc: PC) {
    (pc.Ensuring? && pc.ensureAt.Mark?) || (pc.Passing? && pc.passAt.RefreshMark?)
  }

  lemma ComesToMark(w: World, s: Sys, ch: Choice, a: Answer)
    requires LockSafety.OwnInv(w, s) && w.own != ""
    requires Answered(w, s, ch, a) && AboutTheLock(RequestOf(s.pc).value) && !RequestOf(s.pc).value.PutFile?
    requires a.Ok? || (a == Err(LockConflict(w.own)) && !RequestOf(s.pc).value.UnlockAndRelock?)
    ensures Marking(WorkerStep(w, s, ch).pc)
  {
  }

  lemma Marks(w: World, s: Sys, ch: Choice)
    requires Marking(s.pc)
    ensures RequestOf(s.pc).None? && WorkerStep(w, s, ch).room.lock.haveLock
  {
  }

  /** A LOCK answered by a 409 that names no lock is sent once more, and only once. */
  lemma EmptyConflictRetriesOnce(w: World, s: Sys, ch: Choice)
    requires s.pc.Ensuring? && Answered(w, s, ch, Err(LockConflict(""))) && RequestOf(s.pc).value.Lock?
    ensures var s1 := WorkerStep(w, s, ch);
      if s.pc.ensureAt.LockCall?
      then RequestOf(s1.pc) == RequestOf(s.pc) && s1.pc.ensureAt.LockAgain? && s1.room == s.room
      else !s1.pc.Ensuring? || !s1.pc.ensureAt.LockAgain?
  {
  }

  /** A PutFile's 409 over the own lock or none costs the room its belief, and is no conflict. */
  lemma {:induction false} PutConflictDropsBelief(w: World, h: HostFile, t: Time, ls: seq<Label>, ch: Choice, v: string)
    requires var s := Run(w, Start(w, h, t), ls);
      && Answered(w, s, ch, Err(LockConflict(v))) && v in {"", w.own}
      && RequestOf(s.pc).value.PutFile? && RequestOf(s.pc).value.lock != ""
    ensures var s := Run(w, Start(w, h, t), ls); var s2 := Two(w, s, ch);
      !s2.room.lock.haveLock && s2.log == s.log && s2.room.tok == s.room.tok
  {
    LockSafety.Reachable(w, h, t, ls);
  }

  // ------------------------------------------------------------ refused tokens

  /** The instant of the pass the position belongs to. */
  function PassTime(pc: PC): Time {
    match pc
    case Saving(sv, _) => sv.pass.now
    case Ensuring(c, _, _) => CallerNow(c)
    case Refreshing(rf, _) => rf.pass.now
    case _ => 0
  }

  /** The registry after a refusal of `token` at `since`, on the users' fields. */
  ghost predicate SetAside(t: Tokens, t': Tokens, token: string, since: Time, noWrite: bool) {
    forall u, at :: at >= since ==>
      if u in t.tokens && t.tokens[u].token == token
      then RoomLaws.Usable(t', at, u) <==>
             !noWrite && at >= since + 2 * MINUTE && t.tokens[u].canWrite && at < t.tokens[u].expiresAt
      else RoomLaws.Usable(t', at, u) <==> RoomLaws.Usable(t, at, u)
  }

  lemma MarkSetsAside(t: Tokens, since: Time, token: string, noWrite: bool)
    ensures SetAside(t, MarkToken(t, since, token, noWrite), token, since, noWrite)
  {
    forall u, at | at >= since
      ensures var t' := MarkToken(t, since, token, noWrite);
        if u in t.tokens && t.tokens[u].token == token
        then RoomLaws.Usable(t', at, u) <==>
               !noWrite && at >= since + 2 * MINUTE && t.tokens[u].canWrite && at < t.tokens[u].expiresAt
        else RoomLaws.Usable(t', at, u) <==> RoomLaws.Usable(t, at, u)
    {
      RoomLaws.RefusalMeans(t, since, token, noWrite, u, at);
    }
  }

  /**
   A 403 or 401 to a save's or a refresh's call sets exactly that token aside before the next call:
   for two minutes, or until its users are observed again.
   */
  lemma RefusedTokenIsSetAside(w: World, s: Sys, ch: Choice, e: WopiError)
    requires Answered(w, s, ch, Err(e)) && (e.TokenRejected? || e.NoWriteAccess?)
    requires (s.pc.Saving? && s.pc.saveAt.Put?) || s.pc.Refreshing?
             || (s.pc.Ensuring? && s.pc.c.ForSave? && RequestOf(s.pc).value.Lock?)
    ensures var s2 := Two(w, s, ch);
      && SetAside(s.room.tok, s2.room.tok, RequestOf(s.pc).value.token, PassTime(s.pc), e.NoWriteAccess?)
      && s2.log == s.log && RequestOf(WorkerStep(w, s, ch).pc).None?
  {
    ComesToMarkToken(w, s, ch, e);
    MarksToken(w, WorkerStep(w, s, ch), ch);
    MarkSetsAside(s.room.tok, PassTime(s.pc), RequestOf(s.pc).value.token, e.NoWriteAccess?);
  }

  ghost predicate MarkingToken(pc: PC, since: Time, token: string, noWrite: bool) {
    match pc
    case Saving(sv, at) => sv.pass.now == since && at == SaveMarkToken(token, noWrite)
    case Refreshing(rf, at) => rf.pass.now == since && at == RefreshMarkToken(token, noWrite)
    case _ => false
  }

  lemma ComesToMarkToken(w: World, s: Sys, ch: Choice, e: WopiError)
    requires Answered(w, s, ch, Err(e)) && (e.TokenRejected? || e.NoWriteAccess?)
    requires (s.pc.Saving? && s.pc.saveAt.Put?) || s.pc.Refreshing?
             || (s.pc.Ensuring? && s.pc.c.ForSave? && RequestOf(s.pc).value.Lock?)
    ensures var s1 := WorkerStep(w, s, ch);
      && MarkingToken(s1.pc, PassTime(s.pc), RequestOf(s.pc).value.token, e.NoWriteAccess?)
      && s1.room == s.room && s1.log == s.log
  {
  }

  lemma MarksToken(w: World, s: Sys, ch: Choice)
    requires s.pc.Saving? || s.pc.Refreshing?
    ensures forall since, token, noWrite :: MarkingToken(s.pc, since, token, noWrite) ==>
      && RequestOf(s.pc).None? && WorkerStep(w, s, ch).log == s.log
      && WorkerStep(w, s, ch).room.tok == MarkToken(s.room.tok, since, token, noWrite)
  {
  }

  // --------------------------------------------------------------------- faults

  predicate Fault(e: WopiError) {
    !e.TokenRejected? && !e.NoWriteAccess? && !e.LockConflict?
  }

  /** A fault sets nobody aside: the next candidate has its turn, or the save has failed. */
  lemma FaultTriesNext(w: World, s: Sys, ch: Choice, e: WopiError)
    requires s.pc.Saving? && s.pc.saveAt.Put? && Answered(w, s, ch, Err(e)) && Fault(e)
    ensures var s1 := WorkerStep(w, s, ch); var sv := s.pc.sv;
      && s1.room == s.room && s1.log == s.log
      && if sv.i + 1 < |sv.ladder|
         then s1.pc.Ensuring? && s1.pc.token == sv.ladder[sv.i + 1].token
         else WorkerStep(w, s1, ch).log == Then(s.log, Failed(sv.origin, sv.pass.now, Heard(sv.answers, e)))
  {
  }

  /** What the save in progress sends. */
  lemma Falls(w: World, s: Sys, e: WopiError, ch: Choice)
    requires s.pc.Ensuring? && s.pc.c.ForSave? && RequestOf(s.pc).Some? && RequestOf(s.pc).value.Lock? && Fault(e)
    ensures var s1 := WorkerStep(w, s, Choice(Some(e), "")); var q := PutFile(s.pc.token, "", Body(s.pc.c.sv.scene));
      && s1.host == s.host && s1.room == s.room && s1.log == s.log && s1.now == s.now
      && (RequestOf(s1.pc) == Some(q) <==> s.pc.c.sv.firstEver)
      && (s.pc.c.sv.firstEver && ch.glitch.None? ==>
            var s2 := WorkerStep(w, s1, ch);
            s2.log == if Call(w, s1, ch, q).1.Ok? then Then(s.log, Stored(q.body, false)) else s.log)
  {
  }

  /**
   When LOCK fails with a fault in the room's first save attempt, and only in that one, the scene goes
   out unlocked; the host takes it exactly if the token may write and the file is unlocked and empty.
   */
  lemma {:induction false} FirstAttemptFallsBack(w: World, h: HostFile, t: Time, ls: seq<Label>,
                                                  e: WopiError, pick: string)
    requires var s := Run(w, Start(w, h, t), ls);
      s.pc.Ensuring? && s.pc.c.ForSave? && RequestOf(s.pc).Some? && RequestOf(s.pc).value.Lock? && Fault(e)
    ensures var s := Run(w, Start(w, h, t), ls); var body := Body(s.pc.c.sv.scene);
      var s1 := WorkerStep(w, s, Choice(Some(e), "")); var s2 := WorkerStep(w, s1, Choice(None, pick));
      && (RequestOf(s1.pc) == Some(PutFile(s.pc.token, "", body)) <==> SaveSafety.Starts(s.log) == 1)
      && (SaveSafety.Starts(s.log) == 1 ==>
            s2.log == if s.pc.token != "" && s.pc.token in s.host.access && s.host.access[s.pc.token]
                         && EffectiveLock(s.host, s.now) == "" && s.host.content == []
                      then Then(s.log, Stored(body, false)) else s.log)
  {
    SaveSafety.Reachable(w, h, t, ls);
    Falls(w, Run(w, Start(w, h, t), ls), e, Choice(None, pick));
  }
}
