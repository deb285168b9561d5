/**
 A held lock never lapses: while a room is live, unconflicted and within its close grace, passes
 come often enough and some token is accepted at each refresh, the room's own value stays live at
 the host. A room past its grace that still cannot be saved is not refreshed, and loses it.
 */
module Lease {
  import opened Basics
  import opened WopiHost
  import opened RoomModel
  import opened SaveMachine
  import FirstPass
  import LockSafety
  import SaveSafety
  import Takeover

  // ------------------------------------------------------------ assumptions

  /** At every moment the last finished pass began at most `d` ago. */
  ghost predicate Timely(s: Sys, d: nat) {
    LastServed(s.log).Some? ==> s.now <= LastServed(s.log).value + d
  }

  /** The room is live and unconflicted. */
  ghost predicate Occupied(s: Sys) {
    Live(s.room, s.now) && !s.room.conf.conflict
  }

  /** And its close, if one is pending, is still in its grace. */
  ghost predicate Attended(s: Sys) {
    Occupied(s) && !CloseDue(s.room.life, s.now)
  }

  /** A live own lock stays, for as long as before or for a full lifetime from now. */
  predicate Honest(w: World, s: Sys, h: HostFile) {
    EffectiveLock(s.host, s.now) == w.own ==>
      h.lock == w.own && (h.lockExp >= s.host.lockExp || h.lockExp >= s.now + LOCK_TTL)
  }

  /** The request gives up the own lock. */
  predicate GivesUp(w: World, q: Request) {
    (q.Unlock? && q.lock == w.own) || (q.UnlockAndRelock? && q.oldLock == w.own != q.lock)
  }

  /** The request is about the own lock value. */
  predicate Names(w: World, q: Request) {
    !q.PutFile? && !q.CheckFileInfo? && !q.GetLock? && (q.lock == w.own || (q.UnlockAndRelock? && q.oldLock == w.own))
  }

  /**
   A request of anybody is honest unless it is accepted, the own lock is live, and it gives that
   very lock up; one that names only other values does not touch the expiry either.
   */
  lemma OthersAreHonest(w: World, s: Sys, q: Request)
    requires w.own != ""
    ensures var h := Serve(w.versionOf, s.host, s.now, q).0;
      && (Honest(w, s, h) <==>
            !(EffectiveLock(s.host, s.now) == w.own && GivesUp(w, q) && Authenticate(s.host, q) == OK))
      && (EffectiveLock(s.host, s.now) == w.own && !Names(w, q) ==>
            h.lock == s.host.lock && h.lockExp == s.host.lockExp)
  {
  }

  predicate Writable(h: HostFile, token: string) {
    token != "" && token in h.access && h.access[token]
  }

  /**
   The loop runs (no Shutdown flush), the host errs only by faults, and if a refresh comes down to
   its last candidate, that one is accepted.
   */
  ghost predicate Fits(w: World, s: Sys, l: Label) {
    match l
    case Enter(flush) => !flush
    case Others(h) => Honest(w, s, h)
    case Work(ch) =>
      && (ch.glitch.Some? ==> !ch.glitch.value.LockConflict?)
      && (s.pc.Passing? && s.pc.passAt.RefreshRead? ==> Ladder(s.room, s.pc.pass.now) != [])
      && (s.pc.Refreshing? && s.pc.refreshAt.RefreshCall? && s.pc.rf.i + 1 >= |s.pc.rf.ladder| ==>
            ch.glitch.None? && Writable(s.host, s.pc.refreshAt.token))
    case _ => true
  }

  /** The run `ls` from `s` keeps the assumptions throughout, but for the grace if `abandoned`. */
  ghost predicate Kept(w: World, s: Sys, ls: seq<Label>, d: nat, abandoned: bool) {
    ls != [] ==>
      var before := ls[..|ls| - 1];
      && Kept(w, s, before, d, abandoned)
      && Fits(w, Run(w, s, before), ls[|ls| - 1])
      && Timely(Run(w, s, ls), d)
      && if abandoned then Occupied(Run(w, s, ls)) else Attended(Run(w, s, ls))
  }

  // -------------------------------------------------------------- invariant

  /** The host holds the room's value for a full lifetime from `since` on. */
  predicate Leased(w: World, h: HostFile, since: Time) {
    h.lock == w.own && h.lockExp >= since + LOCK_TTL
  }

  predicate Young(lock: LockState, at: Time) {
    lock.haveLock ==> at as int - lock.lastLockAt < LOCK_REFRESH_INTERVAL
  }

  /** The pass the worker is in. */
  function PassIn(pc: PC): Option<Pass> {
    match pc
    case Passing(pass, _) => Some(pass)
    case Refreshing(rf, _) => Some(rf.pass)
    case Ensuring(ForRefresh(rf), _, _) => Some(rf.pass)
    case Ensuring(ForEager(pass), _, _) => Some(pass)
    case Ensuring(ForSave(sv), _, _) => Some(sv.pass)
    case Snapshot(_, pass) => Some(pass)
    case Saving(sv, _) => Some(sv.pass)
    case _ => None
  }

  /** A refresh this pass planned is still ahead of the worker. */
  predicate RefreshAhead(pc: PC) {
    match pc
    case Passing(pass, at) => pass.needRefresh && !at.EagerRead? && !at.SaveCheck?
    case Refreshing(_, _) => true
    case _ => false
  }

  predicate Resting(pc: PC) {
    pc.Idle? || pc.Begin? || pc.Plan?
  }

  /** Where the worker of an attended room can be, and what it knows of the lock there. */
  ghost predicate PcInv(w: World, s: Sys) {
    && !s.pc.Collecting? && !s.pc.Shutting?
    && (s.pc.Begin? ==> !s.pc.flush)
    && (s.pc.Plan? ==> s.pc.now <= s.now && (LastPlanned(s.log).Some? ==> LastPlanned(s.log).value <= s.pc.now))
    && (Resting(s.pc) ==> LastServed(s.log) == LastPlanned(s.log))
    && (PassIn(s.pc).Some? ==>
          var pass := PassIn(s.pc).value;
          && LastPlanned(s.log) == Some(pass.now) && !pass.closeDue && !pass.gcDue
          && (if RefreshAhead(s.pc) then s.room.lock.haveLock else Young(s.room.lock, pass.now)))
    && (s.pc.Exit? || s.pc == FINISH ==> LastPlanned(s.log).Some? && Young(s.room.lock, LastPlanned(s.log).value))
    && (s.pc.Passing? && s.pc.passAt.RefreshMark? ==> Leased(w, s.host, s.pc.pass.now))
    && (s.pc.Ensuring? ==> !s.pc.c.ForRefresh? && (s.pc.ensureAt.Mark? ==> Leased(w, s.host, CallerNow(s.pc.c))))
    && (s.pc.Passing? && (s.pc.passAt.RefreshGuard? || s.pc.passAt.RefreshRead? || s.pc.passAt.RefreshMark?) ==>
          s.pc.pass.needRefresh)
    && (s.pc.Refreshing? ==> s.pc.rf.pass.needRefresh && !s.pc.refreshAt.RefreshDone? && s.pc.rf.i < |s.pc.rf.ladder|)
    && (s.pc.Snapshot? ==> s.pc.origin.Scheduled?)
    && (s.pc.Saving? ==> s.pc.sv.origin.Scheduled?)
    && (s.pc.Ensuring? && s.pc.c.ForSave? ==> s.pc.c.sv.origin.Scheduled?)
    && (s.pc.Notify? ==> s.pc.next == Exit)
  }

  ghost predicate Core(w: World, s: Sys) {
    && (s.room.lock.haveLock ==> Leased(w, s.host, s.room.lock.lastLockAt) && s.room.lock.lastLockAt <= s.now)
    && (LastPlanned(s.log).None? ==> LastServed(s.log).None? && !s.room.lock.haveLock)
    && (LastPlanned(s.log).Some? ==>
          && LastServed(s.log).Some? && LastServed(s.log).value <= LastPlanned(s.log).value <= s.now
          && Young(s.room.lock, LastServed(s.log).value))
  }

  ghost predicate Inv(w: World, s: Sys) {
    Core(w, s) && PcInv(w, s)
  }

  /** What one more step may rely on. */
  ghost predicate Ready(w: World, s: Sys, d: nat) {
    && Inv(w, s) && LockSafety.OwnInv(w, s) && (s.room.life.inFlight <==> s.pc != Idle)
    && Timely(s, d) && (s.pc != Idle ==> Attended(s))
    && w.own != "" && LOCK_REFRESH_INTERVAL + d < LOCK_TTL
  }

  /** The lock stays live: the last served pass is recent, and the lock was young then. */
  lemma StillOwn(w: World, s: Sys, d: nat)
    requires Ready(w, s, d)
    ensures s.room.lock.haveLock ==> EffectiveLock(s.host, s.now) == w.own
    ensures PassIn(s.pc).Some? && Leased(w, s.host, PassIn(s.pc).value.now) ==> EffectiveLock(s.host, s.now) == w.own
  {
  }

  lemma KeepsRest(w: World, s: Sys, i: Input, d: nat)
    requires Ready(w, s, d) && (s.pc.Begin? || s.pc.Raise? || s.pc.Notify? || s.pc.Exit?)
    ensures var s' := Act(s, i); Attended(s') ==> Inv(w, s')
  {
  }

  /** planPass of an attended room schedules neither a close nor a collection, and a refresh iff it is time. */
  lemma PlanIsOpen(s: Sys, now: Time)
    requires Attended(s) && now <= s.now
    ensures var pass := PlanOf(s.room, now);
      && pass.now == now && !pass.closeDue && !pass.gcDue
      && (pass.needRefresh <==> s.room.lock.haveLock && now as int - s.room.lock.lastLockAt >= LOCK_REFRESH_INTERVAL)
  {
    var r := s.room.(tok := Prune(s.room.tok, now));
    if !s.room.doc.dirty && s.room.life.liveUserCount == 0 {
      var u :| Unexpired(s.room.tok, s.now, u);
      assert Unexpired(r.tok, now, u);
    }
    assert Live(r, now);
  }

  lemma KeepsPlan(w: World, s: Sys, i: Input, d: nat)
    requires Ready(w, s, d) && s.pc.Plan?
    ensures var s' := Act(s, i); Attended(s') ==> Inv(w, s')
  {
    PlanIsOpen(s, s.pc.now);
  }

  /** The steps of a pass up to its lock step. */
  lemma KeepsCheck(w: World, s: Sys, i: Input, d: nat, pass: Pass, at: PassAt)
    requires Ready(w, s, d) && s.pc == Passing(pass, at) && (at.Warn? || at.CheckRead? || at.CheckCall?)
    ensures var s' := PassStep(s, i, pass, at); Attended(s') ==> Inv(w, s')
  {
  }

  lemma KeepsPass(w: World, s: Sys, i: Input, d: nat, pass: Pass, at: PassAt)
    requires Ready(w, s, d) && s.pc == Passing(pass, at) && !at.Warn? && !at.CheckRead? && !at.CheckCall?
    requires at.RefreshRead? ==> i.ladder != []
    ensures var s' := PassStep(s, i, pass, at); Attended(s') ==> Inv(w, s')
  {
  }

  /** What the host's answers to an attended room can be. */
  ghost predicate Fair(w: World, s: Sys, i: Input) {
    && (s.pc.Refreshing? && s.pc.refreshAt.RefreshCall? ==>
          if i.answer.Ok? then Leased(w, s.host, s.pc.rf.pass.now)
          else !i.answer.error.LockConflict? && s.pc.rf.i + 1 < |s.pc.rf.ladder|)
    && (s.pc.Ensuring? && (s.pc.ensureAt.Swap? || s.pc.ensureAt.LockCall? || s.pc.ensureAt.LockAgain?) ==>
          if i.answer.Ok? then Leased(w, s.host, CallerNow(s.pc.c))
          else i.answer.error.LockConflict? && !s.pc.ensureAt.Swap? ==> i.answer.error.currentLock !in {"", w.own})
  }

  lemma KeepsRefresh(w: World, s: Sys, i: Input, d: nat, rf: Refresh, at: RefreshAt)
    requires Ready(w, s, d) && s.pc == Refreshing(rf, at) && Fair(w, s, i)
    ensures var s' := RefreshStep(s, i, rf, at); Attended(s') ==> Inv(w, s')
  {
  }

  lemma KeepsEnsure(w: World, s: Sys, i: Input, d: nat, c: Caller, token: string, at: EnsureAt)
    requires Ready(w, s, d) && s.pc == Ensuring(c, token, at) && (at.TakeForce? || at.RestoreForce? || at.Mark?)
    ensures var s' := EnsureStep(s, i, c, token, at); Attended(s') ==> Inv(w, s')
  {
  }

  lemma KeepsSwap(w: World, s: Sys, i: Input, d: nat, c: Caller, token: string, at: EnsureAt)
    requires Ready(w, s, d) && s.pc == Ensuring(c, token, at) && at.Swap? && Fair(w, s, i)
    ensures var s' := EnsureStep(s, i, c, token, at); Attended(s') ==> Inv(w, s')
  {
  }

  lemma KeepsLock(w: World, s: Sys, i: Input, d: nat, c: Caller, token: string, at: EnsureAt)
    requires Ready(w, s, d) && s.pc == Ensuring(c, token, at) && (at.LockCall? || at.LockAgain?) && Fair(w, s, i)
    ensures var s' := EnsureStep(s, i, c, token, at); Attended(s') ==> Inv(w, s')
  {
  }

  lemma KeepsSnapshot(w: World, s: Sys, i: Input, d: nat, origin: Origin, pass: Pass)
    requires Ready(w, s, d) && s.pc == Snapshot(origin, pass)
    ensures var s' := SnapshotStep(s, i, origin, pass); Attended(s') ==> Inv(w, s')
  {
  }

  lemma KeepsSave(w: World, s: Sys, i: Input, d: nat, sv: Save, at: SaveAt)
    requires Ready(w, s, d) && s.pc == Saving(sv, at) && !at.Put? && !at.PutUnlocked?
    ensures var s' := SaveStep(s, i, sv, at); Attended(s') ==> Inv(w, s')
  {
  }

  /** The save's next position belongs to the same pass, and nothing of a refresh is ahead. */
  predicate InPass(pc: PC, sv: Save) {
    match pc
    case Saving(sv', _) => sv'.pass == sv.pass && sv'.origin == sv.origin
    case Ensuring(ForSave(sv'), _, at) => at.TakeForce? && sv'.pass == sv.pass && sv'.origin == sv.origin
    case Raise(_, dropLock, _) => dropLock
    case _ => false
  }

  lemma StaysInPass(sv: Save, token: string, a: Answer, error: WopiError)
    ensures InPass(PutReply(sv, token, a), sv) && InPass(Try(Advance(sv, error)), sv)
  {
  }

  /** A save that moves on within its pass, or raises a conflict, is where it may be. */
  lemma MovesOn(w: World, s: Sys, d: nat, sv: Save, s': Sys)
    requires Ready(w, s, d) && s.pc.Saving? && s.pc.sv == sv
    requires InPass(s'.pc, sv) && s'.room == s.room && s'.host == s.host && s'.now == s.now
    requires LastPlanned(s'.log) == LastPlanned(s.log) && LastServed(s'.log) == LastServed(s.log)
    ensures Inv(w, s')
  {
  }

  lemma {:induction false} KeepsPut(w: World, s: Sys, i: Input, d: nat, sv: Save, at: SaveAt)
    requires Ready(w, s, d) && s.pc == Saving(sv, at) && (at.Put? || at.PutUnlocked?)
    ensures var s' := SaveStep(s, i, sv, at); Attended(s') ==> Inv(w, s')
  {
    StaysInPass(sv, at.token, i.answer, if at.PutUnlocked? then at.error else TokenRejected);
    MovesOn(w, s, d, sv, SaveStep(s, i, sv, at));
  }

  lemma {:induction false} KeepsAct(w: World, s: Sys, i: Input, d: nat)
    requires Ready(w, s, d) && Fair(w, s, i)
    requires s.pc.Passing? && s.pc.passAt.RefreshRead? ==> i.ladder != []
    ensures var s' := Act(s, i); Attended(s') ==> Inv(w, s')
  {
    match s.pc {
      case Idle =>
      case Plan(_) => KeepsPlan(w, s, i, d);
      case Passing(pass, at) =>
        if at.Warn? || at.CheckRead? || at.CheckCall? { KeepsCheck(w, s, i, d, pass, at); }
        else { KeepsPass(w, s, i, d, pass, at); }
      case Refreshing(rf, at) => KeepsRefresh(w, s, i, d, rf, at);
      case Ensuring(c, token, at) =>
        if at.Swap? { KeepsSwap(w, s, i, d, c, token, at); }
        else if at.LockCall? || at.LockAgain? { KeepsLock(w, s, i, d, c, token, at); }
        else { KeepsEnsure(w, s, i, d, c, token, at); }
      case Snapshot(origin, pass) => KeepsSnapshot(w, s, i, d, origin, pass);
      case Saving(sv, at) =>
        if at.Put? || at.PutUnlocked? { KeepsPut(w, s, i, d, sv, at); } else { KeepsSave(w, s, i, d, sv, at); }
      case _ => KeepsRest(w, s, i, d);
    }
  }

  /** A call leaves a live own lock ours for as long as before, and takes a free one for a full lifetime. */
  lemma CallKeepsLease(w: World, s: Sys, ch: Choice, q: Request, since: Time)
    requires w.own != "" && !q.Unlock? && (q.Lock? || q.UnlockAndRelock? ==> q.lock == w.own)
    ensures var (h, a) := Call(w, s, ch, q);
      && (EffectiveLock(s.host, s.now) == w.own && Leased(w, s.host, since) && since <= s.now ==> Leased(w, h, since))
      && (a.Ok? && (q.Lock? || q.UnlockAndRelock? || (q.RefreshLock? && q.lock == w.own)) ==> Leased(w, h, s.now))
  {
  }

  lemma RefreshIsFair(w: World, s: Sys, ch: Choice, q: Request, d: nat)
    requires Ready(w, s, d) && Fits(w, s, Work(ch)) && s.pc.Refreshing? && RequestOf(s.pc) == Some(q)
    ensures var (h, a) := Call(w, s, ch, q); Fair(w, s.(host := h), InputOf(s, ch.pick, a))
  {
    StillOwn(w, s, d);
    CallKeepsLease(w, s, ch, q, s.pc.rf.pass.now);
  }

  lemma EnsureIsFair(w: World, s: Sys, ch: Choice, q: Request, d: nat)
    requires Ready(w, s, d) && Fits(w, s, Work(ch)) && s.pc.Ensuring? && RequestOf(s.pc) == Some(q)
    ensures var (h, a) := Call(w, s, ch, q); Fair(w, s.(host := h), InputOf(s, ch.pick, a))
  {
    CallKeepsLease(w, s, ch, q, CallerNow(s.pc.c));
  }

  /** The host's half of a call: the answer is a fair one, and the lease is kept. */
  lemma CallIsFair(w: World, s: Sys, ch: Choice, q: Request, d: nat)
    requires Ready(w, s, d) && Fits(w, s, Work(ch)) && RequestOf(s.pc) == Some(q)
    ensures var (h, a) := Call(w, s, ch, q);
      && Ready(w, s.(host := h), d)
      && Fair(w, s.(host := h), InputOf(s, ch.pick, a))
  {
    StillOwn(w, s, d);
    CallKeepsLease(w, s, ch, q, s.room.lock.lastLockAt);
    if s.pc.Refreshing? { RefreshIsFair(w, s, ch, q, d); }
    if s.pc.Ensuring? { EnsureIsFair(w, s, ch, q, d); }
  }

  lemma KeepsEnter(w: World, s: Sys, d: nat)
    requires Ready(w, s, d)
    ensures var s' := Step(w, s, Enter(false)); Attended(s') ==> Inv(w, s')
  {
  }

  lemma KeepsOthers(w: World, s: Sys, l: Label, d: nat)
    requires Ready(w, s, d) && Fits(w, s, l) && (l.Others? || l.Tick?)
    ensures var s' := Step(w, s, l); Attended(s') ==> Inv(w, s')
  {
    StillOwn(w, s, d);
  }

  /** A post or a resolve moves neither the worker, the host nor what the room knows of its lock. */
  lemma KeepsPost(w: World, s: Sys, l: Label, d: nat)
    requires Ready(w, s, d) && (l.DoPutScene? || l.DoResolve?)
    ensures var s' := Step(w, s, l); Attended(s') ==> Inv(w, s')
  {
  }

  /** Nor does any other handler. */
  lemma KeepsHandler(w: World, s: Sys, l: Label, d: nat)
    requires Ready(w, s, d) && !l.Work? && !l.Enter? && !l.Others? && !l.Tick? && !l.DoPutScene? && !l.DoResolve?
    ensures var s' := Step(w, s, l); Attended(s') ==> Inv(w, s')
  {
  }

  lemma {:induction false} KeepsStep(w: World, s: Sys, l: Label, d: nat)
    requires Ready(w, s, d) && Fits(w, s, l)
    ensures var s' := Step(w, s, l); Attended(s') ==> Inv(w, s')
  {
    if l.Work? {
      match RequestOf(s.pc) {
        case None => KeepsAct(w, s, InputOf(s, l.choice.pick, Ok("")), d);
        case Some(q) =>
          var (h, a) := Call(w, s, l.choice, q);
          CallIsFair(w, s, l.choice, q, d);
          KeepsAct(w, s.(host := h), InputOf(s, l.choice.pick, a), d);
      }
    } else if l.Enter? {
      KeepsEnter(w, s, d);
    } else if l.Others? || l.Tick? {
      KeepsOthers(w, s, l, d);
    } else if l.DoPutScene? || l.DoResolve? {
      KeepsPost(w, s, l, d);
    } else {
      KeepsHandler(w, s, l, d);
    }
  }

  /** From any state that satisfies the invariants, a run that keeps the assumptions keeps the lease. */
  lemma {:induction false} StaysLeased(w: World, s0: Sys, ls: seq<Label>, d: nat)
    requires Ready(w, s0, d) && SaveSafety.Inv(s0) && LockSafety.Inv(w, s0)
    requires Kept(w, s0, ls, d, false)
    ensures var s := Run(w, s0, ls);
      Inv(w, s) && SaveSafety.Inv(s) && LockSafety.Inv(w, s) && Timely(s, d) && (ls != [] ==> Attended(s))
  {
    if ls == [] {
    } else {
      var before, l := ls[..|ls| - 1], ls[|ls| - 1];
      StaysLeased(w, s0, before, d);
      var s := Run(w, s0, before);
      SaveSafety.KeepsStep(w, s, l);
      LockSafety.KeepsStep(w, s, l);
      KeepsStep(w, s, l, d);
    }
  }

  // ------------------------------------------------------------------ at rest

  /** Whatever came before, a worker at rest has ended the last pass it planned. */
  lemma {:induction false} RestIsServed(w: World, h: HostFile, t: Time, ls: seq<Label>)
    ensures var s := Run(w, Start(w, h, t), ls); s.pc == Idle ==> LastServed(s.log) == LastPlanned(s.log)
  {
    if ls == [] {
    } else {
      var before, l := ls[..|ls| - 1], ls[|ls| - 1];
      RestIsServed(w, h, t, before);
      SaveSafety.Reachable(w, h, t, before);
      StepRests(w, Run(w, Start(w, h, t), before), l);
    }
  }

  lemma StepRests(w: World, s: Sys, l: Label)
    requires SaveSafety.Inv(s) && (s.pc == Idle ==> LastServed(s.log) == LastPlanned(s.log))
    ensures var s' := Step(w, s, l); s'.pc == Idle ==> LastServed(s'.log) == LastPlanned(s'.log)
  {
    if l.Work? {
      match RequestOf(s.pc) {
        case None => ActRests(s, InputOf(s, l.choice.pick, Ok("")));
        case Some(q) =>
          var (h, a) := Call(w, s, l.choice, q);
          ActRests(s.(host := h), InputOf(s, l.choice.pick, a));
      }
    }
  }

  lemma ActRests(s: Sys, i: Input)
    requires SaveSafety.Shape(s.pc) && (s.pc == Idle ==> LastServed(s.log) == LastPlanned(s.log))
    ensures var s' := Act(s, i); s'.pc == Idle ==> LastServed(s'.log) == LastPlanned(s'.log)
  {
    match s.pc {
      case Idle =>
      case Ensuring(c, token, at) => SaveSafety.ShapeEnsure(s, i, c, token, at);
      case Saving(sv, at) => SaveSafety.ShapeSave(s, i, sv, at);
      case Refreshing(rf, at) => SaveSafety.ShapeRefresh(s, i, rf, at);
      case _ => SaveSafety.ShapePass(s, i);
    }
  }

  /** At rest with a lease that was young when the last pass began, and that began at most `d` ago. */
  ghost predicate RestsLeased(w: World, s: Sys, d: nat) {
    && s.pc == Idle && LastPlanned(s.log).Some?
    && LastPlanned(s.log).value <= s.now <= LastPlanned(s.log).value + d
    && (s.room.lock.haveLock ==> Leased(w, s.host, s.room.lock.lastLockAt) && s.room.lock.lastLockAt <= s.now)
    && Young(s.room.lock, LastPlanned(s.log).value)
  }

  // --------------------------------------------------------------- theorems

  /**
   A held lock never lapses: with passes at most `d` apart where 10 min + d < 30 min, and some
   ladder token accepted at each refresh, a room that is live, unconflicted and within its grace
   has its own value live at the host at every moment it has its lock. Its past does not matter:
   it starts as a fresh room, or at rest after any run with a young lease, or with no lock.
   */
  lemma {:induction false} LeaseNeverLapses(w: World, h: HostFile, t: Time, past: seq<Label>, ls: seq<Label>, d: nat)
    requires w.own != "" && LOCK_REFRESH_INTERVAL + d < LOCK_TTL
    requires var s0 := Run(w, Start(w, h, t), past);
      (past == [] || RestsLeased(w, s0, d)) && Kept(w, s0, ls, d, false)
    ensures var s := Run(w, Run(w, Start(w, h, t), past), ls);
      s.room.lock.haveLock ==> EffectiveLock(s.host, s.now) == w.own
  {
    var s0 := Run(w, Start(w, h, t), past);
    SaveSafety.Reachable(w, h, t, past);
    LockSafety.Reachable(w, h, t, past);
    RestIsServed(w, h, t, past);
    StaysLeased(w, s0, ls, d);
    StillOwn(w, Run(w, s0, ls), d);
  }

  // --------------------------------------------------------- past the grace

  /** A run from `s0` to `s` keeps every assumption but the grace. */
  ghost predicate GoesTo(w: World, s0: Sys, s: Sys, d: nat) {
    exists ls :: Run(w, s0, ls) == s && Kept(w, s0, ls, d, true)
  }

  lemma GoesOn(w: World, s0: Sys, s: Sys, l: Label, d: nat)
    requires GoesTo(w, s0, s, d) && Fits(w, s, l) && Timely(Step(w, s, l), d) && Occupied(Step(w, s, l))
    ensures GoesTo(w, s0, Step(w, s, l), d)
  {
    var ls :| Run(w, s0, ls) == s && Kept(w, s0, ls, d, true);
    RunExtends(w, s0, ls, l);
    assert (ls + [l])[..|ls|] == ls;
  }

  const D: nat := 19 * MINUTE

  /** A room past its grace that is still dirty, holding the lock it took at `t`, a quarter of an hour later. */
  ghost predicate Left(w: World, s: Sys, t: Time, token: string) {
    && s.now == t + 15 * MINUTE && LastServed(s.log) == Some(t)
    && s.room.doc.dirty && !s.room.conf.conflict && CloseDue(s.room.life, s.now)
    && s.room.lock == LockState(w.own, true, t, "") && s.host.lock == w.own && s.host.lockExp == t + LOCK_TTL
    && s.room.saves.nextRetryAt == 0 && !s.room.saves.firstDone
    && Ladder(s.room, s.now) == [Candidate("u", token)] && Takeover.Accepts(s.host, token)
  }

  /** A step that calls nobody, in a room that stays as it is. */
  lemma Goes(w: World, s0: Sys, s: Sys) returns (s': Sys, i: Input)
    requires GoesTo(w, s0, s, D) && RequestOf(s.pc).None? && !(s.pc.Passing? && s.pc.passAt.RefreshRead?)
    ensures s' == Act(s, i) && i == InputOf(s, "", Ok(""))
    ensures Timely(s', D) && Occupied(s') ==> GoesTo(w, s0, s', D)
  {
    i := InputOf(s, "", Ok(""));
    s' := Act(s, i);
    var l := Work(Takeover.QUIET);
    assert s' == Step(w, s, l);
    if Timely(s', D) && Occupied(s') { GoesOn(w, s0, s, l, D); }
  }

  /** A call of a save, which may fail. */
  lemma GoesAsking(w: World, s0: Sys, s: Sys, q: Request, glitch: Option<WopiError>) returns (s': Sys, i: Input)
    requires GoesTo(w, s0, s, D) && RequestOf(s.pc) == Some(q) && !s.pc.Refreshing?
    requires glitch.Some? ==> !glitch.value.LockConflict?
    ensures var (h, a) := Call(w, s, Choice(glitch, ""), q); s' == Act(s.(host := h), i) && i.answer == a
    ensures Timely(s', D) && Occupied(s') ==> GoesTo(w, s0, s', D)
  {
    var (h, a) := Call(w, s, Choice(glitch, ""), q);
    i := InputOf(s, "", a);
    s' := Act(s.(host := h), i);
    var l := Work(Choice(glitch, ""));
    assert s' == Step(w, s, l);
    if Timely(s', D) && Occupied(s') { GoesOn(w, s0, s, l, D); }
  }

  lemma PlansClose(w: World, s0: Sys, s: Sys, t: Time, token: string) returns (s': Sys)
    requires GoesTo(w, s0, s, D) && s.pc == Plan(s.now) && Left(w, s, t, token)
    ensures GoesTo(w, s0, s', D) && Left(w, s', t, token)
    ensures s'.pc == Passing(PlanOf(s.room, s.now), Warn) && LastPlanned(s'.log) == Some(s.now)
  {
    Takeover.PruneWarnLadder(s.room.tok, s.room.doc.lastWriter, s.now);
    var i;
    s', i := Goes(w, s0, s);
    assert s' == PlanStep(s, s.now);
  }

  lemma WarnsAndCloses(w: World, s0: Sys, s: Sys, pass: Pass, t: Time, token: string) returns (s': Sys)
    requires GoesTo(w, s0, s, D) && s.pc == Passing(pass, Warn) && Left(w, s, t, token)
    requires pass.now == s.now && pass.closeDue && !pass.gcDue
    requires Ladder(s.room.(tok := WarnTokens(s.room.tok, s.now)), s.now) == Ladder(s.room, s.now)
    ensures GoesTo(w, s0, s', D) && Left(w, s', t, token) && s'.pc == Snapshot(Closing, pass)
    ensures LastPlanned(s'.log) == LastPlanned(s.log)
  {
    var s1, i1 := Goes(w, s0, s);
    assert s1 == s.(room := s.room.(tok := WarnTokens(s.room.tok, s.now)), pc := Shutting(pass, CloseRead));
    var i2;
    s', i2 := Goes(w, s0, s1);
    assert s' == s1.(pc := Snapshot(Closing, pass));
  }

  /** The expiry watch changes nobody's place on the ladder. */
  lemma WarnLadder(t: Tokens, lastWriter: string, now: Time)
    ensures TokenLadder(WarnTokens(t, now), lastWriter, now) == TokenLadder(t, lastWriter, now)
  {
    var q := WarnTokens(t, now);
    assert forall u :: Eligible(q, now, u) <==> Eligible(t, now, u);
    assert EligibleUsers(q, now) == EligibleUsers(t, now);
    Takeover.SameLadder(t, q, lastWriter, now);
  }

  /** The pass comes to the close's flush. */
  lemma ComesToFlush(w: World, s0: Sys, s: Sys, t: Time, token: string) returns (s': Sys)
    requires GoesTo(w, s0, s, D) && s.pc == Begin(false) && Left(w, s, t, token)
    ensures GoesTo(w, s0, s', D) && Left(w, s', t, token) && s'.pc == Snapshot(Closing, PlanOf(s.room, s.now))
    ensures LastPlanned(s'.log) == Some(s.now)
  {
    var s1, i1 := Goes(w, s0, s);
    assert s1 == s.(pc := Plan(s.now));
    var s2 := PlansClose(w, s0, s1, t, token);
    WarnLadder(s2.room.tok, s2.room.doc.lastWriter, s2.now);
    s' := WarnsAndCloses(w, s0, s2, PlanOf(s.room, s.now), t, token);
  }

  /** The flush comes to its LOCK. */
  lemma FlushStarts(w: World, s0: Sys, s: Sys, pass: Pass, t: Time, token: string) returns (s': Sys, sv: Save)
    requires GoesTo(w, s0, s, D) && s.pc == Snapshot(Closing, pass) && pass.now == s.now && Left(w, s, t, token)
    requires LastPlanned(s.log) == Some(s.now)
    ensures sv == Save(Closing, pass, s.room.doc.scene, s.room.doc.seqNo, w.own, [Candidate("u", token)],
                       true, 0, true, Silent)
    ensures GoesTo(w, s0, s', D) && s'.pc == Ensuring(ForSave(sv), token, LockCall(w.own)) && s'.now == s.now
    ensures s'.room.doc == s.room.doc && !s'.room.conf.conflict && s'.room.lock == s.room.lock && s'.host == s.host
    ensures LastServed(s'.log) == LastServed(s.log) && LastPlanned(s'.log) == Some(s.now)
  {
    var s1, i1 := Goes(w, s0, s);
    sv := Save(Closing, pass, s.room.doc.scene, s.room.doc.seqNo, w.own, Ladder(s.room, s.now), true, 0, true, Silent);
    assert s1.pc == Ensuring(ForSave(sv), token, TakeForce);
    var i2;
    s', i2 := Goes(w, s0, s1);
  }

  /** The host fails the LOCK and refuses the unlocked fallback, and the save is given up. */
  lemma FlushFails(w: World, s0: Sys, s: Sys, pass: Pass, t: Time, token: string) returns (s': Sys)
    requires GoesTo(w, s0, s, D) && s.pc == Snapshot(Closing, pass) && pass.now == s.now && Left(w, s, t, token)
    requires LastPlanned(s.log) == Some(s.now) && w.own != ""
    ensures GoesTo(w, s0, s', D) && s'.pc == Shutting(pass, CloseRecheck) && s'.now == s.now
    ensures s'.room.doc == s.room.doc && !s'.room.conf.conflict && s'.room.lock == s.room.lock && s'.host == s.host
    ensures LastServed(s'.log) == LastServed(s.log) && LastPlanned(s'.log) == Some(s.now)
  {
    var e := HttpError(503);
    var s1, sv := FlushStarts(w, s0, s, pass, t, token);
    var s2, i2 := GoesAsking(w, s0, s1, Lock(token, w.own), Some(e));
    assert s2 == s1.(pc := Saving(sv, PutUnlocked(token, e)));
    s' := FallbackFails(w, s0, s2, sv, token, e);
  }

  /** The file is locked, so the unlocked fallback is refused. */
  lemma FallbackRefused(w: World, s0: Sys, s: Sys, sv: Save, token: string, e: WopiError) returns (s': Sys)
    requires GoesTo(w, s0, s, D) && s.pc == Saving(sv, PutUnlocked(token, e)) && |sv.ladder| == 1 && sv.i == 0
    requires Takeover.Accepts(s.host, token) && EffectiveLock(s.host, s.now) == w.own != ""
    requires s.room.doc.dirty && !s.room.conf.conflict && Timely(s, D)
    ensures GoesTo(w, s0, s', D) && s' == s.(pc := Saving(Advance(sv, e), Fail))
  {
    var i;
    s', i := GoesAsking(w, s0, s, PutFile(token, "", Body(sv.scene)), None);
  }

  lemma FallbackFails(w: World, s0: Sys, s: Sys, sv: Save, token: string, e: WopiError) returns (s': Sys)
    requires GoesTo(w, s0, s, D) && s.pc == Saving(sv, PutUnlocked(token, e)) && |sv.ladder| == 1 && sv.i == 0
    requires sv.origin.Closing? && Takeover.Accepts(s.host, token) && EffectiveLock(s.host, s.now) == w.own != ""
    requires s.room.doc.dirty && !s.room.conf.conflict && Timely(s, D)
    ensures GoesTo(w, s0, s', D) && s'.pc == Shutting(sv.pass, CloseRecheck) && s'.now == s.now
    ensures s'.room.doc == s.room.doc && s'.room.conf == s.room.conf && s'.room.lock == s.room.lock && s'.host == s.host
    ensures LastServed(s'.log) == LastServed(s.log) && LastPlanned(s'.log) == LastPlanned(s.log)
  {
    var s1 := FallbackRefused(w, s0, s, sv, token, e);
    var i;
    s', i := Goes(w, s0, s1);
  }

  /** What the end of a pass leaves alone. */
  ghost predicate Unmoved(s: Sys, s': Sys) {
    && s'.now == s.now && s'.host == s.host
    && s'.room.doc == s.room.doc && s'.room.conf == s.room.conf && s'.room.lock == s.room.lock
  }

  lemma Rechecks(w: World, s0: Sys, s: Sys, pass: Pass) returns (s': Sys)
    requires GoesTo(w, s0, s, D) && s.pc == Shutting(pass, CloseRecheck) && s.room.doc.dirty && !s.room.conf.conflict
    requires Timely(s, D)
    ensures GoesTo(w, s0, s', D) && s' == s.(pc := FINISH)
  {
    var i;
    s', i := Goes(w, s0, s);
  }

  lemma Notifies(w: World, s0: Sys, s: Sys) returns (s': Sys)
    requires GoesTo(w, s0, s, D) && s.pc == FINISH && s.room.doc.dirty && !s.room.conf.conflict && Timely(s, D)
    ensures GoesTo(w, s0, s', D) && s'.pc == Exit && Unmoved(s, s')
    ensures LastServed(s'.log) == LastServed(s.log) && LastPlanned(s'.log) == LastPlanned(s.log)
  {
    var i;
    s', i := Goes(w, s0, s);
  }

  lemma EndsPass(w: World, s0: Sys, s: Sys) returns (s': Sys)
    requires GoesTo(w, s0, s, D) && s.pc == Exit && s.room.doc.dirty && !s.room.conf.conflict
    requires LastPlanned(s.log) == Some(s.now)
    ensures GoesTo(w, s0, s', D) && s'.pc == Idle && Unmoved(s, s') && LastServed(s'.log) == Some(s.now)
  {
    var i;
    s', i := Goes(w, s0, s);
  }

  /** Still dirty, the room stays open, and the pass ends. */
  lemma StaysOpen(w: World, s0: Sys, s: Sys, pass: Pass) returns (s': Sys)
    requires GoesTo(w, s0, s, D) && s.pc == Shutting(pass, CloseRecheck) && s.room.doc.dirty && !s.room.conf.conflict
    requires LastPlanned(s.log) == Some(s.now) && Timely(s, D)
    ensures GoesTo(w, s0, s', D) && s'.pc == Idle && Unmoved(s, s') && LastServed(s'.log) == Some(s.now)
  {
    var s1 := Rechecks(w, s0, s, pass);
    var s2 := Notifies(w, s0, s1);
    s' := EndsPass(w, s0, s2);
  }

  /** The room of one user, at rest with the lock, loses its user with an edit unsaved. */
  lemma UserLeaves(w: World, s0: Sys, t: Time, info: TokenInfo, data: Bytes) returns (s: Sys)
    requires s0.pc == Idle && s0.indexed && !s0.room.life.inFlight && s0.now == t && LastServed(s0.log) == Some(t)
    requires s0.room.lock == LockState(w.own, true, t, "") && s0.host.lock == w.own && s0.host.lockExp == t + LOCK_TTL
    requires !s0.room.conf.conflict && s0.room.saves.nextRetryAt == 0 && !s0.room.saves.firstDone
    requires s0.room.tok == Tokens(map["u" := info], map[]) && FirstPass.Good(s0.host, t + 15 * MINUTE, info)
    ensures GoesTo(w, s0, s, D) && s.pc == Begin(false) && Left(w, s, t, info.token)
  {
    assert Run(w, s0, []) == s0 && Kept(w, s0, [], D, true);
    assert Unexpired(s0.room.tok, t, "u");
    GoesOn(w, s0, s0, ReadClock, D);
    var s1 := Step(w, s0, ReadClock);
    GoesOn(w, s0, s1, DoPutScene(data, "", t), D);
    var s2 := Step(w, s1, DoPutScene(data, "", t));
    GoesOn(w, s0, s2, DoLeave(true), D);
    var s3 := Step(w, s2, DoLeave(true));
    GoesOn(w, s0, s3, Tick(t + 15 * MINUTE), D);
    var s4 := Step(w, s3, Tick(t + 15 * MINUTE));
    GoesOn(w, s0, s4, Enter(false), D);
    s := Step(w, s4, Enter(false));
    FirstPass.OneTokenLadder("u", info, s.room.doc.lastWriter, s.now);
  }

  /**
   The grace is the limit: a room past it that stays dirty, and so live, is not refreshed. With
   passes 19 minutes apart at most, a valid token and nobody else at the host, one failing flush
   is enough for the lock to lapse while the room still believes that it holds it.
   */
  lemma AbandonedLeaseLapses(w: World, h: HostFile, t: Time, info: TokenInfo, data: Bytes)
    requires w.own != "" && EffectiveLock(h, t) in {"", w.own}
    requires FirstPass.Good(h, t, info) && t + 31 * MINUTE + TOKEN_EXPIRY_WARN_WINDOW < info.expiresAt
    ensures exists s0, s ::
      && Reached(w, h, t, s0) && RestsLeased(w, s0, D) && GoesTo(w, s0, s, D)
      && Occupied(s) && s.room.lock.haveLock && EffectiveLock(s.host, s.now) != w.own
  {
    var s0 := LocksAtFirst(w, h, t, info);
    var ls :| Run(w, Start(w, h, t), ls) == s0;
    RestIsServed(w, h, t, ls);
    var s := LapsesFrom(w, s0, t, info, data);
  }

  /** A fresh room of one user comes to rest with the lock. */
  lemma LocksAtFirst(w: World, h: HostFile, t: Time, info: TokenInfo) returns (s: Sys)
    requires w.own != "" && EffectiveLock(h, t) in {"", w.own}
    requires FirstPass.Good(h, t, info) && t + TOKEN_EXPIRY_WARN_WINDOW < info.expiresAt
    ensures Reached(w, h, t, s) && s.now == t && s.pc == Idle && s.indexed && !s.room.life.inFlight
    ensures LastPlanned(s.log) == Some(t) && s.host.access == h.access
    ensures s.room.lock == LockState(w.own, true, t, "") && s.host.lock == w.own && s.host.lockExp == t + LOCK_TTL
    ensures !s.room.conf.conflict && s.room.saves.nextRetryAt == 0 && !s.room.saves.firstDone
    ensures s.room.tok == Tokens(map["u" := info], map[])
  {
    FirstPass.ObservedReached(w, h, t, "u", info);
    var entering := Step(w, FirstPass.Observed(w, h, t, "u", info), Enter(false));
    ReachedNext(w, h, t, FirstPass.Observed(w, h, t, "u", info), Enter(false));
    FirstPass.OneTokenLadder("u", info, "", t);
    FirstPass.LongLived(Tokens(map["u" := info], map[]), t);
    s := FirstPass.ComesToRest(w, entering);
    FirstPass.ReachedAlone(w, h, t, entering, s);
  }

  lemma LapsesFrom(w: World, s0: Sys, t: Time, info: TokenInfo, data: Bytes) returns (s: Sys)
    requires s0.pc == Idle && s0.indexed && !s0.room.life.inFlight && s0.now == t && LastServed(s0.log) == Some(t)
    requires s0.room.lock == LockState(w.own, true, t, "") && s0.host.lock == w.own && s0.host.lockExp == t + LOCK_TTL
    requires !s0.room.conf.conflict && s0.room.saves.nextRetryAt == 0 && !s0.room.saves.firstDone && w.own != ""
    requires s0.room.tok == Tokens(map["u" := info], map[]) && FirstPass.Good(s0.host, t + 15 * MINUTE, info)
    ensures GoesTo(w, s0, s, D) && Occupied(s) && s.room.lock.haveLock && EffectiveLock(s.host, s.now) != w.own
  {
    var s1 := UserLeaves(w, s0, t, info, data);
    var s2 := ComesToFlush(w, s0, s1, t, info.token);
    s := LapsesIn(w, s0, s2, s2.pc.pass, t, info.token);
  }

  /** From the failing flush on. */
  lemma LapsesIn(w: World, s0: Sys, s: Sys, pass: Pass, t: Time, token: string) returns (s': Sys)
    requires GoesTo(w, s0, s, D) && s.pc == Snapshot(Closing, pass) && pass.now == s.now && Left(w, s, t, token)
    requires LastPlanned(s.log) == Some(s.now) && w.own != ""
    ensures GoesTo(w, s0, s', D) && Occupied(s') && s'.room.lock.haveLock && EffectiveLock(s'.host, s'.now) != w.own
  {
    var s1 := FlushFails(w, s0, s, pass, t, token);
    var s2 := StaysOpen(w, s0, s1, pass);
    GoesOn(w, s0, s2, Tick(t + 31 * MINUTE), D);
    s' := Step(w, s2, Tick(t + 31 * MINUTE));
  }
}
