/** When a room leaves the index, and what may still be unsaved in it then. */
module Removal {
  import opened Basics
  import opened WopiHost
  import opened RoomModel
  import opened SaveMachine
  import FirstPass
  import Takeover

  /** The room became dirty after performClose's last look at it, and was not reloaded since. */
  predicate DirtySinceLook(h: History) {
    match h
    case Nothing => false
    case Then(past, e) =>
      if e.Looked? then false
      else if e.Edited? then true
      else if e.Resolved? then e.overwrite
      else DirtySinceLook(past)
  }

  /** Since when every pass found the room deserted, if the last one did. */
  function IdleFrom(h: History): Option<Time> {
    match h
    case Nothing => None
    case Then(past, e) =>
      if !e.Planned? then IdleFrom(past)
      else if !e.idle then None
      else if IdleFrom(past).None? then Some(e.at)
      else IdleFrom(past)
  }

  /** Every pass of the last fifteen minutes and more found the room deserted, this one too. */
  predicate LongIdle(h: History) {
    IdleFrom(h).Some? && LastPlanned(h).Some? && LastPlanned(h).value >= IdleFrom(h).value + 15 * MINUTE
  }

  /**
   A collected room is clean and was deserted for a quarter of an hour; a closed one is dirty exactly
   when a handler got in after the last look.
   */
  ghost predicate Explained(h: History) {
    match h
    case Nothing => true
    case Then(past, e) =>
      && Explained(past)
      && (e.Removed? ==> if e.byClose then e.dirty == DirtySinceLook(past) else !e.dirty && LongIdle(past))
  }

  /** Between performClose's last look and its delete. */
  predicate InWindow(pc: PC) {
    match pc
    case Shutting(_, at) => !at.CloseRead? && !at.CloseRecheck?
    case Raise(_, _, next) => InWindow(next)
    case Notify(next) => InWindow(next)
    case _ => false
  }

  /** The pass the worker is in is a collection. */
  predicate Collects(pc: PC) {
    match pc
    case Passing(pass, at) => at.Warn? && pass.gcDue
    case Collecting(_, _) => true
    case Raise(_, _, next) => Collects(next)
    case Notify(next) => Collects(next)
    case _ => false
  }

  /** The plan is behind the worker. */
  predicate Planless(pc: PC) {
    !pc.Plan? && ((pc.Raise? || pc.Notify?) ==> Planless(pc.next))
  }

  ghost predicate Inv(s: Sys) {
    && Explained(s.log)
    && (InWindow(s.pc) ==> s.room.doc.dirty == DirtySinceLook(s.log))
    && (Collects(s.pc) ==> LongIdle(s.log))
    && (s.room.life.idleSince != 0 ==> IdleFrom(s.log).Some? && IdleFrom(s.log).value <= s.room.life.idleSince)
    && (IdleFrom(s.log).Some? ==> IdleFrom(s.log).value <= s.now)
    && (s.pc.Plan? ==> s.pc.now <= s.now && (IdleFrom(s.log).Some? ==> IdleFrom(s.log).value <= s.pc.now))
    && (s.pc.Raise? || s.pc.Notify? ==> Planless(s.pc.next))
  }

  lemma KeepsGc(s: Sys, i: Input, pass: Pass, at: GcAt)
    requires Inv(s) && s.pc == Collecting(pass, at)
    ensures Inv(GcStep(s, i, pass, at))
  {
  }

  lemma KeepsClose(s: Sys, i: Input, pass: Pass, at: CloseAt)
    requires Inv(s) && s.pc == Shutting(pass, at)
    ensures Inv(CloseStep(s, i, pass, at))
  {
  }

  lemma OutsideDenied(c: Caller, token: string, error: WopiError)
    ensures !InWindow(Denied(c, token, error)) && !Collects(Denied(c, token, error))
    ensures Planless(Denied(c, token, error))
  {
  }

  lemma OutsideTryNext(sv: Save, token: string, error: WopiError)
    ensures !InWindow(TryNext(sv, token, error)) && !InWindow(Try(Advance(sv, error)))
    ensures !Collects(TryNext(sv, token, error)) && !Collects(Try(Advance(sv, error)))
    ensures Planless(TryNext(sv, token, error)) && Planless(Try(Advance(sv, error)))
  {
  }

  lemma OutsideAfter(origin: Origin, pass: Pass)
    ensures !InWindow(AfterSave(origin, pass)) && !InWindow(AfterCheck(pass))
    ensures !Collects(AfterSave(origin, pass)) && !Collects(AfterCheck(pass))
    ensures Planless(AfterSave(origin, pass)) && Planless(AfterCheck(pass))
  {
  }

  lemma KeepsPass(s: Sys, i: Input)
    requires Inv(s) && (s.pc.Begin? || s.pc.Passing? || s.pc.Snapshot?)
    ensures Inv(Act(s, i))
  {
    if s.pc.Passing? { OutsideAfter(Scheduled, s.pc.pass); }
    if s.pc.Snapshot? { OutsideAfter(s.pc.origin, s.pc.pass); }
  }

  lemma KeepsPlan(s: Sys, i: Input)
    requires Inv(s) && s.pc.Plan?
    ensures Inv(Act(s, i))
  {
    var r := s.room.(tok := Prune(s.room.tok, s.pc.now));
    DesertedMeans(s.room, s.pc.now);
  }

  lemma DesertedMeans(r: Room, now: Time)
    ensures Deserted(r, now) <==> Idling(r, Live(r.(tok := Prune(r.tok, now)), now))
  {
    var pruned := r.(tok := Prune(r.tok, now));
    if u :| u in r.tok.tokens && now < r.tok.tokens[u].expiresAt { assert Unexpired(pruned.tok, now, u); }
  }

  lemma OutsideRefresh(rf: Refresh, token: string, a: Answer)
    ensures !InWindow(RefreshReply(rf, token, a)) && !InWindow(RefreshTry(rf))
    ensures !Collects(RefreshReply(rf, token, a)) && !Collects(RefreshTry(rf))
    ensures Planless(RefreshReply(rf, token, a)) && Planless(RefreshTry(rf))
  {
  }

  lemma KeepsRefresh(s: Sys, i: Input, rf: Refresh, at: RefreshAt)
    requires Inv(s) && s.pc == Refreshing(rf, at)
    ensures Inv(RefreshStep(s, i, rf, at))
  {
    OutsideRefresh(rf, if at.RefreshCall? then at.token else "", i.answer);
  }

  lemma KeepsTail(s: Sys, i: Input)
    requires Inv(s) && (s.pc.Raise? || s.pc.Notify? || s.pc.Exit?)
    ensures Inv(Act(s, i))
  {
  }

  lemma KeepsEnsure(s: Sys, i: Input, c: Caller, token: string, at: EnsureAt)
    requires Inv(s) && s.pc == Ensuring(c, token, at)
    ensures Inv(EnsureStep(s, i, c, token, at))
  {
    if at.RestoreForce? { OutsideDenied(c, token, at.error); }
    if i.answer.Err? {
      OutsideDenied(c, token, i.answer.error);
      if i.answer.error.LockConflict? { OutsideDenied(c, token, LockConflict(i.answer.error.currentLock)); }
    }
  }

  lemma KeepsSave(s: Sys, i: Input, sv: Save, at: SaveAt)
    requires Inv(s) && s.pc == Saving(sv, at)
    ensures Inv(SaveStep(s, i, sv, at))
  {
    OutsideAfter(sv.origin, sv.pass);
    match at {
      case Put(token) => if i.answer.Err? { OutsideTryNext(sv, token, i.answer.error); }
      case PutUnlocked(token, error) => OutsideTryNext(sv, token, error);
      case DropLock(error) => OutsideTryNext(sv, "", error);
      case _ =>
    }
  }

  lemma KeepsAct(s: Sys, i: Input)
    requires Inv(s)
    ensures Inv(Act(s, i))
  {
    match s.pc {
      case Idle =>
      case Collecting(pass, at) => KeepsGc(s, i, pass, at);
      case Shutting(pass, at) => KeepsClose(s, i, pass, at);
      case Ensuring(c, token, at) => KeepsEnsure(s, i, c, token, at);
      case Saving(sv, at) => KeepsSave(s, i, sv, at);
      case Refreshing(rf, at) => KeepsRefresh(s, i, rf, at);
      case Plan(_) => KeepsPlan(s, i);
      case _ => if s.pc.Raise? || s.pc.Notify? || s.pc.Exit? { KeepsTail(s, i); } else { KeepsPass(s, i); }
    }
  }

  lemma KeepsStep(w: World, s: Sys, l: Label)
    requires Inv(s)
    ensures Inv(Step(w, s, l))
  {
    if l.Work? {
      match RequestOf(s.pc) {
        case None => KeepsAct(s, InputOf(s, l.choice.pick, Ok("")));
        case Some(q) =>
          var (h, a) := Call(w, s, l.choice, q);
          KeepsAct(s.(host := h), InputOf(s, l.choice.pick, a));
      }
    }
  }

  lemma {:induction false} Reachable(w: World, h: HostFile, t: Time, ls: seq<Label>)
    ensures Inv(Run(w, Start(w, h, t), ls))
  {
    if ls == [] {
    } else {
      Reachable(w, h, t, ls[..|ls| - 1]);
      KeepsStep(w, Run(w, Start(w, h, t), ls[..|ls| - 1]), ls[|ls| - 1]);
    }
  }

  // --------------------------------------------------------------- theorems

  /** What the step that takes the room out of the index leaves behind. */
  ghost predicate Left(s: Sys, l: Label, s': Sys) {
    && l.Work? && s'.log == Then(s.log, Removed(s.room.doc.dirty, s.pc.Shutting?))
    && (s.pc.Collecting? ==> Deserted(s.room, s.now) && LongIdle(s.log))
    && (!s.pc.Collecting? ==> (s.room.doc.dirty <==> DirtySinceLook(s.log)))
  }

  lemma StepLeaves(w: World, s: Sys, ch: Choice)
    requires Inv(s)
    ensures var s' := WorkerStep(w, s, ch); s.indexed && !s'.indexed ==> Left(s, Work(ch), s')
  {
    LeavesOnlyByDelete(w, s, ch);
    if !Live(s.room, s.now) { NotLive(s.room, s.now); }
  }

  lemma NotLive(r: Room, now: Time)
    requires !Live(r, now)
    ensures !r.doc.dirty && r.life.liveUserCount == 0
    ensures forall u :: u in r.tok.tokens ==> r.tok.tokens[u].expiresAt <= now
  {
    forall u | u in r.tok.tokens ensures r.tok.tokens[u].expiresAt <= now { assert !Unexpired(r.tok, now, u); }
  }

  lemma OthersKeepRoom(w: World, s: Sys, l: Label)
    requires !l.Work?
    ensures Step(w, s, l).indexed == s.indexed
  {
  }

  /**
   Idle collection drops a room only that is deserted, and that every pass of the last fifteen minutes
   found so. A close drops a dirty room exactly when a handler made it dirty between the last look
   and the delete.
   */
  lemma {:induction false} RemovalsExplained(w: World, h: HostFile, t: Time, ls: seq<Label>, l: Label)
    ensures var s, s' := Run(w, Start(w, h, t), ls), Run(w, Start(w, h, t), ls + [l]);
      && Explained(s'.log)
      && (s.indexed && !s'.indexed ==> Left(s, l, s'))
  {
    var s := Run(w, Start(w, h, t), ls);
    Reachable(w, h, t, ls);
    Reachable(w, h, t, ls + [l]);
    RunExtends(w, Start(w, h, t), ls, l);
    if l.Work? { StepLeaves(w, s, l.choice); } else { OthersKeepRoom(w, s, l); }
  }

  lemma LeavesOnlyByDelete(w: World, s: Sys, ch: Choice)
    ensures var s' := WorkerStep(w, s, ch);
      s.indexed && !s'.indexed ==>
        && s'.log == Then(s.log, Removed(s.room.doc.dirty, s.pc.Shutting?))
        && (if s.pc.Shutting? then s.pc.closeAt.CloseDelete?
            else s.pc.Collecting? && Idling(s.room, Live(s.room, s.now)))
  {
    if RequestOf(s.pc).None? { ActLeaves(s, InputOf(s, ch.pick, Ok(""))); }
    else {
      var (h, a) := Call(w, s, ch, RequestOf(s.pc).value);
      ActLeaves(s.(host := h), InputOf(s, ch.pick, a));
    }
  }

  lemma ActLeaves(s: Sys, i: Input)
    ensures var s' := Act(s, i);
      s.indexed && !s'.indexed ==>
        && RequestOf(s.pc).None?
        && s'.log == Then(s.log, Removed(s.room.doc.dirty, s.pc.Shutting?))
        && (if s.pc.Shutting? then s.pc.closeAt.CloseDelete? else s.pc.Collecting? && Idling(s.room, i.live))
  {
  }

  // ------------------------------------------------------------------------ runs

  function Removals(h: History): nat {
    match h
    case Nothing => 0
    case Then(past, e) => Removals(past) + if e.Removed? then 1 else 0
  }

  /** A clean room past its grace, without a lock. */
  ghost predicate Abandoned(s: Sys) {
    CloseDue(s.room.life, s.now) && !s.room.doc.dirty && !s.room.lock.haveLock
  }

  /** What the worker's steps through a close leave alone. */
  ghost predicate Alike(s: Sys, s': Sys) {
    && s'.now == s.now && s'.stamps == s.stamps && s'.room.doc == s.room.doc && s'.room.lock == s.room.lock
    && s'.room.life.closing == s.room.life.closing && s'.room.life.closeAt == s.room.life.closeAt
  }

  /** The only member leaves, a post reads the clock, the grace elapses, and the worker enters the room. */
  lemma GraceElapses(w: World, h: HostFile, t: Time) returns (s: Sys)
    ensures Reached(w, h, t, s) && s.pc == Begin(false) && Abandoned(s) && s.indexed && s.stamps == {t}
    ensures Removals(s.log) == 0
  {
    FirstPass.StartReached(w, h, t);
    var s0 := Start(w, h, t);
    ReachedNext(w, h, t, s0, DoLeave(true));
    var s1 := Step(w, s0, DoLeave(true));
    ReachedNext(w, h, t, s1, ReadClock);
    var s2 := Step(w, s1, ReadClock);
    ReachedNext(w, h, t, s2, Tick(t + CLOSE_GRACE));
    var s3 := Step(w, s2, Tick(t + CLOSE_GRACE));
    ReachedNext(w, h, t, s3, Enter(false));
    s := Step(w, s3, Enter(false));
  }

  /** The worker comes to the close. */
  lemma CloseBegins(w: World, s: Sys) returns (s': Sys)
    requires s.pc == Begin(false) && Abandoned(s)
    ensures Takeover.Leads(w, s, s') && Alike(s, s') && s'.indexed == s.indexed && Removals(s'.log) == Removals(s.log)
    ensures s'.pc == Shutting(PlanOf(s.room, s.now), CloseRead)
  {
    var s1, i1 := Takeover.Section(w, s);
    var s2 := Takeover.Plans(w, s1);
    var i3;
    s', i3 := Takeover.Section(w, s2);
    Takeover.LeadsTrans(w, s, s1, s2);
    Takeover.LeadsTrans(w, s, s2, s');
  }

  /** It looks twice, finds nothing to save or unlock, and is about to delete. */
  lemma LooksTwice(w: World, s: Sys, pass: Pass) returns (s': Sys)
    requires s.pc == Shutting(pass, CloseRead) && pass.now == s.now && Abandoned(s)
    ensures Takeover.Leads(w, s, s') && Alike(s, s') && s'.indexed == s.indexed && Removals(s'.log) == Removals(s.log)
    ensures s'.pc == Shutting(pass, CloseDelete)
  {
    var s1, i1 := Takeover.Section(w, s);
    assert s1 == s.(pc := Shutting(pass, CloseRecheck));
    var i2;
    s', i2 := Takeover.Section(w, s1);
    Takeover.LeadsTrans(w, s, s1, s');
  }

  lemma Deletes(w: World, s: Sys, pass: Pass) returns (s': Sys)
    requires s.pc == Shutting(pass, CloseDelete)
    ensures Takeover.Leads(w, s, s') && Alike(s, s') && !s'.indexed && s'.pc == FINISH
    ensures s'.log == Then(s.log, Removed(s.room.doc.dirty, true))
  {
    var i;
    s', i := Takeover.Section(w, s);
  }

  /** One undisturbed pass removes the room, whether or not it was removed before. */
  lemma CloseRemoves(w: World, h: HostFile, t: Time, s: Sys) returns (s': Sys)
    requires Reached(w, h, t, s) && s.pc == Begin(false) && Abandoned(s)
    ensures Reached(w, h, t, s') && s'.pc == Idle && !s'.room.life.inFlight && Abandoned(s')
    ensures Removals(s'.log) == Removals(s.log) + 1
  {
    var pass := PlanOf(s.room, s.now);
    var s1 := CloseBegins(w, s);
    var s2 := LooksTwice(w, s1, pass);
    var s3 := Deletes(w, s2, pass);
    s' := Leaves(w, s3);
    FirstPass.ReachedAlone(w, h, t, s, s1);
    FirstPass.ReachedAlone(w, h, t, s1, s2);
    FirstPass.ReachedAlone(w, h, t, s2, s3);
    FirstPass.ReachedAlone(w, h, t, s3, s');
  }

  lemma TellsLast(w: World, s: Sys) returns (s': Sys)
    requires s.pc == FINISH
    ensures Takeover.Leads(w, s, s') && Alike(s, s') && s'.pc == Exit
    ensures Removals(s'.log) == Removals(s.log)
  {
    var i;
    s', i := Takeover.Section(w, s);
  }

  lemma Leaves(w: World, s: Sys) returns (s': Sys)
    requires s.pc == FINISH
    ensures Takeover.Leads(w, s, s') && Alike(s, s') && s'.pc == Idle && !s'.room.life.inFlight
    ensures Removals(s'.log) == Removals(s.log)
  {
    var s1 := TellsLast(w, s);
    s' := Takeover.Exits(w, s1);
    Takeover.LeadsTrans(w, s, s1, s');
  }

  /**
   The window is real: a room whose only member left, and whose close is past its last look when
   a scene is posted, leaves the index with that scene unsaved.
   */
  lemma CloseCanDropAnEdit(w: World, h: HostFile, t: Time, data: Bytes)
    ensures exists s ::
      && Reached(w, h, t, s) && !s.indexed && s.room.doc.dirty && s.room.doc.scene == Some(data)
      && s.log.Then? && s.log.last == Removed(true, true)
  {
    var s0 := GraceElapses(w, h, t);
    var pass := PlanOf(s0.room, s0.now);
    var s1 := CloseBegins(w, s0);
    FirstPass.ReachedAlone(w, h, t, s0, s1);
    var s2 := LooksTwice(w, s1, pass);
    FirstPass.ReachedAlone(w, h, t, s1, s2);
    ReachedNext(w, h, t, s2, DoPutScene(data, "", t));
    var s3 := Step(w, s2, DoPutScene(data, "", t));
    var s4 := Deletes(w, s3, pass);
    FirstPass.ReachedAlone(w, h, t, s3, s4);
  }

  /**
   A record can be removed twice: evaluateAll comes to a record once for each of its spellings, and
   a second pass over a removed room closes and deletes it again.
   */
  lemma RemovedTwice(w: World, h: HostFile, t: Time)
    ensures exists s :: Reached(w, h, t, s) && Removals(s.log) == 2
  {
    var s0 := GraceElapses(w, h, t);
    var s1 := CloseRemoves(w, h, t, s0);
    ReachedNext(w, h, t, s1, Enter(false));
    var s2 := CloseRemoves(w, h, t, Step(w, s1, Enter(false)));
  }

  /** Two more sections end a pass. */
  lemma Rests(w: World, s: Sys) returns (s': Sys)
    requires s.pc == FINISH
    ensures Takeover.Leads(w, s, s') && s'.pc == Idle && s'.now == s.now && s'.indexed == s.indexed
    ensures s'.room == s.room.(reported := s'.room.reported, life := s.room.life.(inFlight := false))
    ensures IdleFrom(s'.log) == IdleFrom(s.log)
  {
    var s1, i1 := Takeover.Section(w, s);
    assert s1.pc == Exit && s1.room == s.room.(reported := s1.room.reported);
    var i2;
    s', i2 := Takeover.Section(w, s1);
    Takeover.LeadsTrans(w, s, s1, s');
  }

  /** Nobody was ever in the room, and it holds nothing. */
  ghost predicate Blank(s: Sys, since: Time) {
    && s.room.tok == Tokens(map[], map[]) && !s.room.doc.dirty && !s.room.lock.haveLock && !s.room.conf.conflict
    && !s.room.ver.pendingCheck && s.room.life.liveUserCount == 0 && !s.room.life.closing
    && s.room.life.idleSince == since && IdleFrom(s.log) == (if since == 0 then None else Some(since))
  }

  lemma BlankPlan(r: Room, now: Time)
    requires r.tok == Tokens(map[], map[]) && !r.doc.dirty && !r.lock.haveLock && !r.conf.conflict
    requires !r.ver.pendingCheck && r.life.liveUserCount == 0 && !r.life.closing
    ensures var pass := PlanOf(r, now); var since := if r.life.idleSince == 0 then now else r.life.idleSince;
      && !pass.closeDue && !pass.versionCheckDue && !pass.needRefresh && !pass.lockDue && !pass.haveLock
      && (pass.gcDue <==> now as int - since >= 15 * MINUTE)
      && RoomModel.Planned(r, now).life == r.life.(idleSince := since) && RoomModel.Planned(r, now).tok == r.tok
      && Deserted(r, now)
  {
    assert Prune(r.tok, now) == r.tok;
    DesertedMeans(r, now);
  }

  /** A pass over a blank room notes the time and is over, */
  lemma NotesIdle(w: World, s: Sys) returns (s': Sys)
    requires s.pc == Begin(false) && Blank(s, 0) && s.now > 0
    ensures Takeover.Leads(w, s, s') && s'.pc == FINISH
    ensures s'.now == s.now && s'.indexed == s.indexed && Blank(s', s.now)
  {
    var s1, i1 := Takeover.Section(w, s);
    var s2 := Takeover.Plans(w, s1);
    BlankPlan(s.room, s.now);
    assert s2.pc == Passing(PlanOf(s.room, s.now), Warn) && Blank(s2, s.now);
    s' := SkipsSave(w, s2);
    Takeover.LeadsTrans(w, s, s1, s2);
    Takeover.LeadsTrans(w, s, s2, s');
  }

  lemma SkipsSave(w: World, s: Sys) returns (s': Sys)
    requires s.pc.Passing? && s.pc.passAt.Warn? && Blank(s, s.now)
    requires var p := s.pc.pass; !p.gcDue && !p.closeDue && !p.versionCheckDue && !p.needRefresh && !p.lockDue
    ensures Takeover.Leads(w, s, s') && s'.pc == FINISH
    ensures s'.now == s.now && s'.indexed == s.indexed && Blank(s', s.now)
  {
    var s1, i1 := Takeover.Section(w, s);
    assert WarnTokens(s.room.tok, s.pc.pass.now) == s.room.tok;
    assert s1 == s.(pc := Passing(s.pc.pass, SaveCheck));
    var i2;
    s', i2 := Takeover.Section(w, s1);
    Takeover.LeadsTrans(w, s, s1, s');
  }

  /** and one a quarter of an hour later collects it. */
  lemma CollectsBlank(w: World, s: Sys, since: Time) returns (s': Sys)
    requires s.pc == Begin(false) && Blank(s, since) && since > 0 && s.now == since + 15 * MINUTE
    ensures Takeover.Leads(w, s, s') && !s'.indexed && s'.log.Then? && s'.log.last == Removed(false, false)
    ensures s'.now == s.now && IdleFrom(s'.log.past) == Some(since)
  {
    var s1, i1 := Takeover.Section(w, s);
    var s2 := Takeover.Plans(w, s1);
    BlankPlan(s.room, s.now);
    assert s2.pc == Passing(PlanOf(s.room, s.now), Warn) && Blank(s2, since);
    s' := DeletesBlank(w, s2);
    Takeover.LeadsTrans(w, s, s1, s2);
    Takeover.LeadsTrans(w, s, s2, s');
  }

  lemma DeletesBlank(w: World, s: Sys) returns (s': Sys)
    requires s.pc.Passing? && s.pc.passAt.Warn? && s.pc.pass.gcDue && !s.pc.pass.haveLock
    requires Blank(s, s.room.life.idleSince)
    ensures Takeover.Leads(w, s, s') && !s'.indexed && s'.log == Then(s.log, Removed(false, false)) && s'.now == s.now
  {
    var s1, i1 := Takeover.Section(w, s);
    assert WarnTokens(s.room.tok, s.pc.pass.now) == s.room.tok;
    assert s1 == s.(pc := Collecting(s.pc.pass, GcDelete));
    var i2;
    s', i2 := Takeover.Section(w, s1);
    assert !i2.live;
    Takeover.LeadsTrans(w, s, s1, s');
  }

  lemma RestsBlank(w: World, h: HostFile, t: Time) returns (s: Sys)
    requires t > 0
    ensures Reached(w, h, t, s) && s.pc == Idle && !s.room.life.inFlight && Blank(s, t) && s.now == t
  {
    FirstPass.StartReached(w, h, t);
    var s0 := Start(w, h, t);
    ReachedNext(w, h, t, s0, Enter(false));
    var s1 := Step(w, s0, Enter(false));
    var s2 := NotesIdle(w, s1);
    FirstPass.ReachedAlone(w, h, t, s1, s2);
    s := Rests(w, s2);
    FirstPass.ReachedAlone(w, h, t, s2, s);
  }

  /** The fifteen minutes are exact: a room deserted from the start is collected by the pass at their end. */
  lemma CollectedAfterFifteenMinutes(w: World, h: HostFile, t: Time)
    requires t > 0
    ensures exists s ::
      && Reached(w, h, t, s) && !s.indexed && s.now == t + 15 * MINUTE
      && s.log.Then? && s.log.last == Removed(false, false) && IdleFrom(s.log.past) == Some(t)
  {
    var s0 := RestsBlank(w, h, t);
    ReachedNext(w, h, t, s0, Tick(t + 15 * MINUTE));
    var s1 := Step(w, s0, Tick(t + 15 * MINUTE));
    ReachedNext(w, h, t, s1, Enter(false));
    var s2 := Step(w, s1, Enter(false));
    var s3 := CollectsBlank(w, s2, t);
    FirstPass.ReachedAlone(w, h, t, s2, s3);
  }
}
