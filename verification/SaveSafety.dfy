/**
 No edit is lost, a conflict freezes the host copy, the pushes and flags tell the truth.

 `Inv` holds in every reachable state: each flag of the room is what the history says it must
 be. The theorems at the end read it off for every run.
 */
module SaveSafety {
  import opened Basics
  import opened WopiHost
  import opened RoomModel
  import opened SaveMachine

  // ----------------------------------------------------- reading the history

  /** The body of the last PutFile the host accepted from this room. */
  function LastStored(h: History): Option<Bytes> {
    match h
    case Nothing => None
    case Then(past, e) => if e.Stored? then Some(e.body) else LastStored(past)
  }

  /** The last scene a client posted. */
  function LastEdited(h: History): Option<Bytes> {
    match h
    case Nothing => None
    case Then(past, e) => if e.Edited? then Some(e.scene) else LastEdited(past)
  }

  /** How many saves began. */
  function Starts(h: History): nat {
    match h
    case Nothing => 0
    case Then(past, e) => Starts(past) + if e.Started? then 1 else 0
  }

  /** How many conflicts were resolved. */
  function Resolves(h: History): nat {
    match h
    case Nothing => 0
    case Then(past, e) => Resolves(past) + if e.Resolved? then 1 else 0
  }

  /** Some scene was posted and not dropped by a reload since. */
  predicate HasScene(h: History) {
    match h
    case Nothing => false
    case Then(past, e) =>
      if e.Edited? then true else if e.Resolved? then e.overwrite && HasScene(past) else HasScene(past)
  }

  predicate EditedSinceStart(h: History) {
    match h
    case Nothing => false
    case Then(past, e) => if e.Edited? then true else if e.Started? then false else EditedSinceStart(past)
  }

  /** Some change still has to reach the host: a save only covers the edits posted before it started. */
  predicate Unsaved(h: History) {
    match h
    case Nothing => false
    case Then(past, e) =>
      if e.Edited? then true
      else if e.Resolved? then e.overwrite
      else if e.Saved? then EditedSinceStart(past)
      else Unsaved(past)
  }

  /** A conflict was raised and no ResolveConflict has lowered it since. */
  function InConflict(h: History): bool {
    match h
    case Nothing => false
    case Then(past, e) => if e.Raised? then true else if e.Resolved? then false else InConflict(past)
  }

  /** No PutFile is accepted from a raise until the next resolve. */
  ghost predicate Frozen(h: History) {
    match h
    case Nothing => true
    case Then(past, e) => Frozen(past) && (e.Stored? ==> !InConflict(past))
  }

  /** An unlocked PutFile is accepted only in the room's first save attempt, and as its first store. */
  ghost predicate UnlockedOnlyFirst(h: History) {
    match h
    case Nothing => true
    case Then(past, e) =>
      && UnlockedOnlyFirst(past)
      && (e.Stored? && !e.locked ==> Starts(past) == 1 && LastStored(past).None?)
  }

  /** What clients were last told; before the first push they assume the quiet state. */
  function LastPushed(h: History): Reported {
    match h
    case Nothing => Reported(false, false)
    case Then(past, e) => if e.Pushed? then e.state else LastPushed(past)
  }

  ghost predicate NoRepeatedPush(h: History) {
    match h
    case Nothing => true
    case Then(past, e) => NoRepeatedPush(past) && (e.Pushed? ==> e.state != LastPushed(past))
  }

  function Count(answers: Answers): nat {
    match answers
    case Silent => 0
    case Heard(before, _) => Count(before) + 1
  }

  predicate OnlyNoWrite(answers: Answers) {
    match answers
    case Silent => true
    case Heard(before, error) => OnlyNoWrite(before) && error.NoWriteAccess?
  }

  /** A pass tried at least one token and every one of them lacks write access. */
  predicate AllNoWrite(answers: Answers) {
    answers.Heard? && OnlyNoWrite(answers)
  }

  /** Since the last recorded save some pass found only 401s. */
  predicate WriteLost(h: History) {
    match h
    case Nothing => false
    case Then(past, e) =>
      if e.Saved? then false
      else WriteLost(past) || ((e.Failed? || e.RefreshFailed?) && AllNoWrite(e.answers))
  }

  /** When the first save that failed since the last recorded one began, or 0. */
  function FirstFailure(h: History): Time {
    match h
    case Nothing => 0
    case Then(past, e) =>
      if e.Saved? then 0 else if e.Failed? && FirstFailure(past) == 0 then e.at else FirstFailure(past)
  }

  /**
   Clients were last told of a conflict exactly if one is open, and of a stall exactly if a change
   is unsaved and write access was lost or saves have been failing for five minutes.
   */
  ghost predicate TruthTold(h: History, now: Time) {
    && (LastPushed(h).conflict <==> InConflict(h))
    && (LastPushed(h).saveStalled <==>
          && Unsaved(h)
          && (WriteLost(h) || (FirstFailure(h) != 0 && now >= FirstFailure(h) + 5 * MINUTE)))
  }

  // -------------------------------------------------------------- invariant

  /** performSave's locals, when the worker is inside its candidate loop. */
  function InSave(pc: PC): Option<Save> {
    match pc
    case Saving(sv, _) => Some(sv)
    case Ensuring(ForSave(sv), _, _) => Some(sv)
    case _ => None
  }

  /** `allNoWrite` and `i` after the answers so far. */
  predicate Tally(allNoWrite: bool, i: nat, answers: Answers) {
    i == Count(answers) && allNoWrite == OnlyNoWrite(answers)
  }

  predicate SaveShape(sv: Save) {
    if sv.ladder == [] then sv.i == 0 && !sv.allNoWrite && sv.answers == Silent
    else sv.i <= |sv.ladder| && Tally(sv.allNoWrite, sv.i, sv.answers)
  }

  predicate RefreshShape(rf: Refresh) {
    rf.ladder != [] && rf.i <= |rf.ladder| && Tally(rf.allNoWrite, rf.i, rf.answers)
  }

  predicate CallerShape(c: Caller) {
    match c
    case ForSave(sv) => SaveShape(sv) && sv.i < |sv.ladder|
    case ForRefresh(rf) => RefreshShape(rf) && rf.i < |rf.ladder|
    case ForEager(_) => true
  }

  /** The loops are inside their ladders, and a raised conflict never returns into a save loop. */
  predicate Shape(pc: PC) {
    match pc
    case Saving(sv, at) =>
      && SaveShape(sv)
      && (at.Fail? ==> sv.i == |sv.ladder|)
      && (!at.Fail? && !at.SaveMarkToken? ==> sv.i < |sv.ladder|)
      && (at.SaveMarkToken? ==> sv.ladder != [])
      && (at.PutUnlocked? ==> sv.firstEver && !at.error.NoWriteAccess?)
    case Refreshing(rf, at) =>
      && RefreshShape(rf)
      && (at.RefreshDone? ==> rf.i == |rf.ladder|)
      && (at.RefreshCall? ==> rf.i < |rf.ladder|)
    case Ensuring(c, _, _) => CallerShape(c)
    case Raise(_, _, next) => next != Idle && InSave(next).None? && Shape(next)
    case Notify(next) => next != Idle && InSave(next).None? && Shape(next)
    case _ => true
  }

  lemma ShapeDenied(c: Caller, token: string, error: WopiError)
    requires CallerShape(c)
    ensures var pc := Denied(c, token, error); Shape(pc) && pc != Idle && (error.LockConflict? ==> InSave(pc).None?)
  {
  }

  lemma ShapeTryNext(sv: Save, token: string, error: WopiError)
    requires SaveShape(sv) && sv.i < |sv.ladder|
    ensures Shape(TryNext(sv, token, error)) && Shape(Try(Advance(sv, error)))
  {
  }

  lemma ShapeLock(c: Caller, token: string, lockValue: string, retry: bool, a: Answer)
    requires CallerShape(c)
    ensures var pc := LockReply(c, token, lockValue, retry, a); Shape(pc) && pc != Idle
  {
    if a.Err? {
      ShapeDenied(c, token, a.error);
      if a.error.LockConflict? { ShapeDenied(c, token, LockConflict(a.error.currentLock)); }
    }
  }

  lemma ShapeRefresh(s: Sys, i: Input, rf: Refresh, at: RefreshAt)
    requires Shape(s.pc) && s.pc == Refreshing(rf, at)
    ensures Shape(RefreshStep(s, i, rf, at).pc) && RefreshStep(s, i, rf, at).pc != Idle
  {
  }

  lemma ShapeAfter(origin: Origin, pass: Pass)
    ensures Shape(AfterSave(origin, pass)) && InSave(AfterSave(origin, pass)).None?
    ensures Shape(AfterWarn(pass)) && InSave(AfterWarn(pass)).None?
    ensures Shape(AfterCheck(pass)) && InSave(AfterCheck(pass)).None?
  {
  }

  lemma ShapePassing(s: Sys, i: Input, pass: Pass, at: PassAt)
    requires s.pc == Passing(pass, at)
    ensures Shape(PassStep(s, i, pass, at).pc) && PassStep(s, i, pass, at).pc != Idle
  {
    ShapeAfter(Scheduled, pass);
  }

  lemma ShapePass(s: Sys, i: Input)
    requires Shape(s.pc) && s.pc != Idle && !s.pc.Ensuring? && !s.pc.Saving? && !s.pc.Refreshing?
    ensures Shape(Act(s, i).pc)
    ensures Act(s, i).pc == Idle <==> s.pc == Exit
  {
    match s.pc {
      case Passing(pass, at) => ShapePassing(s, i, pass, at);
      case Snapshot(origin, pass) => ShapeAfter(origin, pass);
      case _ =>
    }
  }

  lemma {:induction false} ShapeEnsure(s: Sys, i: Input, c: Caller, token: string, at: EnsureAt)
    requires Shape(s.pc) && s.pc == Ensuring(c, token, at)
    ensures Shape(EnsureStep(s, i, c, token, at).pc) && EnsureStep(s, i, c, token, at).pc != Idle
  {
    match at {
      case Swap(_, _) => if i.answer.Err? { ShapeDenied(c, token, i.answer.error); }
      case RestoreForce(_, error) => ShapeDenied(c, token, error);
      case LockCall(lockValue) => ShapeLock(c, token, lockValue, true, i.answer);
      case LockAgain(lockValue) => ShapeLock(c, token, lockValue, false, i.answer);
      case _ =>
    }
  }

  lemma ShapePutReply(sv: Save, token: string, a: Answer)
    requires SaveShape(sv) && sv.i < |sv.ladder|
    ensures Shape(PutReply(sv, token, a)) && PutReply(sv, token, a) != Idle
  {
    if a.Err? { ShapeTryNext(sv, token, a.error); }
    ShapeAfter(sv.origin, sv.pass);
  }

  lemma ShapePut(s: Sys, i: Input, sv: Save, at: SaveAt)
    requires Shape(s.pc) && s.pc == Saving(sv, at) && (at.Put? || at.PutUnlocked?)
    ensures Shape(SaveStep(s, i, sv, at).pc) && SaveStep(s, i, sv, at).pc != Idle
  {
    if at.PutUnlocked? { ShapeTryNext(sv, at.token, at.error); } else { ShapePutReply(sv, at.token, i.answer); }
  }

  lemma {:induction false} ShapeSave(s: Sys, i: Input, sv: Save, at: SaveAt)
    requires Shape(s.pc) && s.pc == Saving(sv, at)
    ensures Shape(SaveStep(s, i, sv, at).pc) && SaveStep(s, i, sv, at).pc != Idle
  {
    match at {
      case Put(_) => ShapePut(s, i, sv, at);
      case PutUnlocked(_, _) => ShapePut(s, i, sv, at);
      case DropLock(error) => ShapeTryNext(sv, "", error);
      case _ =>
    }
  }

  /** What the worker's snapshot of a save still says about the room. */
  ghost predicate SaveInv(r: Room, log: History, sv: Save, recording: bool) {
    && r.doc.dirty && !r.conf.conflict && r.saves.firstDone
    && sv.seqNo <= r.doc.seqNo
    && (sv.seqNo == r.doc.seqNo ==> sv.scene == r.doc.scene)
    && (sv.seqNo < r.doc.seqNo <==> EditedSinceStart(log))
    && (if recording then LastStored(log) == Some(Body(sv.scene))
        else sv.firstEver ==> LastStored(log).None?)
    && (sv.firstEver <==> Starts(log) == 1)
  }

  ghost predicate PcInv(s: Sys) {
    InSave(s.pc).Some? ==>
      SaveInv(s.room, s.log, InSave(s.pc).value, s.pc.Saving? && s.pc.saveAt.Record?)
  }

  ghost predicate DataInv(r: Room, log: History) {
    && r.conf.conflict == InConflict(log)
    && Frozen(log)
    && r.doc.dirty == Unsaved(log)
    && UnlockedOnlyFirst(log)
    && (r.saves.firstDone <==> Starts(log) > 0)
    && (!r.saves.firstDone ==> LastStored(log).None?)
    && (if HasScene(log) then r.doc.scene == LastEdited(log) && r.doc.scene.Some? else r.doc.scene.None?)
    && (r.doc.scene.Some? && !r.doc.dirty ==> r.doc.scene == LastStored(log))
    && r.reported == LastPushed(log)
    && NoRepeatedPush(log)
    && r.saves.writeLost == WriteLost(log)
    && r.saves.firstFailedAt == FirstFailure(log)
  }

  ghost predicate Inv(s: Sys) {
    && (s.room.life.inFlight <==> s.pc != Idle)
    && Shape(s.pc)
    && DataInv(s.room, s.log)
    && PcInv(s)
  }

  /** The part of the invariant beyond the worker's own position. */
  ghost predicate Keeps(s: Sys) {
    (s.room.life.inFlight <==> s.pc != Idle) && DataInv(s.room, s.log) && PcInv(s)
  }

  lemma KeepsPass(s: Sys, i: Input, pass: Pass, at: PassAt)
    requires Inv(s) && s.pc == Passing(pass, at)
    ensures Keeps(PassStep(s, i, pass, at))
  {
  }

  lemma KeepsGc(s: Sys, i: Input, pass: Pass, at: GcAt)
    requires Inv(s) && s.pc == Collecting(pass, at)
    ensures Keeps(GcStep(s, i, pass, at))
  {
  }

  lemma KeepsClose(s: Sys, i: Input, pass: Pass, at: CloseAt)
    requires Inv(s) && s.pc == Shutting(pass, at)
    ensures Keeps(CloseStep(s, i, pass, at))
  {
  }

  lemma KeepsRefresh(s: Sys, i: Input, rf: Refresh, at: RefreshAt)
    requires Inv(s) && s.pc == Refreshing(rf, at)
    ensures Keeps(RefreshStep(s, i, rf, at))
  {
  }

  lemma KeepsEnsure(s: Sys, i: Input, c: Caller, token: string, at: EnsureAt)
    requires Inv(s) && s.pc == Ensuring(c, token, at) && !at.LockCall? && !at.LockAgain?
    ensures Keeps(EnsureStep(s, i, c, token, at))
  {
  }

  lemma KeepsLock(s: Sys, i: Input, c: Caller, token: string, at: EnsureAt)
    requires Inv(s) && s.pc == Ensuring(c, token, at) && (at.LockCall? || at.LockAgain?)
    ensures Keeps(EnsureStep(s, i, c, token, at))
  {
  }

  lemma KeepsSnapshot(s: Sys, i: Input, origin: Origin, pass: Pass)
    requires Inv(s) && s.pc == Snapshot(origin, pass)
    ensures Keeps(SnapshotStep(s, i, origin, pass))
  {
  }

  lemma KeepsPut(s: Sys, i: Input, sv: Save, at: SaveAt)
    requires Inv(s) && s.pc == Saving(sv, at) && (at.Put? || at.PutUnlocked?)
    ensures Keeps(SaveStep(s, i, sv, at))
  {
  }

  lemma KeepsSave(s: Sys, i: Input, sv: Save, at: SaveAt)
    requires Inv(s) && s.pc == Saving(sv, at) && !at.Put? && !at.PutUnlocked?
    ensures Keeps(SaveStep(s, i, sv, at))
  {
  }

  lemma KeepsStart(s: Sys, i: Input)
    requires Inv(s) && (s.pc.Begin? || s.pc.Plan?)
    ensures Keeps(Act(s, i))
  {
  }

  lemma KeepsTail(s: Sys, i: Input)
    requires Inv(s) && (s.pc.Raise? || s.pc.Notify? || s.pc.Exit?)
    ensures Keeps(Act(s, i))
  {
  }

  lemma {:induction false} KeepsAct(s: Sys, i: Input)
    requires Inv(s)
    ensures Inv(Act(s, i))
  {
    match s.pc {
      case Idle =>
      case Ensuring(c, token, at) => ShapeEnsure(s, i, c, token, at);
      case Saving(sv, at) => ShapeSave(s, i, sv, at);
      case Refreshing(rf, at) => ShapeRefresh(s, i, rf, at);
      case _ => ShapePass(s, i);
    }
    match s.pc {
      case Idle =>
      case Passing(pass, at) => KeepsPass(s, i, pass, at);
      case Collecting(pass, at) => KeepsGc(s, i, pass, at);
      case Shutting(pass, at) => KeepsClose(s, i, pass, at);
      case Refreshing(rf, at) => KeepsRefresh(s, i, rf, at);
      case Ensuring(c, token, at) =>
        if at.LockCall? || at.LockAgain? { KeepsLock(s, i, c, token, at); } else { KeepsEnsure(s, i, c, token, at); }
      case Snapshot(origin, pass) => KeepsSnapshot(s, i, origin, pass);
      case Saving(sv, at) => if at.Put? || at.PutUnlocked? { KeepsPut(s, i, sv, at); } else { KeepsSave(s, i, sv, at); }
      case _ => if s.pc.Begin? || s.pc.Plan? { KeepsStart(s, i); } else { KeepsTail(s, i); }
    }
  }

  lemma {:induction false} KeepsWork(w: World, s: Sys, ch: Choice)
    requires Inv(s)
    ensures Inv(WorkerStep(w, s, ch))
  {
    match RequestOf(s.pc) {
      case None => KeepsAct(s, InputOf(s, ch.pick, Ok("")));
      case Some(q) =>
        var (h, a) := Call(w, s, ch, q);
        KeepsAct(s.(host := h), InputOf(s, ch.pick, a));
    }
  }

  /** A handler's critical section. */
  lemma {:induction false} KeepsHandler(w: World, s: Sys, l: Label)
    requires Inv(s)
    ensures Inv(HandlerStep(w, s, l))
  {
  }

  lemma {:induction false} KeepsStep(w: World, s: Sys, l: Label)
    requires Inv(s)
    ensures Inv(Step(w, s, l))
  {
    if l.Work? { KeepsWork(w, s, l.choice); } else { KeepsHandler(w, s, l); }
  }

  lemma {:induction false} Reachable(w: World, h: HostFile, t: Time, ls: seq<Label>)
    ensures Inv(Run(w, Start(w, h, t), ls))
  {
    if ls == [] {
    } else {
      Reachable(w, h, t, ls[..|ls| - 1]);
      KeepsStep(w, Run(w, Start(w, h, t), ls[..|ls| - 1]), ls[|ls| - 1]);
    }
  }

  // --------------------------------------------------------------- theorems

  /**
   No edit is lost, in any interleaving: a room that retains a scene and is not dirty retains the
   last scene posted, and that is the body of the last PutFile the host accepted from it. It is
   dirty exactly while some edit came after the start of the last recorded save.
   */
  lemma NoLostEdit(w: World, h: HostFile, t: Time, ls: seq<Label>)
    ensures var s := Run(w, Start(w, h, t), ls);
      && (s.room.doc.scene.Some? && !s.room.doc.dirty ==>
            s.room.doc.scene == LastEdited(s.log) && s.room.doc.scene == LastStored(s.log))
      && (s.room.doc.dirty <==> Unsaved(s.log))
  {
    Reachable(w, h, t, ls);
  }

  /** A change is waiting that no save and no resolve has dealt with. */
  predicate Waiting(h: History) {
    EditedSinceStart(h) && HasScene(h) && Unsaved(h)
  }

  lemma ActAddsOne(s: Sys, i: Input)
    ensures var h := Act(s, i).log; h == s.log || (h.Then? && h.past == s.log)
  {
  }

  lemma StepAddsOne(w: World, s: Sys, l: Label)
    ensures var h := Step(w, s, l).log; h == s.log || (h.Then? && h.past == s.log)
  {
    if l.Work? {
      match RequestOf(s.pc) {
        case None => ActAddsOne(s, InputOf(s, l.choice.pick, Ok("")));
        case Some(q) =>
          var (h, a) := Call(w, s, l.choice, q);
          ActAddsOne(s.(host := h), InputOf(s, l.choice.pick, a));
      }
    }
  }

  /** From then on, until a save starts or a conflict is resolved, the change keeps waiting. */
  lemma {:induction false} KeepsWaiting(w: World, s0: Sys, base: seq<Label>, after: seq<Label>)
    requires Waiting(Run(w, s0, base).log)
    ensures var h, h' := Run(w, s0, base).log, Run(w, s0, base + after).log;
      && Starts(h') >= Starts(h) && Resolves(h') >= Resolves(h)
      && (Starts(h') == Starts(h) && Resolves(h') == Resolves(h) ==> Waiting(h'))
  {
    if after == [] {
      assert base + after == base;
    } else {
      var n := |after| - 1;
      KeepsWaiting(w, s0, base, after[..n]);
      assert base + after == (base + after[..n]) + [after[n]];
      RunExtends(w, s0, base + after[..n], after[n]);
      StepAddsOne(w, Run(w, s0, base + after[..n]), after[n]);
    }
  }

  /**
   A scene posted at any moment of a save under way outlives that save: whatever happens up to the
   start of the next save or a resolve, and in particular once this save is recorded, the room is
   dirty and retains the last scene posted.
   */
  lemma {:induction false} EditDuringSaveStaysDirty(w: World, h: HostFile, t: Time, before: seq<Label>,
                                                    data: Bytes, user: string, at: Time, after: seq<Label>)
    requires var s := Run(w, Start(w, h, t), before); s.indexed && InSave(s.pc).Some? && at in s.stamps
    ensures var s := Run(w, Start(w, h, t), before);
      var s' := Run(w, Start(w, h, t), before + [DoPutScene(data, user, at)] + after);
      Starts(s'.log) == Starts(s.log) && Resolves(s'.log) == Resolves(s.log) ==>
        s'.room.doc.dirty && s'.room.doc.scene == LastEdited(s'.log) && s'.room.doc.scene.Some?
  {
    var post := DoPutScene(data, user, at);
    RunExtends(w, Start(w, h, t), before, post);
    KeepsWaiting(w, Start(w, h, t), before + [post], after);
    Reachable(w, h, t, before + [post] + after);
  }

  /**
   A conflict freezes the host copy: no PutFile is sent or lands between a raise and the next
   resolve, no worker step changes the content while the flag is up, only the worker holding `inFlight`
   raises the flag and only ResolveConflict lowers it. PutScene still replaces the retained scene.
   */
  lemma {:induction false} ConflictFreezesHost(w: World, h: HostFile, t: Time, ls: seq<Label>, l: Label)
    ensures var s := Run(w, Start(w, h, t), ls); var s' := Step(w, s, l);
      && Frozen(s.log) && s.room.conf.conflict == InConflict(s.log)
      && (s.room.conf.conflict ==> RequestOf(s.pc).None? || !RequestOf(s.pc).value.PutFile?)
      && (s.room.conf.conflict && l.Work? ==> s'.host.content == s.host.content)
      && (!s.room.conf.conflict && s'.room.conf.conflict ==> l.Work? && s.room.life.inFlight)
      && (s.room.conf.conflict && !s'.room.conf.conflict ==> l.DoResolve?)
      && (s.indexed && l.DoPutScene? && l.at in s.stamps ==>
            s'.room.doc.scene == Some(l.data) && s'.room.conf == s.room.conf)
  {
    Reachable(w, h, t, ls);
    var s := Run(w, Start(w, h, t), ls);
    if l.Work? { WorkFreezes(w, s, l.choice); } else { HandlerFreezes(w, s, l); }
  }

  lemma {:induction false} WorkFreezes(w: World, s: Sys, ch: Choice)
    requires Inv(s)
    ensures var s' := WorkerStep(w, s, ch);
      && (s.room.conf.conflict ==> s'.host.content == s.host.content && s'.room.conf.conflict)
      && (!s.room.conf.conflict && s'.room.conf.conflict ==> s.room.life.inFlight)
  {
    HostOnlyByRequest(w, s, ch);
    if RequestOf(s.pc).Some? { CallChanges(w, s, ch, RequestOf(s.pc).value); }
  }

  lemma HandlerFreezes(w: World, s: Sys, l: Label)
    requires !l.Work?
    ensures var s' := Step(w, s, l);
      && (!s.room.conf.conflict ==> !s'.room.conf.conflict)
      && (s.room.conf.conflict && !s'.room.conf.conflict ==> l.DoResolve?)
      && (s.indexed && l.DoPutScene? && l.at in s.stamps ==>
            s'.room.doc.scene == Some(l.data) && s'.room.conf == s.room.conf)
  {
  }

  /** The history gained one event at most, and no store or takeover. */
  predicate OnlyNotes(h: History, h': History) {
    h' == h || (h'.Then? && h'.past == h && !h'.last.Stored? && !h'.last.Took?)
  }

  /** What a worker step does to the host, to the flag and to the history of stores and takeovers. */
  lemma {:induction false} HostOnlyByRequest(w: World, s: Sys, ch: Choice)
    ensures var s' := WorkerStep(w, s, ch); var q := RequestOf(s.pc);
      && s'.now == s.now
      && (s'.room.conf != s.room.conf ==> s.pc.Raise? && s'.room.conf.conflict)
      && (q.None? ==> s'.host == s.host && OnlyNotes(s.log, s'.log))
      && (q.Some? ==>
            var (h, a) := Call(w, s, ch, q.value);
            && s'.host == h
            && (q.value.UnlockAndRelock? && a.Ok? ==> s'.log == Then(s.log, Took(q.value.oldLock)))
            && (q.value.PutFile? && a.Ok? ==> s'.log == Then(s.log, Stored(q.value.body, s.pc.saveAt.Put?)))
            && (!(a.Ok? && (q.value.PutFile? || q.value.UnlockAndRelock?)) ==> s'.log == s.log))
  {
    match RequestOf(s.pc) {
      case None => ActNotes(s, InputOf(s, ch.pick, Ok("")));
      case Some(q) =>
        var (h, a) := Call(w, s, ch, q);
        ActLogs(s.(host := h), InputOf(s, ch.pick, a));
    }
  }

  lemma ActNotes(s: Sys, i: Input)
    requires RequestOf(s.pc).None?
    ensures var s' := Act(s, i);
      && s'.host == s.host && s'.now == s.now && OnlyNotes(s.log, s'.log)
      && (s'.room.conf != s.room.conf ==> s.pc.Raise? && s'.room.conf.conflict)
  {
  }

  lemma ActLogs(s: Sys, i: Input)
    requires RequestOf(s.pc).Some?
    ensures var s' := Act(s, i); var q := RequestOf(s.pc).value;
      && s'.host == s.host && s'.now == s.now && s'.room.conf == s.room.conf
      && (q.UnlockAndRelock? && i.answer.Ok? ==> s'.log == Then(s.log, Took(q.oldLock)))
      && (q.PutFile? && i.answer.Ok? ==> s'.log == Then(s.log, Stored(q.body, s.pc.saveAt.Put?)))
      && (!(i.answer.Ok? && (q.PutFile? || q.UnlockAndRelock?)) ==> s'.log == s.log)
  {
  }

  /** What a host call does to the file: without an Ok nothing an observer could see. */
  lemma CallChanges(w: World, s: Sys, ch: Choice, q: Request)
    ensures var (h, a) := Call(w, s, ch, q);
      var before, after := EffectiveLock(s.host, s.now), EffectiveLock(h, s.now);
      && (a.Err? || !q.PutFile? ==> h.content == s.host.content)
      && (a.Err? ==> after == before)
      && (a.Ok? ==>
            && (q.Lock? ==> before in {"", q.lock} && after == q.lock)
            && (q.UnlockAndRelock? ==> before == q.oldLock != "" && after == q.lock)
            && (q.Unlock? ==> before == q.lock != "")
            && (q.RefreshLock? || q.CheckFileInfo? ==> after == before)
            && (q.PutFile? ==> after == before == q.lock && (q.lock == "" ==> s.host.content == [])))
  {
    LockChanges(w.versionOf, s.host, s.now, q);
  }

  /**
   The unlocked fallback is one-shot: the host accepts an unlocked PutFile of this room only in
   the room's first save attempt ever, whatever came of that attempt.
   */
  lemma {:induction false} UnlockedPutOnlyFirst(w: World, h: HostFile, t: Time, ls: seq<Label>)
    ensures var s := Run(w, Start(w, h, t), ls);
      && UnlockedOnlyFirst(s.log)
      && (s.pc.Saving? && s.pc.saveAt.PutUnlocked? ==> Starts(s.log) == 1)
  {
    Reachable(w, h, t, ls);
  }

  /**
   No push repeats the state clients already have, and notifyState, the worker's as well as
   ResolveConflict's, leaves clients knowing the truth.
   */
  lemma {:induction false} PushesTruthful(w: World, h: HostFile, t: Time, ls: seq<Label>, ch: Choice)
    ensures var s := Run(w, Start(w, h, t), ls); var s' := WorkerStep(w, s, ch);
      && NoRepeatedPush(s.log) && s.room.reported == LastPushed(s.log)
      && (s.pc.Notify? ==> TruthTold(s'.log, s'.now))
      && TruthTold(Step(w, s, DoNotify).log, s.now)
  {
    Reachable(w, h, t, ls);
  }

  /** writeLost is up exactly when, since the last recorded save, a pass got nothing but 401s. */
  lemma WriteLostExactly(w: World, h: HostFile, t: Time, ls: seq<Label>)
    ensures var s := Run(w, Start(w, h, t), ls); s.room.saves.writeLost <==> WriteLost(s.log)
  {
    Reachable(w, h, t, ls);
  }

  /** `inFlight` excludes a second worker: while one is inside a pass, no Enter step gets past the guard. */
  lemma {:induction false} OneWorker(w: World, h: HostFile, t: Time, ls: seq<Label>, flush: bool)
    ensures var s := Run(w, Start(w, h, t), ls); s.pc != Idle ==> Step(w, s, Enter(flush)) == s
  {
    Reachable(w, h, t, ls);
  }
}
