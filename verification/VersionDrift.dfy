/**
 The drift check: a room that saved knows the version the host gave to that save, and a pass that
 checks raises a conflict exactly if the host's file has another version by then.
 */
module VersionDrift {
  import opened Basics
  import opened WopiHost
  import opened RoomModel
  import opened SaveMachine
  import SaveSafety

  // ----------------------------------------------------- reading the history

  /** The body whose save was recorded last, unless a reload has dropped the scene since. */
  function LastSaved(h: History): Option<Bytes> {
    match h
    case Nothing => None
    case Then(past, e) =>
      if e.Saved? then SaveSafety.LastStored(past)
      else if e.Resolved? && !e.overwrite then None
      else LastSaved(past)
  }

  /** The body whose save was recorded last, whatever came after. */
  function EverSaved(h: History): Option<Bytes> {
    match h
    case Nothing => None
    case Then(past, e) => if e.Saved? then SaveSafety.LastStored(past) else EverSaved(past)
  }

  // -------------------------------------------------------------- invariant

  /** The worker carries no version along. */
  predicate NoVersion(pc: PC) {
    match pc
    case Saving(_, at) => !at.Record?
    case Passing(_, at) => !at.CheckCall?
    case Raise(_, _, next) => NoVersion(next)
    case Notify(next) => NoVersion(next)
    case _ => true
  }

  /** The version it does carry along is that of the body it stored, or of the last save. */
  ghost predicate PcInv(w: World, s: Sys) {
    match s.pc
    case Saving(_, Record(version)) =>
      SaveSafety.LastStored(s.log).Some? && version == w.versionOf(SaveSafety.LastStored(s.log).value)
    case Passing(_, CheckCall(_, expected)) =>
      EverSaved(s.log).Some? && expected == w.versionOf(EverSaved(s.log).value)
    case _ => NoVersion(s.pc)
  }

  ghost predicate VerInv(w: World, v: Versions, log: History) {
    && (v.have <==> LastSaved(log).Some?)
    && (v.have ==> EverSaved(log) == LastSaved(log) && v.expected == w.versionOf(LastSaved(log).value))
  }

  ghost predicate Inv(w: World, s: Sys) {
    PcInv(w, s) && VerInv(w, s.room.ver, s.log)
  }

  /** The host's answer to a PutFile it accepted names the version of the body. */
  ghost predicate Named(w: World, s: Sys, i: Input) {
    RequestOf(s.pc).Some? && RequestOf(s.pc).value.PutFile? && i.answer.Ok? ==>
      i.answer.version == w.versionOf(RequestOf(s.pc).value.body)
  }

  lemma DeniedCarriesNone(c: Caller, token: string, error: WopiError)
    ensures NoVersion(Denied(c, token, error))
  {
  }

  lemma TryNextCarriesNone(sv: Save, token: string, error: WopiError)
    ensures NoVersion(TryNext(sv, token, error)) && NoVersion(Try(Advance(sv, error))) && NoVersion(Try(sv))
    ensures NoVersion(AfterSave(sv.origin, sv.pass))
  {
  }

  lemma KeepsEnsure(w: World, s: Sys, i: Input, c: Caller, token: string, at: EnsureAt)
    requires Inv(w, s) && s.pc == Ensuring(c, token, at)
    ensures Inv(w, EnsureStep(s, i, c, token, at))
  {
    if i.answer.Err? {
      DeniedCarriesNone(c, token, i.answer.error);
      if i.answer.error.LockConflict? { DeniedCarriesNone(c, token, LockConflict(i.answer.error.currentLock)); }
    }
    if at.RestoreForce? { DeniedCarriesNone(c, token, at.error); }
  }

  lemma KeepsPut(w: World, s: Sys, i: Input, sv: Save, at: SaveAt)
    requires Inv(w, s) && s.pc == Saving(sv, at) && Named(w, s, i) && (at.Put? || at.PutUnlocked?)
    ensures Inv(w, SaveStep(s, i, sv, at))
  {
    if at.Put? { TryNextCarriesNone(sv, at.token, if i.answer.Err? then i.answer.error else TokenRejected); }
    else { TryNextCarriesNone(sv, at.token, at.error); }
  }

  lemma KeepsSave(w: World, s: Sys, i: Input, sv: Save, at: SaveAt)
    requires Inv(w, s) && s.pc == Saving(sv, at) && !at.Put? && !at.PutUnlocked?
    ensures Inv(w, SaveStep(s, i, sv, at))
  {
    TryNextCarriesNone(sv, "", if at.DropLock? then at.error else TokenRejected);
  }

  lemma KeepsRefresh(w: World, s: Sys, i: Input, rf: Refresh, at: RefreshAt)
    requires Inv(w, s) && s.pc == Refreshing(rf, at)
    ensures Inv(w, RefreshStep(s, i, rf, at))
  {
  }

  lemma KeepsPass(w: World, s: Sys, i: Input, pass: Pass, at: PassAt)
    requires Inv(w, s) && s.pc == Passing(pass, at)
    ensures Inv(w, PassStep(s, i, pass, at))
  {
  }

  lemma KeepsClose(w: World, s: Sys, i: Input)
    requires Inv(w, s) && (s.pc.Shutting? || s.pc.Collecting?)
    ensures Inv(w, Act(s, i))
  {
  }

  lemma KeepsSnapshot(w: World, s: Sys, i: Input, origin: Origin, pass: Pass)
    requires Inv(w, s) && s.pc == Snapshot(origin, pass)
    ensures Inv(w, SnapshotStep(s, i, origin, pass))
  {
    TryNextCarriesNone(Save(origin, pass, None, 0, "", i.ladder, false, 0, false, Silent), "", TokenRejected);
  }

  lemma KeepsReturn(w: World, s: Sys, i: Input)
    requires Inv(w, s) && (s.pc.Raise? || s.pc.Notify?)
    ensures Inv(w, Act(s, i))
  {
    assert NoVersion(s.pc.next);
    NoVersionIsInv(w, Act(s, i));
  }

  lemma NoVersionIsInv(w: World, s: Sys)
    requires NoVersion(s.pc)
    ensures PcInv(w, s)
  {
  }

  lemma KeepsTail(w: World, s: Sys, i: Input)
    requires Inv(w, s) && (s.pc.Begin? || s.pc.Plan? || s.pc.Exit?)
    ensures Inv(w, Act(s, i))
  {
    assert NoVersion(Act(s, i).pc);
  }

  lemma {:induction false} KeepsAct(w: World, s: Sys, i: Input)
    requires Inv(w, s) && SaveSafety.Shape(s.pc) && Named(w, s, i)
    ensures Inv(w, Act(s, i))
  {
    match s.pc {
      case Saving(sv, at) =>
        if at.Put? || at.PutUnlocked? { KeepsPut(w, s, i, sv, at); } else { KeepsSave(w, s, i, sv, at); }
      case Ensuring(c, token, at) => KeepsEnsure(w, s, i, c, token, at);
      case Refreshing(rf, at) => KeepsRefresh(w, s, i, rf, at);
      case Passing(pass, at) => KeepsPass(w, s, i, pass, at);
      case Snapshot(origin, pass) => KeepsSnapshot(w, s, i, origin, pass);
      case Shutting(_, _) => KeepsClose(w, s, i);
      case Collecting(_, _) => KeepsClose(w, s, i);
      case Idle =>
      case Raise(_, _, _) => KeepsReturn(w, s, i);
      case Notify(_) => KeepsReturn(w, s, i);
      case _ => KeepsTail(w, s, i);
    }
  }

  lemma CallNames(w: World, s: Sys, ch: Choice, q: Request)
    requires RequestOf(s.pc) == Some(q)
    ensures var (h, a) := Call(w, s, ch, q); Named(w, s.(host := h), InputOf(s, ch.pick, a))
  {
  }

  lemma {:induction false} KeepsStep(w: World, s: Sys, l: Label)
    requires Inv(w, s) && SaveSafety.Inv(s)
    ensures Inv(w, Step(w, s, l))
  {
    if l.Work? {
      match RequestOf(s.pc) {
        case None => KeepsAct(w, s, InputOf(s, l.choice.pick, Ok("")));
        case Some(q) =>
          var (h, a) := Call(w, s, l.choice, q);
          CallNames(w, s, l.choice, q);
          KeepsAct(w, s.(host := h), InputOf(s, l.choice.pick, a));
      }
    }
  }

  lemma {:induction false} Reachable(w: World, h: HostFile, t: Time, ls: seq<Label>)
    ensures Inv(w, Run(w, Start(w, h, t), ls))
  {
    if ls == [] {
    } else {
      var before := ls[..|ls| - 1];
      Reachable(w, h, t, before);
      SaveSafety.Reachable(w, h, t, before);
      KeepsStep(w, Run(w, Start(w, h, t), before), ls[|ls| - 1]);
    }
  }

  // --------------------------------------------------------------- theorems

  /** The room knows a version exactly if it recorded a save that no reload has dropped, and it is that save's. */
  lemma {:induction false} ExpectedIsLastSaved(w: World, h: HostFile, t: Time, ls: seq<Label>)
    ensures var s := Run(w, Start(w, h, t), ls);
      && (s.room.ver.have <==> LastSaved(s.log).Some?)
      && (s.room.ver.have ==> s.room.ver.expected == w.versionOf(LastSaved(s.log).value))
  {
    Reachable(w, h, t, ls);
  }

  /** The conflict the drift check raises, two steps after its call. */
  ghost predicate RaisesIffDrifted(w: World, s: Sys, ch: Choice) {
    var s' := WorkerStep(w, WorkerStep(w, s, ch), ch);
    && EverSaved(s.log).Some?
    && s'.log == (if s.host.version != w.versionOf(EverSaved(s.log).value) then Then(s.log, Raised("")) else s.log)
  }

  /**
   Whenever the worker asks for the file's version with a token the host knows, and no fault
   intervenes, a conflict follows exactly if that version is not the last recorded save's.
   */
  lemma {:induction false} CheckRaisesIffDrifted(w: World, h: HostFile, t: Time, ls: seq<Label>, ch: Choice)
    ensures var s := Run(w, Start(w, h, t), ls);
      RequestOf(s.pc).Some? && RequestOf(s.pc).value.CheckFileInfo? && ch.glitch.None?
      && RequestOf(s.pc).value.token != "" && RequestOf(s.pc).value.token in s.host.access ==>
        RaisesIffDrifted(w, s, ch)
  {
    Reachable(w, h, t, ls);
    var s := Run(w, Start(w, h, t), ls);
    if RequestOf(s.pc).Some? && RequestOf(s.pc).value.CheckFileInfo? && ch.glitch.None?
       && RequestOf(s.pc).value.token != "" && RequestOf(s.pc).value.token in s.host.access {
      CheckDecides(w, s, ch);
    }
  }

  lemma CheckDecides(w: World, s: Sys, ch: Choice)
    requires PcInv(w, s) && s.pc.Passing? && s.pc.passAt.CheckCall? && ch.glitch.None?
    requires s.pc.passAt.token != "" && s.pc.passAt.token in s.host.access
    ensures RaisesIffDrifted(w, s, ch)
  {
    var s1 := WorkerStep(w, s, ch);
    assert s1.log == s.log && s1.host == s.host && s1.now == s.now;
    if s.host.version != s.pc.passAt.expected {
      assert s1.pc == Raise("", false, AfterCheck(s.pc.pass));
    } else {
      assert s1.pc == AfterCheck(s.pc.pass);
      NextNotRaised(w, s1, ch);
    }
  }

  /** The first step after a check raises nothing. */
  lemma NextNotRaised(w: World, s: Sys, ch: Choice)
    requires exists pass :: s.pc == AfterCheck(pass)
    ensures WorkerStep(w, s, ch).log == s.log
  {
  }

  // ----------------------------------------------------------- the whole pass

  ghost function Works(w: World, s: Sys, ch: Choice, n: nat): Sys {
    if n == 0 then s else WorkerStep(w, Works(w, s, ch, n - 1), ch)
  }

  /** Some user's token is live, map iteration comes to one, and the host knows every live one. */
  ghost predicate CanCheck(s: Sys, pick: string) {
    && pick in s.room.tok.tokens && s.now < s.room.tok.tokens[pick].expiresAt
    && forall u :: u in s.room.tok.tokens && s.now < s.room.tok.tokens[u].expiresAt ==>
         s.room.tok.tokens[u].token != "" && s.room.tok.tokens[u].token in s.host.access
  }

  /** A new user was seen, or the lock is ten minutes old. */
  ghost predicate CheckWanted(r: Room, now: Time) {
    r.ver.pendingCheck || (r.lock.haveLock && !r.conf.conflict && now as int >= r.lock.lastLockAt + 10 * MINUTE)
  }

  lemma PassBegins(w: World, s: Sys, ch: Choice)
    requires s.pc == Begin(false)
    ensures var s1 := Works(w, s, ch, 3); var pass := PlanOf(s.room, s.now);
      && s1.pc == AfterWarn(pass) && s1.host == s.host && s1.now == s.now && s1.indexed == s.indexed
      && s1.log == Then(s.log, Event.Planned(s.now, Deserted(s.room, s.now)))
      && s1.room.tok == WarnTokens(Prune(s.room.tok, s.now), s.now)
      && s1.room.conf == s.room.conf && s1.room.doc == s.room.doc
      && s1.room.ver == RoomModel.Planned(s.room, s.now).ver
  {
    var s1 := WorkerStep(w, s, ch);
    assert s1 == s.(pc := Plan(s.now)) && s1 == Works(w, s, ch, 1);
    var s2 := WorkerStep(w, s1, ch);
    assert s2 == PlanStep(s1, s.now) && s2 == Works(w, s, ch, 2);
  }

  /** A wanted check is planned unless an overwrite has just bypassed it or the room is closing. */
  lemma CheckPlanned(r: Room, now: Time, pick: string)
    requires CheckWanted(r, now) && pick in r.tok.tokens && now < r.tok.tokens[pick].expiresAt
    requires !(r.life.closing && now >= r.life.closeAt)
    ensures var pass := PlanOf(r, now);
      && pass.now == now && !pass.closeDue && !pass.gcDue && (pass.versionCheckDue <==> !r.ver.skipCheckOnce)
      && RoomModel.Planned(r, now).ver.have == r.ver.have && RoomModel.Planned(r, now).ver.expected == r.ver.expected
  {
    var pruned := r.(tok := Prune(r.tok, now));
    assert Unexpired(pruned.tok, now, pick);
    assert Live(pruned, now);
  }

  /** The token the check reads with is one of the room's live ones. */
  lemma CheckReads(w: World, s: Sys, ch: Choice, pass: Pass, before: Sys)
    requires s.pc == Passing(pass, CheckRead) && pass.now == s.now == before.now && s.host == before.host
    requires CanCheck(before, ch.pick) && s.room.tok == WarnTokens(Prune(before.room.tok, s.now), s.now)
    requires s.room.ver.have
    ensures var s1 := WorkerStep(w, s, ch);
      && s1.pc.Passing? && s1.pc.passAt.CheckCall?
      && s1.host == s.host && s1.log == s.log && s1.room.conf == s.room.conf
      && s1.pc.passAt.token != "" && s1.pc.passAt.token in s.host.access
  {
    var i := InputOf(s, ch.pick, Ok(""));
    assert Unexpired(s.room.tok, s.now, ch.pick);
    var ladder := Ladder(s.room, s.now);
    if ladder != [] { assert ladder[0] in ladder && Unexpired(s.room.tok, s.now, ladder[0].user); }
    assert i.token.Some? && exists u :: Unexpired(s.room.tok, s.now, u) && i.token.value == s.room.tok.tokens[u].token;
    var u :| Unexpired(s.room.tok, s.now, u) && i.token.value == s.room.tok.tokens[u].token;
    assert u in before.room.tok.tokens && before.room.tok.tokens[u].token == i.token.value;
  }

  /**
   An undisturbed pass over a room that saved, with a check wanted and a token to read with, opens a
   conflict exactly if the host's version is not that of the last recorded save.
   */
  lemma {:induction false} WantedCheckDecides(w: World, h: HostFile, t: Time, ls: seq<Label>, ch: Choice)
    requires var s := Run(w, Start(w, h, t), ls);
      && s.pc == Begin(false) && s.room.ver.have && CheckWanted(s.room, s.now) && !s.room.ver.skipCheckOnce
      && !(s.room.life.closing && s.now >= s.room.life.closeAt) && CanCheck(s, ch.pick) && ch.glitch.None?
    ensures var s := Run(w, Start(w, h, t), ls);
      && LastSaved(s.log).Some?
      && (SaveSafety.InConflict(Works(w, s, ch, 6).log) <==>
            SaveSafety.InConflict(s.log) || s.host.version != w.versionOf(LastSaved(s.log).value))
  {
    Reachable(w, h, t, ls);
    var s := Run(w, Start(w, h, t), ls);
    PassDecides(w, s, ch);
  }

  lemma PassDecides(w: World, s: Sys, ch: Choice)
    requires Inv(w, s)
    requires s.pc == Begin(false) && s.room.ver.have && CheckWanted(s.room, s.now) && !s.room.ver.skipCheckOnce
    requires !(s.room.life.closing && s.now >= s.room.life.closeAt) && CanCheck(s, ch.pick) && ch.glitch.None?
    ensures SaveSafety.InConflict(Works(w, s, ch, 6).log) <==>
      SaveSafety.InConflict(s.log) || s.host.version != w.versionOf(LastSaved(s.log).value)
  {
    ComesToCheck(w, s, ch);
    var s4 := Works(w, s, ch, 4);
    CheckDecides(w, s4, ch);
    TwoMore(w, s, ch, 4);
  }

  lemma TwoMore(w: World, s: Sys, ch: Choice, n: nat)
    ensures Works(w, s, ch, n + 2) == WorkerStep(w, WorkerStep(w, Works(w, s, ch, n), ch), ch)
  {
    assert Works(w, s, ch, n + 1) == WorkerStep(w, Works(w, s, ch, n), ch);
  }

  /** Four steps into the pass the worker is about to ask for the file's version. */
  lemma ComesToCheck(w: World, s: Sys, ch: Choice)
    requires Inv(w, s)
    requires s.pc == Begin(false) && s.room.ver.have && CheckWanted(s.room, s.now) && !s.room.ver.skipCheckOnce
    requires !(s.room.life.closing && s.now >= s.room.life.closeAt) && CanCheck(s, ch.pick) && ch.glitch.None?
    ensures var s4 := Works(w, s, ch, 4);
      && s4.pc.Passing? && s4.pc.passAt.CheckCall? && PcInv(w, s4) && s4.host == s.host
      && s4.pc.passAt.token != "" && s4.pc.passAt.token in s4.host.access
      && s4.log == Then(s.log, Event.Planned(s.now, Deserted(s.room, s.now)))
  {
    ReachesRead(w, s, ch);
    var s3 := Works(w, s, ch, 3);
    CheckReads(w, s3, ch, s3.pc.pass, s);
    ReadsExpected(w, s3, ch);
    assert Works(w, s, ch, 3 + 1) == WorkerStep(w, s3, ch);
  }

  lemma ReachesRead(w: World, s: Sys, ch: Choice)
    requires s.pc == Begin(false) && s.room.ver.have && CheckWanted(s.room, s.now) && !s.room.ver.skipCheckOnce
    requires !(s.room.life.closing && s.now >= s.room.life.closeAt) && CanCheck(s, ch.pick)
    requires VerInv(w, s.room.ver, s.log)
    ensures var s3 := Works(w, s, ch, 3);
      && s3.pc.Passing? && s3.pc.passAt.CheckRead? && s3.pc.pass.now == s.now == s3.now && s3.host == s.host
      && s3.room.tok == WarnTokens(Prune(s.room.tok, s.now), s.now) && s3.room.ver.have
      && VerInv(w, s3.room.ver, s3.log) && s3.log == Then(s.log, Event.Planned(s.now, Deserted(s.room, s.now)))
  {
    PassBegins(w, s, ch);
    CheckPlanned(s.room, s.now, ch.pick);
  }

  lemma ReadsExpected(w: World, s: Sys, ch: Choice)
    requires VerInv(w, s.room.ver, s.log) && s.pc.Passing? && s.pc.passAt.CheckRead?
    ensures PcInv(w, WorkerStep(w, s, ch)) || WorkerStep(w, s, ch) == s
  {
  }

  /**
   A new user of a room that saved brings such a check about: the pass after their first observation
   opens a conflict exactly if the file changed at the host.
   */
  lemma {:induction false} NewUserIsChecked(w: World, h: HostFile, t: Time, ls: seq<Label>,
                                             user: string, info: TokenInfo)
    requires var s := Run(w, Start(w, h, t), ls); var s1 := Step(w, s, DoObserve(user, info));
      && s.pc == Idle && s.indexed && s.room.ver.have && !s.room.conf.conflict && !s.room.ver.skipCheckOnce
      && user !in s.room.tok.tokens && !(s.room.life.closing && s.now >= s.room.life.closeAt) && CanCheck(s1, user)
    ensures var s := Run(w, Start(w, h, t), ls);
      var s2 := Step(w, Step(w, s, DoObserve(user, info)), Enter(false));
      && LastSaved(s.log).Some?
      && (SaveSafety.InConflict(Works(w, s2, Choice(None, user), 6).log) <==>
            s.host.version != w.versionOf(LastSaved(s.log).value))
  {
    var s := Run(w, Start(w, h, t), ls);
    Reachable(w, h, t, ls);
    SaveSafety.Reachable(w, h, t, ls);
    var s1 := Step(w, s, DoObserve(user, info));
    SaveSafety.KeepsStep(w, s, DoObserve(user, info));
    KeepsStep(w, s, DoObserve(user, info));
    KeepsStep(w, s1, Enter(false));
    PassDecides(w, Step(w, s1, Enter(false)), Choice(None, user));
  }

  lemma SkipBypasses(w: World, s: Sys, ch: Choice)
    requires s.pc == Begin(false) && s.room.ver.skipCheckOnce
    ensures var s' := Works(w, s, ch, 3);
      && !(s'.pc.Passing? && s'.pc.passAt.CheckRead?)
      && !s'.room.ver.skipCheckOnce && s'.room.ver.pendingCheck == s.room.ver.pendingCheck
  {
    PassBegins(w, s, ch);
  }

  lemma OverwriteSets(w: World, s: Sys)
    requires s.pc == Idle && s.indexed && !s.room.life.inFlight && s.room.conf.conflict
    ensures var s' := Step(w, Step(w, s, DoResolve(true)), Enter(false));
      s'.pc == Begin(false) && s'.room.ver == s.room.ver.(skipCheckOnce := true)
  {
  }

  /** An overwrite bypasses one check, so that the save it forces is not held up, and only one. */
  lemma OverwriteSkipsOneCheck(w: World, s: Sys, ch: Choice)
    requires s.pc == Idle && s.indexed && !s.room.life.inFlight && s.room.conf.conflict
    ensures var s' := Works(w, Step(w, Step(w, s, DoResolve(true)), Enter(false)), ch, 3);
      && !(s'.pc.Passing? && s'.pc.passAt.CheckRead?)
      && !s'.room.ver.skipCheckOnce && s'.room.ver.pendingCheck == s.room.ver.pendingCheck
  {
    OverwriteSets(w, s);
    SkipBypasses(w, Step(w, Step(w, s, DoResolve(true)), Enter(false)), ch);
  }
}
