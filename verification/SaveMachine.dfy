/**
 One room, its background worker and its WOPI host as a machine of atomic steps.

 A step of the worker is one critical section under `m.mu`, one host call or one clock read;
 between any two of them request handlers, other users of the host and the clock may move. The
 worker's position is an explicit program counter that carries the local variables of the
 functions it is inside of. A post reads the clock in a step of its own, before it waits for the
 mutex. `History` records what an observer of the room sees happen.
 */
module SaveMachine {
  import opened Basics
  import opened WopiHost
  import opened RoomModel

  /** The room's own lock value, and the host's version marker of a content. */
  datatype World = World(own: string, versionOf: Bytes -> string)

  /** Who started a save: the schedule, the close of the room, or Shutdown's flush. */
  datatype Origin = Scheduled | Closing | Flushing

  /** The errors a ladder's candidates met so far, newest last. */
  datatype Answers = Silent | Heard(before: Answers, error: WopiError)

  datatype Event =
    | Edited(scene: Bytes, at: Time, landed: Time)    // PutScene stored a scene, stamped when it read the clock
    | Raised(foreign: string)                         // enterConflict
    | Resolved(foreign: string, overwrite: bool)      // ResolveConflict lowered the flag
    | Took(foreign: string)                           // UnlockAndRelock replaced this lock
    | Stored(body: Bytes, locked: bool)               // the host accepted a PutFile
    | Started(origin: Origin, at: Time)               // performSave began on a dirty room
    | Saved(at: Time)                                 // recordSaveSuccess
    | Failed(origin: Origin, at: Time, answers: Answers) // recordSaveFailure, one answer a candidate
    | RefreshFailed(answers: Answers)          // refreshLock ran out of candidates
    | Pushed(state: Reported)                         // onConflictChange fired
    | Looked                                          // performClose saw the room clean, for the last time
    | Removed(dirty: bool, byClose: bool)             // deleteRoomLocked
    | Planned(at: Time, idle: bool)                   // planPass of the pass that began at `at`
    | Ended                                           // the worker left the room

  /** What happened to the room, newest last. */
  datatype History = Nothing | Then(past: History, last: Event)

  /** performSave's local variables. */
  datatype Save = Save(
    origin: Origin, pass: Pass, scene: Option<Bytes>, seqNo: nat, lockValue: string,
    ladder: seq<Candidate>, firstEver: bool, i: nat, allNoWrite: bool, answers: Answers)

  /** refreshLock's local variables. */
  datatype Refresh = Refresh(
    pass: Pass, lockValue: string, ladder: seq<Candidate>, i: nat, allNoWrite: bool, answers: Answers)

  /** Where ensureLocked returns to. */
  datatype Caller = ForSave(sv: Save) | ForRefresh(rf: Refresh) | ForEager(pass: Pass)

  datatype PassAt = Warn | CheckRead | CheckCall(token: string, expected: string) | EagerRead | RefreshGuard
                  | RefreshRead | RefreshMark | SaveCheck

  datatype GcAt = GcLadder | GcUnlock(token: string) | GcDropLock | GcDelete

  datatype CloseAt = CloseRead | CloseRecheck | CloseLadder(lockValue: string)
                   | CloseUnlock(token: string, lockValue: string) | CloseDropLock | CloseDelete

  datatype RefreshAt = RefreshCall(token: string) | RefreshMarkToken(token: string, noWrite: bool) | RefreshDone

  datatype EnsureAt = TakeForce | Swap(lockValue: string, force: string)
                    | RestoreForce(force: string, error: WopiError)
                    | LockCall(lockValue: string) | LockAgain(lockValue: string) | Mark

  datatype SaveAt = Put(token: string) | PutUnlocked(token: string, error: WopiError) | DropLock(error: WopiError)
                  | SaveMarkToken(token: string, noWrite: bool) | Record(version: string) | Fail

  /** The next atomic step of the worker, by the function it belongs to. */
  datatype PC =
    | Idle
    | Begin(flush: bool)
    | Plan(now: Time)
    | Passing(pass: Pass, passAt: PassAt)                    // evaluateRoom, checkVersion
    | Collecting(pass: Pass, gcAt: GcAt)                     // gcRoom
    | Shutting(pass: Pass, closeAt: CloseAt)                 // performClose
    | Refreshing(rf: Refresh, refreshAt: RefreshAt)          // refreshLock
    | Ensuring(c: Caller, token: string, ensureAt: EnsureAt) // ensureLocked
    | Snapshot(origin: Origin, pass: Pass)                   // performSave, first section
    | Saving(sv: Save, saveAt: SaveAt)                       // performSave, attemptSave
    | Raise(foreign: string, dropLock: bool, next: PC)       // enterConflict
    | Notify(next: PC)                                       // notifyState
    | Exit

  /** `stamps` are the instants at which posts read the clock before they waited for the mutex. */
  datatype Sys = Sys(room: Room, host: HostFile, now: Time, pc: PC, indexed: bool, log: History, stamps: set<Time>)

  /** An error the environment adds to a call, which then has no effect, and a map-order choice. */
  datatype Choice = Choice(glitch: Option<WopiError>, pick: string)

  /** What a step is told: the host's answer, or what it reads off the token registry. */
  datatype Input = Input(answer: Answer, ladder: seq<Candidate>, token: Option<string>, live: bool)

  datatype Label =
    | Enter(flush: bool)
    | Work(choice: Choice)
    | ReadClock
    | DoPutScene(data: Bytes, user: string, at: Time)
    | DoObserve(user: string, info: TokenInfo)
    | DoJoin
    | DoLeave(roomEmpty: bool)
    | DoResolve(overwrite: bool)
    | DoNotify
    | Others(host: HostFile)
    | Tick(now: Time)

  // --------------------------------------------------------------- control

  function CallerNow(c: Caller): Time {
    match c
    case ForSave(sv) => sv.pass.now
    case ForRefresh(rf) => rf.pass.now
    case ForEager(pass) => pass.now
  }

  function AfterCheck(pass: Pass): PC {
    if pass.closeDue then Shutting(pass, CloseRead)
    else Passing(pass, if pass.needRefresh then RefreshGuard else if pass.lockDue then EagerRead else SaveCheck)
  }

  function AfterWarn(pass: Pass): PC {
    if pass.gcDue then Collecting(pass, if pass.haveLock then GcLadder else GcDelete)
    else if pass.versionCheckDue && !pass.closeDue then Passing(pass, CheckRead)
    else AfterCheck(pass)
  }

  const FINISH: PC := Notify(Exit)

  function AfterSave(origin: Origin, pass: Pass): PC {
    match origin
    case Scheduled => FINISH
    case Closing => Shutting(pass, CloseRecheck)
    case Flushing => Exit
  }

  /** performSave's loop head: the next candidate, or the end of the ladder. */
  function Try(sv: Save): PC {
    if sv.i < |sv.ladder| then Ensuring(ForSave(sv), sv.ladder[sv.i].token, TakeForce) else Saving(sv, Fail)
  }

  /** The locals after a candidate failed with `error`. */
  function Advance(sv: Save, error: WopiError): Save {
    sv.(i := sv.i + 1, allNoWrite := sv.allNoWrite && error.NoWriteAccess?, answers := Heard(sv.answers, error))
  }

  /** classifyTokenAttempt, then the next candidate: a 403 or a 401 is first recorded against the token. */
  function TryNext(sv: Save, token: string, error: WopiError): PC {
    if error.TokenRejected? || error.NoWriteAccess?
    then Saving(Advance(sv, error), SaveMarkToken(token, error.NoWriteAccess?))
    else Try(Advance(sv, error))
  }

  function RefreshTry(rf: Refresh): PC {
    Refreshing(rf, if rf.i < |rf.ladder| then RefreshCall(rf.ladder[rf.i].token) else RefreshDone)
  }

  function RefreshAdvance(rf: Refresh, error: WopiError): Refresh {
    rf.(i := rf.i + 1, allNoWrite := rf.allNoWrite && error.NoWriteAccess?, answers := Heard(rf.answers, error))
  }

  function RefreshNext(rf: Refresh, token: string, error: WopiError): PC {
    if error.TokenRejected? || error.NoWriteAccess?
    then Refreshing(RefreshAdvance(rf, error), RefreshMarkToken(token, error.NoWriteAccess?))
    else RefreshTry(RefreshAdvance(rf, error))
  }

  /** What ensureLocked's caller does with its error. */
  function Denied(c: Caller, token: string, error: WopiError): PC {
    match c
    case ForSave(sv) =>
      if error.LockConflict? then AfterSave(sv.origin, sv.pass)
      else if sv.firstEver && !error.TokenRejected? && !error.NoWriteAccess? then Saving(sv, PutUnlocked(token, error))
      else TryNext(sv, token, error)
    case ForRefresh(rf) => RefreshTry(RefreshAdvance(rf, LockConflict("")))
    case ForEager(pass) => Passing(pass, SaveCheck)
  }

  function Locked(c: Caller, token: string): PC {
    match c
    case ForSave(sv) => Saving(sv, Put(token))
    case ForRefresh(rf) => Passing(rf.pass, SaveCheck)
    case ForEager(pass) => Passing(pass, SaveCheck)
  }

  /** resolveForeignLock: the room's own value already holds the lock, any other is a conflict. */
  function ResolveForeign(c: Caller, token: string, lockValue: string, current: string): PC {
    if current == lockValue then Ensuring(c, token, Mark)
    else Raise(current, true, Denied(c, token, LockConflict(current)))
  }

  // ------------------------------------------------------------ worker steps

  function Call(w: World, s: Sys, ch: Choice, q: Request): (HostFile, Answer) {
    if ch.glitch.Some? then (s.host, Err(ch.glitch.value))
    else
      var (h, r) := Serve(w.versionOf, s.host, s.now, q);
      (h, ReadResponse(r))
  }

  function Log(s: Sys, e: Event): Sys {
    s.(log := Then(s.log, e))
  }

  /** notifyState: a push only when the client-facing state changed. */
  function Push(s: Sys): Sys {
    var state := Facing(s.room, s.now);
    if state != s.room.reported then Log(s, Pushed(state)).(room := s.room.(reported := state)) else s
  }

  /** Shutdown's flush saves without a plan. */
  function FlushPass(s: Sys): Pass {
    Pass(s.now, false, false, false, false, false, false, s.room.lock.lockValue)
  }

  function BeginStep(s: Sys, flush: bool): Sys {
    s.(pc := if flush then Snapshot(Flushing, FlushPass(s)) else Plan(s.now))
  }

  /** Nobody is in the room, no session lives, nothing waits to be saved, and no close is pending. */
  ghost predicate Deserted(r: Room, now: Time) {
    && !r.doc.dirty && r.life.liveUserCount == 0 && !r.life.closing
    && forall u :: u in r.tok.tokens ==> r.tok.tokens[u].expiresAt <= now
  }

  ghost function PlanStep(s: Sys, now: Time): Sys {
    Log(s, Event.Planned(now, Deserted(s.room, now))).(
      room := RoomModel.Planned(s.room, now), pc := Passing(PlanOf(s.room, now), Warn))
  }

  ghost function PassStep(s: Sys, i: Input, pass: Pass, at: PassAt): Sys {
    match at
    case Warn => s.(room := s.room.(tok := WarnTokens(s.room.tok, pass.now)), pc := AfterWarn(pass))
    case CheckRead =>
      if i.token.None? then s
      else if i.token.value == "" || !s.room.ver.have then s.(pc := AfterCheck(pass))
      else s.(pc := Passing(pass, CheckCall(i.token.value, s.room.ver.expected)))
    case CheckCall(token, expected) =>
      s.(pc := if i.answer.Ok? && i.answer.version != expected then Raise("", false, AfterCheck(pass))
               else AfterCheck(pass))
    case EagerRead =>
      s.(pc := if i.ladder == [] then Passing(pass, SaveCheck)
               else Ensuring(ForEager(pass), i.ladder[0].token, TakeForce))
    case RefreshGuard => s.(pc := Passing(pass, if s.room.conf.conflict then SaveCheck else RefreshRead))
    case RefreshRead =>
      s.(pc := if i.ladder == [] then Passing(pass, SaveCheck)
               else RefreshTry(Refresh(pass, s.room.lock.lockValue, i.ladder, 0, true, Silent)))
    case RefreshMark =>
      s.(room := s.room.(lock := s.room.lock.(haveLock := true, lastLockAt := pass.now)),
         pc := Passing(pass, SaveCheck))
    case SaveCheck => s.(pc := if SaveDue(s.room, pass.now) then Snapshot(Scheduled, pass) else FINISH)
  }

  function Remove(s: Sys, byClose: bool): Sys {
    Log(s, Removed(s.room.doc.dirty, byClose)).(indexed := false, pc := FINISH)
  }

  function WithoutLock(r: Room): Room {
    r.(lock := r.lock.(haveLock := false))
  }

  function GcStep(s: Sys, i: Input, pass: Pass, at: GcAt): Sys {
    match at
    case GcLadder =>
      s.(pc := Collecting(pass, if i.ladder == [] then GcDelete else GcUnlock(i.ladder[0].token)))
    case GcUnlock(token) =>
      s.(pc := if i.answer.Ok? then Collecting(pass, GcDropLock) else FINISH)
    case GcDropLock => s.(room := WithoutLock(s.room), pc := Collecting(pass, GcDelete))
    case GcDelete =>
      if Idling(s.room, i.live) then Remove(s, false)
      else s.(room := s.room.(life := s.room.life.(idleSince := 0)), pc := FINISH)
  }

  function CloseStep(s: Sys, i: Input, pass: Pass, at: CloseAt): Sys {
    match at
    case CloseRead =>
      if !CloseDue(s.room.life, pass.now) then s.(pc := FINISH)
      else if s.room.doc.dirty && !s.room.conf.conflict
      then s.(pc := if CloseSaveDue(s.room, pass.now) then Snapshot(Closing, pass) else FINISH)
      else s.(pc := Shutting(pass, CloseRecheck))
    case CloseRecheck =>
      if !CloseDue(s.room.life, pass.now) || s.room.doc.dirty then s.(pc := FINISH)
      else
        var lock := s.room.lock;
        Log(s, Looked).(pc := Shutting(pass, if lock.haveLock then CloseLadder(lock.lockValue) else CloseDelete))
    case CloseLadder(lockValue) =>
      s.(pc := Shutting(pass, if i.ladder == [] then CloseDelete else CloseUnlock(i.ladder[0].token, lockValue)))
    case CloseUnlock(token, lockValue) =>
      s.(pc := Shutting(pass, if i.answer.Ok? then CloseDropLock else CloseDelete))
    case CloseDropLock => s.(room := WithoutLock(s.room), pc := Shutting(pass, CloseDelete))
    case CloseDelete => Remove(s, true)
  }

  /** Where refreshLock goes with the host's answer. */
  function RefreshReply(rf: Refresh, token: string, a: Answer): PC {
    if a.Ok? then Passing(rf.pass, RefreshMark)
    else if !a.error.LockConflict? then RefreshNext(rf, token, a.error)
    else if a.error.currentLock == "" then Ensuring(ForRefresh(rf), token, TakeForce)
    else if a.error.currentLock == rf.lockValue then Passing(rf.pass, RefreshMark)
    else Raise(a.error.currentLock, true, Passing(rf.pass, SaveCheck))
  }

  ghost function RefreshStep(s: Sys, i: Input, rf: Refresh, at: RefreshAt): Sys {
    match at
    case RefreshCall(token) =>
      s.(pc := RefreshReply(rf, token, i.answer))
    case RefreshMarkToken(token, noWrite) =>
      s.(room := s.room.(tok := MarkToken(s.room.tok, rf.pass.now, token, noWrite)), pc := RefreshTry(rf))
    case RefreshDone =>
      Log(s, RefreshFailed(rf.answers)).(
        room := s.room.(saves := s.room.saves.(writeLost := s.room.saves.writeLost || rf.allNoWrite)),
        pc := Passing(rf.pass, SaveCheck))
  }

  /** Where ensureLocked goes with UnlockAndRelock's answer. */
  function SwapReply(c: Caller, token: string, lockValue: string, force: string, a: Answer): PC {
    if a.Ok? then Ensuring(c, token, Mark)
    else if !a.error.LockConflict? then Ensuring(c, token, RestoreForce(force, a.error))
    else if a.error.currentLock != "" && a.error.currentLock != lockValue
    then Raise(a.error.currentLock, true, Denied(c, token, a.error))
    else Ensuring(c, token, LockCall(lockValue))
  }

  /** Where ensureLocked goes with LOCK's answer; an empty-lock 409 gets one retry. */
  function LockReply(c: Caller, token: string, lockValue: string, retry: bool, a: Answer): PC {
    if a.Ok? then Ensuring(c, token, Mark)
    else if !a.error.LockConflict? then Denied(c, token, a.error)
    else if a.error.currentLock != "" then ResolveForeign(c, token, lockValue, a.error.currentLock)
    else if retry then Ensuring(c, token, LockAgain(lockValue))
    else Denied(c, token, a.error)
  }

  function EnsureStep(s: Sys, i: Input, c: Caller, token: string, at: EnsureAt): Sys {
    match at
    case TakeForce =>
      s.(room := s.room.(lock := s.room.lock.(forceUnlockValue := "")),
         pc := Ensuring(c, token,
           if s.room.lock.forceUnlockValue != "" then Swap(s.room.lock.lockValue, s.room.lock.forceUnlockValue)
           else LockCall(s.room.lock.lockValue)))
    case Swap(lockValue, force) =>
      var s' := s.(pc := SwapReply(c, token, lockValue, force, i.answer));
      if i.answer.Ok? then Log(s', Took(force)) else s'
    case RestoreForce(force, error) =>
      s.(room := s.room.(lock := s.room.lock.(forceUnlockValue := force)), pc := Denied(c, token, error))
    case LockCall(lockValue) =>
      s.(pc := LockReply(c, token, lockValue, true, i.answer))
    case LockAgain(lockValue) =>
      s.(pc := LockReply(c, token, lockValue, false, i.answer))
    case Mark =>
      s.(room := s.room.(lock := s.room.lock.(haveLock := true, lastLockAt := CallerNow(c))), pc := Locked(c, token))
  }

  /** performSave's first section. */
  function SnapshotStep(s: Sys, i: Input, origin: Origin, pass: Pass): Sys {
    if !s.room.doc.dirty || s.room.conf.conflict then s.(pc := AfterSave(origin, pass))
    else
      var sv := Save(origin, pass, s.room.doc.scene, s.room.doc.seqNo, s.room.lock.lockValue, i.ladder,
                     !s.room.saves.firstDone, 0, i.ladder != [], Silent);
      Log(s, Started(origin, pass.now)).(
        room := s.room.(saves := s.room.saves.(firstDone := true)), pc := Try(sv))
  }

  /** Where attemptSave goes with PutFile's answer. */
  function PutReply(sv: Save, token: string, a: Answer): PC {
    if a.Ok? then Saving(sv, Record(a.version))
    else if !a.error.LockConflict? then TryNext(sv, token, a.error)
    else if a.error.currentLock != "" && a.error.currentLock != sv.lockValue
    then Raise(a.error.currentLock, true, AfterSave(sv.origin, sv.pass))
    else Saving(sv, DropLock(a.error))
  }

  ghost function SaveStep(s: Sys, i: Input, sv: Save, at: SaveAt): Sys {
    match at
    case Put(token) =>
      var s' := s.(pc := PutReply(sv, token, i.answer));
      if i.answer.Ok? then Log(s', Stored(Body(sv.scene), true)) else s'
    case PutUnlocked(token, error) =>
      if i.answer.Ok? then Log(s.(pc := Saving(sv, Record(i.answer.version))), Stored(Body(sv.scene), false))
      else s.(pc := Try(Advance(sv, error)))
    case DropLock(error) => s.(room := WithoutLock(s.room), pc := Try(Advance(sv, error)))
    case SaveMarkToken(token, noWrite) =>
      s.(room := s.room.(tok := MarkToken(s.room.tok, sv.pass.now, token, noWrite)), pc := Try(sv))
    case Record(version) =>
      Log(s, Saved(sv.pass.now)).(
        room := RecordSaveSuccess(s.room, sv.pass.now, version, sv.seqNo), pc := AfterSave(sv.origin, sv.pass))
    case Fail =>
      Log(s, Failed(sv.origin, sv.pass.now, sv.answers)).(
        room := s.room.(saves := RecordSaveFailure(s.room.saves, sv.pass.now, sv.allNoWrite)),
        pc := AfterSave(sv.origin, sv.pass))
  }

  function RaiseStep(s: Sys, foreign: string, dropLock: bool, next: PC): Sys {
    Log(s, Raised(foreign)).(room := EnterConflict(s.room, foreign, dropLock), pc := Notify(next))
  }

  function ExitStep(s: Sys): Sys {
    Log(s, Ended).(room := s.room.(life := s.room.life.(inFlight := false)), pc := Idle)
  }

  /** The worker's next step, told `i`. */
  ghost function Act(s: Sys, i: Input): Sys {
    match s.pc
    case Idle => s
    case Begin(flush) => BeginStep(s, flush)
    case Plan(now) => PlanStep(s, now)
    case Passing(pass, at) => PassStep(s, i, pass, at)
    case Collecting(pass, at) => GcStep(s, i, pass, at)
    case Shutting(pass, at) => CloseStep(s, i, pass, at)
    case Refreshing(rf, at) => RefreshStep(s, i, rf, at)
    case Ensuring(c, token, at) => EnsureStep(s, i, c, token, at)
    case Snapshot(origin, pass) => SnapshotStep(s, i, origin, pass)
    case Saving(sv, at) => SaveStep(s, i, sv, at)
    case Raise(foreign, dropLock, next) => RaiseStep(s, foreign, dropLock, next)
    case Notify(next) => Push(s).(pc := next)
    case Exit => ExitStep(s)
  }

  /** The request the worker's next step sends, if it is a host call. */
  function RequestOf(pc: PC): Option<Request> {
    match pc
    case Passing(_, CheckCall(token, _)) => Some(CheckFileInfo(token))
    case Collecting(pass, GcUnlock(token)) => Some(Unlock(token, pass.lockValue))
    case Shutting(_, CloseUnlock(token, lockValue)) => Some(Unlock(token, lockValue))
    case Refreshing(rf, RefreshCall(token)) => Some(RefreshLock(token, rf.lockValue))
    case Ensuring(_, token, Swap(lockValue, force)) => Some(UnlockAndRelock(token, lockValue, force))
    case Ensuring(_, token, LockCall(lockValue)) => Some(Lock(token, lockValue))
    case Ensuring(_, token, LockAgain(lockValue)) => Some(Lock(token, lockValue))
    case Saving(sv, Put(token)) => Some(PutFile(token, sv.lockValue, Body(sv.scene)))
    case Saving(sv, PutUnlocked(token, _)) => Some(PutFile(token, "", Body(sv.scene)))
    case _ => None
  }

  /** The instant a step that builds a token ladder builds it for. */
  function LadderTime(s: Sys): Time {
    match s.pc
    case Passing(pass, _) => pass.now
    case Shutting(pass, _) => pass.now
    case Snapshot(_, pass) => pass.now
    case _ => s.now
  }

  /** What the worker's next step is told when the host's answer is `a`. */
  ghost function InputOf(s: Sys, pick: string, a: Answer): Input {
    var t := LadderTime(s);
    Input(a, Ladder(s.room, t),
          if FairPick(s.room, t, pick) then Some(AnyLiveToken(s.room, t, pick)) else None,
          Live(s.room, s.now))
  }

  ghost function WorkerStep(w: World, s: Sys, ch: Choice): Sys {
    match RequestOf(s.pc)
    case None => Act(s, InputOf(s, ch.pick, Ok("")))
    case Some(q) =>
      var (h, a) := Call(w, s, ch, q);
      Act(s.(host := h), InputOf(s, ch.pick, a))
  }

  /** Two steps of the worker. */
  ghost function Two(w: World, s: Sys, ch: Choice): Sys {
    WorkerStep(w, WorkerStep(w, s, ch), ch)
  }

  // ------------------------------------------------------------------- runs

  /** A request handler's critical section; a room out of the index is out of every handler's reach. */
  ghost function HandlerStep(w: World, s: Sys, l: Label): Sys {
    match l
    case DoPutScene(data, user, at) =>
      if at in s.stamps
      then Log(s, Edited(data, at, s.now)).(room := s.room.(doc := PutScene(s.room.doc, at, data, user)))
      else s
    case DoObserve(user, info) => s.(room := Observe(s.room, s.now, w.own, user, info))
    case DoJoin => s.(room := s.room.(life := OnJoin(s.room.life)))
    case DoLeave(roomEmpty) => s.(room := s.room.(life := OnLeave(s.room.life, s.now, roomEmpty)))
    case DoResolve(overwrite) =>
      if s.room.conf.conflict
      then Log(s, Resolved(s.room.conf.foreignLock, overwrite)).(room := ResolveConflict(s.room, overwrite))
      else s
    case _ => s
  }

  ghost function Step(w: World, s: Sys, l: Label): Sys {
    match l
    case Enter(flush) =>
      if s.room.life.inFlight then s
      else s.(room := s.room.(life := s.room.life.(inFlight := true)), pc := Begin(flush))
    case Work(ch) => WorkerStep(w, s, ch)
    case ReadClock => s.(stamps := s.stamps + {s.now})
    case DoNotify => Push(s)
    case Others(h) => s.(host := h)
    case Tick(now) => if now >= s.now then s.(now := now) else s
    case _ => if s.indexed then HandlerStep(w, s, l) else s
  }

  /** The room an Observe of its file creates, before that Observe's token: nothing retained or known. */
  function Start(w: World, host: HostFile, now: Time): Sys {
    Sys(FRESH.(lock := FRESH.lock.(lockValue := w.own)), host, now, Idle, true, Nothing, {})
  }

  /** The state after the steps `ls`: `forall ls` is "in every run and every interleaving". */
  ghost function Run(w: World, s: Sys, ls: seq<Label>): Sys {
    if ls == [] then s else Step(w, Run(w, s, ls[..|ls| - 1]), ls[|ls| - 1])
  }

  // ----------------------------------------------------- reading the history

  /** When the newest planned pass began. */
  function LastPlanned(h: History): Option<Time> {
    match h
    case Nothing => None
    case Then(past, e) => if e.Planned? then Some(e.at) else LastPlanned(past)
  }

  /** When the newest pass that has ended began; until one has, when the first one did. */
  function LastServed(h: History): Option<Time> {
    match h
    case Nothing => None
    case Then(past, e) =>
      if e.Ended? then LastPlanned(past)
      else if e.Planned? && LastServed(past).None? then Some(e.at)
      else LastServed(past)
  }

  /** Some steps from a fresh room at instant `t` lead to `s`. */
  ghost predicate Reached(w: World, host: HostFile, t: Time, s: Sys) {
    exists ls :: Run(w, Start(w, host, t), ls) == s
  }

  lemma ReachedNext(w: World, host: HostFile, t: Time, s: Sys, l: Label)
    requires Reached(w, host, t, s)
    ensures Reached(w, host, t, Step(w, s, l))
  {
    var ls :| Run(w, Start(w, host, t), ls) == s;
    RunExtends(w, Start(w, host, t), ls, l);
  }

  lemma RunExtends(w: World, s: Sys, ls: seq<Label>, l: Label)
    ensures Run(w, s, ls + [l]) == Step(w, Run(w, s, ls), l)
  {
    assert (ls + [l])[..|ls|] == ls;
  }
}
