/**
 One room's record and what each critical section under the manager's mutex makes of it.

 Every function here is one uninterrupted stretch of code between a lock and an unlock of
 `m.mu`. Class `RoomObject.RoomState` performs them in place and is proved against them.
 The record's fields are grouped by what they are about.
 */
module RoomModel {
  import opened Basics
  import Order

  const SERVER_SAVE_INTERVAL: nat := 60 * SECOND
  const LOCK_REFRESH_INTERVAL: nat := 10 * MINUTE
  const IDLE_FLUSH_INTERVAL: nat := 30 * SECOND
  const INITIAL_BACKOFF: nat := 1 * SECOND
  const MAX_BACKOFF: nat := 5 * MINUTE
  const CLOSE_GRACE: nat := 10 * SECOND
  const TOKEN_EXPIRY_WARN_WINDOW: nat := 10 * MINUTE
  const FAILED_TOKEN_TTL: nat := 2 * MINUTE
  const SAVE_STALLED_WINDOW: nat := 5 * MINUTE
  const GC_IDLE_TIMEOUT: nat := 15 * MINUTE
  const STUCK_CONFLICT_LOG_INTERVAL: nat := 60 * MINUTE

  datatype TokenInfo = TokenInfo(token: string, expiresAt: Time, canWrite: bool, warned: bool)

  datatype Candidate = Candidate(user: string, token: string)

  datatype Scene = Scene(scene: Option<Bytes>, dirty: bool, lastPutSceneAt: Time, lastWriter: string, seqNo: nat)

  datatype Tokens = Tokens(tokens: map<string, TokenInfo>, failed: map<string, Time>)

  datatype LockState = LockState(lockValue: string, haveLock: bool, lastLockAt: Time, forceUnlockValue: string)

  datatype Versions = Versions(skipCheckOnce: bool, expected: string, have: bool, pendingCheck: bool)

  datatype Conflict = Conflict(conflict: bool, foreignLock: string)

  datatype Reported = Reported(conflict: bool, saveStalled: bool)

  datatype Saves = Saves(
    lastAttemptAt: Time, backoff: nat, nextRetryAt: Time, firstDone: bool, firstFailedAt: Time, writeLost: bool)

  datatype Life = Life(
    liveUserCount: nat, closing: bool, closeAt: Time, idleSince: Time, lastStuckLogAt: Time, inFlight: bool)

  datatype Room = Room(
    doc: Scene, tok: Tokens, lock: LockState, ver: Versions, conf: Conflict, reported: Reported,
    saves: Saves, life: Life)

  const FRESH: Room := Room(
    Scene(None, false, 0, "", 0), Tokens(map[], map[]), LockState("", false, 0, ""),
    Versions(false, "", false, false), Conflict(false, ""), Reported(false, false),
    Saves(0, 0, 0, false, 0, false), Life(0, false, 0, 0, 0, false))

  /** The body a save of this scene sends: a dropped scene (Go's nil slice) goes out empty. */
  function Body(scene: Option<Bytes>): Bytes {
    if scene.Some? then scene.value else []
  }

  // ---------------------------------------------------------------- tokens

  function RecentlyFailed(failed: map<string, Time>, token: string, now: Time): bool {
    token in failed && now as int - failed[token] < FAILED_TOKEN_TTL
  }

  ghost predicate Unexpired(t: Tokens, now: Time, user: string) {
    user in t.tokens && now < t.tokens[user].expiresAt
  }

  ghost predicate Eligible(t: Tokens, now: Time, user: string) {
    && Unexpired(t, now, user)
    && t.tokens[user].canWrite
    && !RecentlyFailed(t.failed, t.tokens[user].token, now)
  }

  ghost function EligibleUsers(t: Tokens, now: Time): set<string> {
    set u | u in t.tokens && Eligible(t, now, u)
  }

  ghost function Candidates(t: Tokens, users: seq<string>): seq<Candidate>
    requires forall i :: 0 <= i < |users| ==> users[i] in t.tokens
  {
    seq(|users|, i requires 0 <= i < |users| => Candidate(users[i], t.tokens[users[i]].token))
  }

  /** The tokens a write should try: the last writer's first, then every other by user id. */
  ghost function TokenLadder(t: Tokens, lastWriter: string, now: Time): (ladder: seq<Candidate>)
    ensures forall i :: 0 <= i < |ladder| ==> Eligible(t, now, ladder[i].user)
                                              && ladder[i].token == t.tokens[ladder[i].user].token
  {
    var eligible := EligibleUsers(t, now);
    var rest := Order.Sorted(eligible - {lastWriter});
    assert forall i :: 0 <= i < |rest| ==> rest[i] in Order.Elements(rest);
    if lastWriter in eligible
    then [Candidate(lastWriter, t.tokens[lastWriter].token)] + Candidates(t, rest)
    else Candidates(t, rest)
  }

  ghost function Ladder(r: Room, now: Time): seq<Candidate> {
    TokenLadder(r.tok, r.doc.lastWriter, now)
  }

  /** A token for a read: the ladder's first, else any unexpired one; `pick` stands for map order. */
  ghost function AnyLiveToken(r: Room, now: Time, pick: string): string {
    var ladder := Ladder(r, now);
    if ladder != [] then ladder[0].token
    else if Unexpired(r.tok, now, pick) then r.tok.tokens[pick].token
    else ""
  }

  /** Whether anyLiveToken can come to `pick`: it looks past the ladder only when that is empty. */
  ghost predicate FairPick(r: Room, now: Time, pick: string) {
    Ladder(r, now) != [] || Unexpired(r.tok, now, pick) || forall u :: !Unexpired(r.tok, now, u)
  }

  ghost function Prune(t: Tokens, now: Time): Tokens {
    var tokens := map u | u in t.tokens && now < t.tokens[u].expiresAt :: t.tokens[u];
    var live := set u | u in tokens :: tokens[u].token;
    Tokens(tokens,
           map k | k in t.failed && k in live && now as int - t.failed[k] < FAILED_TOKEN_TTL :: t.failed[k])
  }

  /** A refused token: skipped by the ladder for a while, and after a 401 no longer write-capable. */
  ghost function MarkToken(t: Tokens, now: Time, token: string, noWrite: bool): Tokens {
    Tokens(
      map u | u in t.tokens ::
        if noWrite && t.tokens[u].token == token then t.tokens[u].(canWrite := false) else t.tokens[u],
      t.failed[token := now])
  }

  predicate ExpiresSoon(info: TokenInfo, now: Time) {
    !info.warned && now < info.expiresAt && info.expiresAt - now <= TOKEN_EXPIRY_WARN_WINDOW
  }

  ghost function WarnTokens(t: Tokens, now: Time): Tokens {
    t.(tokens := map u | u in t.tokens ::
         if ExpiresSoon(t.tokens[u], now) then t.tokens[u].(warned := true) else t.tokens[u])
  }

  // -------------------------------------------------------------- handlers

  function PutScene(d: Scene, now: Time, data: Bytes, user: string): Scene {
    Scene(Some(data), true, now, if user != "" then user else d.lastWriter, d.seqNo + 1)
  }

  /** `lock` is the lock value of the observed file. */
  ghost function Observe(r: Room, now: Time, lock: string, user: string, info: TokenInfo): Room {
    r.(lock := r.lock.(lockValue := lock),
       tok := Prune(r.tok.(tokens := r.tok.tokens[user := info]), now),
       ver := if user !in r.tok.tokens && r.ver.have && !r.conf.conflict then r.ver.(pendingCheck := true) else r.ver)
  }

  function OnJoin(f: Life): Life {
    f.(liveUserCount := f.liveUserCount + 1, closing := false)
  }

  function OnLeave(f: Life, now: Time, roomEmpty: bool): Life {
    var left := f.(liveUserCount := if f.liveUserCount > 0 then f.liveUserCount - 1 else 0);
    if roomEmpty then left.(closing := true, closeAt := now + CLOSE_GRACE) else left
  }

  function ResolveConflict(r: Room, overwrite: bool): Room {
    if !r.conf.conflict then r
    else
      var foreign := r.conf.foreignLock;
      var lock := if foreign != "" then r.lock.(forceUnlockValue := foreign) else r.lock;
      if overwrite
      then r.(conf := Conflict(false, ""), lock := lock, doc := r.doc.(dirty := true),
              saves := r.saves.(backoff := 0, nextRetryAt := 0, lastAttemptAt := 0),
              ver := r.ver.(skipCheckOnce := true))
      else r.(conf := Conflict(false, ""), lock := lock, doc := r.doc.(scene := None, dirty := false),
              ver := r.ver.(have := false))
  }

  function EnterConflict(r: Room, foreign: string, dropLock: bool): Room {
    r.(conf := Conflict(true, if foreign != "" then foreign else r.conf.foreignLock),
       lock := if dropLock then r.lock.(haveLock := false) else r.lock)
  }

  function SaveStalled(r: Room, now: Time): bool {
    r.doc.dirty
    && (r.saves.writeLost
        || (r.saves.firstFailedAt != 0 && now as int - r.saves.firstFailedAt >= SAVE_STALLED_WINDOW))
  }

  /** The client-facing state notifyState derives. */
  function Facing(r: Room, now: Time): Reported {
    Reported(r.conf.conflict, SaveStalled(r, now))
  }

  // ------------------------------------------------------------- schedules

  ghost predicate Live(r: Room, now: Time) {
    r.doc.dirty || r.life.liveUserCount > 0 || exists u :: Unexpired(r.tok, now, u)
  }

  function Min(a: Time, b: Time): Time { if b < a then b else a }

  function SaveDue(r: Room, now: Time): bool {
    if !r.doc.dirty || r.conf.conflict then false
    else if r.saves.nextRetryAt != 0 then now >= r.saves.nextRetryAt
    else if r.saves.lastAttemptAt == 0 then true
    else now >= Min(r.saves.lastAttemptAt + SERVER_SAVE_INTERVAL, r.doc.lastPutSceneAt + IDLE_FLUSH_INTERVAL)
  }

  function CloseSaveDue(r: Room, now: Time): bool {
    r.doc.dirty && !r.conf.conflict && (r.saves.nextRetryAt != 0 ==> now >= r.saves.nextRetryAt)
  }

  // ---------------------------------------------------------------- worker

  /** One pass's decisions, and the instant the pass began. */
  datatype Pass = Pass(
    now: Time, versionCheckDue: bool, closeDue: bool, lockDue: bool, gcDue: bool, needRefresh: bool,
    haveLock: bool, lockValue: string)

  function CloseDue(f: Life, now: Time): bool {
    f.closing && now >= f.closeAt
  }

  predicate RefreshDue(r: Room, now: Time, live: bool) {
    r.lock.haveLock && !r.conf.conflict && live && now as int - r.lock.lastLockAt >= LOCK_REFRESH_INTERVAL
  }

  predicate VersionCheckDue(v: Versions, needRefresh: bool) {
    !v.skipCheckOnce && (v.pendingCheck || needRefresh)
  }

  predicate Idling(r: Room, live: bool) {
    !live && !r.doc.dirty && !r.life.closing
  }

  function IdleSince(r: Room, now: Time, live: bool): Time {
    if !Idling(r, live) then 0 else if r.life.idleSince == 0 then now else r.life.idleSince
  }

  predicate StuckLogDue(r: Room, now: Time) {
    && r.conf.conflict && r.doc.dirty && r.life.liveUserCount == 0
    && (r.life.lastStuckLogAt == 0 || now as int - r.life.lastStuckLogAt >= STUCK_CONFLICT_LOG_INTERVAL)
  }

  /** planPass after it has pruned the tokens: what it leaves in the room. */
  ghost function PlannedFrom(r: Room, now: Time): Room {
    var live := Live(r, now);
    var checkDue := VersionCheckDue(r.ver, RefreshDue(r, now, live));
    r.(ver := r.ver.(skipCheckOnce := false,
                     pendingCheck := r.ver.pendingCheck && !(checkDue && !CloseDue(r.life, now))),
       life := r.life.(idleSince := IdleSince(r, now, live),
                       lastStuckLogAt := if StuckLogDue(r, now) then now else r.life.lastStuckLogAt))
  }

  /** And the decisions it takes. */
  ghost function PlanFrom(r: Room, now: Time): Pass {
    var live := Live(r, now);
    var closeDue := CloseDue(r.life, now);
    var needRefresh := RefreshDue(r, now, live);
    Pass(now, VersionCheckDue(r.ver, needRefresh), closeDue,
         !r.lock.haveLock && !r.conf.conflict && !closeDue && Ladder(r, now) != [],
         Idling(r, live) && now as int - IdleSince(r, now, live) >= GC_IDLE_TIMEOUT,
         needRefresh, r.lock.haveLock, r.lock.lockValue)
  }

  /** The room after planPass. */
  ghost function Planned(r: Room, now: Time): Room {
    PlannedFrom(r.(tok := Prune(r.tok, now)), now)
  }

  /** The decisions planPass takes. */
  ghost function PlanOf(r: Room, now: Time): Pass {
    PlanFrom(r.(tok := Prune(r.tok, now)), now)
  }

  function RecordSaveSuccess(r: Room, now: Time, version: string, seqNo: nat): Room {
    r.(doc := r.doc.(dirty := r.doc.dirty && r.doc.seqNo != seqNo),
       ver := r.ver.(expected := version, have := true),
       saves := r.saves.(lastAttemptAt := now, backoff := 0, nextRetryAt := 0, firstFailedAt := 0, writeLost := false))
  }

  function NextBackoff(backoff: nat): nat {
    if backoff == 0 then INITIAL_BACKOFF
    else if 2 * backoff > MAX_BACKOFF then MAX_BACKOFF
    else 2 * backoff
  }

  function RecordSaveFailure(s: Saves, now: Time, allNoWrite: bool): Saves {
    var backoff := NextBackoff(s.backoff);
    s.(lastAttemptAt := now, backoff := backoff, nextRetryAt := now + backoff,
       firstFailedAt := if s.firstFailedAt == 0 then now else s.firstFailedAt,
       writeLost := s.writeLost || allNoWrite)
  }
}
