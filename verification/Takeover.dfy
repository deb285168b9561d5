/**
 ResolveConflict carries through: one undisturbed pass after it ends with the room's own lock at
 the host, and after an overwrite with the retained scene stored.

 A refused token does not spend the user's decision: ensureLocked puts the one-shot takeover
 value back, so the first accepted token of the ladder still uses it.
 */
module Takeover {
  import opened Basics
  import opened WopiHost
  import opened RoomModel
  import opened SaveMachine
  import Order

  const QUIET: Choice := Choice(None, "")

  /** The worker's step with nobody else moving and no fault at the host. */
  ghost function Alone(w: World): Sys -> Sys {
    (s: Sys) => WorkerStep(w, s, QUIET)
  }

  ghost function Iterate<T>(f: T -> T, x: T, n: nat): T
    decreases n
  {
    if n == 0 then x else Iterate(f, f(x), n - 1)
  }

  lemma {:induction false} IterateAdd<T>(f: T -> T, x: T, m: nat, n: nat)
    ensures Iterate(f, Iterate(f, x, m), n) == Iterate(f, x, m + n)
    decreases m
  {
    if m == 0 {
    } else {
      IterateAdd(f, f(x), m - 1, n);
    }
  }

  /** Some number of undisturbed worker steps takes `s` to `s'`. */
  ghost predicate Leads(w: World, s: Sys, s': Sys) {
    exists n: nat :: Iterate(Alone(w), s, n) == s'
  }

  lemma LeadsTrans(w: World, a: Sys, b: Sys, c: Sys)
    requires Leads(w, a, b) && Leads(w, b, c)
    ensures Leads(w, a, c)
  {
    var f := Alone(w);
    var m: nat :| Iterate(f, a, m) == b;
    var n: nat :| Iterate(f, b, n) == c;
    IterateAdd(f, a, m, n);
  }

  /** One step, as a fact about where it leads. */
  lemma Next(w: World, s: Sys) returns (s': Sys)
    ensures s' == WorkerStep(w, s, QUIET) && Leads(w, s, s')
  {
    s' := WorkerStep(w, s, QUIET);
    assert Iterate(Alone(w), s', 0) == s';
    assert Iterate(Alone(w), s, 1) == s';
  }

  /** A step that calls nobody. */
  lemma Section(w: World, s: Sys) returns (s': Sys, i: Input)
    requires RequestOf(s.pc).None?
    ensures Leads(w, s, s') && s' == Act(s, i) && i == InputOf(s, "", Ok(""))
  {
    i := InputOf(s, "", Ok(""));
    s' := Next(w, s);
  }

  /** A step that calls the host. */
  lemma Asks(w: World, s: Sys, q: Request) returns (s': Sys, i: Input)
    requires RequestOf(s.pc) == Some(q)
    ensures var (h, r) := Serve(w.versionOf, s.host, s.now, q);
      Leads(w, s, s') && s' == Act(s.(host := h), i) && i.answer == ReadResponse(r)
  {
    i := InputOf(s, "", Call(w, s, QUIET, q).1);
    s' := Next(w, s);
  }

  predicate Accepts(h: HostFile, token: string) {
    token != "" && token in h.access && h.access[token]
  }

  /** The host refuses the token itself: 403, or 401 when it lacks write ability. */
  predicate Refuses(h: HostFile, token: string) {
    !Accepts(h, token)
  }

  predicate TokenError(e: WopiError) {
    e.TokenRejected? || e.NoWriteAccess?
  }

  // ------------------------------------------------------ the ladder is stable

  lemma SameLadder(t1: Tokens, t2: Tokens, lastWriter: string, now: Time)
    requires EligibleUsers(t1, now) == EligibleUsers(t2, now)
    requires forall u :: Eligible(t1, now, u) ==> u in t2.tokens && t1.tokens[u].token == t2.tokens[u].token
    ensures TokenLadder(t1, lastWriter, now) == TokenLadder(t2, lastWriter, now)
  {
    var rest := Order.Sorted(EligibleUsers(t1, now) - {lastWriter});
    assert forall i :: 0 <= i < |rest| ==> rest[i] in Order.Elements(rest);
    assert Candidates(t1, rest) == Candidates(t2, rest);
  }

  /** Neither planPass's pruning nor the expiry watch changes who may write. */
  lemma PruneWarnLadder(t: Tokens, lastWriter: string, now: Time)
    ensures TokenLadder(WarnTokens(Prune(t, now), now), lastWriter, now) == TokenLadder(t, lastWriter, now)
    ensures TokenLadder(Prune(t, now), lastWriter, now) == TokenLadder(t, lastWriter, now)
  {
    var p := Prune(t, now);
    forall u ensures Eligible(t, now, u) <==> Eligible(p, now, u) {
      if Unexpired(t, now, u) {
        assert u in p.tokens && p.tokens[u] == t.tokens[u];
        assert t.tokens[u].token in t.failed && RecentlyFailed(t.failed, t.tokens[u].token, now) ==>
          t.tokens[u].token in p.failed;
      }
    }
    assert EligibleUsers(p, now) == EligibleUsers(t, now);
    SameLadder(t, p, lastWriter, now);
    var q := WarnTokens(p, now);
    assert forall u :: Eligible(q, now, u) <==> Eligible(p, now, u);
    assert EligibleUsers(q, now) == EligibleUsers(p, now);
    SameLadder(p, q, lastWriter, now);
  }

  // ------------------------------------------------- ensureLocked, undisturbed

  /** A pending takeover of the live foreign lock `v`, or no foreign lock live. */
  ghost predicate CanLock(w: World, s: Sys, v: string) {
    && s.room.lock.lockValue == w.own != ""
    && (if s.room.lock.forceUnlockValue == "" then EffectiveLock(s.host, s.now) in {"", w.own}
        else s.room.lock.forceUnlockValue == v != w.own && EffectiveLock(s.host, s.now) == v)
  }

  /** What the worker's own steps up to a save leave alone. */
  ghost predicate Alike(s: Sys, s': Sys) {
    && s'.now == s.now && s'.host.content == s.host.content && s'.host.access == s.host.access
    && s'.room.doc == s.room.doc && s'.room.conf == s.room.conf && s'.room.lock.lockValue == s.room.lock.lockValue
    && s'.indexed == s.indexed && s'.stamps == s.stamps
  }

  /** And those after the plan. */
  ghost predicate Same(s: Sys, s': Sys) {
    Alike(s, s') && LastPlanned(s'.log) == LastPlanned(s.log)
  }

  /** The host holds the room's lock from this instant on. */
  ghost predicate JustLocked(w: World, s: Sys) {
    s.host.lock == w.own && s.host.lockExp == s.now + LOCK_TTL
  }

  /** ensureLocked takes the one-shot takeover value out of the room. */
  lemma ForceTaken(w: World, s: Sys) returns (s': Sys)
    requires s.pc.Ensuring? && s.pc.ensureAt.TakeForce?
    ensures Leads(w, s, s')
    ensures var lock := s.room.lock;
      s' == s.(room := s.room.(lock := lock.(forceUnlockValue := "")),
               pc := Ensuring(s.pc.c, s.pc.token,
                 if lock.forceUnlockValue != "" then Swap(lock.lockValue, lock.forceUnlockValue)
                 else LockCall(lock.lockValue)))
  {
    var i;
    s', i := Section(w, s);
  }

  /** The room asks for its own lock: by UnlockAndRelock against `v`, or by LOCK with no other value live. */
  ghost predicate Asking(w: World, s: Sys, v: string) {
    && s.pc.Ensuring? && w.own != ""
    && (if s.pc.ensureAt.Swap?
        then s.pc.ensureAt == Swap(w.own, v) && v !in {"", w.own} && EffectiveLock(s.host, s.now) == v
        else s.pc.ensureAt == LockCall(w.own) && EffectiveLock(s.host, s.now) in {"", w.own})
  }

  lemma AskAccepted(w: World, s: Sys, v: string) returns (s': Sys)
    requires Asking(w, s, v) && Accepts(s.host, s.pc.token)
    ensures Leads(w, s, s') && s'.pc == Ensuring(s.pc.c, s.pc.token, Mark)
    ensures s'.room == s.room && Same(s, s') && JustLocked(w, s')
  {
    var i;
    s', i := Asks(w, s, RequestOf(s.pc).value);
  }

  lemma AskRefused(w: World, s: Sys, v: string) returns (s': Sys, e: WopiError)
    requires Asking(w, s, v) && s.pc.ensureAt.Swap? && Refuses(s.host, s.pc.token)
    ensures Leads(w, s, s') && TokenError(e)
    ensures s' == s.(pc := Ensuring(s.pc.c, s.pc.token, RestoreForce(v, e)))
  {
    var i;
    s', i := Asks(w, s, RequestOf(s.pc).value);
    e := if s.pc.token == "" || s.pc.token !in s.host.access then TokenRejected else NoWriteAccess;
  }

  lemma Marked(w: World, s: Sys) returns (s': Sys)
    requires s.pc.Ensuring? && (s.pc.ensureAt.Mark? || s.pc.ensureAt.RestoreForce?)
    ensures Leads(w, s, s') && s'.host == s.host && Same(s, s') && s'.room == s.room.(lock := s'.room.lock)
    ensures s.pc.ensureAt.Mark? ==>
      && s'.pc == Locked(s.pc.c, s.pc.token)
      && s'.room.lock == s.room.lock.(haveLock := true, lastLockAt := CallerNow(s.pc.c))
    ensures s.pc.ensureAt.RestoreForce? ==>
      && s' == s.(pc := Denied(s.pc.c, s.pc.token, s.pc.ensureAt.error),
                  room := s.room.(lock := s.room.lock.(forceUnlockValue := s.pc.ensureAt.force)))
  {
    var i;
    s', i := Section(w, s);
  }

  lemma LockAccepted(w: World, s: Sys, v: string) returns (s': Sys)
    requires s.pc.Ensuring? && s.pc.ensureAt.TakeForce? && CanLock(w, s, v) && Accepts(s.host, s.pc.token)
    ensures Leads(w, s, s') && Same(s, s')
    ensures s'.pc == Locked(s.pc.c, s.pc.token) && JustLocked(w, s')
    ensures s'.room ==
      s.room.(lock := s.room.lock.(forceUnlockValue := "", haveLock := true, lastLockAt := CallerNow(s.pc.c)))
  {
    var s1 := ForceTaken(w, s);
    var s2 := AskAccepted(w, s1, v);
    s' := Marked(w, s2);
    LeadsTrans(w, s, s1, s2);
    LeadsTrans(w, s, s2, s');
  }

  /** A refused token leaves the takeover where it was. */
  lemma LockRefused(w: World, s: Sys, v: string) returns (s': Sys, e: WopiError)
    requires s.pc.Ensuring? && s.pc.ensureAt.TakeForce? && CanLock(w, s, v) && Refuses(s.host, s.pc.token)
    requires s.room.lock.forceUnlockValue == v != ""
    ensures Leads(w, s, s') && TokenError(e)
    ensures s' == s.(pc := Denied(s.pc.c, s.pc.token, e))
  {
    var s1 := ForceTaken(w, s);
    var s2;
    s2, e := AskRefused(w, s1, v);
    s' := Marked(w, s2);
    assert s'.room.lock == s.room.lock && s'.room == s.room && s' == s.(pc := s'.pc);
    LeadsTrans(w, s, s1, s2);
    LeadsTrans(w, s, s2, s');
  }

  /** notifyState changes nothing but what was last reported. */
  lemma NotifyStep(w: World, s: Sys) returns (s': Sys)
    requires s.pc.Notify?
    ensures Leads(w, s, s') && s'.pc == s.pc.next
    ensures Same(s, s') && s'.host == s.host && s'.room == s.room.(reported := s'.room.reported)
  {
    var i;
    s', i := Section(w, s);
  }

  lemma Exits(w: World, s: Sys) returns (s': Sys)
    requires s.pc == Exit
    ensures Leads(w, s, s') && s' == ExitStep(s)
  {
    var i;
    s', i := Section(w, s);
  }

  lemma PassEnds(w: World, s: Sys) returns (s': Sys)
    requires s.pc == FINISH
    ensures Leads(w, s, s') && s'.pc == Idle
    ensures Same(s, s') && s'.host == s.host
    ensures s'.room == s.room.(reported := s'.room.reported, life := s.room.life.(inFlight := false))
  {
    var s1 := NotifyStep(w, s);
    s' := Exits(w, s1);
    LeadsTrans(w, s, s1, s');
  }

  // -------------------------------------------------- performSave, undisturbed

  /** The room is as the save's snapshot found it. */
  ghost predicate Unchanged(w: World, s: Sys, sv: Save) {
    && s.room.doc.dirty && !s.room.conf.conflict
    && s.room.doc.scene == sv.scene && s.room.doc.seqNo == sv.seqNo
    && sv.origin.Scheduled? && sv.lockValue == w.own && s.indexed
  }

  /** The retained scene is at the host under the room's own lock, and nothing is left to do. */
  ghost predicate Stored(w: World, s: Sys, scene: Option<Bytes>) {
    && s.pc == Idle && s.host.content == Body(scene) && EffectiveLock(s.host, s.now) == w.own
    && !s.room.doc.dirty && !s.room.conf.conflict && s.room.doc.scene == scene
    && s.indexed && s.room.saves.nextRetryAt == 0
  }

  lemma PutAccepted(w: World, s: Sys) returns (s': Sys)
    requires s.pc.Saving? && s.pc.saveAt.Put? && Unchanged(w, s, s.pc.sv)
    requires EffectiveLock(s.host, s.now) == w.own != "" && Accepts(s.host, s.pc.saveAt.token)
    ensures Leads(w, s, s') && Stored(w, s', s.pc.sv.scene)
    ensures s'.room.saves.lastAttemptAt == s.pc.sv.pass.now && s'.now == s.now && s'.stamps == s.stamps
  {
    var s1 := Next(w, s);
    assert s1.pc == Saving(s.pc.sv, Record(w.versionOf(Body(s.pc.sv.scene))));
    var s2 := Next(w, s1);
    assert s2.pc == FINISH;
    s' := PassEnds(w, s2);
    LeadsTrans(w, s, s1, s2);
    LeadsTrans(w, s, s2, s');
  }

  /** Every refused candidate hands the takeover on; the first accepted one stores the scene. */
  lemma {:induction false} SaveLoop(w: World, s: Sys, v: string, sv: Save, j: nat) returns (s': Sys)
    requires s.pc == Try(sv) && CanLock(w, s, v) && Unchanged(w, s, sv)
    requires sv.i <= j < |sv.ladder| && Accepts(s.host, sv.ladder[j].token)
    requires forall k :: sv.i <= k < j ==> Refuses(s.host, sv.ladder[k].token)
    requires sv.i < j ==> s.room.lock.forceUnlockValue == v != ""
    ensures Leads(w, s, s') && Stored(w, s', sv.scene)
    ensures s'.room.saves.lastAttemptAt == sv.pass.now && s'.now == s.now && s'.stamps == s.stamps
    decreases j - sv.i
  {
    if sv.i == j {
      var s1 := LockAccepted(w, s, v);
      s' := PutAccepted(w, s1);
      LeadsTrans(w, s, s1, s');
    } else {
      var s1, e := LockRefused(w, s, v);
      var next := Advance(sv, e);
      assert s1.pc == Saving(next, SaveMarkToken(sv.ladder[sv.i].token, e.NoWriteAccess?));
      var s2 := Next(w, s1);
      s' := SaveLoop(w, s2, v, next, j);
      LeadsTrans(w, s, s1, s2);
      LeadsTrans(w, s, s2, s');
    }
  }

  // --------------------------------------------------------------- the pass

  lemma Plans(w: World, s: Sys) returns (s': Sys)
    requires s.pc.Plan?
    ensures Leads(w, s, s') && s' == PlanStep(s, s.pc.now)
  {
    var i;
    s', i := Section(w, s);
  }

  /** A pass up to its first dispatch. */
  lemma PassBegins(w: World, s: Sys) returns (s': Sys)
    requires s.pc == Begin(false)
    ensures var pass := PlanOf(s.room, s.now);
      && Leads(w, s, s') && Alike(s, s') && s'.pc == AfterWarn(pass)
      && LastPlanned(s'.log) == Some(s.now)
      && s'.host == s.host && s'.room.lock == s.room.lock && s'.room.saves == s.room.saves
      && s'.room.life.inFlight == s.room.life.inFlight && s'.room.life.closing == s.room.life.closing
      && s'.room.life.closeAt == s.room.life.closeAt
      && s'.room.tok == WarnTokens(Prune(s.room.tok, s.now), s.now)
      && s'.room.ver.have == s.room.ver.have
      && Ladder(s'.room, s.now) == Ladder(s.room, s.now)
      && pass.lockDue ==
           (!s.room.lock.haveLock && !s.room.conf.conflict && !pass.closeDue && Ladder(s.room, s.now) != [])
  {
    var s1, i1 := Section(w, s);
    var s2 := Plans(w, s1);
    var i3;
    s', i3 := Section(w, s2);
    LeadsTrans(w, s, s1, s2);
    LeadsTrans(w, s, s2, s');
    PruneWarnLadder(s.room.tok, s.room.doc.lastWriter, s.now);
  }

  /** The eager acquisition: it spends the takeover only if the host accepts the token. */
  lemma EagerPart(w: World, s: Sys, v: string, pass: Pass) returns (s': Sys)
    requires s.pc == Passing(pass, EagerRead) && CanLock(w, s, v) && s.room.lock.forceUnlockValue == v
    requires Ladder(s.room, pass.now) != []
    requires v == "" ==> Accepts(s.host, Ladder(s.room, pass.now)[0].token)
    ensures Leads(w, s, s') && Same(s, s') && CanLock(w, s', v) && s'.pc == Passing(pass, SaveCheck)
    ensures s'.room == s.room.(lock := s'.room.lock)
    ensures Accepts(s.host, Ladder(s.room, pass.now)[0].token) ==>
      && JustLocked(w, s')
      && s'.room.lock == s.room.lock.(forceUnlockValue := "", haveLock := true, lastLockAt := pass.now)
    ensures s'.room.lock.forceUnlockValue == if Accepts(s.host, Ladder(s.room, pass.now)[0].token) then "" else v
  {
    var token := Ladder(s.room, pass.now)[0].token;
    var s1 := Next(w, s);
    assert s1.pc == Ensuring(ForEager(pass), token, TakeForce);
    if Accepts(s.host, token) {
      s' := LockAccepted(w, s1, v);
    } else {
      var e;
      s', e := LockRefused(w, s1, v);
    }
    LeadsTrans(w, s, s1, s');
  }

  /** Candidate `j` is the first one of the ladder whose token the host accepts for writing. */
  ghost predicate FirstAccepted(s: Sys, j: nat) {
    var ladder := Ladder(s.room, s.now);
    j < |ladder| && Accepts(s.host, ladder[j].token) && forall k :: 0 <= k < j ==> Refuses(s.host, ladder[k].token)
  }

  /** A conflict over a foreign lock that is still live at the host, with the worker at rest. */
  ghost predicate ForeignConflict(w: World, s: Sys) {
    && s.pc == Idle && !s.room.life.inFlight && s.indexed
    && s.room.conf.conflict && s.room.conf.foreignLock !in {"", w.own} && w.own != ""
    && EffectiveLock(s.host, s.now) == s.room.conf.foreignLock
    && s.room.lock.lockValue == w.own
  }

  /** The user's decision, and the worker entering its next pass. */
  ghost function Decided(w: World, s: Sys, overwrite: bool): Sys {
    Step(w, Step(w, s, DoResolve(overwrite)), Enter(false))
  }

  /** The lock this room thinks it holds has reached its refresh age. */
  predicate RefreshAged(s: Sys) {
    s.room.lock.haveLock && s.now as int - s.room.lock.lastLockAt >= LOCK_REFRESH_INTERVAL
  }

  lemma SaveStarts(w: World, s: Sys, pass: Pass) returns (s': Sys)
    requires s.pc == Snapshot(Scheduled, pass) && s.room.doc.dirty
    requires !s.room.conf.conflict && Ladder(s.room, pass.now) != []
    ensures Leads(w, s, s') && s'.host == s.host && Same(s, s')
    ensures s'.room == s.room.(saves := s'.room.saves)
    ensures s'.pc == Try(Save(Scheduled, pass, s.room.doc.scene, s.room.doc.seqNo, s.room.lock.lockValue,
                              Ladder(s.room, pass.now), !s.room.saves.firstDone, 0, true, Silent))
  {
    var i;
    s', i := Section(w, s);
  }

  /** From the save check on, with the forced save due. */
  lemma SavePart(w: World, s: Sys, v: string, pass: Pass, j: nat) returns (s': Sys)
    requires s.pc == Passing(pass, SaveCheck) && s.now == pass.now && CanLock(w, s, v)
    requires s.room.doc.dirty && !s.room.conf.conflict
    requires s.room.saves.nextRetryAt == 0 && s.room.saves.lastAttemptAt == 0
    requires s.indexed && FirstAccepted(s, j) && (j > 0 ==> s.room.lock.forceUnlockValue == v != "")
    ensures Leads(w, s, s') && Stored(w, s', s.room.doc.scene)
    ensures s'.room.saves.lastAttemptAt == pass.now && s'.now == s.now && s'.stamps == s.stamps
  {
    var s1, i := Section(w, s);
    assert s1 == s.(pc := Snapshot(Scheduled, pass));
    var s2 := SaveStarts(w, s1, pass);
    s' := SaveLoop(w, s2, v, s2.pc.c.sv, j);
    LeadsTrans(w, s, s1, s2);
    LeadsTrans(w, s, s2, s');
  }

  /** What the decision hands to the pass: a takeover of the foreign lock, and after an overwrite a forced save. */
  ghost predicate Entering(s0: Sys, s: Sys, overwrite: bool) {
    && s.pc == Begin(false) && s.now == s0.now && s.host == s0.host && s.indexed
    && !s.room.conf.conflict && s.room.lock == s0.room.lock.(forceUnlockValue := s0.room.conf.foreignLock)
    && s.room.tok == s0.room.tok && s.room.doc.lastWriter == s0.room.doc.lastWriter
    && s.room.life == s0.room.life.(inFlight := true)
    && (if overwrite
        then s.room.doc.dirty && s.room.doc.scene == s0.room.doc.scene && s.room.ver.skipCheckOnce
          && s.room.saves.nextRetryAt == 0 && s.room.saves.lastAttemptAt == 0
        else s.room.doc.scene.None? && !s.room.doc.dirty && !s.room.ver.have)
  }

  lemma AfterDecision(w: World, s0: Sys, overwrite: bool)
    requires ForeignConflict(w, s0)
    ensures Entering(s0, Decided(w, s0, overwrite), overwrite)
  {
  }

  lemma OverwritePass(w: World, s0: Sys, s: Sys, j: nat) returns (s': Sys)
    requires ForeignConflict(w, s0) && FirstAccepted(s0, j) && Entering(s0, s, true)
    requires !CloseDue(s0.room.life, s0.now) && !RefreshAged(s0)
    ensures Leads(w, s, s') && Stored(w, s', s0.room.doc.scene)
  {
    var v := s0.room.conf.foreignLock;
    var pass := PlanOf(s.room, s.now);
    assert Ladder(s.room, s.now) == Ladder(s0.room, s0.now);
    var s1 := PassBegins(w, s);
    assert s1.pc == Passing(pass, if pass.lockDue then EagerRead else SaveCheck);
    s' := FromDispatch(w, s0, s1, v, pass, j);
    LeadsTrans(w, s, s1, s');
  }

  /** The takeover is in the room, the forced save is due, and the ladder is the one the user saw. */
  ghost predicate Armed(w: World, s0: Sys, s: Sys, v: string, pass: Pass) {
    && s.now == pass.now == s0.now && CanLock(w, s, v) && s.indexed
    && s.host.access == s0.host.access && Ladder(s.room, s.now) == Ladder(s0.room, s0.now)
    && s.room.doc.dirty && s.room.doc.scene == s0.room.doc.scene && !s.room.conf.conflict
    && s.room.saves.nextRetryAt == 0 && s.room.saves.lastAttemptAt == 0
  }

  lemma FromDispatch(w: World, s0: Sys, s: Sys, v: string, pass: Pass, j: nat) returns (s': Sys)
    requires FirstAccepted(s0, j) && Armed(w, s0, s, v, pass) && s.room.lock.forceUnlockValue == v != ""
    requires s.pc == Passing(pass, EagerRead) || s.pc == Passing(pass, SaveCheck)
    ensures Leads(w, s, s') && Stored(w, s', s0.room.doc.scene)
  {
    if s.pc == Passing(pass, EagerRead) {
      var s1 := EagerPart(w, s, v, pass);
      s' := SavePart(w, s1, v, pass, j);
      LeadsTrans(w, s, s1, s');
    } else {
      s' := SavePart(w, s, v, pass, j);
    }
  }

  /** One candidate of refreshLock against a live foreign lock: a conflict, or the token is refused. */
  lemma RefreshAsked(w: World, s: Sys, rf: Refresh) returns (s': Sys, e: WopiError)
    requires s.pc == RefreshTry(rf) && rf.lockValue == w.own && rf.i < |rf.ladder|
    requires EffectiveLock(s.host, s.now) !in {"", w.own}
    ensures Leads(w, s, s') && s'.room == s.room && s'.now == s.now && s'.host.access == s.host.access
    ensures s'.host.content == s.host.content && EffectiveLock(s'.host, s'.now) == EffectiveLock(s.host, s.now)
    ensures var token := rf.ladder[rf.i].token;
      if Accepts(s.host, token) then s'.pc == Raise(EffectiveLock(s.host, s.now), true, Passing(rf.pass, SaveCheck))
      else s'.pc == Refreshing(RefreshAdvance(rf, e), RefreshMarkToken(token, e.NoWriteAccess?))
  {
    var token := rf.ladder[rf.i].token;
    var i;
    s', i := Asks(w, s, RefreshLock(token, w.own));
    e := if token == "" || token !in s.host.access then TokenRejected else NoWriteAccess;
  }

  lemma RefreshMarked(w: World, s: Sys) returns (s': Sys)
    requires s.pc.Refreshing? && s.pc.refreshAt.RefreshMarkToken?
    ensures Leads(w, s, s') && s'.pc == RefreshTry(s.pc.rf) && s'.host == s.host && s'.now == s.now
  {
    var i;
    s', i := Section(w, s);
  }

  /** refreshLock meets the foreign lock and raises the conflict again. */
  lemma {:induction false} RefreshLoop(w: World, s: Sys, rf: Refresh, j: nat) returns (s': Sys)
    requires s.pc == RefreshTry(rf) && rf.lockValue == w.own
    requires EffectiveLock(s.host, s.now) !in {"", w.own}
    requires rf.i <= j < |rf.ladder| && Accepts(s.host, rf.ladder[j].token)
    requires forall k :: rf.i <= k < j ==> Refuses(s.host, rf.ladder[k].token)
    ensures Leads(w, s, s')
    ensures s'.pc == Raise(EffectiveLock(s.host, s.now), true, Passing(rf.pass, SaveCheck))
    ensures s'.host.content == s.host.content && EffectiveLock(s'.host, s'.now) == EffectiveLock(s.host, s.now)
    decreases j - rf.i
  {
    var s1, e := RefreshAsked(w, s, rf);
    if rf.i == j {
      s' := s1;
    } else {
      var s2 := RefreshMarked(w, s1);
      s' := RefreshLoop(w, s2, RefreshAdvance(rf, e), j);
      LeadsTrans(w, s, s1, s2);
      LeadsTrans(w, s, s2, s');
    }
  }

  lemma RefreshStarts(w: World, s: Sys, pass: Pass) returns (s': Sys)
    requires s.pc == Passing(pass, RefreshGuard) && !s.room.conf.conflict && Ladder(s.room, pass.now) != []
    ensures Leads(w, s, s')
    ensures var rf := Refresh(pass, s.room.lock.lockValue, Ladder(s.room, pass.now), 0, true, Silent);
      s' == s.(pc := RefreshTry(rf))
  {
    var s1, i1 := Section(w, s);
    assert s1 == s.(pc := Passing(pass, RefreshRead));
    var i2;
    s', i2 := Section(w, s1);
    LeadsTrans(w, s, s1, s');
  }

  lemma AgedPass(w: World, s0: Sys, s: Sys, j: nat) returns (s': Sys)
    requires ForeignConflict(w, s0) && FirstAccepted(s0, j) && Entering(s0, s, true)
    requires !CloseDue(s0.room.life, s0.now) && RefreshAged(s0)
    ensures Leads(w, s, s')
    ensures s'.pc == Idle && s'.room.conf.conflict && s'.host.content == s0.host.content
  {
    var pass := PlanOf(s.room, s.now);
    var s1 := PassBegins(w, s);
    assert Ladder(s.room, s.now) == Ladder(s0.room, s0.now);
    assert s1.pc == Passing(pass, RefreshGuard);
    var s2 := RefreshStarts(w, s1, pass);
    var rf := Refresh(pass, w.own, Ladder(s0.room, s0.now), 0, true, Silent);
    var s3 := RefreshLoop(w, s2, rf, j);
    s' := AfterRaise(w, s3, pass);
    LeadsTrans(w, s, s1, s2);
    LeadsTrans(w, s, s2, s3);
    LeadsTrans(w, s, s3, s');
  }

  lemma Raised(w: World, s: Sys) returns (s': Sys)
    requires s.pc.Raise?
    ensures Leads(w, s, s') && s'.pc == Notify(s.pc.next)
    ensures s'.host == s.host && s'.now == s.now && s'.room.conf.conflict
  {
    var i;
    s', i := Section(w, s);
  }

  lemma ConflictSkipsSave(w: World, s: Sys, pass: Pass) returns (s': Sys)
    requires s.pc == Passing(pass, SaveCheck) && s.room.conf.conflict
    ensures Leads(w, s, s') && s' == s.(pc := FINISH)
  {
    var i;
    s', i := Section(w, s);
  }

  lemma AfterRaise(w: World, s: Sys, pass: Pass) returns (s': Sys)
    requires s.pc.Raise? && s.pc.next == Passing(pass, SaveCheck)
    ensures Leads(w, s, s') && s'.pc == Idle && s'.room.conf.conflict && s'.host == s.host && s'.now == s.now
  {
    var s1 := Raised(w, s);
    var s2 := NotifyStep(w, s1);
    var s3 := ConflictSkipsSave(w, s2, pass);
    s' := PassEnds(w, s3);
    LeadsTrans(w, s, s1, s2);
    LeadsTrans(w, s, s2, s3);
    LeadsTrans(w, s, s3, s');
  }

  /** After a reload there is no version to check: the pass comes to its lock step. */
  lemma ReloadBegins(w: World, s0: Sys, s: Sys) returns (s': Sys, pass: Pass)
    requires ForeignConflict(w, s0) && FirstAccepted(s0, 0) && Entering(s0, s, false) && !CloseDue(s0.room.life, s0.now)
    ensures Leads(w, s, s') && Alike(s, s') && s'.host == s.host && s'.room.lock == s.room.lock
    ensures s'.pc == AfterCheck(pass) && pass.now == s.now && Ladder(s'.room, s.now) == Ladder(s0.room, s0.now)
    ensures !pass.closeDue && pass.needRefresh == RefreshAged(s0) && pass.lockDue == !s0.room.lock.haveLock
  {
    pass := PlanOf(s.room, s.now);
    var s1 := PassBegins(w, s);
    assert Ladder(s.room, s.now) == Ladder(s0.room, s0.now);
    StillLive(s.room, s.now);
    if pass.versionCheckDue {
      s' := NoVersionToCheck(w, s1, pass);
      LeadsTrans(w, s, s1, s');
    } else {
      s' := s1;
    }
  }

  lemma NoVersionToCheck(w: World, s: Sys, pass: Pass) returns (s': Sys)
    requires s.pc == Passing(pass, CheckRead) && !s.room.ver.have && Ladder(s.room, pass.now) != []
    ensures Leads(w, s, s') && s' == s.(pc := AfterCheck(pass))
  {
    var i;
    s', i := Section(w, s);
    assert i == InputOf(s, "", Ok(""));
  }

  lemma NothingToSave(w: World, s: Sys, pass: Pass) returns (s': Sys)
    requires s.pc == Passing(pass, SaveCheck) && !s.room.doc.dirty
    ensures Leads(w, s, s') && s'.pc == Idle && s'.host == s.host && Same(s, s')
    ensures s'.room == s.room.(reported := s'.room.reported, life := s.room.life.(inFlight := false))
  {
    var s1, i := Section(w, s);
    assert s1 == s.(pc := FINISH);
    s' := PassEnds(w, s1);
    LeadsTrans(w, s, s1, s');
  }

  /** The foreign lock is gone and the scene with it, the host's content is untouched. */
  ghost predicate Reloaded(w: World, s0: Sys, s: Sys) {
    && EffectiveLock(s.host, s.now) == w.own && s.host.content == s0.host.content
    && !s.room.conf.conflict && !s.room.doc.dirty && s.room.doc.scene.None?
  }

  lemma ReloadPass(w: World, s0: Sys, s: Sys) returns (s': Sys)
    requires ForeignConflict(w, s0) && FirstAccepted(s0, 0) && Entering(s0, s, false)
    requires !CloseDue(s0.room.life, s0.now) && !s0.room.lock.haveLock
    ensures Leads(w, s, s') && s'.pc == Idle && Reloaded(w, s0, s')
  {
    var s1, pass := ReloadBegins(w, s0, s);
    assert s1.pc == Passing(pass, EagerRead);
    var s2 := EagerPart(w, s1, s0.room.conf.foreignLock, pass);
    s' := NothingToSave(w, s2, pass);
    LeadsTrans(w, s, s1, s2);
    LeadsTrans(w, s, s2, s');
  }

  /** A room that thinks it holds the lock does not take it: it refreshes in vain, or does nothing. */
  lemma HeldReloadPass(w: World, s0: Sys, s: Sys) returns (s': Sys)
    requires ForeignConflict(w, s0) && FirstAccepted(s0, 0) && Entering(s0, s, false)
    requires !CloseDue(s0.room.life, s0.now) && s0.room.lock.haveLock
    ensures Leads(w, s, s') && s'.pc == Idle && s'.host.content == s0.host.content
    ensures EffectiveLock(s'.host, s'.now) == s0.room.conf.foreignLock
  {
    var s1, pass := ReloadBegins(w, s0, s);
    if RefreshAged(s0) {
      assert s1.pc == Passing(pass, RefreshGuard);
      var s2 := RefreshStarts(w, s1, pass);
      var rf := Refresh(pass, w.own, Ladder(s0.room, s0.now), 0, true, Silent);
      var s3 := RefreshLoop(w, s2, rf, 0);
      s' := AfterRaise(w, s3, pass);
      LeadsTrans(w, s, s1, s2);
      LeadsTrans(w, s, s2, s3);
      LeadsTrans(w, s, s3, s');
    } else {
      assert s1.pc == Passing(pass, SaveCheck);
      s' := NothingToSave(w, s1, pass);
      LeadsTrans(w, s, s1, s');
    }
  }

  /** A room with a usable token is live. */
  lemma StillLive(r: Room, now: Time)
    requires Ladder(r, now) != []
    ensures Live(r.(tok := Prune(r.tok, now)), now)
  {
    var u := Ladder(r, now)[0].user;
    assert Eligible(r.tok, now, u);
    assert Unexpired(Prune(r.tok, now), now, u);
  }

  // --------------------------------------------------------------- theorems

  /** `s'` is where the undisturbed pass from `s` comes to rest. */
  ghost predicate EndOfPass(w: World, s: Sys, s': Sys) {
    s'.pc == Idle && Leads(w, s, s')
  }

  lemma {:induction false} RestStays<T>(f: T -> T, x: T, n: nat)
    requires f(x) == x
    ensures Iterate(f, x, n) == x
    decreases n
  {
    if n == 0 {
    } else {
      RestStays(f, x, n - 1);
    }
  }

  lemma OneRest<T>(f: T -> T, x: T, m: nat, n: nat)
    requires m <= n && f(Iterate(f, x, m)) == Iterate(f, x, m)
    ensures Iterate(f, x, n) == Iterate(f, x, m)
  {
    IterateAdd(f, x, m, n - m);
    RestStays(f, Iterate(f, x, m), n - m);
  }

  lemma OneEnd(w: World, s: Sys, a: Sys, b: Sys)
    requires EndOfPass(w, s, a) && EndOfPass(w, s, b)
    ensures a == b
  {
    var f := Alone(w);
    var m: nat :| Iterate(f, s, m) == a;
    var n: nat :| Iterate(f, s, n) == b;
    assert WorkerStep(w, a, QUIET) == a && WorkerStep(w, b, QUIET) == b;
    if m <= n { OneRest(f, s, m, n); } else { OneRest(f, s, n, m); }
  }

  /**
   An overwrite completes: with the foreign lock still live, some ladder token accepted and every
   earlier one failing with 401 or 403, one undisturbed pass of a room that is not closing stores
   the retained scene under the room's own lock. The exact limit is a lock the room believes to
   hold and that is old enough to refresh: then the pass refreshes instead of taking over, meets
   the foreign lock, and ends in conflict again with the host's content as it was.
   */
  lemma OverwriteCompletes(w: World, s0: Sys, j: nat)
    requires ForeignConflict(w, s0) && FirstAccepted(s0, j) && !CloseDue(s0.room.life, s0.now)
    ensures exists s' :: EndOfPass(w, Decided(w, s0, true), s')
    ensures forall s' :: EndOfPass(w, Decided(w, s0, true), s') ==>
      && (Stored(w, s', s0.room.doc.scene) <==> !RefreshAged(s0))
      && (RefreshAged(s0) ==> s'.room.conf.conflict && s'.host.content == s0.host.content)
  {
    var end: Sys;
    var s := Decided(w, s0, true);
    AfterDecision(w, s0, true);
    if RefreshAged(s0) { end := AgedPass(w, s0, s, j); } else { end := OverwritePass(w, s0, s, j); }
    assert EndOfPass(w, Decided(w, s0, true), end);
    forall s' | EndOfPass(w, Decided(w, s0, true), s') ensures s' == end {
      OneEnd(w, Decided(w, s0, true), s', end);
    }
  }

  /**
   A reload takes the lock over and leaves the host's content alone: with the first ladder token
   accepted, one undisturbed pass of a room that is not closing ends under the room's own lock and
   without a scene, exactly if the room did not think it held the lock already.
   */
  lemma ReloadTakesOver(w: World, s0: Sys)
    requires ForeignConflict(w, s0) && FirstAccepted(s0, 0) && !CloseDue(s0.room.life, s0.now)
    ensures exists s' :: EndOfPass(w, Decided(w, s0, false), s')
    ensures forall s' :: EndOfPass(w, Decided(w, s0, false), s') ==>
      && (Reloaded(w, s0, s') <==> !s0.room.lock.haveLock)
      && s'.host.content == s0.host.content
  {
    var s := Decided(w, s0, false);
    AfterDecision(w, s0, false);
    var end: Sys;
    if s0.room.lock.haveLock { end := HeldReloadPass(w, s0, s); } else { end := ReloadPass(w, s0, s); }
    assert EndOfPass(w, s, end);
    forall s' | EndOfPass(w, s, s') ensures s' == end {
      OneEnd(w, s, s', end);
    }
  }
}
