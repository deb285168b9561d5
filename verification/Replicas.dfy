/**
 Replicas and restarts are safe for the lock: however many managers serve one file, alone with
 its host, none ever meets a foreign lock, because the lock value is a function of the file id.
 */
module Replicas {
  import opened Basics
  import opened WopiHost
  import opened RoomModel
  import opened SaveMachine
  import FirstPass
  import LockSafety
  import SaveSafety
  import Takeover

  const LOCK_VALUE_PREFIX: string := "excalidraw-wopi-"

  /** `digest` stands for the hex SHA-256 of the file id. */
  function LockValueFor(digest: string -> string, fileID: string): string {
    LOCK_VALUE_PREFIX + digest(fileID)[..Shorter(|digest(fileID)|, 16)]
  }

  function Shorter(a: nat, b: nat): nat { if a < b then a else b }

  /** Files share a lock value exactly if their digests agree in the first sixteen digits, and it names the service. */
  lemma LockValuesDiffer(digest: string -> string, f: string, g: string)
    requires |digest(f)| >= 16 && |digest(g)| >= 16
    ensures LockValueFor(digest, f) == LockValueFor(digest, g) <==> digest(f)[..16] == digest(g)[..16]
    ensures |LockValueFor(digest, f)| == 32 && LockValueFor(digest, f)[..16] == "excalidraw-wopi-"
  {
    assert LockValueFor(digest, f)[16..] == digest(f)[..16];
    assert LockValueFor(digest, g)[16..] == digest(g)[..16];
  }

  // --------------------------------------------------------------- the fleet

  /** One manager's room for the file: a replica's, or one of an earlier or later process. */
  datatype Replica = Replica(room: Room, pc: PC, indexed: bool, log: History, stamps: set<Time>)

  datatype Fleet = Fleet(replicas: seq<Replica>, host: HostFile, now: Time)

  datatype Move =
    | By(k: nat, step: Label)               // a step of replica k: its worker or one of its handlers
    | Join                                   // a manager opens the room
    | Permit(access: map<string, bool>)      // the host changes who may write
    | Pass(now: Time)

  ghost function View(f: Fleet, k: nat): Sys
    requires k < |f.replicas|
  {
    var r := f.replicas[k];
    Sys(r.room, f.host, f.now, r.pc, r.indexed, r.log, r.stamps)
  }

  /** No other editor: nobody else changes the file, and the host errs only by faults. */
  predicate Own(l: Label) {
    && !l.Others? && !l.Tick?
    && (l.Work? && l.choice.glitch.Some? ==> !l.choice.glitch.value.LockConflict?)
  }

  ghost function MoveStep(w: World, f: Fleet, m: Move): Fleet {
    match m
    case By(k, step) =>
      if k >= |f.replicas| || !Own(step) then f
      else
        var s := Step(w, View(f, k), step);
        f.(replicas := f.replicas[k := Replica(s.room, s.pc, s.indexed, s.log, s.stamps)], host := s.host)
    case Join =>
      var s := Start(w, f.host, f.now);
      f.(replicas := f.replicas + [Replica(s.room, s.pc, s.indexed, s.log, s.stamps)])
    case Permit(access) => f.(host := f.host.(access := access))
    case Pass(now) => if now >= f.now then f.(now := now) else f
  }

  ghost function FleetRun(w: World, f: Fleet, ms: seq<Move>): Fleet {
    if ms == [] then f else MoveStep(w, FleetRun(w, f, ms[..|ms| - 1]), ms[|ms| - 1])
  }

  // -------------------------------------------------------------- invariant

  /** This room never entered a conflict over somebody's lock. */
  predicate NoLockConflict(h: History) {
    match h
    case Nothing => true
    case Then(past, e) => NoLockConflict(past) && (e.Raised? ==> e.foreign == "")
  }

  /** The worker holds no takeover value and is not about to raise a lock conflict. */
  predicate Peaceful(pc: PC) {
    match pc
    case Ensuring(_, _, at) => !at.Swap? && !at.RestoreForce?
    case Raise(foreign, _, next) => foreign == "" && Peaceful(next)
    case Notify(next) => Peaceful(next)
    case _ => true
  }

  ghost predicate Inv(w: World, s: Sys) {
    && LockSafety.InvFor(w, s, "")
    && s.host.lock in {"", w.own}
    && s.room.lock.forceUnlockValue == "" && s.room.conf.foreignLock == ""
    && Peaceful(s.pc) && NoLockConflict(s.log)
  }

  /**
   Alone with the host, a 409 can only say that no lock is held, and LOCK never gets one. The
   unlocked fallback's error is not looked at.
   */
  predicate FriendlyAnswer(s: Sys, a: Answer) {
    a.Err? && a.error.LockConflict? && !(s.pc.Saving? && s.pc.saveAt.PutUnlocked?) ==>
      a.error.currentLock == "" && !s.pc.Ensuring?
  }

  lemma PeacefulDenied(c: Caller, token: string, error: WopiError)
    ensures Peaceful(Denied(c, token, error))
  {
  }

  lemma PeacefulTryNext(sv: Save, token: string, error: WopiError)
    ensures Peaceful(TryNext(sv, token, error)) && Peaceful(Try(Advance(sv, error)))
  {
  }

  lemma KeepsPeacePass(w: World, s: Sys, i: Input, pass: Pass, at: PassAt)
    requires Inv(w, s) && s.pc == Passing(pass, at) && FriendlyAnswer(s, i.answer)
    ensures Peaceful(PassStep(s, i, pass, at).pc) && NoLockConflict(PassStep(s, i, pass, at).log)
  {
  }

  lemma KeepsPeaceRefresh(w: World, s: Sys, i: Input, rf: Refresh, at: RefreshAt)
    requires Inv(w, s) && s.pc == Refreshing(rf, at) && FriendlyAnswer(s, i.answer)
    ensures Peaceful(RefreshStep(s, i, rf, at).pc) && NoLockConflict(RefreshStep(s, i, rf, at).log)
  {
  }

  lemma KeepsPeaceElsewhere(w: World, s: Sys, i: Input)
    requires Inv(w, s) && !s.pc.Passing? && !s.pc.Refreshing? && !s.pc.Ensuring? && !s.pc.Saving?
    ensures Peaceful(Act(s, i).pc) && NoLockConflict(Act(s, i).log)
  {
  }

  lemma KeepsPeaceEnsure(w: World, s: Sys, i: Input, c: Caller, token: string, at: EnsureAt)
    requires Inv(w, s) && s.pc == Ensuring(c, token, at) && FriendlyAnswer(s, i.answer)
    ensures Peaceful(EnsureStep(s, i, c, token, at).pc) && NoLockConflict(EnsureStep(s, i, c, token, at).log)
  {
    if (at.LockCall? || at.LockAgain?) && i.answer.Err? { PeacefulDenied(c, token, i.answer.error); }
  }

  lemma KeepsPeaceSave(w: World, s: Sys, i: Input, sv: Save, at: SaveAt)
    requires Inv(w, s) && s.pc == Saving(sv, at) && FriendlyAnswer(s, i.answer)
    ensures Peaceful(SaveStep(s, i, sv, at).pc) && NoLockConflict(SaveStep(s, i, sv, at).log)
  {
    match at {
      case Put(token) => if i.answer.Err? { PeacefulTryNext(sv, token, i.answer.error); }
      case PutUnlocked(token, error) => PeacefulTryNext(sv, token, error);
      case DropLock(error) => PeacefulTryNext(sv, "", error);
      case _ =>
    }
  }

  lemma NoTakeover(w: World, s: Sys, i: Input)
    requires Inv(w, s)
    ensures var r := Act(s, i).room; r.lock.forceUnlockValue == "" && r.conf.foreignLock == ""
    ensures Act(s, i).host == s.host
  {
  }

  lemma {:induction false} KeepsAct(w: World, s: Sys, i: Input)
    requires Inv(w, s) && FriendlyAnswer(s, i.answer)
    ensures Inv(w, Act(s, i))
  {
    NoTakeover(w, s, i);
    match s.pc {
      case Idle =>
      case Passing(pass, at) => KeepsPeacePass(w, s, i, pass, at);
      case Refreshing(rf, at) => KeepsPeaceRefresh(w, s, i, rf, at);
      case Ensuring(c, token, at) => KeepsPeaceEnsure(w, s, i, c, token, at);
      case Saving(sv, at) => KeepsPeaceSave(w, s, i, sv, at);
      case _ => KeepsPeaceElsewhere(w, s, i);
    }
    LockSafety.ActKeepsFor(w, s, i, "");
  }

  /** The host answers a lone fleet as `FriendlyAnswer` says, and keeps holding nothing or the one value. */
  lemma CallIsFriendly(w: World, s: Sys, ch: Choice, q: Request)
    requires Inv(w, s) && w.own != "" && RequestOf(s.pc) == Some(q) && Own(Work(ch))
    ensures var (h, a) := Call(w, s, ch, q); Inv(w, s.(host := h)) && FriendlyAnswer(s, a)
  {
    match s.pc {
      case Ensuring(_, _, _) =>
      case Saving(_, _) =>
      case _ =>
    }
  }

  lemma {:induction false} KeepsStep(w: World, s: Sys, l: Label)
    requires Inv(w, s) && w.own != "" && Own(l)
    ensures Inv(w, Step(w, s, l))
  {
    if l.Work? {
      match RequestOf(s.pc) {
        case None => KeepsAct(w, s, InputOf(s, l.choice.pick, Ok("")));
        case Some(q) =>
          var (h, a) := Call(w, s, l.choice, q);
          CallIsFriendly(w, s, l.choice, q);
          KeepsAct(w, s.(host := h), InputOf(s, l.choice.pick, a));
      }
    } else {
      LockSafety.StepKeepsFor(w, s, l, "");
    }
  }

  ghost predicate FleetInv(w: World, f: Fleet) {
    f.host.lock in {"", w.own} && forall k :: 0 <= k < |f.replicas| ==> Inv(w, View(f, k))
  }

  /** Nothing a replica keeps depends on the host beyond its lock value, nor on the clock. */
  lemma HostElsewhere(w: World, s: Sys, h: HostFile, now: Time)
    requires Inv(w, s) && h.lock in {"", w.own}
    ensures Inv(w, s.(host := h, now := now))
  {
  }

  lemma KeepsMove(w: World, f: Fleet, m: Move)
    requires FleetInv(w, f) && w.own != ""
    ensures FleetInv(w, MoveStep(w, f, m))
  {
    var g := MoveStep(w, f, m);
    if m.By? && m.k < |f.replicas| && Own(m.step) { KeepsStep(w, View(f, m.k), m.step); }
    forall k | 0 <= k < |g.replicas| ensures Inv(w, View(g, k)) {
      if k < |f.replicas| && g.replicas[k] == f.replicas[k] {
        HostElsewhere(w, View(f, k), g.host, g.now);
        assert View(g, k) == View(f, k).(host := g.host, now := g.now);
      }
    }
  }

  lemma {:induction false} Reachable(w: World, h: HostFile, t: Time, ms: seq<Move>)
    requires w.own != "" && h.lock in {"", w.own}
    ensures FleetInv(w, FleetRun(w, Fleet([], h, t), ms))
  {
    if ms == [] {
    } else {
      Reachable(w, h, t, ms[..|ms| - 1]);
      KeepsMove(w, FleetRun(w, Fleet([], h, t), ms[..|ms| - 1]), ms[|ms| - 1]);
    }
  }

  // --------------------------------------------------------------- theorems

  /**
   Any number of managers for one file, replicas or successors of dead ones, on a host with no
   other editor: the host's lock is none or the one derived value, and no room ever enters a
   conflict over a lock.
   */
  lemma {:induction false} ReplicasShareTheLock(digest: string -> string, fileID: string, versionOf: Bytes -> string,
                             h: HostFile, t: Time, ms: seq<Move>)
    requires h.lock in {"", LockValueFor(digest, fileID)}
    ensures var w := World(LockValueFor(digest, fileID), versionOf);
      var f := FleetRun(w, Fleet([], h, t), ms);
      && f.host.lock in {"", LockValueFor(digest, fileID)}
      && forall k :: 0 <= k < |f.replicas| ==> NoLockConflict(f.replicas[k].log)
  {
    var w := World(LockValueFor(digest, fileID), versionOf);
    assert w.own[0] == 'e';
    Reachable(w, h, t, ms);
    var f := FleetRun(w, Fleet([], h, t), ms);
    forall k | 0 <= k < |f.replicas| ensures NoLockConflict(f.replicas[k].log) {
      assert Inv(w, View(f, k));
    }
  }

  lemma LockTaken(w: World, s: Sys, pick: string) returns (s': Sys)
    requires Inv(w, s) && s.pc.Ensuring? && s.pc.ensureAt.LockCall?
    requires Authenticate(s.host, Lock(s.pc.token, w.own)) == OK
    ensures s' == WorkerStep(w, s, Choice(None, pick))
    ensures s'.pc == Ensuring(s.pc.c, s.pc.token, Mark) && EffectiveLock(s'.host, s'.now) == w.own && s'.now == s.now
  {
    s' := WorkerStep(w, s, Choice(None, pick));
  }

  /**
   A manager that asks for the lock with an accepted token has it two steps later, whoever held
   it before: a live lock left by a dead manager is the same value, so LOCK refreshes it.
   */
  lemma {:induction false} AskingManagerAcquires(w: World, h: HostFile, t: Time, ms: seq<Move>, k: nat, ch: Choice)
    requires w.own != "" && h.lock in {"", w.own} && ch.glitch.None?
    requires k < |FleetRun(w, Fleet([], h, t), ms).replicas|
    ensures var s := View(FleetRun(w, Fleet([], h, t), ms), k);
      s.pc.Ensuring? && s.pc.ensureAt.LockCall? && Authenticate(s.host, Lock(s.pc.token, w.own)) == OK ==>
        var s' := WorkerStep(w, WorkerStep(w, s, ch), ch);
        EffectiveLock(s'.host, s'.now) == w.own && s'.room.lock.haveLock
  {
    Reachable(w, h, t, ms);
    var s := View(FleetRun(w, Fleet([], h, t), ms), k);
    assert Inv(w, s);
    if s.pc.Ensuring? && s.pc.ensureAt.LockCall? && Authenticate(s.host, Lock(s.pc.token, w.own)) == OK {
      var s1 := LockTaken(w, s, ch.pick);
      assert ch == Choice(None, ch.pick);
      MarkSets(w, s1, ch);
    }
  }

  lemma MarkSets(w: World, s: Sys, ch: Choice)
    requires s.pc.Ensuring? && s.pc.ensureAt.Mark?
    ensures var s' := WorkerStep(w, s, ch); s'.host == s.host && s'.now == s.now && s'.room.lock.haveLock
  {
  }

  // ---------------------------------------------------- a fresh manager's pass

  /** `n` undisturbed steps of replica k's worker. */
  function Steps(k: nat, n: nat): seq<Move> {
    seq(n, _ => By(k, Work(Takeover.QUIET)))
  }

  lemma {:induction false} FleetRunAppend(w: World, f: Fleet, ms: seq<Move>, more: seq<Move>)
    ensures FleetRun(w, f, ms + more) == FleetRun(w, FleetRun(w, f, ms), more)
  {
    if more == [] {
      assert ms + more == ms;
    } else {
      var n := |more| - 1;
      FleetRunAppend(w, f, ms, more[..n]);
      assert (ms + more)[..|ms + more| - 1] == ms + more[..n];
    }
  }

  /** Alone on the clock and at the host, a replica's worker moves as it would without a fleet. */
  lemma {:induction false} StepsAreAlone(w: World, f: Fleet, k: nat, n: nat)
    requires k < |f.replicas|
    ensures var f' := FleetRun(w, f, Steps(k, n));
      |f'.replicas| == |f.replicas| && View(f', k) == Takeover.Iterate(Takeover.Alone(w), View(f, k), n)
  {
    if n == 0 {
    } else {
      StepsAreAlone(w, f, k, n - 1);
      assert Steps(k, n)[..n - 1] == Steps(k, n - 1);
      var g := FleetRun(w, f, Steps(k, n - 1));
      OneStepAlone(w, g, k);
      Takeover.IterateAdd(Takeover.Alone(w), View(f, k), n - 1, 1);
      assert FleetRun(w, f, Steps(k, n)) == MoveStep(w, g, By(k, Work(Takeover.QUIET)));
    }
  }

  lemma OneStepAlone(w: World, f: Fleet, k: nat)
    requires k < |f.replicas|
    ensures var f' := MoveStep(w, f, By(k, Work(Takeover.QUIET)));
      && |f'.replicas| == |f.replicas|
      && View(f', k) == WorkerStep(w, View(f, k), Takeover.QUIET)
      && View(f', k) == Takeover.Iterate(Takeover.Alone(w), View(f, k), 1)
  {
    var s := WorkerStep(w, View(f, k), Takeover.QUIET);
    SaveSafety.HostOnlyByRequest(w, View(f, k), Takeover.QUIET);
    assert Takeover.Iterate(Takeover.Alone(w), s, 0) == s;
    assert Takeover.Alone(w)(View(f, k)) == s;
  }

  /** A manager opens the room, a user is observed, and the worker enters. */
  function Opening(k: nat, user: string, info: TokenInfo): seq<Move> {
    [Join, By(k, DoObserve(user, info)), By(k, Enter(false))]
  }

  lemma FleetNext(w: World, f: Fleet, ms: seq<Move>, m: Move)
    ensures FleetRun(w, f, ms + [m]) == MoveStep(w, FleetRun(w, f, ms), m)
  {
    assert (ms + [m])[..|ms|] == ms;
  }

  /** A move of one replica, seen from that replica. */
  lemma OwnMove(w: World, f: Fleet, k: nat, l: Label)
    requires k < |f.replicas| && Own(l)
    ensures var f' := MoveStep(w, f, By(k, l)); var s := Step(w, View(f, k), l);
      && |f'.replicas| == |f.replicas| && f'.now == f.now && f'.host == s.host
      && (s.now == f.now ==> View(f', k) == s)
  {
  }

  lemma OpeningOpens(w: World, f: Fleet, user: string, info: TokenInfo)
    requires w.own != "" && f.host.lock in {"", w.own} && FirstPass.Good(f.host, f.now, info)
    ensures var k := |f.replicas|; var f' := FleetRun(w, f, Opening(k, user, info));
      && |f'.replicas| == k + 1 && f'.now == f.now && f'.host == f.host
      && FirstPass.Opened(w, View(f', k)) && !View(f', k).room.doc.dirty
  {
    var k := |f.replicas|;
    var none: seq<Move> := [];
    var observe, enter := By(k, DoObserve(user, info)), By(k, Enter(false));
    assert Opening(k, user, info) == none + [Join] + [observe] + [enter];
    FleetNext(w, f, none, Join);
    FleetNext(w, f, none + [Join], observe);
    FleetNext(w, f, none + [Join] + [observe], enter);
    var f1 := MoveStep(w, f, Join);
    assert View(f1, k) == Start(w, f.host, f.now);
    FirstPass.ObservedReached(w, f.host, f.now, user, info);
    OwnMove(w, f1, k, DoObserve(user, info));
    OwnMove(w, MoveStep(w, f1, observe), k, Enter(false));
    FirstPass.OneTokenLadder(user, info, "", f.now);
    EntersOpen(w, f.host, f.now, user, info);
  }

  lemma EntersOpen(w: World, h: HostFile, t: Time, user: string, info: TokenInfo)
    requires w.own != "" && h.lock in {"", w.own} && FirstPass.Good(h, t, info)
    requires Ladder(FirstPass.Observed(w, h, t, user, info).room, t) == [Candidate(user, info.token)]
    ensures var s := Step(w, FirstPass.Observed(w, h, t, user, info), Enter(false));
      FirstPass.Opened(w, s) && !s.room.doc.dirty && s.now == t && s.host == h
  {
    FirstPass.ObservedReached(w, h, t, user, info);
  }

  /**
   A fresh manager acquires the lock in its first pass, whatever the fleet did before: it opens the
   room, observes a user with an accepted token, and its worker's undisturbed pass comes to rest
   and holds the lock, at the host too, even if a dead manager's lock was still live there.
   */
  lemma {:induction false} FreshManagerAcquires(w: World, h: HostFile, t: Time, ms: seq<Move>,
                                                 user: string, info: TokenInfo)
    requires w.own != "" && h.lock in {"", w.own}
    requires var f := FleetRun(w, Fleet([], h, t), ms); FirstPass.Good(f.host, f.now, info)
    ensures var f := FleetRun(w, Fleet([], h, t), ms); var k := |f.replicas|;
      exists n :: HasAcquired(w, FleetRun(w, f, Opening(k, user, info) + Steps(k, n)), k)
  {
    Reachable(w, h, t, ms);
    var f := FleetRun(w, Fleet([], h, t), ms);
    var k := |f.replicas|;
    OpeningOpens(w, f, user, info);
    var f1 := FleetRun(w, f, Opening(k, user, info));
    var s := FirstPass.ComesToRest(w, View(f1, k));
    var n: nat :| Takeover.Iterate(Takeover.Alone(w), View(f1, k), n) == s;
    StepsAreAlone(w, f1, k, n);
    FleetRunAppend(w, f, Opening(k, user, info), Steps(k, n));
    assert HasAcquired(w, FleetRun(w, f, Opening(k, user, info) + Steps(k, n)), k);
  }

  /** Replica k's worker is at rest, and its room holds the lock. */
  ghost predicate HasAcquired(w: World, f: Fleet, k: nat) {
    && k < |f.replicas| && f.replicas[k].pc == Idle && f.replicas[k].room.lock.haveLock
    && EffectiveLock(f.host, f.now) == w.own
  }
}
