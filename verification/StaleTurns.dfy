/**
 Why a room record can be removed more than once. evaluateAll lists a record once for each of its
 spellings before it starts, so a turn listed before a removal can come after it.

 `Manager` is one record's machine inside its manager: the two indexes, with record 0 the one that
 is followed, and the turns of it that evaluateAll has listed and not come to. The theorems bound
 the removals by the spellings, and show in one run what a second removal costs.
 */
module StaleTurns {
  import opened Basics
  import opened WopiHost
  import opened RoomModel
  import opened SaveMachine
  import FirstPass
  import Removal
  import RoomIndex
  import SaveSafety
  import Takeover

  type Index = RoomIndex.Index<nat>

  datatype Manager = Manager(s: Sys, turns: nat, ix: Index)

  datatype Move =
    | List                                                           // evaluateAll collects the rooms
    | Turn                                                           // its loop comes to the record
    | Flush                                                          // flushAll's loop does
    | Observes(src: string, blank: nat, user: string, info: TokenInfo)
    | Drops(r: nat)                                                  // another record is removed
    | Moves(step: Label)                                             // any other step of the record's machine

  predicate MayRemoveFor(c: Caller) {
    c.ForSave? ==> !c.sv.origin.Flushing?
  }

  /** The pass the worker is in may yet remove the record; a flush never does. */
  predicate MayRemove(pc: PC) {
    match pc
    case Idle => false
    case Exit => false
    case Begin(flush) => !flush
    case Ensuring(c, _, _) => MayRemoveFor(c)
    case Snapshot(origin, _) => !origin.Flushing?
    case Saving(sv, _) => !sv.origin.Flushing?
    case Raise(_, _, next) => MayRemove(next)
    case Notify(next) => MayRemove(next)
    case _ => true
  }

  /** The spellings that lead to the record. */
  function Leading(ix: Index): set<string> {
    set src | src in ix.rooms && ix.rooms[src] == 0
  }

  /** The spellings the record ever had. */
  function Spellings(ix: Index): set<string> {
    RoomIndex.KeysOf(ix, 0).srcs
  }

  ghost function Dropped(ix: Index, s: Sys, s': Sys): Index {
    if Removal.Removals(s'.log) > Removal.Removals(s.log) then RoomIndex.Delete(ix, 0) else ix
  }

  ghost function Next(w: World, fileOf: string -> string, m: Manager, move: Move): Manager {
    match move
    case List => if m.turns == 0 && !MayRemove(m.s.pc) then m.(turns := |Leading(m.ix)|) else m
    case Turn => if m.turns > 0 then m.(turns := m.turns - 1, s := Step(w, m.s, Enter(false))) else m
    case Flush => m.(s := Step(w, m.s, Enter(true)))
    case Observes(src, blank, user, info) =>
      if blank in m.ix.keys then m
      else
        m.(s := if RoomIndex.RoomFor(m.ix, src, fileOf(src), blank) == 0
                then Step(w, m.s, DoObserve(user, info)) else m.s,
           ix := RoomIndex.Located(m.ix, src, fileOf(src), blank))
    case Drops(r) => if r != 0 then m.(ix := RoomIndex.Delete(m.ix, r)) else m
    case Moves(step) =>
      if step.Enter? || step.DoObserve? then m
      else
        var s' := Step(w, m.s, step);
        m.(s := s', ix := Dropped(m.ix, m.s, s'))
  }

  ghost function Run(w: World, fileOf: string -> string, m: Manager, moves: seq<Move>): Manager {
    if moves == [] then m else Next(w, fileOf, Run(w, fileOf, m, moves[..|moves| - 1]), moves[|moves| - 1])
  }

  /** The record when its first observation made it. */
  ghost function First(w: World, fileOf: string -> string, h: HostFile, t: Time, src: string): Manager {
    Manager(Start(w, h, t), 0, RoomIndex.Located(RoomIndex.Index(map[], map[], map[]), src, fileOf(src), 0))
  }

  // -------------------------------------------------------------- invariant

  /** What the indexes say of the record; once it was removed they never lead to it again. */
  ghost predicate IndexInv(fileOf: string -> string, ix: Index, gone: bool) {
    && 0 in ix.keys
    && (forall src :: src in Leading(ix) ==> src in Spellings(ix))
    && (forall f :: f in ix.byFileID && ix.byFileID[f] == 0 ==> f == ix.keys[0].file != "")
    && (forall src :: src in Spellings(ix) ==> fileOf(src) == ix.keys[0].file)
    && (gone ==> Leading(ix) == {} && forall f :: f in ix.byFileID ==> ix.byFileID[f] != 0)
  }

  /** The turns that can still end in a removal. */
  function Pending(m: Manager): nat {
    m.turns + if MayRemove(m.s.pc) then 1 else 0
  }

  ghost predicate Inv(fileOf: string -> string, m: Manager) {
    && IndexInv(fileOf, m.ix, Removal.Removals(m.s.log) > 0)
    && Removal.Removals(m.s.log) + Pending(m) <= |Spellings(m.ix)|
  }

  // -------------------------------------------------------------- the machine

  lemma AfterDenied(c: Caller, token: string, error: WopiError)
    ensures MayRemove(Denied(c, token, error)) ==> MayRemoveFor(c)
  {
  }

  lemma AfterTryNext(sv: Save, token: string, error: WopiError)
    ensures MayRemove(TryNext(sv, token, error)) || MayRemove(Try(Advance(sv, error))) ==> !sv.origin.Flushing?
  {
  }

  lemma AfterTry(sv: Save)
    ensures MayRemove(Try(sv)) ==> !sv.origin.Flushing?
  {
  }

  lemma AfterSaved(sv: Save)
    ensures MayRemove(AfterSave(sv.origin, sv.pass)) ==> !sv.origin.Flushing?
    ensures forall v :: MayRemove(Raise(v, true, AfterSave(sv.origin, sv.pass))) ==> !sv.origin.Flushing?
  {
  }

  lemma EnsureRemoves(s: Sys, i: Input, c: Caller, token: string, at: EnsureAt)
    requires s.pc == Ensuring(c, token, at)
    ensures MayRemove(EnsureStep(s, i, c, token, at).pc) ==> MayRemoveFor(c)
    ensures Removal.Removals(EnsureStep(s, i, c, token, at).log) == Removal.Removals(s.log)
  {
    if i.answer.Err? {
      AfterDenied(c, token, i.answer.error);
      if i.answer.error.LockConflict? { AfterDenied(c, token, LockConflict(i.answer.error.currentLock)); }
    }
    if at.RestoreForce? { AfterDenied(c, token, at.error); }
  }

  lemma SaveRemoves(s: Sys, i: Input, sv: Save, at: SaveAt)
    requires s.pc == Saving(sv, at)
    ensures MayRemove(SaveStep(s, i, sv, at).pc) ==> !sv.origin.Flushing?
    ensures Removal.Removals(SaveStep(s, i, sv, at).log) == Removal.Removals(s.log)
  {
    match at {
      case Put(token) =>
        AfterSaved(sv);
        if i.answer.Err? { AfterTryNext(sv, token, i.answer.error); }
      case PutUnlocked(token, error) => AfterTryNext(sv, token, error);
      case DropLock(error) => AfterTryNext(sv, "", error);
      case SaveMarkToken(_, _) => AfterTry(sv);
      case _ => AfterSaved(sv);
    }
  }

  lemma ElsewhereRemoves(s: Sys, i: Input)
    requires !s.pc.Ensuring? && !s.pc.Saving?
    ensures var s' := Act(s, i); var n, n' := Removal.Removals(s.log), Removal.Removals(s'.log);
      && n <= n' <= n + 1
      && (MayRemove(s'.pc) ==> MayRemove(s.pc) && n' == n)
      && (n' > n ==> MayRemove(s.pc))
  {
  }

  /** A pass removes once at most, and then it is over but for its notification; a flush never removes. */
  lemma {:induction false} StepRemoves(w: World, s: Sys, l: Label)
    requires !l.Enter?
    ensures var s' := Step(w, s, l); var n, n' := Removal.Removals(s.log), Removal.Removals(s'.log);
      && n <= n' <= n + 1
      && (MayRemove(s'.pc) ==> MayRemove(s.pc) && n' == n)
      && (n' > n ==> MayRemove(s.pc))
  {
    if l.Work? {
      match RequestOf(s.pc) {
        case None => ActRemoves(s, InputOf(s, l.choice.pick, Ok("")));
        case Some(q) =>
          var (h, a) := Call(w, s, l.choice, q);
          ActRemoves(s.(host := h), InputOf(s, l.choice.pick, a));
      }
    }
  }

  lemma {:induction false} ActRemoves(s: Sys, i: Input)
    ensures var s' := Act(s, i); var n, n' := Removal.Removals(s.log), Removal.Removals(s'.log);
      && n <= n' <= n + 1
      && (MayRemove(s'.pc) ==> MayRemove(s.pc) && n' == n)
      && (n' > n ==> MayRemove(s.pc))
  {
    match s.pc {
      case Ensuring(c, token, at) => EnsureRemoves(s, i, c, token, at);
      case Saving(sv, at) => SaveRemoves(s, i, sv, at);
      case _ => ElsewhereRemoves(s, i);
    }
  }

  // ------------------------------------------------------------------ all runs

  lemma Subset(a: set<string>, b: set<string>)
    requires a <= b
    ensures |a| <= |b|
  {
    if a != {} {
      var x :| x in a;
      Subset(a - {x}, b - {x});
    }
  }

  lemma ObservedKeeps(fileOf: string -> string, ix: Index, gone: bool, src: string, blank: nat)
    requires IndexInv(fileOf, ix, gone) && blank !in ix.keys
    ensures var ix' := RoomIndex.Located(ix, src, fileOf(src), blank);
      IndexInv(fileOf, ix', gone) && Spellings(ix) <= Spellings(ix')
  {
    var ix' := RoomIndex.Located(ix, src, fileOf(src), blank);
    var r := RoomIndex.RoomFor(ix, src, fileOf(src), blank);
    assert src in ix.rooms && ix.rooms[src] == 0 ==> src in Leading(ix);
    assert r == 0 ==> fileOf(src) == ix.keys[0].file && !gone;
    forall s | s in Leading(ix') ensures s in Leading(ix) || (s == src && r == 0) {}
    if r != 0 {
      assert ix'.keys[0] == ix.keys[0];
    } else {
      assert ix'.keys[0].srcs == ix.keys[0].srcs + {src} && ix'.keys[0].file == ix.keys[0].file;
    }
  }

  lemma DropKeeps(fileOf: string -> string, ix: Index, gone: bool, r: nat)
    requires IndexInv(fileOf, ix, gone)
    ensures var ix' := RoomIndex.Delete(ix, r);
      IndexInv(fileOf, ix', gone || r == 0) && Spellings(ix') == Spellings(ix)
  {
    var ix' := RoomIndex.Delete(ix, r);
    forall src | src in Leading(ix') ensures src in Leading(ix) {}
    if r == 0 { assert forall src :: src in Leading(ix') ==> src in Leading(ix) && src !in Spellings(ix); }
  }

  lemma KeepsNext(w: World, fileOf: string -> string, m: Manager, move: Move)
    requires Inv(fileOf, m)
    ensures Inv(fileOf, Next(w, fileOf, m, move)) && Spellings(m.ix) <= Spellings(Next(w, fileOf, m, move).ix)
  {
    match move {
      case List => Subset(Leading(m.ix), Spellings(m.ix));
      case Observes(src, blank, user, info) =>
        if blank !in m.ix.keys {
          ObservedKeeps(fileOf, m.ix, Removal.Removals(m.s.log) > 0, src, blank);
          StepRemoves(w, m.s, DoObserve(user, info));
          Subset(Spellings(m.ix), Spellings(RoomIndex.Located(m.ix, src, fileOf(src), blank)));
        }
      case Drops(r) => DropKeeps(fileOf, m.ix, Removal.Removals(m.s.log) > 0, r);
      case Moves(step) =>
        if !step.Enter? && !step.DoObserve? {
          StepRemoves(w, m.s, step);
          DropKeeps(fileOf, m.ix, Removal.Removals(m.s.log) > 0, 0);
        }
      case _ =>
    }
  }

  lemma {:induction false} Reachable(w: World, fileOf: string -> string, h: HostFile, t: Time, src: string,
                                      moves: seq<Move>)
    requires fileOf(src) != ""
    ensures Inv(fileOf, Run(w, fileOf, First(w, fileOf, h, t, src), moves))
  {
    if moves == [] {
      assert src in Spellings(First(w, fileOf, h, t, src).ix);
    } else {
      Reachable(w, fileOf, h, t, src, moves[..|moves| - 1]);
      KeepsNext(w, fileOf, Run(w, fileOf, First(w, fileOf, h, t, src), moves[..|moves| - 1]), moves[|moves| - 1]);
    }
  }

  // --------------------------------------------------------------- theorems

  /**
   A record is removed at most once for each of its spellings, in every run of its manager; and
   once it was removed, no index leads to it.
   */
  lemma {:induction false} RemovedOncePerSpelling(w: World, fileOf: string -> string, h: HostFile, t: Time, src: string,
                                                  moves: seq<Move>)
    requires fileOf(src) != ""
    ensures var m := Run(w, fileOf, First(w, fileOf, h, t, src), moves);
      && Removal.Removals(m.s.log) <= |Spellings(m.ix)|
      && (Removal.Removals(m.s.log) > 0 ==>
            Leading(m.ix) == {} && forall f :: f in m.ix.byFileID ==> m.ix.byFileID[f] != 0)
  {
    Reachable(w, fileOf, h, t, src, moves);
  }

  // ------------------------------------------------------ the bound is reached

  lemma RunSnoc(w: World, fileOf: string -> string, m: Manager, moves: seq<Move>, move: Move)
    ensures Run(w, fileOf, m, moves + [move]) == Next(w, fileOf, Run(w, fileOf, m, moves), move)
  {
    assert (moves + [move])[..|moves|] == moves;
  }

  lemma {:induction false} RunAppend(w: World, fileOf: string -> string, m: Manager, moves: seq<Move>, more: seq<Move>)
    ensures Run(w, fileOf, m, moves + more) == Run(w, fileOf, Run(w, fileOf, m, moves), more)
  {
    if more == [] {
      assert moves + more == moves;
    } else {
      var n := |more| - 1;
      RunAppend(w, fileOf, m, moves, more[..n]);
      assert moves + more == (moves + more[..n]) + [more[n]];
      RunSnoc(w, fileOf, m, moves + more[..n], more[n]);
    }
  }

  const WORK: Move := Moves(Work(Takeover.QUIET))

  function Works(n: nat): seq<Move> {
    seq(n, _ => WORK)
  }

  /** The record's machine after `n` undisturbed steps. */
  ghost function Worked(w: World, s: Sys, n: nat): Sys {
    Takeover.Iterate(Takeover.Alone(w), s, n)
  }

  lemma WorkedNext(w: World, s: Sys, n: nat)
    ensures Worked(w, s, n + 1) == Step(w, Worked(w, s, n), Work(Takeover.QUIET))
  {
    Takeover.IterateAdd(Takeover.Alone(w), s, n, 1);
    var last := Worked(w, s, n);
    assert Takeover.Iterate(Takeover.Alone(w), last, 1) == Takeover.Alone(w)(last);
  }

  lemma WorkedOnce(w: World, s: Sys, n: nat)
    ensures Removal.Removals(Worked(w, s, n + 1).log) >= Removal.Removals(Worked(w, s, n).log)
  {
    WorkedNext(w, s, n);
    StepRemoves(w, Worked(w, s, n), Work(Takeover.QUIET));
  }

  lemma {:induction false} RemovalsGrow(w: World, s: Sys, n: nat)
    ensures Removal.Removals(Worked(w, s, n).log) >= Removal.Removals(s.log)
  {
    if n == 0 {
    } else {
      RemovalsGrow(w, s, n - 1);
      WorkedOnce(w, s, n - 1);
    }
  }

  lemma WalksOnce(w: World, fileOf: string -> string, m: Manager, n: nat)
    requires Removal.Removals(Worked(w, m.s, n + 1).log) == Removal.Removals(Worked(w, m.s, n).log)
    ensures Next(w, fileOf, m.(s := Worked(w, m.s, n)), WORK) == m.(s := Worked(w, m.s, n + 1))
  {
    WorkedNext(w, m.s, n);
  }

  /** Undisturbed steps of the worker that remove nothing. */
  lemma {:induction false} WalksFor(w: World, fileOf: string -> string, m: Manager, n: nat)
    requires Removal.Removals(Worked(w, m.s, n).log) == Removal.Removals(m.s.log)
    ensures Run(w, fileOf, m, Works(n)) == m.(s := Worked(w, m.s, n))
  {
    if n == 0 {
    } else {
      RemovalsGrow(w, m.s, n - 1);
      WorkedOnce(w, m.s, n - 1);
      WalksFor(w, fileOf, m, n - 1);
      WalksOnce(w, fileOf, m, n - 1);
      assert Works(n) == Works(n - 1) + [WORK];
      RunSnoc(w, fileOf, m, Works(n - 1), WORK);
    }
  }

  lemma Walks(w: World, fileOf: string -> string, m: Manager, s': Sys) returns (moves: seq<Move>)
    requires Takeover.Leads(w, m.s, s') && Removal.Removals(s'.log) == Removal.Removals(m.s.log)
    ensures Run(w, fileOf, m, moves) == m.(s := s')
  {
    var n: nat :| Takeover.Iterate(Takeover.Alone(w), m.s, n) == s';
    moves := Works(n);
    WalksFor(w, fileOf, m, n);
  }

  /** A turn of an abandoned record removes it, whether or not it was removed before. */
  lemma TurnRemoves(w: World, fileOf: string -> string, m: Manager) returns (moves: seq<Move>)
    requires m.turns > 0 && !m.s.room.life.inFlight && Removal.Abandoned(m.s)
    ensures var m' := Run(w, fileOf, m, moves);
      && m'.turns == m.turns - 1 && m'.ix == RoomIndex.Delete(m.ix, 0)
      && !m'.s.room.life.inFlight && Removal.Abandoned(m'.s)
      && Removal.Removals(m'.s.log) == Removal.Removals(m.s.log) + 1
  {
    var none: seq<Move> := [];
    RunSnoc(w, fileOf, m, none, Turn);
    var m1 := Next(w, fileOf, m, Turn);
    var more := PassRemoves(w, fileOf, m1);
    moves := none + [Turn] + more;
    RunAppend(w, fileOf, m, none + [Turn], more);
  }

  lemma PassRemoves(w: World, fileOf: string -> string, m: Manager) returns (moves: seq<Move>)
    requires m.s.pc == Begin(false) && Removal.Abandoned(m.s)
    ensures var m' := Run(w, fileOf, m, moves);
      && m'.turns == m.turns && m'.ix == RoomIndex.Delete(m.ix, 0)
      && !m'.s.room.life.inFlight && Removal.Abandoned(m'.s)
      && Removal.Removals(m'.s.log) == Removal.Removals(m.s.log) + 1
  {
    var s1 := ComesToDelete(w, m.s);
    var before := Walks(w, fileOf, m, s1);
    RunSnoc(w, fileOf, m, before, WORK);
    var m2 := Deletes(w, fileOf, m.(s := s1));
    var s3 := Removal.Leaves(w, m2.s);
    var after := Walks(w, fileOf, m2, s3);
    moves := before + [WORK] + after;
    RunAppend(w, fileOf, m, before + [WORK], after);
  }

  lemma ComesToDelete(w: World, s: Sys) returns (s': Sys)
    requires s.pc == Begin(false) && Removal.Abandoned(s)
    ensures Takeover.Leads(w, s, s') && Removal.Alike(s, s') && Removal.Removals(s'.log) == Removal.Removals(s.log)
    ensures s'.pc == Shutting(PlanOf(s.room, s.now), CloseDelete)
  {
    var s1 := Removal.CloseBegins(w, s);
    s' := Removal.LooksTwice(w, s1, PlanOf(s.room, s.now));
    Takeover.LeadsTrans(w, s, s1, s');
  }

  lemma Deletes(w: World, fileOf: string -> string, m: Manager) returns (m': Manager)
    requires m.s.pc.Shutting? && m.s.pc.closeAt.CloseDelete?
    ensures m' == Next(w, fileOf, m, WORK) == m.(s := Remove(m.s, true), ix := RoomIndex.Delete(m.ix, 0))
  {
    m' := Next(w, fileOf, m, WORK);
    assert m'.s == Remove(m.s, true);
  }

  /** The index of one record under two spellings. */
  function Both(a: string, b: string, f: string): Index {
    RoomIndex.Index(map[a := 0, b := 0], map[f := 0], map[0 := RoomIndex.Keys({a, b}, f)])
  }

  /** The only member leaves, and the grace elapses. */
  ghost function Left(w: World, s: Sys, t: Time): Sys {
    Step(w, Step(w, s, DoLeave(true)), Tick(t + CLOSE_GRACE))
  }

  lemma LeftIsAbandoned(w: World, h: HostFile, t: Time, user: string, info: TokenInfo)
    ensures var s := Left(w, Step(w, Start(w, h, t), DoObserve(user, info)), t);
      !s.room.life.inFlight && Removal.Abandoned(s) && Removal.Removals(s.log) == 0 && !MayRemove(s.pc)
  {
  }

  /** The only member leaves, and after the grace evaluateAll lists the rooms. */
  function Departure(t: Time): seq<Move> {
    [Moves(DoLeave(true)), Moves(Tick(t + CLOSE_GRACE)), List]
  }

  lemma ListedTwice(w: World, fileOf: string -> string, m: Manager, t: Time, a: string, b: string, f: string)
    requires m.turns == 0 && m.ix == Both(a, b, f) && a != b && !MayRemove(Left(w, m.s, t).pc)
    ensures Run(w, fileOf, m, Departure(t)) == Manager(Left(w, m.s, t), 2, m.ix)
  {
    var none: seq<Move> := [];
    var leave, wait := Moves(DoLeave(true)), Moves(Tick(t + CLOSE_GRACE));
    assert Departure(t) == none + [leave] + [wait] + [List];
    RunSnoc(w, fileOf, m, none, leave);
    RunSnoc(w, fileOf, m, none + [leave], wait);
    RunSnoc(w, fileOf, m, none + [leave] + [wait], List);
    HandlersRemoveNothing(w, fileOf, m, DoLeave(true));
    HandlersRemoveNothing(w, fileOf, m.(s := Step(w, m.s, DoLeave(true))), Tick(t + CLOSE_GRACE));
    assert Leading(m.ix) == {a, b};
  }

  lemma HandlersRemoveNothing(w: World, fileOf: string -> string, m: Manager, l: Label)
    requires l.DoLeave? || l.Tick?
    ensures Next(w, fileOf, m, Moves(l)) == m.(s := Step(w, m.s, l))
  {
  }

  lemma ObservedAgain(w: World, fileOf: string -> string, h: HostFile, t: Time, a: string, b: string, blank: nat,
                      user: string, info: TokenInfo)
    requires a != b && fileOf(a) == fileOf(b) != "" && blank != 0
    ensures var m := First(w, fileOf, h, t, a);
      Next(w, fileOf, m, Observes(b, blank, user, info)) ==
      m.(s := Step(w, m.s, DoObserve(user, info)), ix := Both(a, b, fileOf(a)))
  {
    var f := fileOf(a);
    var ix := First(w, fileOf, h, t, a).ix;
    assert ix == RoomIndex.Index(map[a := 0], map[f := 0], map[0 := RoomIndex.Keys({a}, f)]) by {
      assert {} + {a} == {a};
    }
    assert map[a := 0][b := 0] == map[a := 0, b := 0];
    assert map[f := 0][f := 0] == map[f := 0];
    assert {a} + {b} == {a, b};
    assert map[0 := RoomIndex.Keys({a}, f)][0 := RoomIndex.Keys({a, b}, f)] == map[0 := RoomIndex.Keys({a, b}, f)];
  }

  /** A record with two listed turns is removed by both, and the second takes the key of a room made in between. */
  lemma TurnsRemove(w: World, fileOf: string -> string, m: Manager, a: string, b: string, user: string, info: TokenInfo)
    returns (moves: seq<Move>)
    requires m.turns == 2 && m.ix == Both(a, b, fileOf(a)) && fileOf(a) != ""
    requires !m.s.room.life.inFlight && Removal.Abandoned(m.s) && Removal.Removals(m.s.log) == 0
    ensures var m' := Run(w, fileOf, m, moves);
      && Removal.Removals(m'.s.log) == 2 && Spellings(m'.ix) == {a, b}
      && fileOf(a) in m'.ix.byFileID && m'.ix.byFileID[fileOf(a)] == 1 && a !in m'.ix.rooms
  {
    var p1 := TurnRemoves(w, fileOf, m);
    var m1 := Run(w, fileOf, m, p1);
    assert m1.ix.rooms == map[] && m1.ix.byFileID == map[];
    var again := Observes(a, 1, user, info);
    RunSnoc(w, fileOf, m, p1, again);
    var m2 := Next(w, fileOf, m1, again);
    assert m2.s == m1.s && m2.turns == 1;
    var p2 := TurnRemoves(w, fileOf, m2);
    moves := p1 + [again] + p2;
    RunAppend(w, fileOf, m, p1 + [again], p2);
  }

  /**
   With two spellings the bound is reached, and it costs another room its key: both turns are
   listed, the first removes the record, the file is observed again and gets a new one, and the
   second turn takes the new one's spelling. It is found by file id, but not by WOPISrc.
   */
  lemma SecondTurnTakesAnothersKey(w: World, fileOf: string -> string, h: HostFile, t: Time, a: string, b: string,
                                   user: string, info: TokenInfo)
    requires a != b && fileOf(a) == fileOf(b) != ""
    ensures exists moves :: var m := Run(w, fileOf, First(w, fileOf, h, t, a), moves);
      && Removal.Removals(m.s.log) == 2 == |Spellings(m.ix)|
      && fileOf(a) in m.ix.byFileID && m.ix.byFileID[fileOf(a)] == 1 && a !in m.ix.rooms
  {
    var m0 := First(w, fileOf, h, t, a);
    var none: seq<Move> := [];
    var second := Observes(b, 1, user, info);
    RunSnoc(w, fileOf, m0, none, second);
    ObservedAgain(w, fileOf, h, t, a, b, 1, user, info);
    LeftIsAbandoned(w, h, t, user, info);
    var m1 := Next(w, fileOf, m0, second);
    ListedTwice(w, fileOf, m1, t, a, b, fileOf(a));
    var turns := TurnsRemove(w, fileOf, Run(w, fileOf, m1, Departure(t)), a, b, user, info);
    RunAppend(w, fileOf, m0, none + [second], Departure(t));
    RunAppend(w, fileOf, m0, none + [second] + Departure(t), turns);
    assert |{a, b}| == 2;
    assert Removal.Removals(Run(w, fileOf, m0, none + [second] + Departure(t) + turns).s.log) == 2;
  }
}
