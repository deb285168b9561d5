/**
 What the manager knows of a room's members. The relay's handlers tell it of every join and leave
 from inside the room's emit lock, so it hears them in the order in which they changed the roster.

 The machine is that of `EmitLocks`, with one more step between a mutation and the unlock: the
 manager hears of it. It may come to know the file, and forget it, at any time.
 */
module LiveUsers {
  import opened Basics
  import opened RoomModel
  import opened Registry
  import opened Relay
  import opened EmitLocks

  datatype News = Joined | Left(roomEmpty: bool)

  /**
   `due` is what a goroutine inside its section has not told the manager yet, `lives` the records
   of the files the manager knows. `met` are those that were known at a moment at which nobody was
   in the room, `heard` those that heard of a join or leave, `emptied` when the manager last heard
   that somebody left a room empty.
   */
  datatype House = House(
    relay: State, due: map<Goroutine, News>, lives: map<string, Life>, met: set<string>, heard: set<string>,
    emptied: map<string, Time>)

  datatype Turn =
    | Locks(m: EmitLocks.Move)
    | Tell(g: Goroutine, now: Time)     // OnJoin or OnLeave
    | Knows(room: string)               // the file's first observation
    | Forgets(room: string)             // its room leaves the index

  /** What a job's handler has to tell: nothing for a socket that is in already, or never was. */
  function NewsOf(r: Roster, job: Visit): Option<News> {
    match job
    case Joins(m) => if JoinRoster(r, m).1 then Some(Joined) else None
    case Leaves(socketID) =>
      if IndexOf(r.members, socketID) < |r.members|
      then Some(Left(LeaveRoster(r, socketID).0.members == []))
      else None
  }

  function MutateStep(h: House, g: Goroutine): House {
    match PhaseOf(h.relay, g)
    case Entered(room, _, job) =>
      var news := NewsOf(RosterIn(h.relay, room), job);
      h.(relay := MoveStep(h.relay, Mutate(g)), due := if news.Some? then h.due[g := news.value] else h.due)
    case _ => h
  }

  /** The manager's OnJoin or OnLeave for `room`. */
  function Hear(h: House, room: string, news: News, now: Time): House {
    if room !in h.lives then h
    else
      var life := match news
                  case Joined => OnJoin(h.lives[room])
                  case Left(roomEmpty) => OnLeave(h.lives[room], now, roomEmpty);
      h.(lives := h.lives[room := life], heard := h.heard + {room},
         met := if news == Left(true) then h.met + {room} else h.met,
         emptied := if news == Left(true) then h.emptied[room := now] else h.emptied)
  }

  function TellStep(h: House, g: Goroutine, now: Time): House {
    match PhaseOf(h.relay, g)
    case Emitting(room, _, _) => if g in h.due then Hear(h, room, h.due[g], now).(due := h.due - {g}) else h
    case _ => h
  }

  /** Nobody is in the room, or on the way in or out. */
  ghost predicate Deserted(h: House, room: string) {
    RosterIn(h.relay, room).members == [] && Quiet(h.relay, room)
  }

  ghost function TurnStep(h: House, turn: Turn): House {
    match turn
    case Locks(m) =>
      if m.Mutate? then MutateStep(h, m.g)
      else if m.DropReference? && m.g in h.due then h
      else h.(relay := MoveStep(h.relay, m))
    case Tell(g, now) => TellStep(h, g, now)
    case Knows(room) =>
      if room in h.lives then h
      else
        h.(lives := h.lives[room := FRESH.life], heard := h.heard - {room},
           met := if Deserted(h, room) then h.met + {room} else h.met - {room})
    case Forgets(room) => h.(lives := h.lives - {room})
  }

  ghost function Run(turns: seq<Turn>): House {
    if turns == [] then House(START, map[], map[], {}, {}, map[])
    else TurnStep(Run(turns[..|turns| - 1]), turns[|turns| - 1])
  }

  // -------------------------------------------------------------- invariant

  /** The record of a known file, when `n` members are in as far as the manager was told. */
  ghost predicate Balanced(h: House, room: string, n: int) {
    room in h.lives ==>
      var life := h.lives[room];
      && life.liveUserCount <= n && (room in h.met ==> life.liveUserCount == n)
      && (life.closing ==> n == 0) && (room in h.heard && n == 0 ==> life.closing)
      && (life.closing ==> room in h.heard && room in h.emptied && life.closeAt == h.emptied[room] + 10 * SECOND)
  }

  /** How many members there were before the news. */
  function Before(n: int, news: News): int {
    if news.Joined? then n - 1 else n + 1
  }

  ghost predicate Telling(h: House, g: Goroutine, room: string) {
    g in h.due && PhaseOf(h.relay, g).Emitting? && PhaseOf(h.relay, g).room == room
  }

  ghost predicate RoomInv(h: House, room: string) {
    var n := |RosterIn(h.relay, room).members|;
    && ((forall g :: !Telling(h, g, room)) ==> Balanced(h, room, n))
    && (forall g :: Telling(h, g, room) ==>
          && Balanced(h, room, Before(n, h.due[g])) && Before(n, h.due[g]) >= 0
          && (h.due[g].Left? ==> (h.due[g].roomEmpty <==> n == 0)))
  }

  ghost predicate Inv(h: House) {
    && LockInv(h.relay)
    && (forall g :: g in h.due ==> PhaseOf(h.relay, g).Emitting?)
    && (forall room :: RoomInv(h, room))
  }

  lemma WorkCounts(r: Roster, job: Visit)
    ensures var n, n' := |r.members|, |Work(r, job).0.members|; var news := NewsOf(r, job);
      && (news.None? ==> n' == n)
      && (news.Some? ==> Before(n', news.value) == n)
      && (news.Some? && news.value.Left? ==> (news.value.roomEmpty <==> n' == 0))
  {
  }

  /** Whoever has news of a room is alone in it. */
  lemma OnlyTeller(h: House, g: Goroutine, room: string)
    requires LockInv(h.relay) && Inside(PhaseOf(h.relay, g), room)
    ensures forall k :: Telling(h, k, room) ==> k == g
  {
    forall k | Telling(h, k, room) ensures k == g {
      assert Shared(h.relay, g) && Shared(h.relay, k);
    }
  }

  /** A turn that touches neither the room's record and roster nor who has news of it. */
  lemma RoomStays(h: House, h': House, room: string)
    requires RoomInv(h, room) && RosterIn(h'.relay, room) == RosterIn(h.relay, room)
    requires (room in h'.lives) == (room in h.lives) && (room in h.lives ==> h'.lives[room] == h.lives[room])
    requires (room in h'.met <==> room in h.met) && (room in h'.heard <==> room in h.heard)
    requires room in h.emptied ==> room in h'.emptied && h'.emptied[room] == h.emptied[room]
    requires forall g :: Telling(h', g, room) ==> Telling(h, g, room)
    requires forall g :: Telling(h, g, room) ==> Telling(h', g, room) && h'.due[g] == h.due[g]
    ensures RoomInv(h', room)
  {
  }

  lemma NobodyTells(h: House, g: Goroutine)
    requires Inv(h) && PhaseOf(h.relay, g).Entered?
    ensures g !in h.due && forall k :: !Telling(h, k, PhaseOf(h.relay, g).room)
    ensures Balanced(h, PhaseOf(h.relay, g).room, |RosterIn(h.relay, PhaseOf(h.relay, g).room).members|)
  {
    OnlyTeller(h, g, PhaseOf(h.relay, g).room);
    assert RoomInv(h, PhaseOf(h.relay, g).room);
  }

  /** The room a goroutine mutates: nobody had news of it, and now the goroutine may. */
  lemma HomeKeeps(h: House, g: Goroutine)
    requires Inv(h) && PhaseOf(h.relay, g).Entered?
    ensures RoomInv(MutateStep(h, g), PhaseOf(h.relay, g).room)
  {
    var room, job, h' := PhaseOf(h.relay, g).room, PhaseOf(h.relay, g).job, MutateStep(h, g);
    var r := RosterIn(h.relay, room);
    NobodyTells(h, g);
    WorkCounts(r, job);
    var n' := |Work(r, job).0.members|;
    assert RosterIn(h'.relay, room) == Work(r, job).0;
    forall k | k != g ensures !Telling(h', k, room) { assert !Telling(h, k, room); }
    match NewsOf(r, job) {
      case None =>
        assert !Telling(h', g, room);
        assert Balanced(h', room, n');
      case Some(news) =>
        assert h'.due[g] == news && Telling(h', g, room);
        assert Balanced(h', room, Before(n', news));
    }
  }

  lemma ElsewhereKeeps(h: House, g: Goroutine, room: string)
    requires Inv(h) && PhaseOf(h.relay, g).Entered? && room != PhaseOf(h.relay, g).room
    ensures RoomInv(MutateStep(h, g), room)
  {
    assert RoomInv(h, room);
    RoomStays(h, MutateStep(h, g), room);
  }

  lemma KeepsMutate(h: House, g: Goroutine)
    requires Inv(h)
    ensures Inv(MutateStep(h, g))
  {
    var p := PhaseOf(h.relay, g);
    if p.Entered? {
      KeepsLocks(h.relay, Mutate(g));
      forall room ensures RoomInv(MutateStep(h, g), room) {
        if room == p.room { HomeKeeps(h, g); } else { ElsewhereKeeps(h, g, room); }
      }
    }
  }

  lemma HomeTells(h: House, g: Goroutine, now: Time)
    requires Inv(h) && PhaseOf(h.relay, g).Emitting? && g in h.due
    ensures RoomInv(TellStep(h, g, now), PhaseOf(h.relay, g).room)
  {
    var room, h' := PhaseOf(h.relay, g).room, TellStep(h, g, now);
    var n := |RosterIn(h.relay, room).members|;
    OnlyTeller(h, g, room);
    assert RoomInv(h, room) && Telling(h, g, room);
    forall k ensures !Telling(h', k, room) { assert Telling(h', k, room) ==> Telling(h, k, room) && k != g; }
    assert Balanced(h, room, Before(n, h.due[g]));
    assert Balanced(h', room, n);
  }

  lemma KeepsTell(h: House, g: Goroutine, now: Time)
    requires Inv(h)
    ensures Inv(TellStep(h, g, now))
  {
    var p, h' := PhaseOf(h.relay, g), TellStep(h, g, now);
    if p.Emitting? && g in h.due {
      forall room ensures RoomInv(h', room) {
        assert RoomInv(h, room);
        if room != p.room { RoomStays(h, h', room); } else { HomeTells(h, g, now); }
      }
    }
  }

  lemma KeepsOther(h: House, m: EmitLocks.Move)
    requires Inv(h) && !m.Mutate? && !(m.DropReference? && m.g in h.due)
    ensures Inv(h.(relay := MoveStep(h.relay, m)))
  {
    var h' := h.(relay := MoveStep(h.relay, m));
    KeepsLocks(h.relay, m);
    forall room ensures RoomInv(h', room) {
      assert RoomInv(h, room);
      forall g ensures Telling(h', g, room) <==> Telling(h, g, room) {
        if g != m.g { assert PhaseOf(h'.relay, g) == PhaseOf(h.relay, g); }
      }
      RoomStays(h, h', room);
    }
  }

  lemma KeepsKnown(h: House, turn: Turn)
    requires Inv(h) && (turn.Knows? || turn.Forgets?)
    ensures Inv(TurnStep(h, turn))
  {
    var h' := TurnStep(h, turn);
    forall room ensures RoomInv(h', room) {
      assert RoomInv(h, room);
      assert forall g :: Telling(h', g, room) <==> Telling(h, g, room);
    }
  }

  lemma {:induction false} Reachable(turns: seq<Turn>)
    ensures Inv(Run(turns))
  {
    if turns == [] {
    } else {
      var h := Run(turns[..|turns| - 1]);
      Reachable(turns[..|turns| - 1]);
      match turns[|turns| - 1] {
        case Locks(m) =>
          if m.Mutate? { KeepsMutate(h, m.g); }
          else if !(m.DropReference? && m.g in h.due) { KeepsOther(h, m); }
        case Tell(g, now) => KeepsTell(h, g, now);
        case _ => KeepsKnown(h, turns[|turns| - 1]);
      }
    }
  }

  // --------------------------------------------------------------- theorems

  /**
   However the handlers interleave: when nobody is between a room's mutation and its unlock, the
   manager counts no more users than there are members, and exactly as many if the file was known
   at some moment at which the room was empty; and a record that heard of anybody is closing
   exactly when the room is empty, its close due from ten seconds after it heard of the last leave.
   */
  lemma {:induction false} LiveUsersAreMembers(turns: seq<Turn>, room: string, now: Time)
    requires Quiet(Run(turns).relay, room) && room in Run(turns).lives
    ensures var h := Run(turns); var n, life := |RosterIn(h.relay, room).members|, h.lives[room];
      && life.liveUserCount <= n && (room in h.met ==> life.liveUserCount == n)
      && (life.closing <==> room in h.heard && n == 0)
      && (CloseDue(life, now) <==>
            room in h.heard && n == 0 && room in h.emptied && now >= h.emptied[room] + 10 * SECOND)
  {
    Reachable(turns);
    assert RoomInv(Run(turns), room);
  }

  /** The condition is not idle: a record made for a quiet room is right from the start exactly if the room is empty. */
  lemma {:induction false} LateRecordIsShort(turns: seq<Turn>, room: string)
    requires Quiet(Run(turns).relay, room) && room !in Run(turns).lives
    ensures var h := Run(turns + [Knows(room)]);
      room in h.lives && (h.lives[room].liveUserCount == |RosterIn(h.relay, room).members| <==> room in h.met)
  {
    assert (turns + [Knows(room)])[..|turns|] == turns;
  }
}
