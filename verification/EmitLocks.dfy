/**
 The per-room emit locks: a map of refcounted mutexes shared by any number of goroutines.

 Each goroutine runs one handler at a time; a step is one critical section of the map's own
 mutex, the acquisition or release of an entry's mutex, the registry mutation, or one emit. The
 invariant is what the refcounts are for, and under it the beliefs of `Relay` survive every
 interleaving.
 */
module EmitLocks {
  import opened Basics
  import opened Registry
  import opened Relay

  type Goroutine = nat

  /** A mutex entry's identity: two entries for one room are different mutexes. */
  type Entry = nat

  /** The map of entries and each entry's count, over any type of mutex identity. */
  datatype Book<E(==)> = Book(locks: map<string, E>, refs: map<E, nat>)

  function CountOf<E(==)>(b: Book<E>, e: E): nat {
    if e in b.refs then b.refs[e] else 0
  }

  /** lock's section under the map's mutex: the room's entry, or `blank` as its new one, is referred to once more. */
  function Refer<E(==)>(b: Book<E>, room: string, blank: E): (Book<E>, E) {
    if room in b.locks
    then (b.(refs := b.refs[b.locks[room] := CountOf(b, b.locks[room]) + 1]), b.locks[room])
    else (Book(b.locks[room := blank], b.refs[blank := 1]), blank)
  }

  /** Unlock's section: the count goes down, and the entry goes when nobody refers to it. */
  function Drop<E(==)>(b: Book<E>, room: string, e: E): Book<E> {
    var n := CountOf(b, e) as int - 1;
    Book(if n == 0 && room in b.locks && b.locks[room] == e then b.locks - {room} else b.locks,
         b.refs[e := if n < 0 then 0 else n])
  }

  datatype Phase =
    | Outside
    | Waiting(room: string, entry: Entry, job: Visit)              // referenced, not yet acquired
    | Entered(room: string, entry: Entry, job: Visit)              // acquired, registry not yet touched
    | Emitting(room: string, entry: Entry, pending: seq<Emit>)     // mutated, these emits to go
    | Releasing(entry: Entry)                                      // reference dropped, mutex still locked

  /** `locks` and `refs` are the map and its entries' counts; `owner` says who locked a mutex. */
  datatype State = State(
    locks: map<string, Entry>, refs: map<Entry, nat>, owner: map<Entry, Goroutine>, next: Entry,
    phases: map<Goroutine, Phase>, rosters: map<string, Roster>, clients: map<string, Clients>)

  datatype Move =
    | Lock(g: Goroutine, room: string, job: Visit)
    | Acquire(g: Goroutine)
    | Mutate(g: Goroutine)
    | Send(g: Goroutine)
    | DropReference(g: Goroutine)
    | Unlock(g: Goroutine)

  function PhaseOf(s: State, g: Goroutine): Phase {
    if g in s.phases then s.phases[g] else Outside
  }

  function RosterIn(s: State, room: string): Roster {
    if room in s.rosters then s.rosters[room] else EMPTY.roster
  }

  function ClientsIn(s: State, room: string): Clients {
    if room in s.clients then s.clients[room] else EMPTY.clients
  }

  /** A job's registry mutation and the emits it leaves to send. */
  function Work(r: Roster, job: Visit): (Roster, seq<Emit>) {
    match job
    case Joins(m) =>
      var (r', added, isSyncer) := JoinRoster(r, m);
      (r', JoinEmits(r', m, added, isSyncer))
    case Leaves(socketID) =>
      var (r', outcome) := LeaveRoster(r, socketID);
      (r', LeaveEmits(r', outcome))
  }

  function LockStep(s: State, g: Goroutine, room: string, job: Visit): State {
    if !PhaseOf(s, g).Outside? then s
    else
      var (b, e) := Refer(Book(s.locks, s.refs), room, s.next);
      s.(locks := b.locks, refs := b.refs, next := if room in s.locks then s.next else s.next + 1,
         phases := s.phases[g := Waiting(room, e, job)])
  }

  function DropStep(s: State, g: Goroutine, room: string, e: Entry): State {
    var b := Drop(Book(s.locks, s.refs), room, e);
    s.(locks := b.locks, refs := b.refs, phases := s.phases[g := Releasing(e)])
  }

  function MoveStep(s: State, m: Move): State {
    match m
    case Lock(g, room, job) => LockStep(s, g, room, job)
    case Acquire(g) =>
      (match PhaseOf(s, g)
       case Waiting(room, e, job) =>
         if e in s.owner then s else s.(owner := s.owner[e := g], phases := s.phases[g := Entered(room, e, job)])
       case _ => s)
    case Mutate(g) =>
      (match PhaseOf(s, g)
       case Entered(room, e, job) =>
         var (r', es) := Work(RosterIn(s, room), job);
         s.(rosters := s.rosters[room := r'], phases := s.phases[g := Emitting(room, e, es)])
       case _ => s)
    case Send(g) =>
      (match PhaseOf(s, g)
       case Emitting(room, e, pending) =>
         if pending == [] then s
         else s.(clients := s.clients[room := Deliver(ClientsIn(s, room), pending[0])],
                 phases := s.phases[g := Emitting(room, e, pending[1..])])
       case _ => s)
    case DropReference(g) =>
      (match PhaseOf(s, g)
       case Emitting(room, e, pending) => if pending == [] then DropStep(s, g, room, e) else s
       case _ => s)
    case Unlock(g) =>
      (match PhaseOf(s, g)
       case Releasing(e) => s.(owner := s.owner - {e}, phases := s.phases[g := Outside])
       case _ => s)
  }

  const START: State := State(map[], map[], map[], 0, map[], map[], map[])

  function Run(ms: seq<Move>): State {
    if ms == [] then START else MoveStep(Run(ms[..|ms| - 1]), ms[|ms| - 1])
  }

  // --------------------------------------------------------------- invariant

  /** The goroutine refers to the entry: it holds it or waits for it. */
  predicate Refers(p: Phase, e: Entry) {
    (p.Waiting? || p.Entered? || p.Emitting?) && p.entry == e
  }

  /** The goroutine has locked the entry's mutex. */
  predicate Locks(p: Phase, e: Entry) {
    (p.Entered? || p.Emitting? || p.Releasing?) && p.entry == e
  }

  /** The goroutine is in the room's critical section. */
  predicate Inside(p: Phase, room: string) {
    (p.Entered? || p.Emitting?) && p.room == room
  }

  ghost function Referrers(s: State, e: Entry): set<Goroutine> {
    set g | g in s.phases && Refers(s.phases[g], e)
  }

  /** Everybody in or at the door of a room refers to the one entry in the map. */
  ghost predicate Shared(s: State, g: Goroutine) {
    var p := PhaseOf(s, g);
    && (p.Waiting? || p.Entered? || p.Emitting? ==> p.room in s.locks && s.locks[p.room] == p.entry)
    && (p.Entered? || p.Emitting? || p.Releasing? ==> p.entry in s.owner && s.owner[p.entry] == g)
  }

  /** The count of an entry in the map is exact, and not zero. */
  ghost predicate Counted(s: State, room: string) {
    room in s.locks ==>
      var e := s.locks[room];
      e < s.next && e in s.refs && s.refs[e] == |Referrers(s, e)| > 0
  }

  ghost predicate LockInv(s: State) {
    && (forall g :: Shared(s, g))
    && (forall room :: Counted(s, room))
    && (forall a, b :: a in s.locks && b in s.locks && s.locks[a] == s.locks[b] ==> a == b)
    && (forall e :: e in s.owner ==> e < s.next && s.owner[e] in s.phases && Locks(s.phases[s.owner[e]], e))
  }

  lemma OneReferrerMore(s: State, s': State, g: Goroutine, e: Entry)
    requires s'.phases == s.phases[g := PhaseOf(s', g)] && !Refers(PhaseOf(s, g), e) && Refers(PhaseOf(s', g), e)
    ensures Referrers(s', e) == Referrers(s, e) + {g} && |Referrers(s', e)| == |Referrers(s, e)| + 1
  {
    assert g in s'.phases && g !in Referrers(s, e);
  }

  lemma OneReferrerLess(s: State, s': State, g: Goroutine, e: Entry)
    requires s'.phases == s.phases[g := PhaseOf(s', g)] && Refers(PhaseOf(s, g), e) && !Refers(PhaseOf(s', g), e)
    ensures Referrers(s', e) == Referrers(s, e) - {g} && |Referrers(s', e)| == |Referrers(s, e)| - 1
  {
    assert g in s.phases && g in Referrers(s, e);
  }

  lemma SameReferrers(s: State, s': State, g: Goroutine, e: Entry)
    requires s'.phases == s.phases[g := PhaseOf(s', g)] && (Refers(PhaseOf(s, g), e) <==> Refers(PhaseOf(s', g), e))
    ensures Referrers(s', e) == Referrers(s, e)
  {
    forall h ensures h in Referrers(s', e) <==> h in Referrers(s, e) {
      if h != g { assert h in s'.phases <==> h in s.phases; }
    }
  }

  lemma JoinsEntry(s: State, g: Goroutine, room: string, job: Visit)
    requires LockInv(s) && PhaseOf(s, g).Outside? && room in s.locks
    ensures LockInv(LockStep(s, g, room, job))
  {
    var s' := LockStep(s, g, room, job);
    assert Shared(s, g) && Counted(s, room);
    forall h ensures Shared(s', h) { assert Shared(s, h); }
    forall other ensures Counted(s', other) {
      assert Counted(s, other);
      if other == room { OneReferrerMore(s, s', g, s.locks[room]); }
      else if other in s.locks { SameReferrers(s, s', g, s.locks[other]); }
    }
  }

  lemma MakesEntry(s: State, g: Goroutine, room: string, job: Visit)
    requires LockInv(s) && PhaseOf(s, g).Outside? && room !in s.locks
    ensures LockInv(LockStep(s, g, room, job))
  {
    var s' := LockStep(s, g, room, job);
    assert Shared(s, g);
    forall r | r in s.locks ensures s.locks[r] < s.next { assert Counted(s, r); }
    forall h ensures Shared(s', h) { assert Shared(s, h); }
    NobodyRefers(s, s.next);
    OneReferrerMore(s, s', g, s.next);
    forall other ensures Counted(s', other) {
      assert Counted(s, other);
      if other in s.locks { SameReferrers(s, s', g, s.locks[other]); }
    }
  }

  lemma KeepsLock(s: State, g: Goroutine, room: string, job: Visit)
    requires LockInv(s)
    ensures LockInv(LockStep(s, g, room, job))
  {
    if PhaseOf(s, g).Outside? {
      if room in s.locks { JoinsEntry(s, g, room, job); } else { MakesEntry(s, g, room, job); }
    }
  }

  /** Nobody refers to an entry that is not in the map. */
  lemma NobodyRefers(s: State, e: Entry)
    requires LockInv(s) && forall room :: room in s.locks ==> s.locks[room] != e
    ensures Referrers(s, e) == {}
  {
    forall h | h in s.phases ensures !Refers(s.phases[h], e) { assert Shared(s, h); }
  }

  /** A step that leaves the map alone and moves one goroutine on without changing whom it refers to. */
  lemma KeepsCounts(s: State, s': State, g: Goroutine)
    requires LockInv(s) && s'.phases == s.phases[g := PhaseOf(s', g)]
    requires s'.locks == s.locks && s'.refs == s.refs && s'.next == s.next
    requires forall e :: Refers(PhaseOf(s, g), e) <==> Refers(PhaseOf(s', g), e)
    ensures forall room :: Counted(s', room)
  {
    forall room ensures Counted(s', room) {
      assert Counted(s, room);
      if room in s.locks { SameReferrers(s, s', g, s.locks[room]); }
    }
  }

  lemma KeepsAcquire(s: State, g: Goroutine)
    requires LockInv(s)
    ensures LockInv(MoveStep(s, Acquire(g)))
  {
    var s' := MoveStep(s, Acquire(g));
    assert Shared(s, g);
    if PhaseOf(s, g).Waiting? && PhaseOf(s, g).entry !in s.owner {
      assert Counted(s, PhaseOf(s, g).room);
      KeepsCounts(s, s', g);
      forall h ensures Shared(s', h) { assert Shared(s, h); }
    }
  }

  lemma KeepsInside(s: State, m: Move)
    requires LockInv(s) && (m.Mutate? || m.Send?)
    ensures LockInv(MoveStep(s, m))
  {
    var s' := MoveStep(s, m);
    if s' != s {
      assert Shared(s, m.g);
      KeepsCounts(s, s', m.g);
      forall h ensures Shared(s', h) { assert Shared(s, h); }
    }
  }

  lemma KeepsDrop(s: State, g: Goroutine)
    requires LockInv(s)
    ensures LockInv(MoveStep(s, DropReference(g)))
  {
    var s' := MoveStep(s, DropReference(g));
    var p := PhaseOf(s, g);
    assert Shared(s, g);
    if p.Emitting? && p.pending == [] {
      assert Counted(s, p.room) && s' == DropStep(s, g, p.room, p.entry);
      OneReferrerLess(s, s', g, p.entry);
      forall h ensures Shared(s', h) {
        assert Shared(s, h);
        if h != g && Refers(PhaseOf(s, h), p.entry) { assert h in Referrers(s', p.entry); }
      }
      forall other ensures Counted(s', other) {
        assert Counted(s, other);
        if other in s'.locks && other != p.room { SameReferrers(s, s', g, s.locks[other]); }
      }
    }
  }

  lemma KeepsUnlock(s: State, g: Goroutine)
    requires LockInv(s)
    ensures LockInv(MoveStep(s, Unlock(g)))
  {
    var s' := MoveStep(s, Unlock(g));
    assert Shared(s, g);
    if PhaseOf(s, g).Releasing? {
      KeepsCounts(s, s', g);
      forall h ensures Shared(s', h) { assert Shared(s, h); }
    }
  }

  lemma KeepsLocks(s: State, m: Move)
    requires LockInv(s)
    ensures LockInv(MoveStep(s, m))
  {
    match m {
      case Lock(g, room, job) => KeepsLock(s, g, room, job);
      case Acquire(g) => KeepsAcquire(s, g);
      case Mutate(g) => KeepsInside(s, m);
      case Send(g) => KeepsInside(s, m);
      case DropReference(g) => KeepsDrop(s, g);
      case Unlock(g) => KeepsUnlock(s, g);
    }
  }

  lemma {:induction false} LocksReachable(ms: seq<Move>)
    ensures LockInv(Run(ms))
  {
    if ms == [] {
    } else {
      LocksReachable(ms[..|ms| - 1]);
      KeepsLocks(Run(ms[..|ms| - 1]), ms[|ms| - 1]);
    }
  }

  /** Two goroutines are never in the critical section of one room. */
  lemma AtMostOneInside(ms: seq<Move>, room: string, g: Goroutine, h: Goroutine)
    requires Inside(PhaseOf(Run(ms), g), room) && Inside(PhaseOf(Run(ms), h), room)
    ensures g == h
  {
    LocksReachable(ms);
    assert Shared(Run(ms), g) && Shared(Run(ms), h);
  }

  /**
   Everybody who holds or awaits a room shares the one entry the map has for it, its count is
   exactly their number, and the map has an entry only while there are any.
   */
  lemma EntriesExact(ms: seq<Move>, room: string)
    ensures var s := Run(ms);
      && (forall g :: Inside(PhaseOf(s, g), room) || (PhaseOf(s, g).Waiting? && PhaseOf(s, g).room == room) ==>
            room in s.locks && Refers(PhaseOf(s, g), s.locks[room]))
      && (room in s.locks ==> s.locks[room] in s.refs && s.refs[s.locks[room]] == |Referrers(s, s.locks[room])|)
      && (room in s.locks <==>
            exists g :: g in s.phases && (s.phases[g].Waiting? || Inside(s.phases[g], room))
              && s.phases[g].room == room)
  {
    LocksReachable(ms);
    var s := Run(ms);
    assert Counted(s, room);
    forall g | Inside(PhaseOf(s, g), room) || (PhaseOf(s, g).Waiting? && PhaseOf(s, g).room == room)
      ensures room in s.locks && Refers(PhaseOf(s, g), s.locks[room])
    {
      assert Shared(s, g);
    }
    if room in s.locks {
      var g :| g in Referrers(s, s.locks[room]);
      assert Shared(s, g);
    }
    if g :| g in s.phases && (s.phases[g].Waiting? || Inside(s.phases[g], room)) && s.phases[g].room == room {
      assert Shared(s, g);
    }
  }

  // -------------------------------------------------------- beliefs under locks

  ghost predicate NamedJob(p: Phase) {
    (p.Waiting? || p.Entered?) && p.job.Joins? ==> p.job.m.userID != ""
  }

  ghost predicate Quiet(s: State, room: string) {
    forall g :: PhaseOf(s, g).Emitting? ==> PhaseOf(s, g).room != room
  }

  /** The room is right, or will be when the goroutine inside has sent its remaining emits. */
  ghost predicate Settles(s: State, room: string) {
    && (Quiet(s, room) ==> Agree(RosterIn(s, room), ClientsIn(s, room)))
    && (forall g :: PhaseOf(s, g).Emitting? && PhaseOf(s, g).room == room ==>
          Agree(RosterIn(s, room), DeliverAll(ClientsIn(s, room), PhaseOf(s, g).pending)))
  }

  ghost predicate Inv(s: State) {
    LockInv(s) && (forall g :: NamedJob(PhaseOf(s, g))) && (forall room :: Settles(s, room))
  }

  lemma WorkAgrees(r: Roster, c: Clients, job: Visit)
    requires Agree(r, c) && (job.Joins? ==> job.m.userID != "")
    ensures Agree(Work(r, job).0, DeliverAll(c, Work(r, job).1))
  {
    match job {
      case Joins(m) => JoinAgrees(r, c, m);
      case Leaves(socketID) => LeaveAgrees(r, c, socketID);
    }
  }

  /** A goroutine entering a room finds nobody emitting there. */
  lemma EntersQuiet(s: State, g: Goroutine)
    requires LockInv(s) && PhaseOf(s, g).Entered?
    ensures Quiet(s, PhaseOf(s, g).room)
  {
    forall h | PhaseOf(s, h).Emitting? ensures PhaseOf(s, h).room != PhaseOf(s, g).room {
      assert Shared(s, g) && Shared(s, h);
    }
  }

  lemma StaysQuiet(s: State, s': State, g: Goroutine, room: string)
    requires Quiet(s', room) && s'.phases == s.phases[g := PhaseOf(s', g)]
    requires PhaseOf(s, g).Emitting? ==> PhaseOf(s, g).room != room
    ensures Quiet(s, room)
  {
    forall h | PhaseOf(s, h).Emitting? ensures PhaseOf(s, h).room != room {
      if h != g { assert PhaseOf(s', h) == PhaseOf(s, h); }
    }
  }

  lemma JobsStayNamed(s: State, s': State, g: Goroutine)
    requires s'.phases == s.phases[g := PhaseOf(s', g)] && NamedJob(PhaseOf(s', g))
    requires forall h :: NamedJob(PhaseOf(s, h))
    ensures forall h :: NamedJob(PhaseOf(s', h))
  {
    forall h ensures NamedJob(PhaseOf(s', h)) { assert NamedJob(PhaseOf(s, h)); }
  }

  /** A step of a goroutine that is not emitting in a room leaves that room as it was. */
  lemma ElsewhereSettles(s: State, s': State, g: Goroutine, room: string)
    requires Settles(s, room) && s'.phases == s.phases[g := PhaseOf(s', g)]
    requires PhaseOf(s, g).Emitting? ==> PhaseOf(s, g).room != room
    requires PhaseOf(s', g).Emitting? ==> PhaseOf(s', g).room != room
    requires RosterIn(s', room) == RosterIn(s, room) && ClientsIn(s', room) == ClientsIn(s, room)
    ensures Settles(s', room)
  {
    if Quiet(s', room) { StaysQuiet(s, s', g, room); }
    forall h | PhaseOf(s', h).Emitting? && PhaseOf(s', h).room == room
      ensures Agree(RosterIn(s', room), DeliverAll(ClientsIn(s', room), PhaseOf(s', h).pending))
    {
      assert PhaseOf(s', h) == PhaseOf(s, h);
    }
  }

  /** The room a goroutine mutates: right once the emits of its work are out. */
  lemma HomeSettles(s: State, g: Goroutine)
    requires Inv(s) && PhaseOf(s, g).Entered?
    ensures Settles(MoveStep(s, Mutate(g)), PhaseOf(s, g).room)
  {
    var p, s' := PhaseOf(s, g), MoveStep(s, Mutate(g));
    KeepsLocks(s, Mutate(g));
    EntersQuiet(s, g);
    assert Settles(s, p.room) && NamedJob(p);
    WorkAgrees(RosterIn(s, p.room), ClientsIn(s, p.room), p.job);
    OnlyEmitter(s', g);
  }

  lemma MutateSettles(s: State, g: Goroutine)
    requires Inv(s) && PhaseOf(s, g).Entered?
    ensures Inv(MoveStep(s, Mutate(g)))
  {
    var p, s' := PhaseOf(s, g), MoveStep(s, Mutate(g));
    KeepsLocks(s, Mutate(g));
    JobsStayNamed(s, s', g);
    HomeSettles(s, g);
    forall room ensures Settles(s', room) {
      assert Settles(s, room);
      if room != p.room { ElsewhereSettles(s, s', g, room); }
    }
  }

  /** Whoever emits in a room is alone in it. */
  lemma OnlyEmitter(s: State, g: Goroutine)
    requires LockInv(s) && PhaseOf(s, g).Emitting?
    ensures !Quiet(s, PhaseOf(s, g).room)
    ensures forall h :: PhaseOf(s, h).Emitting? && PhaseOf(s, h).room == PhaseOf(s, g).room ==> h == g
  {
    forall h | PhaseOf(s, h).Emitting? && PhaseOf(s, h).room == PhaseOf(s, g).room ensures h == g {
      assert Shared(s, g) && Shared(s, h);
    }
  }

  lemma SendSettles(s: State, g: Goroutine)
    requires Inv(s) && PhaseOf(s, g).Emitting? && PhaseOf(s, g).pending != []
    ensures Inv(MoveStep(s, Send(g)))
  {
    var p, s' := PhaseOf(s, g), MoveStep(s, Send(g));
    KeepsLocks(s, Send(g));
    JobsStayNamed(s, s', g);
    assert Settles(s, p.room);
    forall room ensures Settles(s', room) {
      assert Settles(s, room);
      if room == p.room { OnlyEmitter(s', g); } else { ElsewhereSettles(s, s', g, room); }
    }
  }

  /** The last emit is out: what was to be is. */
  lemma DropSettles(s: State, g: Goroutine)
    requires Inv(s) && PhaseOf(s, g).Emitting? && PhaseOf(s, g).pending == []
    ensures Inv(MoveStep(s, DropReference(g)))
  {
    var p, s' := PhaseOf(s, g), MoveStep(s, DropReference(g));
    KeepsLocks(s, DropReference(g));
    JobsStayNamed(s, s', g);
    OnlyEmitter(s, g);
    forall room ensures Settles(s', room) {
      assert Settles(s, room);
      if room == p.room {
        forall h ensures !(PhaseOf(s', h).Emitting? && PhaseOf(s', h).room == room) {
          if h != g { assert PhaseOf(s', h) == PhaseOf(s, h); }
        }
      } else {
        ElsewhereSettles(s, s', g, room);
      }
    }
  }

  /** Waiting, acquiring and releasing change nobody's beliefs. */
  lemma OtherMovesSettle(s: State, m: Move)
    requires Inv(s) && (m.Lock? || m.Acquire? || m.Unlock?) && (m.Lock? && m.job.Joins? ==> m.job.m.userID != "")
    ensures Inv(MoveStep(s, m))
  {
    var s' := MoveStep(s, m);
    KeepsLocks(s, m);
    if s' != s {
      assert NamedJob(PhaseOf(s, m.g));
      JobsStayNamed(s, s', m.g);
      forall room ensures Settles(s', room) {
        assert Settles(s, room);
        ElsewhereSettles(s, s', m.g, room);
      }
    }
  }

  ghost predicate NamedMoves(ms: seq<Move>) {
    forall i :: 0 <= i < |ms| && ms[i].Lock? && ms[i].job.Joins? ==> ms[i].job.m.userID != ""
  }

  lemma {:induction false} Reachable(ms: seq<Move>)
    requires NamedMoves(ms)
    ensures Inv(Run(ms))
  {
    if ms == [] {
    } else {
      var before, m := ms[..|ms| - 1], ms[|ms| - 1];
      Reachable(before);
      var s := Run(before);
      if m.Mutate? && PhaseOf(s, m.g).Entered? { MutateSettles(s, m.g); }
      else if m.Send? && PhaseOf(s, m.g).Emitting? && PhaseOf(s, m.g).pending != [] { SendSettles(s, m.g); }
      else if m.DropReference? && PhaseOf(s, m.g).Emitting? && PhaseOf(s, m.g).pending == [] { DropSettles(s, m.g); }
      else if m.Lock? || m.Acquire? || m.Unlock? { OtherMovesSettle(s, m); }
    }
  }

  /**
   However the goroutines interleave, whenever nobody is between a room's mutation and its last
   emit, every member of the room has the current roster, and the sockets told to sync are the
   syncer's. While somebody is, that holds again after the emits that one still has to send.
   */
  lemma {:induction false} QuietRoomAgrees(ms: seq<Move>, room: string)
    requires NamedMoves(ms)
    ensures var s := Run(ms);
      && (Quiet(s, room) ==> Agree(RosterIn(s, room), ClientsIn(s, room)))
      && (forall g :: PhaseOf(s, g).Emitting? && PhaseOf(s, g).room == room ==>
            Agree(RosterIn(s, room), DeliverAll(ClientsIn(s, room), PhaseOf(s, g).pending)))
  {
    Reachable(ms);
    assert Settles(Run(ms), room);
  }

  // ------------------------------------------------------------- the lock map

  /** One room's entry: a mutex and the count of callers that hold or await it. */
  class RefcountedMutex {
    var refs: nat
    var locked: bool

    constructor ()
      ensures refs == 0 && !locked
    {
      refs, locked := 0, false;
    }
  }

  /** The map, changed in place; each method is one of the steps above. */
  class RoomEmitLocks {
    var locks: map<string, RefcountedMutex>
    /** Every entry ever made, in the map or not. */
    ghost var made: set<RefcountedMutex>

    ghost predicate Valid()
      reads this
    {
      locks.Values <= made
    }

    ghost function Model(): Book<RefcountedMutex>
      reads this, made
    {
      Book(locks, map e | e in made :: e.refs)
    }

    constructor ()
      ensures Valid() && Model() == Book(map[], map[])
    {
      locks, made := map[], {};
    }

    /** lock's section under the map's mutex. */
    method ReferTo(roomID: string) returns (entry: RefcountedMutex)
      requires Valid()
      modifies this, made
      ensures Valid() && (Model(), entry) == Refer(old(Model()), roomID, entry)
      ensures roomID in old(locks) <==> entry in old(made)
      ensures if entry in old(made) then made == old(made) && entry.locked == old(entry.locked)
              else fresh(entry) && made == old(made) + {entry} && !entry.locked
    {
      if roomID in locks {
        entry := locks[roomID];
        assert entry in locks.Values;
      } else {
        entry := new RefcountedMutex();
        made := made + {entry};
        locks := locks[roomID := entry];
      }
      entry.refs := entry.refs + 1;
      assert Model().refs == Refer(old(Model()), roomID, entry).0.refs;
      assert Model().locks == Refer(old(Model()), roomID, entry).0.locks;
    }

    /** Locking an entry's own mutex, once it is free. */
    method AcquireEntry(entry: RefcountedMutex)
      requires !entry.locked
      modifies entry`locked
      ensures entry.locked
    {
      entry.locked := true;
    }

    /** Unlock's section under the map's mutex. */
    method DropReferenceTo(roomID: string, entry: RefcountedMutex)
      requires Valid() && entry in made && entry.refs > 0
      modifies this`locks, entry`refs
      ensures Valid() && Model() == Drop(old(Model()), roomID, entry)
    {
      entry.refs := entry.refs - 1;
      if entry.refs == 0 {
        if roomID in locks && locks[roomID] == entry {
          locks := locks - {roomID};
        }
      }
    }

    method ReleaseEntry(entry: RefcountedMutex)
      requires entry.locked
      modifies entry`locked
      ensures !entry.locked
    {
      entry.locked := false;
    }
  }

  // --------------------------------------------------- handlers under the lock

  /** A goroutine that finds a room's lock free, or makes it, runs its handler inside it. */
  class Server {
    const handlers: Handlers
    const locks: RoomEmitLocks

    constructor (handlers: Handlers, locks: RoomEmitLocks)
      ensures this.handlers == handlers && this.locks == locks
    {
      this.handlers, this.locks := handlers, locks;
    }

    /** Nobody is inside the room, and its entry, if it has one, is awaited. */
    ghost predicate Free(roomID: string)
      reads locks, locks.made
    {
      locks.Valid() && (roomID in locks.locks ==>
        locks.locks[roomID] in locks.made && !locks.locks[roomID].locked && locks.locks[roomID].refs > 0)
    }

    /** The lock of a free room, taken. */
    method Lock(roomID: string) returns (entry: RefcountedMutex)
      requires Free(roomID)
      modifies locks, locks.made
      ensures locks.Valid() && entry in locks.made && entry.locked && entry.refs > 0
      ensures old(locks.made) <= locks.made && (entry in old(locks.made) || fresh(entry))
      ensures locks.Model() == Refer(old(locks.Model()), roomID, entry).0
      ensures entry == Refer(old(locks.Model()), roomID, entry).1
    {
      entry := locks.ReferTo(roomID);
      assert entry.refs == locks.Model().refs[entry];
      locks.AcquireEntry(entry);
    }

    /** And given back: the map is as it was before this goroutine came. */
    method Unlock(roomID: string, entry: RefcountedMutex)
      requires locks.Valid() && entry in locks.made && entry.locked && entry.refs > 0
      modifies locks`locks, entry
      ensures locks.Valid() && !entry.locked && locks.Model() == Drop(old(locks.Model()), roomID, entry)
    {
      locks.DropReferenceTo(roomID, entry);
      locks.ReleaseEntry(entry);
    }

    method JoinRoom(roomID: string, m: Member, connected: bool) returns (emits: seq<Emit>, onJoin: bool)
      requires Free(roomID) && handlers.registry.Valid()
      modifies handlers, handlers.registry, locks, locks.made
      ensures locks.Valid() && locks.locks == old(locks.locks) && handlers.registry.Valid()
      ensures connected ==>
        var (r', added, isSyncer) := JoinRoster(old(handlers.registry.RosterOf(roomID)), m);
        && handlers.registry.RosterOf(roomID) == r' && emits == JoinEmits(r', m, added, isSyncer) && onJoin == added
      ensures !connected ==> emits == [] && !onJoin
    {
      var entry := Lock(roomID);
      emits, onJoin := handlers.OnJoinRoom(roomID, m, connected);
      Unlock(roomID, entry);
    }

    method Disconnecting(socketID: string) returns (emits: seq<Emit>, onLeave: Option<bool>)
      requires handlers.registry.Valid() && (socketID in handlers.roomOf ==> Free(handlers.roomOf[socketID]))
      modifies handlers.registry, locks, locks.made
      ensures locks.locks == old(locks.locks) && handlers.registry.Valid()
      ensures socketID !in handlers.roomOf ==> emits == [] && onLeave.None?
      ensures socketID in handlers.roomOf ==>
        var (r', outcome) := LeaveRoster(old(handlers.registry.RosterOf(handlers.roomOf[socketID])), socketID);
        && handlers.registry.RosterOf(handlers.roomOf[socketID]) == r' && emits == LeaveEmits(r', outcome)
        && onLeave == Some(r'.members == [])
    {
      if socketID !in handlers.roomOf { return [], None; }
      var roomID := handlers.roomOf[socketID];
      var entry := Lock(roomID);
      emits, onLeave := handlers.OnDisconnecting(socketID);
      Unlock(roomID, entry);
    }
  }
}
