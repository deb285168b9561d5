/**
 The manager's two indexes over its rooms: by WOPISrc spelling and by file id.

 `Index` is their value, over any type of room identity. Class `Manager` changes them in place,
 with the room objects themselves as identities, and is proved against it. The theorems say
 which calls keep the two indexes consistent, exactly.
 */
module RoomIndex {
  import opened Basics
  import opened RoomModel
  import opened RoomObject
  import Replicas

  /** A room record's own wopiSrcs and fileID fields. */
  datatype Keys = Keys(srcs: set<string>, file: string)

  /** `keys[r]` is what record r says of itself, indexed or not. */
  datatype Index<R(==)> = Index(rooms: map<string, R>, byFileID: map<string, R>, keys: map<R, Keys>)

  function KeysOf<R(==)>(ix: Index<R>, r: R): Keys {
    if r in ix.keys then ix.keys[r] else Keys({}, "")
  }

  /** The room `src` is served by; `blank` is the room record made when there is none. */
  function RoomFor<R(==)>(ix: Index<R>, src: string, fileID: string, blank: R): R {
    if src in ix.rooms then ix.rooms[src]
    else if fileID != "" && fileID in ix.byFileID then ix.byFileID[fileID]
    else blank
  }

  /** roomLocked: find or make the room, and record a known file id on it. */
  function Located<R(==)>(ix: Index<R>, src: string, fileID: string, blank: R): Index<R> {
    var r := RoomFor(ix, src, fileID, blank);
    var k := KeysOf(ix, r);
    Index(ix.rooms[src := r],
          if fileID != "" then ix.byFileID[fileID := r] else ix.byFileID,
          ix.keys[r := Keys(if src in ix.rooms then k.srcs else k.srcs + {src},
                            if fileID != "" then fileID else k.file)])
  }

  /** deleteRoomLocked. */
  function Delete<R(==)>(ix: Index<R>, r: R): Index<R> {
    var k := KeysOf(ix, r);
    ix.(rooms := ix.rooms - k.srcs,
        byFileID := if k.file != "" && k.file in ix.byFileID && ix.byFileID[k.file] == r then ix.byFileID - {k.file}
                    else ix.byFileID)
  }

  /** An indexed spelling leads to its file's room, and that room knows the spelling. */
  ghost predicate SpellingFound<R>(fileOf: string -> string, ix: Index<R>, src: string) {
    src in ix.rooms ==>
      fileOf(src) in ix.byFileID && ix.byFileID[fileOf(src)] == ix.rooms[src] && src in KeysOf(ix, ix.rooms[src]).srcs
  }

  /** A room found by file id is found under each of its spellings, and has one. */
  ghost predicate FileFound<R>(ix: Index<R>, f: string) {
    f in ix.byFileID ==>
      var k := KeysOf(ix, ix.byFileID[f]);
      && k.file == f != "" && k.srcs != {}
      && forall src :: src in k.srcs ==> src in ix.rooms && ix.rooms[src] == ix.byFileID[f]
  }

  /** One room per file, and the two indexes agree on it. */
  ghost predicate Consistent<R>(fileOf: string -> string, ix: Index<R>) {
    (forall src :: SpellingFound(fileOf, ix, src)) && (forall f :: FileFound(ix, f))
  }

  /** What reaches the indexes: an authenticated request, a posted scene, the removal of a room. */
  datatype Op<R> = Observed(src: string, blank: R) | Posted(src: string, blank: R) | Dropped(r: R)

  function Apply<R(==)>(fileOf: string -> string, ix: Index<R>, op: Op<R>): Index<R> {
    match op
    case Observed(src, blank) => Located(ix, src, fileOf(src), blank)
    case Posted(src, blank) => Located(ix, src, "", blank)
    case Dropped(r) => Delete(ix, r)
  }

  ghost predicate Indexed<R>(ix: Index<R>, r: R) {
    KeysOf(ix, r).file in ix.byFileID && ix.byFileID[KeysOf(ix, r).file] == r
  }

  /** A new room record is new, a scene is posted under an observed WOPISrc, a removed room was indexed. */
  ghost predicate Allowed<R>(fileOf: string -> string, ix: Index<R>, op: Op<R>) {
    match op
    case Observed(src, blank) => fileOf(src) != "" && blank !in ix.keys
    case Posted(src, _) => src in ix.rooms
    case Dropped(r) => Indexed(ix, r)
  }

  ghost function Run<R>(fileOf: string -> string, ops: seq<Op<R>>): Index<R> {
    if ops == [] then Index(map[], map[], map[])
    else Apply(fileOf, Run(fileOf, ops[..|ops| - 1]), ops[|ops| - 1])
  }

  ghost predicate AllAllowed<R>(fileOf: string -> string, ops: seq<Op<R>>) {
    ops != [] ==>
      && AllAllowed(fileOf, ops[..|ops| - 1])
      && Allowed(fileOf, Run(fileOf, ops[..|ops| - 1]), ops[|ops| - 1])
  }

  // ------------------------------------------------------------ single calls

  /** A record that is not in the books is not in the indexes. */
  lemma BlankUnindexed<R>(fileOf: string -> string, ix: Index<R>, blank: R)
    requires Consistent(fileOf, ix) && blank !in ix.keys
    ensures forall f :: f in ix.byFileID ==> ix.byFileID[f] != blank
    ensures forall src :: src in ix.rooms ==> ix.rooms[src] != blank
  {
    forall f | f in ix.byFileID ensures ix.byFileID[f] != blank { assert FileFound(ix, f); }
    forall src | src in ix.rooms ensures ix.rooms[src] != blank { assert SpellingFound(fileOf, ix, src); }
  }

  /** The room an observation finds is the one its file already has, if it has one. */
  lemma ObservedRoom<R>(fileOf: string -> string, ix: Index<R>, src: string, blank: R)
    requires Consistent(fileOf, ix) && Allowed(fileOf, ix, Observed(src, blank))
    ensures var r := RoomFor(ix, src, fileOf(src), blank); var f := fileOf(src);
      && (if f in ix.byFileID then r == ix.byFileID[f] else r == blank)
      && (forall g :: g in ix.byFileID && ix.byFileID[g] == r ==> g == f)
      && (r in ix.keys && r != blank ==> KeysOf(ix, r).file == f)
  {
    assert SpellingFound(fileOf, ix, src) && FileFound(ix, fileOf(src));
    BlankUnindexed(fileOf, ix, blank);
    forall g | g in ix.byFileID && ix.byFileID[g] == RoomFor(ix, src, fileOf(src), blank) ensures g == fileOf(src) {
      assert FileFound(ix, g);
    }
  }

  lemma ObserveKeeps<R>(fileOf: string -> string, ix: Index<R>, src: string, blank: R)
    requires Consistent(fileOf, ix) && Allowed(fileOf, ix, Observed(src, blank))
    ensures Consistent(fileOf, Located(ix, src, fileOf(src), blank))
  {
    var after := Located(ix, src, fileOf(src), blank);
    ObservedRoom(fileOf, ix, src, blank);
    assert SpellingFound(fileOf, ix, src) && FileFound(ix, fileOf(src));
    forall s ensures SpellingFound(fileOf, after, s) { assert SpellingFound(fileOf, ix, s); }
    forall f ensures FileFound(after, f) { assert FileFound(ix, f); }
  }

  /** Posting a scene keeps the indexes consistent exactly when its WOPISrc was indexed before. */
  lemma PostKeepsIffObserved<R>(fileOf: string -> string, ix: Index<R>, src: string, blank: R)
    requires Consistent(fileOf, ix) && blank !in ix.keys
    ensures Consistent(fileOf, Apply(fileOf, ix, Posted(src, blank))) <==> src in ix.rooms
  {
    var after := Apply(fileOf, ix, Posted(src, blank));
    BlankUnindexed(fileOf, ix, blank);
    if src in ix.rooms {
      assert SpellingFound(fileOf, ix, src);
      assert KeysOf(ix, ix.rooms[src]) == KeysOf(after, ix.rooms[src]);
      forall s ensures SpellingFound(fileOf, after, s) { assert SpellingFound(fileOf, ix, s); }
      forall f ensures FileFound(after, f) { assert FileFound(ix, f); }
    } else {
      assert !SpellingFound(fileOf, after, src);
    }
  }

  /** Removing a room keeps the indexes consistent exactly when none of its spellings leads elsewhere by now. */
  lemma DropKeepsIffOwnKeys<R>(fileOf: string -> string, ix: Index<R>, r: R)
    requires Consistent(fileOf, ix)
    ensures Consistent(fileOf, Delete(ix, r)) <==>
      forall src :: src in KeysOf(ix, r).srcs && src in ix.rooms ==> ix.rooms[src] == r
  {
    var after := Delete(ix, r);
    if src :| src in KeysOf(ix, r).srcs && src in ix.rooms && ix.rooms[src] != r {
      assert SpellingFound(fileOf, ix, src);
      assert !FileFound(after, fileOf(src));
    } else {
      forall s ensures SpellingFound(fileOf, after, s) {
        assert SpellingFound(fileOf, ix, s) && FileFound(ix, fileOf(s)) && FileFound(ix, KeysOf(ix, r).file);
      }
      forall f ensures FileFound(after, f) { assert FileFound(ix, f); }
    }
  }

  /** The removal of an indexed room takes exactly that room's keys. */
  lemma DropTakesExactlyItsKeys<R>(fileOf: string -> string, ix: Index<R>, r: R)
    requires Consistent(fileOf, ix) && Indexed(ix, r)
    ensures var after := Delete(ix, r);
      && (forall src :: src in after.rooms <==> src in ix.rooms && ix.rooms[src] != r)
      && (forall src :: src in after.rooms ==> after.rooms[src] == ix.rooms[src])
      && (forall f :: f in after.byFileID <==> f in ix.byFileID && ix.byFileID[f] != r)
      && (forall f :: f in after.byFileID ==> after.byFileID[f] == ix.byFileID[f])
  {
    assert FileFound(ix, KeysOf(ix, r).file);
    forall src | src in ix.rooms ensures src in KeysOf(ix, r).srcs <==> ix.rooms[src] == r {
      assert SpellingFound(fileOf, ix, src);
    }
    forall f | f in ix.byFileID ensures ix.byFileID[f] == r <==> f == KeysOf(ix, r).file {
      assert FileFound(ix, f);
    }
  }

  // ----------------------------------------------------------------- all runs

  lemma {:induction false} StaysConsistent<R>(fileOf: string -> string, ops: seq<Op<R>>)
    requires AllAllowed(fileOf, ops)
    ensures Consistent(fileOf, Run(fileOf, ops))
  {
    if ops != [] {
      var ix := Run(fileOf, ops[..|ops| - 1]);
      var op := ops[|ops| - 1];
      StaysConsistent(fileOf, ops[..|ops| - 1]);
      match op {
        case Observed(src, blank) => ObserveKeeps(fileOf, ix, src, blank);
        case Posted(src, blank) => PostToIndexed(fileOf, ix, src, blank);
        case Dropped(r) =>
          assert FileFound(ix, KeysOf(ix, r).file);
          DropKeepsIffOwnKeys(fileOf, ix, r);
      }
    } else {
      assert forall src :: SpellingFound(fileOf, Run(fileOf, ops), src);
    }
  }

  lemma PostToIndexed<R>(fileOf: string -> string, ix: Index<R>, src: string, blank: R)
    requires Consistent(fileOf, ix) && src in ix.rooms
    ensures Located(ix, src, "", blank) == ix
  {
    assert SpellingFound(fileOf, ix, src);
    var r := ix.rooms[src];
    assert ix.rooms[src := r] == ix.rooms && ix.keys[r := ix.keys[r]] == ix.keys;
  }

  /** The room file `f` has by the history alone: the first one made for it since its last one was removed. */
  function RoomOf<R(==)>(fileOf: string -> string, ops: seq<Op<R>>, f: string): Option<R> {
    if ops == [] then None
    else
      var had := RoomOf(fileOf, ops[..|ops| - 1], f);
      match ops[|ops| - 1]
      case Observed(src, blank) => if fileOf(src) == f && had.None? then Some(blank) else had
      case Posted(_, _) => had
      case Dropped(r) => if had == Some(r) then None else had
  }

  /** The spelling was observed, and the room its file then had was not removed since. */
  predicate InUse<R(==)>(fileOf: string -> string, ops: seq<Op<R>>, src: string) {
    if ops == [] then false
    else
      var before := ops[..|ops| - 1];
      match ops[|ops| - 1]
      case Observed(observed, _) => observed == src || InUse(fileOf, before, src)
      case Posted(_, _) => InUse(fileOf, before, src)
      case Dropped(r) => InUse(fileOf, before, src) && RoomOf(fileOf, before, fileOf(src)) != Some(r)
  }

  /** The indexes hold exactly what the history says. */
  ghost predicate Exact<R>(fileOf: string -> string, ops: seq<Op<R>>, ix: Index<R>, src: string, f: string) {
    && (src in ix.rooms <==> InUse(fileOf, ops, src))
    && (src in ix.rooms ==> RoomOf(fileOf, ops, fileOf(src)) == Some(ix.rooms[src]))
    && RoomOf(fileOf, ops, f) == if f in ix.byFileID then Some(ix.byFileID[f]) else None
  }

  lemma {:induction false} StaysExact<R>(fileOf: string -> string, ops: seq<Op<R>>, src: string, f: string)
    requires AllAllowed(fileOf, ops)
    ensures Exact(fileOf, ops, Run(fileOf, ops), src, f)
  {
    if ops == [] {
    } else {
      var before := ops[..|ops| - 1];
      var ix := Run(fileOf, before);
      StaysConsistent(fileOf, before);
      StaysExact(fileOf, before, src, f);
      StaysExact(fileOf, before, src, fileOf(src));
      assert SpellingFound(fileOf, ix, src);
      match ops[|ops| - 1] {
        case Observed(s, blank) => ObservedRoom(fileOf, ix, s, blank); assert SpellingFound(fileOf, ix, s);
        case Posted(s, blank) => PostToIndexed(fileOf, ix, s, blank);
        case Dropped(r) => DropTakesExactlyItsKeys(fileOf, ix, r);
      }
    }
  }

  /**
   With a file id that is a function of the WOPISrc, one file has one room, under exactly those
   spellings of it that were observed and whose room was not removed since: the first one made for
   the file since its last one was removed. Relay joins and leaves reach that room.
   */
  lemma OneRoomPerFile<R>(fileOf: string -> string, ops: seq<Op<R>>, src: string, other: string)
    requires AllAllowed(fileOf, ops)
    ensures var ix := Run(fileOf, ops);
      && (src in ix.rooms <==> InUse(fileOf, ops, src))
      && (src in ix.rooms ==> RoomOf(fileOf, ops, fileOf(src)) == Some(ix.rooms[src]))
      && (src in ix.rooms && other in ix.rooms ==>
            && (ix.rooms[src] == ix.rooms[other] <==> fileOf(src) == fileOf(other))
            && fileOf(src) in ix.byFileID && ix.byFileID[fileOf(src)] == ix.rooms[src])
  {
    StaysConsistent(fileOf, ops);
    StaysExact(fileOf, ops, src, "");
    var ix := Run(fileOf, ops);
    assert SpellingFound(fileOf, ix, src) && SpellingFound(fileOf, ix, other);
    assert FileFound(ix, fileOf(src)) && FileFound(ix, fileOf(other));
  }

  lemma RunSnoc<R>(fileOf: string -> string, ops: seq<Op<R>>, op: Op<R>)
    ensures Run(fileOf, ops + [op]) == Apply(fileOf, Run(fileOf, ops), op)
  {
    assert (ops + [op])[..|ops|] == ops;
  }

  /**
   Without the rule on posts a zombie appears: a scene posted under an unobserved alias makes a
   second room, and observing that alias moves the file id onto it, so no relay event reaches the
   first room, which is still indexed by its WOPISrc.
   */
  lemma UnobservedPostMakesZombie<R>(fileOf: string -> string, a: string, b: string, r1: R, r2: R)
    requires a != b && fileOf(a) == fileOf(b) != "" && r1 != r2
    ensures var ix := Run(fileOf, [] + [Observed(a, r1)] + [Posted(b, r2)] + [Observed(b, r2)]);
      a in ix.rooms && ix.rooms[a] == r1 && forall f :: f in ix.byFileID ==> ix.byFileID[f] != r1
  {
    var none: seq<Op<R>> := [];
    RunSnoc(fileOf, none, Observed(a, r1));
    RunSnoc(fileOf, none + [Observed(a, r1)], Posted(b, r2));
    RunSnoc(fileOf, none + [Observed(a, r1)] + [Posted(b, r2)], Observed(b, r2));
  }

  /**
   Without the rule on removals a second removal of the same record, after its file was observed
   again, takes the new room's key: that room stays reachable by file id but not by WOPISrc.
   */
  lemma SecondDropTakesAnothersKey<R>(fileOf: string -> string, a: string, r1: R, r2: R)
    requires fileOf(a) != "" && r1 != r2
    ensures var ix := Run(fileOf, [] + [Observed(a, r1)] + [Dropped(r1)] + [Observed(a, r2)] + [Dropped(r1)]);
      fileOf(a) in ix.byFileID && ix.byFileID[fileOf(a)] == r2 && a !in ix.rooms
  {
    var none: seq<Op<R>> := [];
    var o1 := none + [Observed(a, r1)];
    RunSnoc(fileOf, none, Observed(a, r1));
    RunSnoc(fileOf, o1, Dropped(r1));
    RunSnoc(fileOf, o1 + [Dropped(r1)], Observed(a, r2));
    RunSnoc(fileOf, o1 + [Dropped(r1)] + [Observed(a, r2)], Dropped(r1));
    var dropped := Run(fileOf, o1 + [Dropped(r1)]);
    assert dropped.rooms == map[] && dropped.byFileID == map[];
  }

  // --------------------------------------------------------------- the manager

  datatype PutResult = Stored | SceneTooLarge

  class Manager {
    const maxSceneBytes: int
    const digest: string -> string
    var rooms: map<string, RoomState>
    var byFileID: map<string, RoomState>
    /** Every room record this manager made, indexed or not. */
    ghost var made: set<RoomState>

    ghost predicate Valid()
      reads this
    {
      rooms.Values <= made && byFileID.Values <= made
    }

    ghost function Model(): Index<RoomState>
      reads this, made
    {
      Index(rooms, byFileID, map r | r in made :: Keys(r.wopiSrcs, r.fileID))
    }

    constructor (maxSceneBytes: int, digest: string -> string)
      ensures Valid() && made == {} && Model() == Index(map[], map[], map[])
    {
      this.maxSceneBytes, this.digest := maxSceneBytes, digest;
      rooms, byFileID, made := map[], map[], {};
    }

    /** roomLocked up to the file id: the spelling's room, an alias's, or a new one. */
    method FindOrMake(src: string, fileID: string) returns (rs: RoomState)
      requires Valid()
      modifies this, made
      ensures Valid() && rs in made && made == old(made) + {rs} && (rs in old(made) || fresh(rs))
      ensures rs == RoomFor(old(Model()), src, fileID, rs) && Model() == Located(old(Model()), src, "", rs)
      ensures rs.Model() == if rs in old(made) then old(rs.Model()) else FRESH
      ensures forall r :: r in old(made) && r != rs ==> unchanged(r)
    {
      if src in rooms {
        rs := rooms[src];
        assert rs in rooms.Values;
        assert rooms[src := rs] == rooms;
      } else {
        if fileID != "" && fileID in byFileID {
          rs := byFileID[fileID];
          assert rs in byFileID.Values;
        } else {
          rs := new RoomState();
          made := made + {rs};
        }
        rs.wopiSrcs := rs.wopiSrcs + {src};
        rooms := rooms[src := rs];
      }
    }

    method RoomLocked(src: string, fileID: string) returns (rs: RoomState)
      requires Valid()
      modifies this, made
      ensures Valid() && rs in made && made == old(made) + {rs} && (rs in old(made) || fresh(rs))
      ensures rs == RoomFor(old(Model()), src, fileID, rs) && Model() == Located(old(Model()), src, fileID, rs)
      ensures var r := if rs in old(made) then old(rs.Model()) else FRESH;
        rs.Model() ==
          if fileID == "" then r else r.(lock := r.lock.(lockValue := Replicas.LockValueFor(digest, fileID)))
      ensures forall r :: r in old(made) && r != rs ==> unchanged(r)
    {
      rs := FindOrMake(src, fileID);
      if fileID != "" { RecordFile(rs, fileID); }
    }

    /** The known file id, recorded on the room and in the index, and the lock value it gives. */
    method RecordFile(rs: RoomState, fileID: string)
      requires Valid() && rs in made
      modifies this`byFileID, rs`fileID, rs`lock
      ensures Valid() && rs.fileID == fileID && byFileID == old(byFileID)[fileID := rs]
      ensures rs.lock == old(rs.lock).(lockValue := Replicas.LockValueFor(digest, fileID))
    {
      rs.fileID := fileID;
      rs.lock := rs.lock.(lockValue := Replicas.LockValueFor(digest, fileID));
      byFileID := byFileID[fileID := rs];
    }

    method DeleteRoomLocked(rs: RoomState)
      requires Valid() && rs in made
      modifies `rooms, `byFileID
      ensures Valid() && Model() == Delete(old(Model()), rs)
    {
      var todo := rs.wopiSrcs;
      while todo != {}
        invariant todo <= rs.wopiSrcs
        invariant rooms == old(rooms) - (rs.wopiSrcs - todo) && byFileID == old(byFileID)
        decreases |todo|
      {
        var src :| src in todo;
        rooms := rooms - {src};
        todo := todo - {src};
      }
      assert rs.wopiSrcs - todo == rs.wopiSrcs;
      if rs.fileID != "" && rs.fileID in byFileID && byFileID[rs.fileID] == rs {
        byFileID := byFileID - {rs.fileID};
      }
    }

    // -------------------------------------------------------- entry points

    /** PutScene, with the instant it read the clock: a scene over the cap is refused and changes nothing. */
    method PutScene(at: Time, src: string, data: Bytes, user: string)
      returns (result: PutResult, ghost rs: Option<RoomState>)
      requires Valid()
      modifies this, made
      ensures Valid() && old(made) <= made
      ensures result.SceneTooLarge? <==> maxSceneBytes > 0 && |data| > maxSceneBytes
      ensures result.SceneTooLarge? ==> unchanged(this) && (forall r :: r in made ==> unchanged(r))
      ensures result.Stored? ==>
        && rs.Some? && rs.value in made && Model() == Located(old(Model()), src, "", rs.value)
        && (var r := if rs.value in old(made) then old(rs.value.Model()) else FRESH;
            rs.value.Model() == r.(doc := RoomModel.PutScene(r.doc, at, data, user)))
        && (forall r :: r in old(made) && r != rs.value ==> unchanged(r))
    {
      if maxSceneBytes > 0 && |data| > maxSceneBytes { return SceneTooLarge, None; }
      var room := RoomLocked(src, "");
      room.PutScene(at, data, user);
      result, rs := Stored, Some(room);
    }

    method Observe(now: Time, src: string, fileID: string, user: string, info: TokenInfo) returns (ghost rs: RoomState)
      requires Valid()
      modifies this, made
      ensures Valid() && rs in made && Model() == Located(old(Model()), src, fileID, rs)
      ensures rs.Model() == RoomModel.Observe(
        if rs in old(made) then old(rs.Model()) else FRESH, now,
        rs.lock.lockValue, user, info)
      ensures fileID != "" ==> rs.lock.lockValue == Replicas.LockValueFor(digest, fileID)
      ensures forall r :: r in old(made) && r != rs ==> unchanged(r)
    {
      var room := RoomLocked(src, fileID);
      room.Observe(now, room.lock.lockValue, user, info);
      rs := room;
    }

    /** GetScene: nothing for an unknown WOPISrc or a room without a retained scene. */
    method GetScene(src: string) returns (scene: Option<Bytes>)
      ensures scene == if src in rooms then rooms[src].doc.scene else None
    {
      if src !in rooms { return None; }
      scene := rooms[src].doc.scene;
    }

    method OnJoin(fileID: string)
      requires Valid()
      modifies made
      ensures fileID in byFileID ==>
        var r := old(byFileID[fileID].Model());
        byFileID[fileID].Model() == r.(life := RoomModel.OnJoin(r.life))
      ensures Model() == old(Model())
      ensures forall r :: r in made && (fileID in byFileID ==> r != byFileID[fileID]) ==> unchanged(r)
    {
      if fileID !in byFileID { return; }
      var rs := byFileID[fileID];
      assert rs in byFileID.Values;
      rs.OnJoin();
    }

    method OnLeave(now: Time, fileID: string, roomEmpty: bool)
      requires Valid()
      modifies made
      ensures fileID in byFileID ==>
        var r := old(byFileID[fileID].Model());
        byFileID[fileID].Model() == r.(life := RoomModel.OnLeave(r.life, now, roomEmpty))
      ensures Model() == old(Model())
      ensures forall r :: r in made && (fileID in byFileID ==> r != byFileID[fileID]) ==> unchanged(r)
    {
      if fileID !in byFileID { return; }
      var rs := byFileID[fileID];
      assert rs in byFileID.Values;
      rs.OnLeave(now, roomEmpty);
    }
  }
}
