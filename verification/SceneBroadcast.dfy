/**
 Broadcasting a scene to the peers, whole the first time and then what changed.

 A sender remembers a hash of the scene it last broadcast and the version marker of each element
 it sent. A peer that stores every received element by its id holds the sender's scene after
 each send; whether it still does after a skipped tick depends on the hash.
 */
module SceneBroadcast {
  import opened Basics
  import opened Scenes

  datatype Marker = Marker(version: int, versionNonce: int)

  function MarkerOf(e: Element): Marker {
    Marker(e.version, e.versionNonce)
  }

  // --------------------------------------------------------------------- hash

  /** How many words of 32 bits there are. */
  const WORDS: nat := 0x1_0000_0000

  /** Bitwise exclusive or. */
  function Xor(a: nat, b: nat): nat
    decreases a + b
  {
    if a == 0 && b == 0 then 0 else 2 * Xor(a / 2, b / 2) + if a % 2 == b % 2 then 0 else 1
  }

  /** Both operands of JavaScript's `^` are taken modulo 2^32; the word is the unsigned one of its result. */
  function Mix(hash: nat, n: int): nat {
    Xor(hash * 33 % WORDS, n % WORDS)
  }

  /** The hash after the loop over `s`, and the deleted elements it met. */
  function Mixed(s: seq<Element>): (nat, nat) {
    if s == [] then (5381, 0)
    else
      var (hash, deleted) := Mixed(s[..|s| - 1]);
      var e := s[|s| - 1];
      var h := Mix(Mix(hash, e.version), e.versionNonce);
      if e.isDeleted then (Mix(h, 1), deleted + 1) else (h, deleted)
  }

  function HashOf(s: seq<Element>): nat {
    if s == [] then 1 else Mix(Mixed(s).0, Mixed(s).1)
  }

  method ComputeElementVersionHash(elements: seq<Element>) returns (h: nat)
    ensures h == HashOf(elements)
  {
    var hash: nat := 5381;
    if |elements| == 0 { return 1; }
    var deletedCount := 0;
    for i := 0 to |elements|
      invariant (hash, deletedCount) == Mixed(elements[..i])
    {
      assert elements[..i + 1][..i] == elements[..i];
      hash := Mix(hash, elements[i].version);
      hash := Mix(hash, elements[i].versionNonce);
      if elements[i].isDeleted {
        deletedCount := deletedCount + 1;
        hash := Mix(hash, 1);
      }
    }
    assert elements[..|elements|] == elements;
    h := Mix(hash, deletedCount);
  }

  // ----------------------------------------------------------------- markers

  type Markers = map<string, Marker>

  /** The markers after every element of `s` has overwritten its id's. */
  function Marked(versions: Markers, s: seq<Element>): Markers {
    if s == [] then versions
    else Marked(versions, s[..|s| - 1])[s[|s| - 1].id := MarkerOf(s[|s| - 1])]
  }

  method BuildBroadcastedElementVersions(elements: seq<Element>) returns (versions: Markers)
    ensures versions == Marked(map[], elements)
  {
    versions := UpdateBroadcastedElementVersions(map[], elements);
  }

  method UpdateBroadcastedElementVersions(current: Markers, elements: seq<Element>) returns (next: Markers)
    ensures next == Marked(current, elements)
  {
    if |elements| == 0 { return current; }
    next := current;
    for i := 0 to |elements|
      invariant next == Marked(current, elements[..i])
    {
      assert elements[..i + 1][..i] == elements[..i];
      next := next[elements[i].id := MarkerOf(elements[i])];
    }
    assert elements[..|elements|] == elements;
  }

  /** The elements whose last broadcast marker is missing or another one. */
  function Incremental(s: seq<Element>, versions: Markers): seq<Element> {
    if s == [] then []
    else
      var e := s[|s| - 1];
      var before := Incremental(s[..|s| - 1], versions);
      if e.id in versions && versions[e.id] == MarkerOf(e) then before else before + [e]
  }

  // ---------------------------------------------------------------- one tick

  datatype Decision =
    | Skip
    | Init(elements: seq<Element>, hash: nat)
    | Update(elements: seq<Element>, hash: nat)

  function Decide(s: seq<Element>, has: bool, lastHash: Option<nat>, versions: Markers): Decision {
    var hash := HashOf(s);
    if !has then Init(s, hash)
    else if lastHash == Some(hash) then Skip
    else
      var changed := Incremental(s, versions);
      if changed == [] then Init(s, hash) else Update(changed, hash)
  }

  /** The three refs of useSync. */
  datatype Sender = Sender(has: bool, lastHash: Option<nat>, versions: Markers)

  const UNSENT: Sender := Sender(false, None, map[])

  /** doSyncViaWebSocket: the refs after it, and the elements it sent. */
  function Tick(r: Sender, s: seq<Element>): (Sender, Option<seq<Element>>) {
    match Decide(s, r.has, r.lastHash, r.versions)
    case Skip => (r, None)
    case Init(elements, hash) => (Sender(true, Some(hash), Marked(map[], s)), Some(elements))
    case Update(elements, hash) => (Sender(r.has, Some(hash), Marked(r.versions, elements)), Some(elements))
  }

  /** doPeriodicFullSceneHealing. */
  function Heal(r: Sender, s: seq<Element>): (Sender, Option<seq<Element>>) {
    if !r.has then (r, None) else (Sender(true, Some(HashOf(s)), Marked(map[], s)), Some(s))
  }

  // ---------------------------------------------------------------- the peer

  /** What a peer holds, by element id. */
  type Peer = map<string, Element>

  function Upsert(p: Peer, s: seq<Element>): Peer {
    if s == [] then p else Upsert(p, s[..|s| - 1])[s[|s| - 1].id := s[|s| - 1]]
  }

  function Receive(p: Peer, sent: Option<seq<Element>>): Peer {
    if sent.Some? then Upsert(p, sent.value) else p
  }

  /** The peer has every element of the scene, at exactly its version. */
  ghost predicate Holds(p: Peer, s: seq<Element>) {
    forall e :: e in s ==> e.id in p && MarkerOf(p[e.id]) == MarkerOf(e)
  }

  /** Every remembered marker is the peer's. */
  ghost predicate Remembers(p: Peer, versions: Markers) {
    forall id :: id in versions ==> id in p && MarkerOf(p[id]) == versions[id]
  }

  lemma {:induction false} MarkedUpserted(p: Peer, versions: Markers, s: seq<Element>)
    requires Remembers(p, versions)
    ensures Remembers(Upsert(p, s), Marked(versions, s))
  {
    if s == [] {
    } else {
      MarkedUpserted(p, versions, s[..|s| - 1]);
    }
  }

  lemma {:induction false} UpsertedHolds(p: Peer, s: seq<Element>)
    requires Distinct(s)
    ensures forall e :: e in s ==> e.id in Upsert(p, s) && Upsert(p, s)[e.id] == e
    ensures forall id :: id !in Ids(s) ==> (id in Upsert(p, s) <==> id in p) && (id in p ==> Upsert(p, s)[id] == p[id])
  {
    if s == [] {
    } else {
      var n := |s| - 1;
      UpsertedHolds(p, s[..n]);
      assert s == s[..n] + [s[n]];
      assert Ids(s) == Ids(s[..n]) + {s[n].id};
    }
  }

  lemma {:induction false} IncrementalMeans(s: seq<Element>, versions: Markers)
    requires Distinct(s)
    ensures var d := Incremental(s, versions);
      && Distinct(d) && (forall e :: e in d <==> e in s && !(e.id in versions && versions[e.id] == MarkerOf(e)))
  {
    if s == [] {
    } else {
      var n := |s| - 1;
      IncrementalMeans(s[..n], versions);
      assert s == s[..n] + [s[n]];
    }
  }

  lemma OneElementPerId(s: seq<Element>, a: Element, b: Element)
    requires Distinct(s) && a in s && b in s && a.id == b.id
    ensures a == b
  {
    var i :| 0 <= i < |s| && s[i] == a;
    var j :| 0 <= j < |s| && s[j] == b;
  }

  /** Sending only what changed leaves the peer with the whole scene. */
  lemma UpdateHolds(p: Peer, versions: Markers, s: seq<Element>)
    requires Distinct(s) && Remembers(p, versions)
    ensures Holds(Upsert(p, Incremental(s, versions)), s)
  {
    var d := Incremental(s, versions);
    IncrementalMeans(s, versions);
    UpsertedHolds(p, d);
    forall e | e in s ensures e.id in Upsert(p, d) && MarkerOf(Upsert(p, d)[e.id]) == MarkerOf(e) {
      if e.id in Ids(d) {
        var x :| x in d && x.id == e.id;
        OneElementPerId(s, e, x);
      }
    }
  }

  // --------------------------------------------------------------------- runs

  datatype Action = Ticks(scene: seq<Element>) | Heals(scene: seq<Element>) | Resets

  /** `last` is the scene of the last send since the last reset. */
  datatype Session = Session(sender: Sender, peer: Peer, last: Option<seq<Element>>)

  function After(x: Session, s: seq<Element>, step: (Sender, Option<seq<Element>>)): Session {
    Session(step.0, Receive(x.peer, step.1), if step.1.Some? then Some(s) else x.last)
  }

  function Act(x: Session, a: Action): Session {
    match a
    case Resets => Session(UNSENT, map[], None)
    case Ticks(s) => After(x, s, Tick(x.sender, s))
    case Heals(s) => After(x, s, Heal(x.sender, s))
  }

  function Sent(x: Session, a: Action): Option<seq<Element>> {
    match a
    case Resets => None
    case Ticks(s) => Tick(x.sender, s).1
    case Heals(s) => Heal(x.sender, s).1
  }

  function Run(actions: seq<Action>): Session {
    if actions == [] then Session(UNSENT, map[], None)
    else Act(Run(actions[..|actions| - 1]), actions[|actions| - 1])
  }

  ghost predicate Proper(a: Action) {
    !a.Resets? ==> Distinct(a.scene)
  }

  ghost predicate Inv(x: Session) {
    && Remembers(x.peer, x.sender.versions)
    && (x.sender.has <==> x.last.Some?)
    && (x.sender.has ==> x.sender.lastHash == Some(HashOf(x.last.value)) && Holds(x.peer, x.last.value))
  }

  lemma FullSendHolds(x: Session, s: seq<Element>)
    requires Distinct(s)
    ensures Inv(Session(Sender(true, Some(HashOf(s)), Marked(map[], s)), Upsert(x.peer, s), Some(s)))
  {
    MarkedUpserted(x.peer, map[], s);
    UpsertedHolds(x.peer, s);
  }

  lemma ActKeeps(x: Session, a: Action)
    requires Inv(x) && Proper(a)
    ensures Inv(Act(x, a))
    ensures Sent(x, a).Some? ==> Holds(Act(x, a).peer, a.scene)
  {
    if !a.Resets? {
      FullSendHolds(x, a.scene);
      var d := Incremental(a.scene, x.sender.versions);
      UpdateHolds(x.peer, x.sender.versions, a.scene);
      MarkedUpserted(x.peer, x.sender.versions, d);
    }
  }

  lemma {:induction false} Reachable(actions: seq<Action>)
    requires forall i :: 0 <= i < |actions| ==> Proper(actions[i])
    ensures Inv(Run(actions))
  {
    if actions == [] {
    } else {
      Reachable(actions[..|actions| - 1]);
      ActKeeps(Run(actions[..|actions| - 1]), actions[|actions| - 1]);
    }
  }

  // ----------------------------------------------------------------- theorems

  /** After every send, whole or incremental, the peer holds every element of the sender's scene. */
  lemma {:induction false} SendsKeepPeersCurrent(actions: seq<Action>, a: Action)
    requires Proper(a) && forall i :: 0 <= i < |actions| ==> Proper(actions[i])
    ensures var x := Run(actions); Sent(x, a).Some? ==> Holds(Act(x, a).peer, a.scene)
  {
    Reachable(actions);
    ActKeeps(Run(actions), a);
  }

  /**
   The first tick and every one with nothing sent yet sends the whole scene, and so does healing from
   then on; no tick sends an empty message for a scene that is not empty.
   */
  lemma {:induction false} SendsWhenItMust(actions: seq<Action>, s: seq<Element>)
    requires forall i :: 0 <= i < |actions| ==> Proper(actions[i])
    ensures var x := Run(actions);
      && (x.last.None? ==> Sent(x, Ticks(s)) == Some(s))
      && Sent(x, Heals(s)) == (if x.last.Some? then Some(s) else None)
      && (Sent(x, Ticks(s)) == Some([]) ==> s == [])
  {
    Reachable(actions);
  }

  /** What the hash is meant to tell apart: the ids and markers, in order. */
  function Signature(s: seq<Element>): seq<(string, Marker)> {
    seq(|s|, i requires 0 <= i < |s| => (s[i].id, MarkerOf(s[i])))
  }

  /** After a skipped tick too, if scenes with equal hashes have equal ids and markers. */
  lemma {:induction false} SkipsKeepPeersCurrent(actions: seq<Action>, s: seq<Element>)
    requires Distinct(s) && forall i :: 0 <= i < |actions| ==> Proper(actions[i])
    requires var last := Run(actions).last;
      last.Some? && HashOf(last.value) == HashOf(s) ==> Signature(last.value) == Signature(s)
    ensures var x := Run(actions); x.sender.has ==> Holds(Act(x, Ticks(s)).peer, s)
  {
    var x := Run(actions);
    Reachable(actions);
    if x.sender.has && x.sender.lastHash == Some(HashOf(s)) {
      var last := x.last.value;
      forall e | e in s ensures e.id in x.peer && MarkerOf(x.peer[e.id]) == MarkerOf(e) {
        var i :| 0 <= i < |s| && s[i] == e;
        assert |last| == |Signature(last)| == |s|;
        assert Signature(last)[i] == Signature(s)[i] == (e.id, MarkerOf(e));
        assert last[i] in last;
      }
    } else {
      ActKeeps(x, Ticks(s));
    }
  }

  // ------------------------------------------------------- what the hash notices

  lemma {:induction false} XorCancels(a: nat, b: nat, c: nat)
    ensures Xor(a, b) == Xor(a, c) <==> b == c
    ensures Xor(b, a) == Xor(c, a) <==> b == c
    decreases a + b + c
  {
    if a == 0 && b == 0 && c == 0 {
    } else {
      XorCancels(a / 2, b / 2, c / 2);
      XorHalves(a, b);
      XorHalves(a, c);
      XorHalves(b, a);
      XorHalves(c, a);
    }
  }

  lemma XorHalves(a: nat, b: nat)
    ensures Xor(a, b) / 2 == Xor(a / 2, b / 2) && (Xor(a, b) % 2 == 0 <==> a % 2 == b % 2)
  {
    if a == 0 && b == 0 { assert Xor(a, b) == 0; }
  }

  function Pow2(k: nat): nat { if k == 0 then 1 else 2 * Pow2(k - 1) }

  lemma {:induction false} XorIsBelow(a: nat, b: nat, k: nat)
    requires a < Pow2(k) && b < Pow2(k)
    ensures Xor(a, b) < Pow2(k)
  {
    if k == 0 {
    } else {
      XorIsBelow(a / 2, b / 2, k - 1);
      XorHalves(a, b);
    }
  }

  lemma MixIsWord(hash: nat, n: int)
    ensures Mix(hash, n) < WORDS
  {
    assert Pow2(8) == 256;
    assert Pow2(16) == 256 * Pow2(8);
    assert Pow2(24) == 256 * Pow2(16);
    assert Pow2(32) == 256 * Pow2(24) == WORDS;
    XorIsBelow(hash * 33 % WORDS, n % WORDS, 32);
  }

  lemma Remainder(n: int, q: int, r: int)
    requires n == q * WORDS + r && 0 <= r < WORDS
    ensures n % WORDS == r
  {
  }

  lemma SameRemainder(n: int, n': int)
    ensures n % WORDS == n' % WORDS <==> (n - n') % WORDS == 0
  {
  }

  /** 33 is odd, so it has an inverse modulo 2^32. */
  lemma TimesThirtyThree(h: nat)
    requires h < WORDS
    ensures (h * 33 % WORDS) * 1041204193 % WORDS == h
  {
    var q, r := h * 33 / WORDS, h * 33 % WORDS;
    assert h * 33 == q * WORDS + r;
    Remainder(r * 1041204193, 8 * h - 1041204193 * q, h);
  }

  /** A round of the loop loses neither the hash so far nor the word it takes in. */
  lemma MixIsOneToOne(hash: nat, hash': nat, n: int, n': int)
    requires hash < WORDS && hash' < WORDS
    ensures Mix(hash, n) == Mix(hash', n) <==> hash == hash'
    ensures Mix(hash, n) == Mix(hash, n') <==> (n - n') % WORDS == 0
    ensures Mix(hash, n) < WORDS && Mix(hash', n') < WORDS
  {
    TimesThirtyThree(hash);
    TimesThirtyThree(hash');
    XorCancels(n % WORDS, hash * 33 % WORDS, hash' * 33 % WORDS);
    XorCancels(hash * 33 % WORDS, n % WORDS, n' % WORDS);
    SameRemainder(n, n');
    MixIsWord(hash, n);
    MixIsWord(hash', n');
  }

  lemma {:induction false} MixedIsWord(s: seq<Element>)
    ensures Mixed(s).0 < WORDS
  {
    if s == [] {
    } else {
      var n := |s| - 1;
      MixedIsWord(s[..n]);
      MixIsWord(Mix(Mixed(s[..n]).0, s[n].version), s[n].versionNonce);
      MixIsWord(Mix(Mix(Mixed(s[..n]).0, s[n].version), s[n].versionNonce), 1);
    }
  }

  /** The words of a scene, in order: version and nonce of each element, and a 1 for a deleted one. */
  function Words(s: seq<Element>): seq<int> {
    if s == [] then [] else [s[0].version, s[0].versionNonce] + (if s[0].isDeleted then [1] else []) + Words(s[1..])
  }

  function Deleted(s: seq<Element>): nat {
    if s == [] then 0 else (if s[0].isDeleted then 1 else 0) + Deleted(s[1..])
  }

  function Folded(hash: nat, words: seq<int>): nat
    decreases |words|
  {
    if words == [] then hash else Folded(Mix(hash, words[0]), words[1..])
  }

  lemma {:induction false} FoldedAppend(hash: nat, a: seq<int>, b: seq<int>)
    ensures Folded(hash, a + b) == Folded(Folded(hash, a), b)
    decreases |a|
  {
    if a == [] {
      assert a + b == b;
    } else {
      FoldedAppend(Mix(hash, a[0]), a[1..], b);
      assert (a + b)[1..] == a[1..] + b;
    }
  }

  lemma {:induction false} WordsSnoc(s: seq<Element>, e: Element)
    ensures Words(s + [e]) == Words(s) + Words([e]) && Deleted(s + [e]) == Deleted(s) + Deleted([e])
  {
    if s == [] {
      assert s + [e] == [e];
    } else {
      WordsSnoc(s[1..], e);
      assert (s + [e])[1..] == s[1..] + [e];
    }
  }

  lemma FoldedFirst(hash: nat, word: int, rest: seq<int>)
    ensures Folded(hash, [word] + rest) == Folded(Mix(hash, word), rest)
  {
    assert ([word] + rest)[1..] == rest;
  }

  lemma OneElement(hash: nat, e: Element)
    ensures Deleted([e]) == if e.isDeleted then 1 else 0
    ensures var h := Mix(Mix(hash, e.version), e.versionNonce);
      Folded(hash, Words([e])) == if e.isDeleted then Mix(h, 1) else h
  {
    var none: seq<int> := [];
    var tail := if e.isDeleted then [1] + none else none;
    assert [e][1..] == [] && Words([]) == none;
    assert Words([e]) == [e.version] + ([e.versionNonce] + tail);
    FoldedFirst(hash, e.version, [e.versionNonce] + tail);
    FoldedFirst(Mix(hash, e.version), e.versionNonce, tail);
    FoldedFirst(Mix(Mix(hash, e.version), e.versionNonce), 1, none);
  }

  lemma {:induction false} MixedIsFolded(s: seq<Element>)
    ensures Mixed(s) == (Folded(5381, Words(s)), Deleted(s))
  {
    if s == [] {
    } else {
      var n := |s| - 1;
      MixedIsFolded(s[..n]);
      assert s == s[..n] + [s[n]];
      WordsSnoc(s[..n], s[n]);
      FoldedAppend(5381, Words(s[..n]), Words([s[n]]));
      OneElement(Mixed(s[..n]).0, s[n]);
    }
  }

  /** The hash folds every version, nonce and deletion of the scene, and their number; an empty scene's is 1. */
  lemma HashFoldsScene(s: seq<Element>)
    ensures HashOf(s) == if s == [] then 1 else Mix(Folded(5381, Words(s)), Deleted(s))
  {
    MixedIsFolded(s);
  }

  /** The scenes differ in one element's marker and nothing else. */
  ghost predicate DifferAt(s: seq<Element>, s': seq<Element>, i: nat) {
    && i < |s| == |s'|
    && (forall k :: 0 <= k < |s| && k != i ==> s[k] == s'[k])
    && s'[i] == s[i].(version := s'[i].version, versionNonce := s'[i].versionNonce)
  }

  /** Either number of the marker changed alone, and not by a multiple of 2^32. */
  ghost predicate Edited(e: Element, e': Element) {
    if e.version == e'.version then (e.versionNonce - e'.versionNonce) % WORDS != 0
    else e.versionNonce == e'.versionNonce && (e.version - e'.version) % WORDS != 0
  }

  /** One round of the loop, from two hashes or on two markers. */
  lemma RoundDiffers(h: nat, h': nat, e: Element, e': Element)
    requires h < WORDS && h' < WORDS
    requires (h != h' && MarkerOf(e) == MarkerOf(e')) || (h == h' && Edited(e, e'))
    ensures Mix(Mix(h, e.version), e.versionNonce) != Mix(Mix(h', e'.version), e'.versionNonce)
  {
    MixIsOneToOne(h, h', e.version, e'.version);
    MixIsOneToOne(Mix(h, e.version), Mix(h', e'.version), e.versionNonce, e'.versionNonce);
  }

  /** What one more element makes of the hash and the count. */
  function Round(hash: nat, e: Element): nat {
    var h := Mix(Mix(hash, e.version), e.versionNonce);
    if e.isDeleted then Mix(h, 1) else h
  }

  lemma MixedSnoc(s: seq<Element>)
    requires s != []
    ensures var n := |s| - 1;
      Mixed(s) == (Round(Mixed(s[..n]).0, s[n]), Mixed(s[..n]).1 + if s[n].isDeleted then 1 else 0)
  {
  }

  lemma WholeRoundDiffers(h: nat, h': nat, e: Element, e': Element)
    requires h < WORDS && h' < WORDS && e.isDeleted == e'.isDeleted
    requires (h != h' && MarkerOf(e) == MarkerOf(e')) || (h == h' && Edited(e, e'))
    ensures Round(h, e) != Round(h', e')
  {
    RoundDiffers(h, h', e, e');
    MixIsWord(Mix(h, e.version), e.versionNonce);
    MixIsWord(Mix(h', e'.version), e'.versionNonce);
    MixIsOneToOne(Mix(Mix(h, e.version), e.versionNonce), Mix(Mix(h', e'.version), e'.versionNonce), 1, 1);
  }

  lemma {:induction false} EditChangesMixed(s: seq<Element>, s': seq<Element>, i: nat)
    requires DifferAt(s, s', i) && Edited(s[i], s'[i])
    ensures Mixed(s).0 != Mixed(s').0 && Mixed(s).1 == Mixed(s').1
  {
    var n := |s| - 1;
    if i == n {
      assert s[..n] == s'[..n];
    } else {
      EditChangesMixed(s[..n], s'[..n], i);
    }
    MixedSnoc(s);
    MixedSnoc(s');
    MixedIsWord(s[..n]);
    MixedIsWord(s'[..n]);
    WholeRoundDiffers(Mixed(s[..n]).0, Mixed(s'[..n]).0, s[n], s'[n]);
  }

  /** A change of one element's version or nonce alone changes the hash. */
  lemma EditChangesHash(s: seq<Element>, s': seq<Element>, i: nat)
    requires DifferAt(s, s', i) && Edited(s[i], s'[i])
    ensures HashOf(s) != HashOf(s')
  {
    EditChangesMixed(s, s', i);
    MixedIsWord(s);
    MixedIsWord(s');
    MixIsOneToOne(Mixed(s).0, Mixed(s').0, Mixed(s).1, Mixed(s').1);
  }

  /** What was sent of a scene that differs from what the peer holds includes the difference. */
  lemma SentHasEdit(x: Session, s: seq<Element>, i: nat)
    requires Inv(x) && Distinct(s) && x.last.Some? && DifferAt(x.last.value, s, i)
    requires MarkerOf(x.last.value[i]) != MarkerOf(s[i]) && Sent(x, Ticks(s)).Some?
    ensures s[i] in Sent(x, Ticks(s)).value
  {
    IncrementalMeans(s, x.sender.versions);
    assert x.last.value[i] in x.last.value;
    assert MarkerOf(x.peer[s[i].id]) == MarkerOf(x.last.value[i]);
  }

  /**
   So such an edit after a send is sent at the next tick, whatever went before, and the peer holds
   it: no assumption about the hash is needed.
   */
  lemma {:induction false} EditIsSent(actions: seq<Action>, s: seq<Element>, i: nat)
    requires Distinct(s) && forall k :: 0 <= k < |actions| ==> Proper(actions[k])
    requires var last := Run(actions).last; last.Some? && DifferAt(last.value, s, i) && Edited(last.value[i], s[i])
    ensures var x := Run(actions);
      Sent(x, Ticks(s)).Some? && s[i] in Sent(x, Ticks(s)).value && Holds(Act(x, Ticks(s)).peer, s)
  {
    Reachable(actions);
    EditShows(Run(actions), s, i);
  }

  lemma EditShows(x: Session, s: seq<Element>, i: nat)
    requires Inv(x) && Distinct(s) && x.last.Some? && DifferAt(x.last.value, s, i) && Edited(x.last.value[i], s[i])
    ensures Sent(x, Ticks(s)).Some? && s[i] in Sent(x, Ticks(s)).value && Holds(Act(x, Ticks(s)).peer, s)
  {
    EditChangesHash(x.last.value, s, i);
    ActKeeps(x, Ticks(s));
    SentHasEdit(x, s, i);
  }

  /**
   When both numbers change, as an edit with a new random nonce does, the edit goes unseen for at
   most one word of the new nonce.
   */
  lemma OneNonceHides(s: seq<Element>, i: nat, version: int, n: int, n': int)
    requires i < |s|
    requires HashOf(s[i := s[i].(version := version, versionNonce := n)]) == HashOf(s)
    requires HashOf(s[i := s[i].(version := version, versionNonce := n')]) == HashOf(s)
    ensures (n - n') % WORDS == 0
  {
    if (n - n') % WORDS != 0 {
      EditChangesHash(s[i := s[i].(version := version, versionNonce := n)],
                      s[i := s[i].(version := version, versionNonce := n')], i);
    }
  }

  /** Every element the sender ever had is in the pool. */
  ghost predicate Within(actions: seq<Action>, pool: set<Element>) {
    forall i, e :: 0 <= i < |actions| && !actions[i].Resets? && e in actions[i].scene ==> e in pool
  }

  lemma {:induction false} IncrementalWithin(s: seq<Element>, versions: Markers)
    ensures forall e :: e in Incremental(s, versions) ==> e in s
  {
    if s == [] {
    } else {
      IncrementalWithin(s[..|s| - 1], versions);
    }
  }

  ghost predicate PeerIn(p: Peer, pool: set<Element>) {
    forall id :: id in p ==> p[id] in pool && p[id].id == id
  }

  lemma {:induction false} UpsertWithin(p: Peer, s: seq<Element>, pool: set<Element>)
    requires PeerIn(p, pool) && forall e :: e in s ==> e in pool
    ensures PeerIn(Upsert(p, s), pool)
  {
    if s == [] {
    } else {
      UpsertWithin(p, s[..|s| - 1], pool);
    }
  }

  lemma {:induction false} PeerWithin(actions: seq<Action>, pool: set<Element>)
    requires Within(actions, pool)
    ensures PeerIn(Run(actions).peer, pool)
  {
    if actions == [] {
    } else {
      var before, a := actions[..|actions| - 1], actions[|actions| - 1];
      var x := Run(before);
      assert forall i :: 0 <= i < |before| ==> before[i] == actions[i];
      PeerWithin(before, pool);
      if !a.Resets? {
        forall e | e in a.scene ensures e in pool { assert e in actions[|before|].scene; }
        IncrementalWithin(a.scene, x.sender.versions);
        UpsertWithin(x.peer, a.scene, pool);
        UpsertWithin(x.peer, Incremental(a.scene, x.sender.versions), pool);
      }
    }
  }

  /**
   Where a marker determines its element, an incremental send leaves the peer with the very
   elements a full one would: the sender's own.
   */
  lemma {:induction false} DeltaEqualsFull(actions: seq<Action>, a: Action, pool: set<Element>, e: Element)
    requires Proper(a) && (forall i :: 0 <= i < |actions| ==> Proper(actions[i]))
    requires Coherent(pool) && Within(actions + [a], pool)
    requires Sent(Run(actions), a).Some? && e in a.scene
    ensures var p := Run(actions + [a]).peer; e.id in p && p[e.id] == e
  {
    RunSnoc(actions, a);
    SendsKeepPeersCurrent(actions, a);
    PeerWithin(actions + [a], pool);
    assert (actions + [a])[|actions|] == a;
    VeryElement(Run(actions + [a]).peer, a.scene, pool, e);
  }

  lemma RunSnoc(actions: seq<Action>, a: Action)
    ensures Run(actions + [a]) == Act(Run(actions), a)
  {
    assert (actions + [a])[..|actions|] == actions;
  }

  lemma VeryElement(p: Peer, s: seq<Element>, pool: set<Element>, e: Element)
    requires Coherent(pool) && PeerIn(p, pool) && Holds(p, s) && e in s && e in pool
    ensures e.id in p && p[e.id] == e
  {
    assert SameVersion(p[e.id], e);
  }

  /** Two scenes of one element each hash alike when they differ in its id alone. */
  lemma HashIgnoresId(e: Element, id: string)
    ensures HashOf([e]) == HashOf([e.(id := id)])
  {
    var s, r := [e], [e.(id := id)];
    assert s[..0] == r[..0];
    assert Mixed(s) == Mixed(r);
  }

  lemma FirstTick(e: Element)
    ensures Run([Ticks([e])]) == Session(Sender(true, Some(HashOf([e])), Marked(map[], [e])), map[e.id := e], Some([e]))
  {
    assert [Ticks([e])][..0] == [] && [e][..0] == [];
    assert Upsert(map[], [e]) == map[e.id := e];
    assert Run([Ticks([e])]) == Act(Session(UNSENT, map[], None), Ticks([e]));
  }

  /** The hash does not look at ids: renaming an element goes unseen, and the tick is skipped. */
  lemma RenamedElementIsSkipped(e: Element, id: string)
    requires id != e.id
    ensures var x := Run([Ticks([e])]); var s := [e.(id := id)];
      Sent(x, Ticks(s)).None? && !Holds(Act(x, Ticks(s)).peer, s)
  {
    var s := [e.(id := id)];
    HashIgnoresId(e, id);
    FirstTick(e);
    assert s[0] in s && s[0].id !in Run([Ticks([e])]).peer;
  }

  // --------------------------------------------------------------- the hook

  class SceneSync {
    var hasBroadcastedScene: bool
    var lastBroadcastedSceneHash: Option<nat>
    var broadcastedElementVersions: Markers

    function Model(): Sender
      reads this
    {
      Sender(hasBroadcastedScene, lastBroadcastedSceneHash, broadcastedElementVersions)
    }

    constructor ()
      ensures Model() == UNSENT
    {
      hasBroadcastedScene, lastBroadcastedSceneHash, broadcastedElementVersions := false, None, map[];
    }

    static method GetIncrementalSceneElements(elements: seq<Element>, versions: Markers) returns (changed: seq<Element>)
      ensures changed == Incremental(elements, versions)
    {
      changed := [];
      for i := 0 to |elements|
        invariant changed == Incremental(elements[..i], versions)
      {
        assert elements[..i + 1][..i] == elements[..i];
        var e := elements[i];
        if e.id !in versions || versions[e.id].version != e.version || versions[e.id].versionNonce != e.versionNonce {
          changed := changed + [e];
        }
      }
      assert elements[..|elements|] == elements;
    }

    static method DecideSceneBroadcast(elements: seq<Element>, has: bool, lastHash: Option<nat>, versions: Markers)
      returns (decision: Decision)
      ensures decision == Decide(elements, has, lastHash, versions)
    {
      var hash := ComputeElementVersionHash(elements);
      if !has { return Init(elements, hash); }
      if lastHash == Some(hash) { return Skip; }
      var changed := GetIncrementalSceneElements(elements, versions);
      if |changed| == 0 { return Init(elements, hash); }
      decision := Update(changed, hash);
    }

    method DoSyncViaWebSocket(elements: seq<Element>) returns (sent: Option<seq<Element>>)
      modifies this
      ensures (Model(), sent) == Tick(old(Model()), elements)
    {
      var decision := DecideSceneBroadcast(
        elements, hasBroadcastedScene, lastBroadcastedSceneHash, broadcastedElementVersions);
      match decision {
        case Skip => sent := None;
        case Init(all, hash) =>
          sent := Some(all);
          hasBroadcastedScene := true;
          lastBroadcastedSceneHash := Some(hash);
          broadcastedElementVersions := BuildBroadcastedElementVersions(elements);
        case Update(changed, hash) =>
          sent := Some(changed);
          lastBroadcastedSceneHash := Some(hash);
          broadcastedElementVersions := UpdateBroadcastedElementVersions(broadcastedElementVersions, changed);
      }
    }

    method DoPeriodicFullSceneHealing(elements: seq<Element>) returns (sent: Option<seq<Element>>)
      modifies this
      ensures (Model(), sent) == Heal(old(Model()), elements)
    {
      if !hasBroadcastedScene { return None; }
      var sceneHash := ComputeElementVersionHash(elements);
      sent := Some(elements);
      lastBroadcastedSceneHash := Some(sceneHash);
      broadcastedElementVersions := BuildBroadcastedElementVersions(elements);
    }

    /** A new file, a new socket or a left room forgets what was broadcast. */
    method Reset()
      modifies this
      ensures Model() == UNSENT
    {
      lastBroadcastedSceneHash := None;
      broadcastedElementVersions := map[];
      hasBroadcastedScene := false;
    }
  }
}
