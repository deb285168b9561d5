/** The elements of a drawing, as far as the synchronisation code looks at them. */
module Scenes {

  /** `data` stands for every other field. */
  datatype Element = Element(id: string, version: int, versionNonce: int, isDeleted: bool, kind: string, data: string)

  function Ids(s: seq<Element>): set<string> {
    set e | e in s :: e.id
  }

  function Elements(s: seq<Element>): set<Element> {
    set e | e in s
  }

  ghost predicate Distinct(s: seq<Element>) {
    forall i, j :: 0 <= i < j < |s| ==> s[i].id != s[j].id
  }

  predicate SameVersion(a: Element, b: Element) {
    a.id == b.id && a.version == b.version && a.versionNonce == b.versionNonce
  }

  /** Id, version and nonce determine an element. */
  ghost predicate Coherent(pool: set<Element>) {
    forall a, b :: a in pool && b in pool && SameVersion(a, b) ==> a == b
  }
}

/**
 Merging two scenes element by element, last writer wins.

 The merge is proved to be what its two loops compute, for every input. For scenes without
 embeddables and an app state with nothing being edited it is the join of a semilattice: any
 order and grouping of merges keeps, of every element, the newest version anybody has.
 */
module SceneMerge {
  import opened Basics
  import opened Scenes

  /** The elements the local user is drawing or resizing. */
  datatype AppState = AppState(newElement: Option<string>, resizingElement: Option<string>)

  const NOTHING_HELD: AppState := AppState(None, None)

  /** isDeepEqual on two elements, but for versionNonce, version, updated and validated. */
  type Alike = (Element, Element) -> bool

  // ------------------------------------------------------------- one element

  /** The local user holds the element. */
  predicate Held(app: AppState, local: Element) {
    app.newElement == Some(local.id) || app.resizingElement == Some(local.id)
  }

  /** `a` is newer than `b`: a higher version, or the lower nonce of the same version. */
  predicate Beats(a: Element, b: Element) {
    a.version > b.version || (a.version == b.version && a.versionNonce < b.versionNonce)
  }

  predicate ShouldDiscardRemote(app: AppState, alike: Alike, local: Option<Element>, remote: Element) {
    local.Some? && (Held(app, local.value) || Beats(local.value, remote)
                    || (local.value.kind == "embeddable" && alike(local.value, remote)))
  }

  function Pick(app: AppState, alike: Alike, local: Option<Element>, remote: Element): Element {
    if ShouldDiscardRemote(app, alike, local, remote) then local.value else remote
  }

  // ---------------------------------------------------------------- the merge

  /** arrayToMap's entry for `id`: the last element with it. */
  function LastOf(s: seq<Element>, id: string): Option<Element> {
    if s == [] then None
    else if s[|s| - 1].id == id then Some(s[|s| - 1])
    else LastOf(s[..|s| - 1], id)
  }

  /** The first loop: one element for each id of `remote`. */
  function FromRemote(app: AppState, alike: Alike, local: seq<Element>, remote: seq<Element>): seq<Element> {
    if remote == [] then []
    else
      var before := FromRemote(app, alike, local, remote[..|remote| - 1]);
      var e := remote[|remote| - 1];
      if e.id in Ids(before) then before else before + [Pick(app, alike, LastOf(local, e.id), e)]
  }

  /** The second loop: what only the local scene has. */
  function FromLocal(before: seq<Element>, local: seq<Element>): seq<Element> {
    if local == [] then before
    else
      var sofar := FromLocal(before, local[..|local| - 1]);
      var e := local[|local| - 1];
      if e.id in Ids(sofar) then sofar else sofar + [e]
  }

  function Merge(app: AppState, alike: Alike, local: seq<Element>, remote: seq<Element>): seq<Element> {
    FromLocal(FromRemote(app, alike, local, remote), local)
  }

  method ArrayToMap(items: seq<Element>) returns (byId: map<string, Element>)
    ensures forall id :: id in byId <==> LastOf(items, id).Some?
    ensures forall id :: id in byId ==> LastOf(items, id) == Some(byId[id])
    ensures forall i :: 0 <= i < |items| && (forall j :: i < j < |items| ==> items[j].id != items[i].id) ==>
      items[i].id in byId && byId[items[i].id] == items[i]
  {
    byId := map[];
    for i := 0 to |items|
      invariant forall id :: id in byId <==> LastOf(items[..i], id).Some?
      invariant forall id :: id in byId ==> LastOf(items[..i], id) == Some(byId[id])
      invariant forall k :: 0 <= k < i && (forall j :: k < j < i ==> items[j].id != items[k].id) ==>
        items[k].id in byId && byId[items[k].id] == items[k]
    {
      assert items[..i + 1][..i] == items[..i];
      byId := byId[items[i].id := items[i]];
    }
    assert items[..|items|] == items;
  }

  lemma IdsSnoc(s: seq<Element>, e: Element)
    ensures Ids(s + [e]) == Ids(s) + {e.id}
  {
  }

  method MergeSceneElements(app: AppState, alike: Alike, local: seq<Element>, remote: seq<Element>)
    returns (reconciled: seq<Element>)
    ensures reconciled == Merge(app, alike, local, remote)
  {
    var added: set<string> := {};
    var localMap := ArrayToMap(local);
    reconciled := [];
    for i := 0 to |remote|
      invariant reconciled == FromRemote(app, alike, local, remote[..i]) && added == Ids(reconciled)
    {
      assert remote[..i + 1][..i] == remote[..i];
      var remoteElement := remote[i];
      if remoteElement.id !in added {
        var localElement := if remoteElement.id in localMap then Some(localMap[remoteElement.id]) else None;
        assert localElement == LastOf(local, remoteElement.id);
        LastOfHasId(local, remoteElement.id);
        if localElement.Some? && ShouldDiscardRemote(app, alike, localElement, remoteElement) {
          IdsSnoc(reconciled, localElement.value);
          reconciled := reconciled + [localElement.value];
          added := added + {localElement.value.id};
        } else {
          IdsSnoc(reconciled, remoteElement);
          reconciled := reconciled + [remoteElement];
          added := added + {remoteElement.id};
        }
      }
    }
    assert remote[..|remote|] == remote;
    for i := 0 to |local|
      invariant reconciled == FromLocal(FromRemote(app, alike, local, remote), local[..i]) && added == Ids(reconciled)
    {
      assert local[..i + 1][..i] == local[..i];
      if local[i].id !in added {
        IdsSnoc(reconciled, local[i]);
        reconciled := reconciled + [local[i]];
        added := added + {local[i].id};
      }
    }
    assert local[..|local|] == local;
  }

  lemma {:induction false} LastOfHasId(s: seq<Element>, id: string)
    ensures LastOf(s, id).Some? ==> LastOf(s, id).value in s && LastOf(s, id).value.id == id
    ensures LastOf(s, id).Some? <==> id in Ids(s)
  {
    if s == [] {
    } else {
      LastOfHasId(s[..|s| - 1], id);
      assert s == s[..|s| - 1] + [s[|s| - 1]];
      assert Ids(s) == Ids(s[..|s| - 1]) + {s[|s| - 1].id};
    }
  }

  /** Of several local elements with one id the last counts. */
  lemma {:induction false} LastOfMeans(s: seq<Element>, i: nat)
    requires i < |s| && forall j :: i < j < |s| ==> s[j].id != s[i].id
    ensures LastOf(s, s[i].id) == Some(s[i])
  {
    var n := |s| - 1;
    if i < n { LastOfMeans(s[..n], i); }
  }

  // ------------------------------------------------------ what the merge means

  /** The first element with an id, where there is one. */
  function FirstOf(s: seq<Element>, id: string): Option<Element> {
    if s == [] then None
    else if s[0].id == id then Some(s[0])
    else FirstOf(s[1..], id)
  }

  lemma {:induction false} FirstOfSnoc(s: seq<Element>, e: Element, id: string)
    ensures FirstOf(s + [e], id) ==
      if FirstOf(s, id).Some? then FirstOf(s, id) else if e.id == id then Some(e) else None
    ensures FirstOf(s, id).Some? <==> id in Ids(s)
    ensures FirstOf(s, id).Some? ==> FirstOf(s, id).value in s && FirstOf(s, id).value.id == id
  {
    if s == [] {
      assert [e][1..] == [];
    } else {
      FirstOfSnoc(s[1..], e, id);
      assert (s + [e])[1..] == s[1..] + [e];
      assert s == [s[0]] + s[1..];
      assert Ids(s) == {s[0].id} + Ids(s[1..]);
    }
  }

  /** The merged scene's element for `id`, in terms of the two scenes. */
  function Chosen(app: AppState, alike: Alike, local: seq<Element>, remote: seq<Element>, id: string): Option<Element> {
    if FirstOf(remote, id).Some? then Some(Pick(app, alike, LastOf(local, id), FirstOf(remote, id).value))
    else FirstOf(local, id)
  }

  lemma PickKeepsId(app: AppState, alike: Alike, local: seq<Element>, e: Element)
    ensures Pick(app, alike, LastOf(local, e.id), e).id == e.id
  {
    LastOfHasId(local, e.id);
  }

  lemma SnocDistinct(s: seq<Element>, e: Element)
    requires Distinct(s) && e.id !in Ids(s)
    ensures Distinct(s + [e]) && Ids(s + [e]) == Ids(s) + {e.id}
  {
    assert forall i :: 0 <= i < |s| ==> s[i] in s && s[i].id in Ids(s);
  }

  lemma {:induction false} FromRemoteMeans(app: AppState, alike: Alike, local: seq<Element>, remote: seq<Element>,
                                            id: string)
    ensures var r := FromRemote(app, alike, local, remote);
      && Distinct(r) && Ids(r) == Ids(remote)
      && FirstOf(r, id) == if FirstOf(remote, id).Some? then Chosen(app, alike, local, remote, id) else None
  {
    if remote == [] {
    } else {
      var n := |remote| - 1;
      var before, e := FromRemote(app, alike, local, remote[..n]), remote[n];
      FromRemoteMeans(app, alike, local, remote[..n], id);
      assert remote == remote[..n] + [e];
      assert Ids(remote) == Ids(remote[..n]) + {e.id};
      FirstOfSnoc(remote[..n], e, id);
      var picked := Pick(app, alike, LastOf(local, e.id), e);
      PickKeepsId(app, alike, local, e);
      FirstOfSnoc(before, picked, id);
      if e.id !in Ids(before) { SnocDistinct(before, picked); }
    }
  }

  lemma {:induction false} FromLocalIds(before: seq<Element>, local: seq<Element>)
    requires Distinct(before)
    ensures var r := FromLocal(before, local); Distinct(r) && Ids(r) == Ids(before) + Ids(local)
  {
    if local == [] {
    } else {
      var n := |local| - 1;
      var sofar, e := FromLocal(before, local[..n]), local[n];
      FromLocalIds(before, local[..n]);
      assert local == local[..n] + [e];
      assert Ids(local) == Ids(local[..n]) + {e.id};
      if e.id !in Ids(sofar) { SnocDistinct(sofar, e); }
    }
  }

  /** One more element of the second loop. */
  lemma AddsIfMissing(before: seq<Element>, sofar: seq<Element>, seen: seq<Element>, e: Element, id: string)
    requires Ids(sofar) == Ids(before) + Ids(seen)
    requires FirstOf(sofar, id) == if FirstOf(before, id).Some? then FirstOf(before, id) else FirstOf(seen, id)
    ensures FirstOf(if e.id in Ids(sofar) then sofar else sofar + [e], id)
         == if FirstOf(before, id).Some? then FirstOf(before, id) else FirstOf(seen + [e], id)
  {
    FirstOfSnoc(seen, e, id);
    FirstOfSnoc(sofar, e, id);
    FirstOfSnoc(before, e, id);
  }

  lemma {:induction false} FromLocalFirst(before: seq<Element>, local: seq<Element>, id: string)
    requires Distinct(before)
    ensures FirstOf(FromLocal(before, local), id)
         == if FirstOf(before, id).Some? then FirstOf(before, id) else FirstOf(local, id)
  {
    if local == [] {
    } else {
      var n := |local| - 1;
      var seen, e := local[..n], local[n];
      FromLocalFirst(before, seen, id);
      FromLocalIds(before, seen);
      AddsIfMissing(before, FromLocal(before, seen), seen, e, id);
      assert local == seen + [e];
      var sofar := FromLocal(before, seen);
      assert FromLocal(before, local) == if e.id in Ids(sofar) then sofar else sofar + [e];
    }
  }

  /** For every input: no id twice, the ids of both scenes and no others, and for each id the chosen element. */
  lemma MergeMeaning(app: AppState, alike: Alike, local: seq<Element>, remote: seq<Element>, id: string)
    ensures var r := Merge(app, alike, local, remote);
      && Distinct(r) && Ids(r) == Ids(local) + Ids(remote)
      && FirstOf(r, id) == Chosen(app, alike, local, remote, id)
  {
    FromRemoteMeans(app, alike, local, remote, id);
    FromLocalIds(FromRemote(app, alike, local, remote), local);
    FromLocalFirst(FromRemote(app, alike, local, remote), local, id);
  }

  /**
   The merge of two versions of an element keeps the higher version, and of equal versions the
   lower nonce, exactly unless the remote one is newer and the local one is being drawn or resized,
   or an embeddable that differs in nothing else. It never falls behind the local one.
   */
  lemma PickIsNewestIff(app: AppState, alike: Alike, local: Element, remote: Element)
    requires local.id == remote.id
    ensures var p := Pick(app, alike, Some(local), remote);
      var remoteNewer := remote.version > local.version
                         || (remote.version == local.version && remote.versionNonce < local.versionNonce);
      && p in {local, remote}
      && p.version >= local.version && (p.version == local.version ==> p.versionNonce <= local.versionNonce)
      && (p.version >= remote.version && (p.version == remote.version ==> p.versionNonce <= remote.versionNonce) <==>
            !(remoteNewer
              && (app.newElement == Some(local.id) || app.resizingElement == Some(local.id)
                  || (local.kind == "embeddable" && alike(local, remote)))))
  {
  }

  // -------------------------------------------------------------- convergence

  ghost predicate Plain(s: seq<Element>) {
    Distinct(s) && forall e :: e in s ==> e.kind != "embeddable"
  }

  /** Nobody has a higher version of the element `e`, nor the same version with a lower nonce. */
  ghost predicate Newest(pool: set<Element>, e: Element) {
    && e in pool
    && forall x :: x in pool && x.id == e.id ==>
         x.version <= e.version && (x.version == e.version ==> x.versionNonce >= e.versionNonce)
  }

  lemma {:induction false} FirstOfDistinct(s: seq<Element>, e: Element)
    requires Distinct(s)
    ensures e in s <==> FirstOf(s, e.id) == Some(e)
    ensures FirstOf(s, e.id) == LastOf(s, e.id)
  {
    if s == [] {
    } else {
      var n := |s| - 1;
      FirstOfDistinct(s[..n], e);
      assert s == s[..n] + [s[n]];
      FirstOfSnoc(s[..n], s[n], e.id);
      LastOfHasId(s[..n], e.id);
    }
  }

  /** `top` is the newest version in the pool of what is called `id`, if anything is. */
  ghost predicate Top(pool: set<Element>, id: string, top: Option<Element>) {
    match top
    case None => forall x :: x in pool ==> x.id != id
    case Some(e) => e.id == id && Newest(pool, e)
  }

  lemma TopOf(s: seq<Element>, pool: set<Element>, id: string)
    requires forall x :: x in s <==> Newest(pool, x)
    requires Ids(s) == set x | x in pool :: x.id
    ensures Top(pool, id, FirstOf(s, id))
  {
    FirstOfSnoc(s, Element(id, 0, 0, false, "", ""), id);
    if FirstOf(s, id).None? {
      forall x | x in pool ensures x.id != id { assert x.id in Ids(s); }
    }
  }

  /** The pick of two pools' newest versions is the newest version of both. */
  lemma PickTops(alike: Alike, pa: set<Element>, pb: set<Element>, id: string, a: Option<Element>, b: Option<Element>)
    requires Coherent(pa + pb) && Top(pa, id, a) && Top(pb, id, b)
    requires a.Some? ==> a.value.kind != "embeddable"
    ensures Top(pa + pb, id, if b.Some? then Some(Pick(NOTHING_HELD, alike, a, b.value)) else a)
  {
  }

  lemma OneTop(pool: set<Element>, a: Element, b: Element)
    requires Coherent(pool) && Newest(pool, a) && Newest(pool, b) && a.id == b.id
    ensures a == b
  {
  }

  /** Merging two scenes that hold the newest of their pools holds the newest of both pools. */
  lemma MergeJoins(alike: Alike, a: seq<Element>, b: seq<Element>, pa: set<Element>, pb: set<Element>, e: Element)
    requires Plain(a) && Plain(b) && Coherent(pa + pb)
    requires (forall x :: x in a <==> Newest(pa, x)) && Ids(a) == set x | x in pa :: x.id
    requires (forall x :: x in b <==> Newest(pb, x)) && Ids(b) == set x | x in pb :: x.id
    ensures e in Merge(NOTHING_HELD, alike, a, b) <==> Newest(pa + pb, e)
  {
    MergeMeaning(NOTHING_HELD, alike, a, b, e.id);
    FirstOfDistinct(Merge(NOTHING_HELD, alike, a, b), e);
    FirstOfDistinct(a, e);
    TopOf(a, pa, e.id);
    TopOf(b, pb, e.id);
    FirstOfSnoc(a, e, e.id);
    PickTops(alike, pa, pb, e.id, FirstOf(a, e.id), FirstOf(b, e.id));
    var top := Chosen(NOTHING_HELD, alike, a, b, e.id);
    if Newest(pa + pb, e) && top.Some? { OneTop(pa + pb, e, top.value); }
  }

  /** Any grouping of merges of any scenes. */
  datatype Merges = Scene(elements: seq<Element>) | Both(left: Merges, right: Merges)

  function Result(alike: Alike, t: Merges): seq<Element> {
    match t
    case Scene(elements) => elements
    case Both(left, right) => Merge(NOTHING_HELD, alike, Result(alike, left), Result(alike, right))
  }

  /** Every version of every element anybody had. */
  function Pool(t: Merges): set<Element> {
    match t
    case Scene(elements) => Elements(elements)
    case Both(left, right) => Pool(left) + Pool(right)
  }

  ghost predicate AllPlain(t: Merges) {
    match t
    case Scene(elements) => Plain(elements)
    case Both(left, right) => AllPlain(left) && AllPlain(right)
  }

  lemma {:induction false} ResultIsNewest(alike: Alike, t: Merges)
    requires AllPlain(t) && Coherent(Pool(t))
    ensures var r := Result(alike, t);
      && Plain(r) && Ids(r) == (set x | x in Pool(t) :: x.id)
      && forall e :: e in r <==> Newest(Pool(t), e)
  {
    match t {
      case Scene(s) =>
        forall e ensures e in s <==> Newest(Elements(s), e) {
          if e in s {
            forall x | x in s && x.id == e.id ensures x == e {
              FirstOfDistinct(s, e);
              FirstOfDistinct(s, x);
            }
          }
        }
      case Both(left, right) =>
        ResultIsNewest(alike, left);
        ResultIsNewest(alike, right);
        var a, b := Result(alike, left), Result(alike, right);
        forall e ensures e in Result(alike, t) <==> Newest(Pool(t), e) {
          MergeJoins(alike, a, b, Pool(left), Pool(right), e);
        }
        MergeMeaning(NOTHING_HELD, alike, a, b, "");
        forall e | e in Result(alike, t) ensures e.kind != "embeddable" {
          assert Newest(Pool(t), e);
          assert if e in Pool(left) then Newest(Pool(left), e) else Newest(Pool(right), e);
        }
    }
  }

  /** Clients that merged the same versions, in whatever order and grouping, show the same elements. */
  lemma {:induction false} MergesConverge(alike: Alike, s: Merges, t: Merges)
    requires AllPlain(s) && AllPlain(t) && Coherent(Pool(s)) && Pool(s) == Pool(t)
    ensures Elements(Result(alike, s)) == Elements(Result(alike, t))
  {
    ResultIsNewest(alike, s);
    ResultIsNewest(alike, t);
  }

  /** The semilattice laws, as equalities of scenes up to order. */
  lemma SemilatticeLaws(alike: Alike, a: seq<Element>, b: seq<Element>, c: seq<Element>)
    requires Plain(a) && Plain(b) && Plain(c) && Coherent(Elements(a) + Elements(b) + Elements(c))
    ensures Elements(Merge(NOTHING_HELD, alike, a, b)) == Elements(Merge(NOTHING_HELD, alike, b, a))
    ensures Elements(Merge(NOTHING_HELD, alike, Merge(NOTHING_HELD, alike, a, b), c))
         == Elements(Merge(NOTHING_HELD, alike, a, Merge(NOTHING_HELD, alike, b, c)))
    ensures Elements(Merge(NOTHING_HELD, alike, a, a)) == Elements(a)
  {
    var x, y, z := Scene(a), Scene(b), Scene(c);
    assert Coherent(Elements(a) + Elements(b)) && Coherent(Elements(a));
    MergesConverge(alike, Both(x, y), Both(y, x));
    assert Pool(Both(Both(x, y), z)) == Pool(Both(x, Both(y, z)));
    MergesConverge(alike, Both(Both(x, y), z), Both(x, Both(y, z)));
    assert Pool(Both(x, x)) == Pool(x);
    MergesConverge(alike, Both(x, x), x);
  }
}
