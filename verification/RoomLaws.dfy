/**
 What the room's token registry and clocks promise, on the registry's own fields: whom the ladder
 lists and in which order, what a refusal takes off it and for how long, and when a token is
 warned about.
 */
module RoomLaws {
  import opened Basics
  import opened RoomModel
  import opened SaveMachine
  import WopiHost
  import Order

  // ------------------------------------------------------------------ the ladder

  /** A live, write-capable token that was not refused in the last two minutes. */
  ghost predicate Usable(t: Tokens, now: Time, user: string) {
    && user in t.tokens && t.tokens[user].canWrite && now < t.tokens[user].expiresAt
    && (t.tokens[user].token in t.failed ==> now >= t.failed[t.tokens[user].token] + 2 * MINUTE)
  }

  lemma UsableIsEligible(t: Tokens, now: Time, user: string)
    ensures user in EligibleUsers(t, now) <==> Usable(t, now, user)
  {
  }

  lemma InSorted(users: set<string>, u: string)
    ensures u in Order.Sorted(users) <==> u in users
  {
    assert u in Order.Sorted(users) <==> u in Order.Elements(Order.Sorted(users));
  }

  /** The ladder by position: the last writer, if eligible, and the rest sorted. */
  lemma LadderAt(t: Tokens, lastWriter: string, now: Time, k: nat)
    ensures var ladder := TokenLadder(t, lastWriter, now); var eligible := EligibleUsers(t, now);
      var rest := Order.Sorted(eligible - {lastWriter}); var head := if lastWriter in eligible then 1 else 0;
      && |ladder| == head + |rest|
      && (k < |ladder| ==>
            && ladder[k].user == (if k < head then lastWriter else rest[k - head])
            && ladder[k].user in t.tokens && ladder[k].token == t.tokens[ladder[k].user].token)
  {
  }

  lemma Listed(t: Tokens, lastWriter: string, now: Time, c: Candidate)
    ensures c in TokenLadder(t, lastWriter, now) <==> Usable(t, now, c.user) && c.token == t.tokens[c.user].token
  {
    var ladder := TokenLadder(t, lastWriter, now);
    var rest := Order.Sorted(EligibleUsers(t, now) - {lastWriter});
    UsableIsEligible(t, now, c.user);
    UsableIsEligible(t, now, lastWriter);
    InSorted(EligibleUsers(t, now) - {lastWriter}, c.user);
    if c in ladder {
      var k :| 0 <= k < |ladder| && ladder[k] == c;
      LadderAt(t, lastWriter, now, k);
      if k >= |ladder| - |rest| { assert c.user in rest; }
    }
    if Usable(t, now, c.user) && c.token == t.tokens[c.user].token {
      LadderAt(t, lastWriter, now, 0);
      if c.user != lastWriter {
        var k :| 0 <= k < |rest| && rest[k] == c.user;
        LadderAt(t, lastWriter, now, |ladder| - |rest| + k);
        assert ladder[|ladder| - |rest| + k] == c;
      } else {
        assert ladder[0] == c;
      }
    }
  }

  /**
   The ladder lists every usable token and no other, each user once; the last writer comes first
   if they have one, the others follow by user id.
   */
  lemma LadderMeaning(t: Tokens, lastWriter: string, now: Time, c: Candidate, i: nat, j: nat)
    ensures var ladder := TokenLadder(t, lastWriter, now);
      && (c in ladder <==> Usable(t, now, c.user) && c.token == t.tokens[c.user].token)
      && (Usable(t, now, lastWriter) ==> ladder != [] && ladder[0].user == lastWriter)
      && (i < j < |ladder| ==>
            && ladder[i].user != ladder[j].user && ladder[j].user != lastWriter
            && (ladder[i].user == lastWriter || Order.Less(ladder[i].user, ladder[j].user)))
  {
    var ladder := TokenLadder(t, lastWriter, now);
    var rest := Order.Sorted(EligibleUsers(t, now) - {lastWriter});
    Listed(t, lastWriter, now, c);
    UsableIsEligible(t, now, lastWriter);
    LadderAt(t, lastWriter, now, 0);
    if i < j < |ladder| {
      var head := |ladder| - |rest|;
      LadderAt(t, lastWriter, now, i);
      LadderAt(t, lastWriter, now, j);
      InSorted(EligibleUsers(t, now) - {lastWriter}, rest[j - head]);
      Order.Trichotomy(ladder[i].user, ladder[j].user);
      if i >= head { assert Order.Less(rest[i - head], rest[j - head]); }
    }
  }

  // ------------------------------------------------------------------- refusals

  /** The candidates of a ladder that have another token. */
  function Without(ladder: seq<Candidate>, token: string): seq<Candidate> {
    if ladder == [] then []
    else if ladder[0].token == token then Without(ladder[1..], token)
    else [ladder[0]] + Without(ladder[1..], token)
  }

  /**
   After a refusal nobody with another token is any better or worse off, at any instant. The users
   of the refused one are out for exactly two minutes after a 403, and after a 401 for good.
   */
  lemma RefusalMeans(t: Tokens, now: Time, token: string, noWrite: bool, user: string, at: Time)
    requires at >= now
    ensures var t' := MarkToken(t, now, token, noWrite);
      if user in t.tokens && t.tokens[user].token == token
      then Usable(t', at, user) <==>
             && !noWrite && at >= now + 2 * MINUTE
             && t.tokens[user].canWrite && at < t.tokens[user].expiresAt
      else Usable(t', at, user) <==> Usable(t, at, user)
  {
  }

  /** Candidates in ladder order: by user id, after the last writer. */
  ghost predicate InOrder(ladder: seq<Candidate>, lastWriter: string) {
    forall i, j :: 0 <= i < j < |ladder| ==>
      && ladder[i].user != ladder[j].user
      && (ladder[i].user == lastWriter || (ladder[j].user != lastWriter && Order.Less(ladder[i].user, ladder[j].user)))
  }

  lemma {:induction false} WithoutMeans(ladder: seq<Candidate>, token: string, c: Candidate)
    ensures c in Without(ladder, token) <==> c in ladder && c.token != token
  {
    if ladder == [] {
    } else {
      WithoutMeans(ladder[1..], token, c);
    }
  }

  lemma {:induction false} WithoutInOrder(ladder: seq<Candidate>, token: string, lastWriter: string)
    requires InOrder(ladder, lastWriter)
    ensures InOrder(Without(ladder, token), lastWriter)
  {
    if ladder == [] {
    } else {
      WithoutInOrder(ladder[1..], token, lastWriter);
      var rest := Without(ladder[1..], token);
      forall k | 0 <= k < |rest| ensures rest[k] in ladder[1..] { WithoutMeans(ladder[1..], token, rest[k]); }
    }
  }

  lemma HasHead(ladder: seq<Candidate>)
    ensures ladder != [] ==> exists c :: c in ladder
  {
    if ladder != [] { assert ladder[0] in ladder; }
  }

  /** Two ladders in order with the same candidates are the same. */
  lemma {:induction false} SameInOrder(a: seq<Candidate>, b: seq<Candidate>, lastWriter: string)
    requires InOrder(a, lastWriter) && InOrder(b, lastWriter) && forall c :: c in a <==> c in b
    ensures a == b
  {
    HasHead(a);
    HasHead(b);
    if a == [] {
    } else {
      assert a[0] in a && a[0] in b;
      assert b[0] in b && b[0] in a;
      var i :| 0 <= i < |b| && b[i] == a[0];
      var j :| 0 <= j < |a| && a[j] == b[0];
      Order.Trichotomy(a[0].user, b[0].user);
      assert a[0] == b[0];
      forall c ensures c in a[1..] <==> c in b[1..] {
        assert c in a[1..] <==> c in a && c != a[0];
        assert c in b[1..] <==> c in b && c != b[0];
      }
      SameInOrder(a[1..], b[1..], lastWriter);
    }
  }

  lemma LadderInOrder(t: Tokens, lastWriter: string, now: Time)
    ensures InOrder(TokenLadder(t, lastWriter, now), lastWriter)
  {
    var ladder := TokenLadder(t, lastWriter, now);
    forall i, j | 0 <= i < j < |ladder|
      ensures ladder[i].user != ladder[j].user
      ensures ladder[i].user == lastWriter
              || (ladder[j].user != lastWriter && Order.Less(ladder[i].user, ladder[j].user))
    {
      LadderMeaning(t, lastWriter, now, ladder[j], i, j);
    }
  }

  /** Right after any refusal the ladder is the old one without the candidates of that token. */
  lemma RefusalLadder(t: Tokens, now: Time, token: string, noWrite: bool, lastWriter: string)
    ensures TokenLadder(MarkToken(t, now, token, noWrite), lastWriter, now) ==
      Without(TokenLadder(t, lastWriter, now), token)
  {
    var t' := MarkToken(t, now, token, noWrite);
    var old_, new_ := TokenLadder(t, lastWriter, now), TokenLadder(t', lastWriter, now);
    LadderInOrder(t, lastWriter, now);
    LadderInOrder(t', lastWriter, now);
    WithoutInOrder(old_, token, lastWriter);
    forall c ensures c in new_ <==> c in Without(old_, token) {
      LadderMeaning(t, lastWriter, now, c, 0, 0);
      LadderMeaning(t', lastWriter, now, c, 0, 0);
      WithoutMeans(old_, token, c);
      RefusalMeans(t, now, token, noWrite, c.user, now);
    }
    SameInOrder(new_, Without(old_, token), lastWriter);
  }

  // ------------------------------------------------------- refusals, over a run

  /** The user has no write-capable token. */
  ghost predicate Barred(t: Tokens, user: string) {
    user in t.tokens ==> !t.tokens[user].canWrite
  }

  lemma ActKeepsBarred(s: Sys, i: Input, user: string)
    requires Barred(s.room.tok, user)
    ensures Barred(Act(s, i).room.tok, user)
  {
  }

  /** After a 401 the users of that token stay off the ladder until they are observed again. */
  lemma {:induction false} RefusedUntilObserved(w: World, s: Sys, ls: seq<Label>, user: string, now: Time)
    requires Barred(s.room.tok, user)
    requires forall k :: 0 <= k < |ls| && ls[k].DoObserve? ==> ls[k].user != user
    ensures Barred(Run(w, s, ls).room.tok, user) && !Usable(Run(w, s, ls).room.tok, now, user)
  {
    if ls == [] {
    } else {
      var before, l := ls[..|ls| - 1], ls[|ls| - 1];
      RefusedUntilObserved(w, s, before, user, now);
      var s1 := Run(w, s, before);
      if l.Work? {
        match RequestOf(s1.pc) {
          case None => ActKeepsBarred(s1, InputOf(s1, l.choice.pick, WopiHost.Ok("")), user);
          case Some(q) =>
            var (h, a) := Call(w, s1, l.choice, q);
            ActKeepsBarred(s1.(host := h), InputOf(s1, l.choice.pick, a), user);
        }
      }
    }
  }

  // ------------------------------------------------------ pruning and warnings

  /** Pruning drops expired tokens alone, and nobody's place on any later ladder. */
  lemma PruneMeans(t: Tokens, now: Time, user: string, at: Time)
    requires at >= now
    ensures var t' := Prune(t, now);
      && (user in t'.tokens <==> user in t.tokens && now < t.tokens[user].expiresAt)
      && (user in t'.tokens ==> t'.tokens[user] == t.tokens[user])
      && (Usable(t', at, user) <==> Usable(t, at, user))
  {
  }

  /** An observation records its user's token, forgets expired ones, and changes nobody else's standing. */
  lemma ObserveMeans(r: Room, now: Time, lock: string, user: string, info: TokenInfo, other: string, at: Time)
    requires at >= now
    ensures var t, t' := r.tok, Observe(r, now, lock, user, info).tok;
      && (user in t'.tokens <==> now < info.expiresAt) && (user in t'.tokens ==> t'.tokens[user] == info)
      && (other != user ==>
            && (other in t'.tokens <==> other in t.tokens && now < t.tokens[other].expiresAt)
            && (Usable(t', at, other) <==> Usable(t, at, other)))
      && (Usable(t', at, user) <==>
            && info.canWrite && at < info.expiresAt
            && (info.token in t.failed ==> at >= t.failed[info.token] + 2 * MINUTE))
  {
    PruneMeans(r.tok.(tokens := r.tok.tokens[user := info]), now, user, at);
    PruneMeans(r.tok.(tokens := r.tok.tokens[user := info]), now, other, at);
  }

  /**
   A pass warns about a token in the last ten minutes of its life and not after, unless it was warned
   about before; it never warns twice about one observation, and the warning changes nothing else.
   */
  lemma WarnedOnce(t: Tokens, now: Time, later: Time, user: string)
    requires now <= later && user in t.tokens
    ensures var t' := WarnTokens(t, now); var info := t.tokens[user];
      && user in t'.tokens && t'.tokens[user] == info.(warned := t'.tokens[user].warned)
      && (t'.tokens[user].warned <==>
            info.warned || (info.expiresAt <= now + 10 * MINUTE && now < info.expiresAt))
      && (ExpiresSoon(info, now) ==> !ExpiresSoon(t'.tokens[user], later))
      && (ExpiresSoon(info, now) <==> t'.tokens[user].warned && !info.warned)
      && (ExpiresSoon(t'.tokens[user], later) ==> info.expiresAt > now + 10 * MINUTE)
  {
  }

  // ------------------------------------------------------------------- the plan

  /** Somebody is there, some session lives, or something waits to be saved. */
  ghost predicate InUse(r: Room, now: Time) {
    r.doc.dirty || r.life.liveUserCount > 0 || exists u :: u in r.tok.tokens && now < r.tok.tokens[u].expiresAt
  }

  lemma LiveMeans(r: Room, now: Time)
    ensures Live(r.(tok := Prune(r.tok, now)), now) <==> InUse(r, now)
  {
    var pruned := r.(tok := Prune(r.tok, now));
    if u :| u in r.tok.tokens && now < r.tok.tokens[u].expiresAt { assert Unexpired(pruned.tok, now, u); }
    if u :| Unexpired(pruned.tok, now, u) { assert u in r.tok.tokens && now < r.tok.tokens[u].expiresAt; }
  }

  lemma PrunedLadder(r: Room, now: Time)
    ensures Ladder(r.(tok := Prune(r.tok, now)), now) != [] <==> exists u :: Usable(r.tok, now, u)
  {
    var t := Prune(r.tok, now);
    var ladder := TokenLadder(t, r.doc.lastWriter, now);
    if ladder != [] {
      assert ladder[0] in ladder;
      Listed(t, r.doc.lastWriter, now, ladder[0]);
      PruneMeans(r.tok, now, ladder[0].user, now);
    }
    if u :| Usable(r.tok, now, u) {
      PruneMeans(r.tok, now, u, now);
      Listed(t, r.doc.lastWriter, now, Candidate(u, t.tokens[u].token));
    }
  }

  /**
   What a pass decides, on the room's fields: the close is due after its grace, the lock is refreshed
   in a room in use after ten minutes, taken if it has none and some token could, neither during a
   conflict, and an unused room is collected after fifteen minutes.
   */
  lemma PlanMeans(r: Room, now: Time)
    ensures var p := PlanOf(r, now);
      && p.now == now && p.haveLock == r.lock.haveLock && p.lockValue == r.lock.lockValue
      && (p.closeDue <==> r.life.closing && now >= r.life.closeAt)
      && (p.needRefresh <==>
            r.lock.haveLock && !r.conf.conflict && InUse(r, now) && now as int >= r.lock.lastLockAt + 10 * MINUTE)
      && (p.lockDue <==>
            !r.lock.haveLock && !r.conf.conflict && !p.closeDue && exists u :: Usable(r.tok, now, u))
      && (p.gcDue <==>
            && !InUse(r, now) && !r.life.closing
            && r.life.idleSince != 0 && now >= r.life.idleSince + 15 * MINUTE)
      && (p.versionCheckDue <==> !r.ver.skipCheckOnce && (r.ver.pendingCheck || p.needRefresh))
  {
    LiveMeans(r, now);
    PrunedLadder(r, now);
  }

  /** And what it leaves behind of them. */
  lemma PlannedMeans(r: Room, now: Time)
    ensures var r', p := RoomModel.Planned(r, now), PlanOf(r, now);
      && !r'.ver.skipCheckOnce
      && (r'.ver.pendingCheck <==> r.ver.pendingCheck && !(p.versionCheckDue && !p.closeDue))
      && r'.life.idleSince == (if InUse(r, now) || r.life.closing then 0
                               else if r.life.idleSince != 0 then r.life.idleSince else now)
      && r' == r.(tok := r'.tok, ver := r'.ver, life := r'.life)
      && r'.ver == r.ver.(skipCheckOnce := false, pendingCheck := r'.ver.pendingCheck)
      && r'.life == r.life.(idleSince := r'.life.idleSince, lastStuckLogAt := r'.life.lastStuckLogAt)
  {
    LiveMeans(r, now);
  }

  // ---------------------------------------------------------------------- writers

  /** Whoever posted last with a usable token is tried first, until somebody else posts. */
  lemma WriterComesFirst(r: Room, at: Time, data: Bytes, user: string, now: Time)
    requires user != "" && Usable(r.tok, now, user)
    ensures var r' := r.(doc := PutScene(r.doc, at, data, user)); var anonymous := PutScene(r'.doc, at, data, "");
      && Ladder(r', now) != [] && Ladder(r', now)[0] == Candidate(user, r.tok.tokens[user].token)
      && Ladder(r'.(doc := anonymous), now) == Ladder(r', now)
  {
    LadderMeaning(r.tok, user, now, Candidate(user, r.tok.tokens[user].token), 0, 0);
    LadderMeaning(r.tok, user, now, Ladder(r.(doc := PutScene(r.doc, at, data, user)), now)[0], 0, 0);
  }
}
