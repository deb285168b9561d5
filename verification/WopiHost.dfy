/**
 The WOPI host's side of one file: its content, its lock and the tokens it accepts.

 `Serve` is the specification of one authenticated request; class `Host` is the host
 itself, changed in place and proved against `Serve`. `MapError` is Drive's reading of
 the response status.
 */
module WopiHost {
  import opened Basics

  const LOCK_TTL: nat := 30 * MINUTE

  /** `access[t]` is token t's write ability on this file; an unlisted token is not valid for it. */
  datatype HostFile = HostFile(
    content: Bytes, version: string, lock: string, lockExp: Time, putCount: nat, access: map<string, bool>)

  datatype Request =
    | CheckFileInfo(token: string)
    | PutFile(token: string, lock: string, body: Bytes)
    | Lock(token: string, lock: string)
    | GetLock(token: string)
    | RefreshLock(token: string, lock: string)
    | Unlock(token: string, lock: string)
    | UnlockAndRelock(token: string, lock: string, oldLock: string)

  /** A response: the status, and the X-WOPI-Lock and X-WOPI-ItemVersion headers. */
  datatype Response = Response(status: int, lock: string, version: string)

  datatype WopiError =
    | TokenRejected
    | NoWriteAccess
    | LockConflict(currentLock: string)
    | NotFound
    | TooLarge
    | ProofRejected
    | HttpError(status: int)

  datatype Answer = Ok(version: string) | Err(error: WopiError)

  const OK: int := 200
  const UNAUTHORIZED: int := 401
  const FORBIDDEN: int := 403
  const CONFLICT: int := 409

  /** Drive's quirks: 403 is a bad token, 401 a valid token without write ability, 500 a bad proof. */
  function MapError(status: int, lockHeader: string): Option<WopiError> {
    if status == FORBIDDEN then Some(TokenRejected)
    else if status == UNAUTHORIZED then Some(NoWriteAccess)
    else if status == CONFLICT then Some(LockConflict(lockHeader))
    else if status == 404 then Some(NotFound)
    else if status == 412 || status == 413 then Some(TooLarge)
    else if status == 500 then Some(ProofRejected)
    else None
  }

  /** What the client reports to its caller for a response. */
  function ReadResponse(r: Response): Answer {
    if r.status == OK then Ok(r.version)
    else
      match MapError(r.status, r.lock)
      case Some(e) => Err(e)
      case None => Err(HttpError(r.status))
  }

  /** `h` with a lock past its lifetime cleared. */
  function Expire(h: HostFile, now: Time): HostFile {
    if h.lock != "" && now > h.lockExp then h.(lock := "") else h
  }

  function EffectiveLock(h: HostFile, now: Time): string {
    Expire(h, now).lock
  }

  function NeedsWrite(q: Request): bool {
    !q.CheckFileInfo?
  }

  /** The status the token check alone decides. */
  function Authenticate(h: HostFile, q: Request): int {
    if q.token == "" || q.token !in h.access then FORBIDDEN
    else if NeedsWrite(q) && !h.access[q.token] then UNAUTHORIZED
    else OK
  }

  function Take(h: HostFile, now: Time, lock: string): HostFile {
    h.(lock := lock, lockExp := now + LOCK_TTL)
  }

  const DONE: Response := Response(OK, "", "")

  function Refuse(lock: string): Response { Response(CONFLICT, lock, "") }

  /** One request at instant `now`: the file after it, and the response. */
  function Serve(versionOf: Bytes -> string, h: HostFile, now: Time, q: Request): (HostFile, Response) {
    var auth := Authenticate(h, q);
    if auth != OK then (h, Response(auth, "", ""))
    else if q.CheckFileInfo? then (h, Response(OK, "", h.version))
    else
      var e := Expire(h, now);
      match q
      case PutFile(_, lock, body) =>
        if (if lock == "" then e.lock != "" || e.content != [] else lock != e.lock) then (e, Refuse(e.lock))
        else
          (e.(content := body, version := versionOf(body), putCount := e.putCount + 1),
           Response(OK, "", versionOf(body)))
      case Lock(_, lock) =>
        if e.lock != "" && e.lock != lock then (e, Refuse(e.lock)) else (Take(e, now, lock), DONE)
      case GetLock(_) => (e, Response(OK, e.lock, ""))
      case RefreshLock(_, lock) =>
        if e.lock == "" || e.lock != lock then (e, Refuse(e.lock)) else (e.(lockExp := now + LOCK_TTL), DONE)
      case Unlock(_, lock) =>
        if e.lock == "" || e.lock != lock then (e, Refuse(e.lock)) else (e.(lock := ""), DONE)
      case UnlockAndRelock(_, lock, oldLock) =>
        if e.lock == "" || e.lock != oldLock then (e, Refuse(e.lock)) else (Take(e, now, lock), DONE)
  }

  /** The in-memory host for one file. */
  class Host {
    var content: Bytes
    var version: string
    var lock: string
    var lockExp: Time
    var putCount: nat
    var access: map<string, bool>

    function Model(): HostFile
      reads this
    {
      HostFile(content, version, lock, lockExp, putCount, access)
    }

    method EffectiveLock(now: Time) returns (current: string)
      modifies this`lock
      ensures Model() == Expire(old(Model()), now)
      ensures current == lock
    {
      if lock != "" && now > lockExp {
        lock := "";
      }
      current := lock;
    }

    method HandlePutFile(versionOf: Bytes -> string, now: Time, token: string, lockHeader: string, body: Bytes)
      returns (r: Response)
      modifies this
      ensures (Model(), r) == Serve(versionOf, old(Model()), now, PutFile(token, lockHeader, body))
    {
      var auth := Authenticate(Model(), PutFile(token, lockHeader, body));
      if auth != OK { return Response(auth, "", ""); }
      var current := EffectiveLock(now);
      if lockHeader == "" {
        if current != "" || |content| != 0 { return Refuse(current); }
      } else if lockHeader != current {
        return Refuse(current);
      }
      content := body;
      version := versionOf(body);
      putCount := putCount + 1;
      r := Response(OK, "", version);
    }

    /** LOCK, GET_LOCK, REFRESH_LOCK, UNLOCK and UNLOCK_AND_RELOCK behind one write-gated token check. */
    method HandleFileOp(versionOf: Bytes -> string, now: Time, q: Request) returns (r: Response)
      requires q.Lock? || q.GetLock? || q.RefreshLock? || q.Unlock? || q.UnlockAndRelock?
      modifies this
      ensures (Model(), r) == Serve(versionOf, old(Model()), now, q)
    {
      var auth := Authenticate(Model(), q);
      if auth != OK { return Response(auth, "", ""); }
      var current := EffectiveLock(now);
      match q {
        case Lock(_, newLock) =>
          if current != "" && current != newLock { return Refuse(current); }
          lock := newLock;
          lockExp := now + LOCK_TTL;
        case GetLock(_) => return Response(OK, current, "");
        case RefreshLock(_, lockHeader) =>
          if current == "" || current != lockHeader { return Refuse(current); }
          lockExp := now + LOCK_TTL;
        case Unlock(_, lockHeader) =>
          if current == "" || current != lockHeader { return Refuse(current); }
          lock := "";
        case UnlockAndRelock(_, newLock, oldLock) =>
          if current == "" || current != oldLock { return Refuse(current); }
          lock := newLock;
          lockExp := now + LOCK_TTL;
      }
      r := DONE;
    }

    method HandleCheckFileInfo(versionOf: Bytes -> string, now: Time, token: string) returns (r: Response)
      ensures (Model(), r) == Serve(versionOf, Model(), now, CheckFileInfo(token))
    {
      var auth := Authenticate(Model(), CheckFileInfo(token));
      r := if auth != OK then Response(auth, "", "") else Response(OK, "", version);
    }
  }

  /**
   The live lock after a request, for every request: it is what it was, unless the request was
   accepted and is a LOCK over no other lock, an UNLOCK of it, or an UNLOCK_AND_RELOCK naming it.
   */
  lemma LockChanges(versionOf: Bytes -> string, h: HostFile, now: Time, q: Request)
    ensures var (h', r) := Serve(versionOf, h, now, q);
      var before, after := EffectiveLock(h, now), EffectiveLock(h', now);
      && (r.status != OK ==> after == before && h'.content == h.content)
      && (r.status == OK ==>
            && (q.Lock? ==> before in {"", q.lock} && after == q.lock)
            && (q.UnlockAndRelock? ==> before == q.oldLock != "" && after == q.lock)
            && (q.Unlock? ==> before == q.lock != "" && after == "")
            && (q.RefreshLock? ==> before == q.lock == after != "")
            && (q.CheckFileInfo? ==> after == before)
            && (q.GetLock? ==> r.lock == after == before)
            && (q.PutFile? ==> after == before == q.lock && h'.content == q.body
                               && (q.lock == "" ==> h.content == [])))
      && (!q.PutFile? ==> h'.content == h.content)
  {
  }

  /**
   What the client reads off any answer of this host: a rejected token is one not valid for the
   file, no write access is a valid token asking for more than it may, a conflict names the live
   lock, and nothing else goes wrong.
   */
  lemma AnswersMean(versionOf: Bytes -> string, h: HostFile, now: Time, q: Request)
    ensures var (h', r) := Serve(versionOf, h, now, q); var a := ReadResponse(r);
      var valid := q.token != "" && q.token in h.access;
      && (a == Err(TokenRejected) <==> !valid)
      && (a == Err(NoWriteAccess) <==> valid && NeedsWrite(q) && !h.access[q.token])
      && (a.Err? && a.error.LockConflict? ==> a.error.currentLock == EffectiveLock(h, now) == EffectiveLock(h', now))
      && (a.Err? ==> a.error.TokenRejected? || a.error.NoWriteAccess? || a.error.LockConflict?)
      && (a.Ok? && (q.PutFile? || q.CheckFileInfo?) ==> a.version == h'.version)
  {
  }

  /** The four statuses with a meaning of their own, for any response; every other one is a fault. */
  lemma StatusMeans(r: Response)
    ensures var a := ReadResponse(r);
      && (a.Ok? <==> r.status == 200)
      && (a == Err(NoWriteAccess) <==> r.status == 401)
      && (a == Err(TokenRejected) <==> r.status == 403)
      && (forall v :: a == Err(LockConflict(v)) <==> r.status == 409 && r.lock == v)
      && (a == Err(ProofRejected) <==> r.status == 500)
      && (a.Ok? ==> a.version == r.version)
  {
  }
}
