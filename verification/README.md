# Verified model of the Excalidraw WOPI service

The service keeps one room per open drawing, saves it to a WOPI host under a lock, relays edits
between browsers over sockets, and routes each file to one replica. This project models its hard
core and proves what it promises, over every run and interleaving.

Four parts, each with its own modules:

- **Saving and locking** (`WopiHost`, `RoomModel`, `RoomObject`, `SaveMachine`, `SaveWorker`, and the
  theorems in `SaveSafety`, `LockSafety`, `SavePacing`, `VersionDrift`, `HostAnswers`, `PassLaws`,
  `RoomLaws`, `Takeover`, `TakeoverLimits`, `FirstPass`, `Lease`, `PastGrace`, `Replicas`, `FleetLease`,
  `Removal`, `RoomIndex`, `StaleTurns`). `SaveMachine` is one room, its background worker and its WOPI
  host as a state machine: a step is one critical section under the manager's mutex, one host call or
  one clock read (also the one PutScene makes before it waits for the mutex, manager.go:407-409), the
  worker's position is an explicit program counter, and request handlers, other users of the host and
  the clock may move between any two steps. Its `History` records what happened to the room; the
  theorems say which histories can occur. `RoomObject.RoomState` and `WopiHost.Host` do the critical
  sections and the host's operations in place, and `SaveWorker.Worker` is the worker's own code, loops
  and branches, proved to walk the machine; so the theorems hold of it. What the operations mean is
  stated on the room's fields, the host's file and the history, not through the functions that
  compute them.
- **Relay** (`Registry`, `Relay`, `EmitLocks`, `LiveUsers`): membership, the sticky syncer election, the messages a
  join or leave sends, the refcounted per-room mutexes that keep those messages in order, and what the
  manager learns of the members from inside them.
- **Scenes** (`Scenes`, `SceneMerge`, `SceneBroadcast`): the client's element merge and its incremental
  broadcast.
- **Peers and proof** (`Peers`, `ProofBase`): rendezvous ownership and the signed byte layout.

`Basics` and `Order` hold shared vocabulary. Where an object is changed in place there is a class whose
methods are proved against a function of its old value; what the service promises is proved about those
functions, or about runs of them.

Assumptions are written as preconditions. The main ones: a host call either takes effect and is
answered, or has no effect and is answered with an error (`Choice.glitch`); time is the whole number of
nanoseconds since Go's zero time; hashes are arbitrary functions.

Where the code and its own words differ, the model follows the code:

- save.go:375-376 says the takeover value is consumed whatever the outcome; save.go:394-407 puts it back
  after a token failure, and `Takeover` depends on that.
- save.go:549-555 says a close never discards the retained scene. It does when a handler makes the room
  dirty between the last look and the delete (`Removal.CloseCanDropAnEdit`; `Removal.RemovalsExplained`
  has the exact condition).
- An overwrite is not carried out by the next pass when the room believes it holds a lock old enough
  to refresh, and a reload takes no lock over while it believes it holds one
  (`Takeover.OverwriteCompletes` and `Takeover.ReloadTakesOver` have the exact conditions). A run from
  a fresh room leads there: refreshLock goes on to its next token after a conflict met on re-locking
  (save.go:491-496), and that token locks again (`TakeoverLimits.HeldConflictIsReached`).
- manager.go:698-719 is meant to keep scheduled saves 30 s apart. A post that waited for the mutex
  while a pass saved carries an older stamp and makes the next save due earlier, by as long as it
  waited (`SavePacing.SaveSpacing` has the exact condition, `SavePacing.LatePostIsDueEarly` a run).
- save.go:181-186 says an idle collection releases a held lock first. A deserted room has no live token
  to release it with, so it does only if a user got in after the plan, and else leaves the lock to its
  lifetime (`PassLaws.CollectionUnlocksIff`, `PassLaws.QuietCollectionKeepsLock`,
  `PassLaws.RevivedRoomGaveLockUp`).
- save.go:66-71 plans refreshes for as long as the room is live. A pass with a close due returns
  before it refreshes (save.go:150-153), so a room past its grace that stays dirty, and so live, loses
  its lock while it believes it holds it (`Lease.AbandonedLeaseLapses`;
  `PastGrace.LeaseEndsPastGrace` for every run).
- docs/ARCHITECTURE.md:138-143 says a room on two replicas stays safe because the lock value is the
  file's. No replica meets a foreign lock, but when one closes its room it gives up the lock the other
  one goes on believing in (`FleetLease.MoveIsHonest`, `FleetLease.SecondCloseEndsLease`).
- roomstate.go:66-71 calls liveUserCount the relay's join count. A record made while members are in
  starts at none of them, and is sure to be right only once the room was empty (`LiveUsers.LiveUsersAreMembers`, `LiveUsers.LateRecordIsShort`).
- save.go:611-614 says a removal cannot touch another room's entries. That holds of the file id index;
  the WOPISrc index loses another room's key when a record is removed a second time
  (`RoomIndex.SecondDropTakesAnothersKey`, `RoomIndex.DropKeepsIffOwnKeys`). evaluateAll can come to a
  record twice, since it lists one entry per alias (manager.go:312-316), and the second pass removes
  it again (`StaleTurns.RemovedOncePerSpelling`, `StaleTurns.SecondTurnTakesAnothersKey`).
- syncer.go:60-70 ranks a user by the earliest socket only, so a room can hold a writer and have no
  syncer (`Relay.MixedAccessCanStrand`, `Relay.WriterMeansSyncer`; `Relay.ElectsNobodyIff` says exactly when).

Run `dafny verify dfyconfig.toml` to check everything.

## Model

| member | source | states |
|---|---|---|
| SaveSafety.NoLostEdit | internal/room/save.go:228-272 | In every interleaving, a room that retains a scene and is not dirty retains the last scene posted, which is the body of the last PutFile the host accepted; it is dirty exactly while an edit or forced overwrite came after the start of the last recorded save |
| SaveSafety.EditDuringSaveStaysDirty | internal/room/save.go:228-247 | A scene posted at any moment of a save under way, whatever follows until the next save starts or a user resolves a conflict, leaves the room dirty with the last scene posted, also once that save is recorded |
| SaveSafety.ConflictFreezesHost | internal/room/manager.go:603-619 | No PutFile is sent or lands between a conflict's raise and its resolve; only the worker inside its pass raises the flag, only ResolveConflict lowers it; PutScene still replaces the retained scene |
| SaveSafety.UnlockedPutOnlyFirst | internal/room/save.go:238-244 | The host accepts an unlocked PutFile of this room only in the room's first save attempt ever, and only that attempt comes to sending one |
| SaveSafety.PushesTruthful | internal/room/manager.go:621-649 | No conflict-state push repeats the previous one, and after each notifyState, the worker's and ResolveConflict's, clients were last told of a conflict exactly if one is open, and of a stall exactly if a change is unsaved and write access was lost or saves have failed for five minutes, all read off the history |
| SaveSafety.WriteLostExactly | internal/room/save.go:741-764 | writeLost is up exactly when, since the last recorded save, some pass had candidates and got nothing but 401 from them |
| SaveSafety.OneWorker | internal/room/manager.go:337-347 | While a worker is inside a room no second one enters it |
| SaveSafety.CallChanges | internal/wopitest/host.go:248-398 | What a host call does to content and live lock, by request: nothing without an ok, and which lock an ok replaces |
| SaveSafety.HostOnlyByRequest | internal/room/save.go:290-357 | The worker changes the host only through the request of its current step, and its history gains a store or a takeover exactly when that request was granted |
| LockSafety.LockOnlyTakenWithConsent | internal/room/save.go:370-440 | The only worker step that moves a live foreign lock is an UnlockAndRelock to the room's own value, paid for by an unspent decision over that very lock: at no moment was a lock taken over more often than the user resolved a conflict that was open over it |
| LockSafety.PutLandsUnderOwnLock | internal/room/save.go:298-357 | An accepted PutFile lands under the room's own live lock, or, in the room's first save attempt ever, on an unlocked empty file |
| SavePacing.WaitClosedForm | internal/room/save.go:746-757 | The wait after the n-th failure in a row is min(2^(n-1), 300) seconds |
| SavePacing.RetryBound | internal/room/save.go:741-766 | In a failing streak driven by the loop the attempts are spaced by the doubling waits, so at most 10 + T/300 of them start within T seconds of the first |
| SavePacing.SaveSpacing | internal/room/manager.go:698-719 | Outside a streak a dirty unconflicted room is never due before 30 s after the last recorded attempt if and only if the last post was stamped no earlier than that attempt; it is early by at most that post's wait for the mutex, a past scheduled save by at most some post's; it is due by 60 s, and at once for its first save or a forced one |
| SavePacing.DistanceIff | internal/room/manager.go:702-719 | The same condition on the fields of any such room |
| SavePacing.LatePostIsDueEarly | internal/room/manager.go:402-422 | A run from a fresh room in which a post that read its clock a second before a pass lands after that pass saved, and the room is due 29 s after the save |
| SavePacing.CloseFlushes | internal/room/manager.go:727-735 | A close saves an unsaved, unconflicted room at once, unless the history has a retry pending |
| VersionDrift.ExpectedIsLastSaved | internal/room/save.go:726-739 | In every run the room knows a version exactly if it recorded a save no reload has dropped, and it is the version of that save's body |
| VersionDrift.CheckRaisesIffDrifted | internal/room/save.go:526-547 | In every run, when the worker asks for the version with a token the host knows and no fault intervenes, a conflict follows exactly if the host's version is not the last recorded save's |
| VersionDrift.WantedCheckDecides | internal/room/save.go:66-91 | An undisturbed pass over a room that saved, with a new user pending or a lock ten minutes old, and live tokens the host knows, opens a conflict exactly if the host's version is not that of the last recorded save |
| VersionDrift.NewUserIsChecked | internal/room/manager.go:450-464 | The first observation of a user in an unconflicted room that saved brings such a check about in the next pass |
| VersionDrift.OverwriteSkipsOneCheck | internal/room/save.go:72-80 | After an overwrite one pass bypasses the check, whatever is pending stays pending |
| HostAnswers.ForeignLockOpensConflict | internal/room/save.go:310-357 | In every run a 409 that names a foreign lock opens a conflict over it, drops the belief in the own one, and is pushed to clients, all before the next call |
| HostAnswers.OwnLockCountsAsHeld | internal/room/save.go:385-461 | A granted lock request, or a 409 that names the own value, leaves the room holding the lock |
| HostAnswers.EmptyConflictRetriesOnce | internal/room/save.go:420-437 | A LOCK answered by a 409 that names no lock is sent again once |
| HostAnswers.PutConflictDropsBelief | internal/room/save.go:339-353 | A PutFile's 409 over the own lock or none costs the room its belief and is no conflict |
| HostAnswers.RefusedTokenIsSetAside | internal/room/save.go:673-719 | A 403 or 401 to a save's or refresh's call sets exactly that token aside before the next call: its users are unusable for two minutes, after a 401 for good, and nobody else is touched |
| HostAnswers.FaultTriesNext | internal/room/save.go:327-357 | A fault of PutFile changes nothing but the turn: the next candidate is tried, or the save is recorded as failed |
| HostAnswers.FirstAttemptFallsBack | internal/room/save.go:315-330 | In every run, when LOCK fails with a fault, the scene goes out unlocked exactly in the room's first save attempt, and the host takes it exactly if the token may write and the file is unlocked and empty |
| RoomLaws.LadderMeaning | internal/room/roomstate.go:145-180 | The ladder lists exactly the live, write-capable tokens not refused in the last two minutes, each user once, the last writer first and the others by user id |
| RoomLaws.RefusalMeans | internal/room/save.go:693-719 | After a refusal no user of another token is better or worse off at any instant; that token's users are out for exactly two minutes after a 403, and for good after a 401 |
| RoomLaws.RefusalLadder | internal/room/save.go:673-719 | Right after a refusal the ladder is the old one without that token's candidates |
| RoomLaws.RefusedUntilObserved | internal/room/save.go:706-719 | In every run a user whose write access was taken stays off the ladder until observed again |
| RoomLaws.PruneMeans | internal/room/manager.go:667-681 | Pruning drops exactly the expired tokens, and changes nobody's place on any later ladder |
| RoomLaws.ObserveMeans | internal/room/manager.go:450-464 | An observation records its user's token, forgets expired ones, and changes nobody else's standing at any instant |
| RoomLaws.WarnedOnce | internal/room/save.go:628-660 | A token is warned about in the last ten minutes of its life, unless it was before, and never twice |
| RoomLaws.WriterComesFirst | internal/room/manager.go:413-418 | Whoever posted last with a usable token heads the ladder, and an anonymous post does not change that |
| RoomLaws.PlanMeans | internal/room/save.go:32-103 | Every decision of a pass on the room's fields: close after its grace, refresh of a room in use after ten minutes, the lock taken if a token could, neither during a conflict, collection after fifteen unused minutes, and the check |
| RoomLaws.PlannedMeans | internal/room/save.go:66-103 | What the plan leaves: one skip spent, a pending check kept unless it is about to run, the idle time kept, started or dropped, all else as it was |
| PassLaws.CollectionUnlocksIff | internal/room/save.go:187-207 | A collection of a room with a lock sends UNLOCK exactly if some user has a usable token by then |
| PassLaws.QuietCollectionKeepsLock | internal/room/save.go:181-221 | If nobody gets in after the plan, the collection of a room that holds the lock ends with the lock still at the host |
| PassLaws.RevivedRoomGaveLockUp | internal/room/save.go:187-221 | If a user does, the lock is given up with that user's token, and the room stays and knows |
| PassLaws.CollectionLooksAgain | internal/room/save.go:208-221 | The delete of a collection removes exactly a room that is still deserted; any other stays, and its idle time starts over |
| PassLaws.FailedUnlockKeepsRoom | internal/room/save.go:193-196 | A collection whose UNLOCK fails leaves the room as it is |
| PassLaws.FailedUnlockCloses | internal/room/save.go:593-608 | A close whose UNLOCK fails removes the room all the same |
| PassLaws.RejoinCancelsClose | internal/room/save.go:557-589 | A join cancels a close at each of its two looks, and nothing else changes |
| PassLaws.LooksAtCleanRoom | internal/room/save.go:575-589 | A close's last look is at a clean room whose close is due |
| PassLaws.FlushIgnoresSchedule | internal/room/manager.go:246-303 | Shutdown's flush starts a save of an unsaved, unconflicted room whatever the schedule says |
| PassLaws.ConflictStopsRefresh | internal/room/save.go:155-161 | A conflict stops the refresh before its first call, else that call goes out with the ladder's first token |
| PassLaws.CloseKeepsPendingCheck | internal/room/save.go:81-87 | A pending version check survives a pass that closes the room |
| PassLaws.StuckLoggedHourly | internal/room/save.go:108-115 | A stuck conflict that was never logged is logged at once, not again within the hour, and again after it |
| Takeover.OverwriteCompletes | internal/room/manager.go:562-573 | With the foreign lock live, some ladder token accepted and every earlier one refused with 401 or 403, the undisturbed pass after an overwrite ends with the retained scene stored under the own lock if and only if the room did not think it held a lock of refresh age; in that case the conflict is back and the content untouched |
| Takeover.ReloadTakesOver | internal/room/manager.go:574-589 | After a reload, with the first ladder token accepted, the undisturbed pass leaves the host's content as it was, and ends under the own lock without a scene if and only if the room did not think it held the lock |
| TakeoverLimits.HeldConflictIsReached | internal/room/save.go:480-512 | A run from a fresh room to a live foreign lock under a conflict over it, with the first token accepted, while the room believes it holds a lock of refresh age: the failing inputs of both resolutions occur |
| Takeover.LockRefused | internal/room/save.go:393-407 | A token failure in ensureLocked leaves the one-shot takeover value in the room |
| Takeover.PruneWarnLadder | internal/room/roomstate.go:145-170 | Pruning and warning change nobody's place on the token ladder |
| FirstPass.ComesToRest | internal/room/save.go:121-179 | A clean fresh room's first undisturbed pass with an accepted token comes to rest with its own lock live at the host |
| FirstPass.StoresFirst | internal/room/save.go:121-179 | A dirty one's also stores the retained scene under it |
| Lease.LeaseNeverLapses | internal/room/save.go:463-520 | From a fresh room, or from rest with a young lease or none after any run: with passes at most d apart, 10 min + d < 30 min, and a token accepted at each refresh, a live, unconflicted room within its close grace that has its lock has its own value live at the host at every moment |
| Lease.StaysLeased | internal/room/save.go:463-520 | The lease invariant survives such a run from any state that satisfies it |
| Lease.AbandonedLeaseLapses | internal/room/save.go:121-160 | The grace is the limit: from rest after a fresh room's first pass a run that keeps every other assumption ends with the lock lapsed at the host while the live, unconflicted room believes it holds it |
| PastGrace.LeaseEndsPastGrace | internal/room/save.go:121-160 | In every run from rest in which the room stays past its grace no REFRESH_LOCK is sent, and unless a step takes the lock anew it is gone when its lifetime is over |
| Lease.OthersAreHonest | internal/wopitest/host.go:331-398 | A request of anybody keeps a live own lock, for as long as before or a full lifetime, unless it is accepted and gives that very lock up, if and only if; one that names other values leaves the expiry alone. This is all the lease asks of others |
| Replicas.ReplicasShareTheLock | internal/room/lockvalue.go:13-24 | However many managers serve one file, alone with its host, the lock is none or the one derived value, and no room ever raises a conflict over a lock |
| Replicas.FreshManagerAcquires | internal/room/save.go:162-171 | Whatever the fleet did before, a manager that opens the room and observes a user with an accepted token comes to rest after its first pass holding the lock, even while a dead manager's lock is live |
| Replicas.AskingManagerAcquires | internal/room/save.go:410-454 | At any later moment a manager that calls LOCK with an accepted token has the lock two steps on |
| Replicas.LockValuesDiffer | internal/room/lockvalue.go:21-24 | Two files share a lock value exactly if their digests agree in the first sixteen digits, and it names the service |
| FleetLease.MoveIsHonest | docs/ARCHITECTURE.md:138-143 | Any move of the rest of a fleet keeps or prolongs a replica's lease if and only if it is not another replica's granted UNLOCK, which ends it unnoticed |
| FleetLease.FleetKeepsLease | internal/room/save.go:463-520 | After any run of a fleet, from a replica's joining or resting with a young lease or none: while no other replica's UNLOCK is granted, under the lease's assumptions on its own passes, its lock is live at every moment it has it |
| FleetLease.SecondCloseEndsLease | internal/room/save.go:574-608 | A run of two fresh managers in which the second one's close takes away the lock the first believes it holds |
| Removal.RemovalsExplained | internal/room/save.go:93-103 | A room leaves the index only by a worker's delete; idle collection drops only a room that is deserted and that every pass of the last fifteen minutes found so; a close drops a dirty one exactly when a handler made it dirty after the last look |
| Removal.CloseCanDropAnEdit | internal/room/save.go:574-608 | A run from a fresh room in which a close drops a scene posted after its last look |
| Removal.RemovedTwice | internal/room/manager.go:311-335 | A run from a fresh room that removes the same record twice |
| Removal.CollectedAfterFifteenMinutes | internal/room/save.go:93-103 | A run in which a room deserted from the start is collected by the pass fifteen minutes after the first |
| RoomIndex.OneRoomPerFile | internal/room/manager.go:355-397 | In every allowed run a spelling is indexed if and only if it was observed and its file's room was not removed since, under the first room made for the file since the last removal; two indexed spellings share a room exactly when they are of one file, and the file id index leads to that room |
| RoomIndex.ObserveKeeps | internal/room/manager.go:450-458 | Observing keeps both indexes consistent, whatever alias it comes under |
| RoomIndex.PostKeepsIffObserved | internal/room/manager.go:409-411 | Posting a scene keeps the indexes consistent if and only if its WOPISrc is already indexed |
| RoomIndex.UnobservedPostMakesZombie | internal/room/manager.go:363-371 | Otherwise a run ends with an indexed room no file id leads to |
| RoomIndex.DropKeepsIffOwnKeys | internal/room/save.go:611-624 | Removing a record keeps the indexes consistent if and only if none of its spellings leads to another room |
| RoomIndex.DropTakesExactlyItsKeys | internal/room/save.go:615-624 | Removing an indexed room takes all of its keys and no others |
| RoomIndex.SecondDropTakesAnothersKey | internal/room/save.go:616-618 | Removing the same record again after its file came back takes the new room's WOPISrc key |
| StaleTurns.RemovedOncePerSpelling | internal/room/manager.go:311-335 | In every run of a manager a record is removed at most once for each spelling it ever had, and once removed no index leads to it |
| StaleTurns.SecondTurnTakesAnothersKey | internal/room/save.go:611-624 | A run from a fresh room of two spellings: both turns are listed, the first removes the record, the file is observed again, the second turn takes the new room's WOPISrc key |
| RoomIndex.Manager.FindOrMake | internal/room/manager.go:372-390 | The spelling's room, the file's room under another spelling, or a new one, and every other room as it was |
| RoomIndex.Manager.RoomLocked | internal/room/manager.go:372-397 | Also records the file id and the lock value it gives |
| RoomIndex.Manager.DeleteRoomLocked | internal/room/save.go:615-624 | Both indexes after the loop over the record's spellings |
| RoomIndex.Manager.PutScene | internal/room/manager.go:402-422 | A scene over the cap is refused without a trace; any other becomes the whole scene group of exactly one room, whose other groups and every other room stay as they were |
| RoomIndex.Manager.Observe | internal/room/manager.go:450-467 | One room takes the token, and is pruned, checked and indexed accordingly |
| RoomIndex.Manager.GetScene | internal/room/manager.go:428-437 | Nothing for an unknown WOPISrc or a dropped scene, else the retained one |
| RoomIndex.Manager.OnJoin | internal/room/manager.go:475-497 | The file's room counts one more and drops a pending close, and is otherwise as it was, like every other room and both indexes; nothing for an unknown file |
| RoomIndex.Manager.OnLeave | internal/room/manager.go:501-518 | The same for a leave |
| WopiHost.LockChanges | internal/wopitest/host.go:244-398 | Every way a request can change the live lock or the content |
| WopiHost.AnswersMean | internal/hostadapter/drive.go:45-62 | What each error read off this host's answers says about the token, its access and the live lock |
| WopiHost.StatusMeans | internal/hostadapter/drive.go:45-62 | For any response: accepted exactly at 200, no write access at 401, a rejected token at 403, a conflict over the named lock at 409 |
| WopiHost.Host.EffectiveLock | internal/wopitest/host.go:389-398 | Clears an expired lock as it reads it |
| WopiHost.Host.HandlePutFile | internal/wopitest/host.go:248-293 | The file and response are those of the specified request, with the empty-file rule |
| WopiHost.Host.HandleFileOp | internal/wopitest/host.go:299-387 | The same for LOCK, GET_LOCK, REFRESH_LOCK, UNLOCK and UNLOCK_AND_RELOCK |
| WopiHost.Host.HandleCheckFileInfo | internal/wopitest/host.go:196-224 | The same for the version a check reads |
| RoomObject.SortByUser | internal/room/roomstate.go:165 | Sorts candidates by user id, keeping each |
| RoomObject.RoomState.TokenLadder | internal/room/roomstate.go:150-170 | The loop and sort give the last writer first if eligible, then every other eligible user once, in id order |
| RoomObject.RoomState.TokenRecentlyFailed | internal/room/roomstate.go:174-180 | A token failed within the last two minutes |
| RoomObject.RoomState.AnyLiveToken | internal/room/roomstate.go:187-197 | The ladder's first token, else some unexpired one, else none |
| RoomObject.RoomState.RoomLive | internal/room/manager.go:686-696 | Live exactly when dirty, joined, or holding an unexpired token |
| RoomObject.RoomState.PruneTokens | internal/room/manager.go:667-681 | Exactly the unexpired tokens stay, and the recent failures of those |
| RoomObject.RoomState.MarkRefused | internal/room/save.go:682-719 | A refusal is remembered, and a 401 takes write access from every user of that token |
| RoomObject.RoomState.CheckTokenExpiry | internal/room/save.go:628-660 | Exactly the unwarned tokens about to expire are warned about and marked |
| RoomObject.RoomState.PutScene | internal/room/manager.go:409-418 | The scene part after a post |
| RoomObject.RoomState.Observe | internal/room/manager.go:450-464 | The room after an observation: token, pruning, and a version check for a new user of a saved, unconflicted room |
| RoomObject.RoomState.OnJoin | internal/room/manager.go:489-494 | A join counts and cancels a pending close |
| RoomObject.RoomState.OnLeave | internal/room/manager.go:508-515 | A leave counts down to zero and starts the close grace of an empty room |
| RoomObject.RoomState.ResolveConflict | internal/room/manager.go:554-592 | Both branches, and nothing without a conflict |
| RoomObject.RoomState.EnterConflict | internal/room/manager.go:607-616 | The conflict is raised, a named foreign lock kept, a stale lock dropped |
| RoomObject.RoomState.SaveStalled | internal/room/manager.go:651-660 | Dirty with write access lost or five minutes of failures |
| RoomObject.RoomState.NotifyState | internal/room/manager.go:629-649 | Reports exactly when the client-facing state changed, and then that state |
| RoomObject.RoomState.SaveDue | internal/room/manager.go:702-719 | The earlier of throttle and quiet window, unless a retry is pending or it is the first save |
| RoomObject.RoomState.CloseSaveDue | internal/room/manager.go:727-735 | Only a pending retry delays a close's flush |
| RoomObject.RoomState.VersionCheckPlan | internal/room/save.go:66-88 | When a pass checks and refreshes, and which flags survive it |
| RoomObject.RoomState.IdleGCPlan | internal/room/save.go:93-103 | Since when the room idles, and whether that is long enough |
| RoomObject.RoomState.StuckConflictPlan | internal/room/save.go:108-115 | The hourly log of a stuck conflict |
| RoomObject.RoomState.PlanPass | internal/room/save.go:32-61 | The room and every decision after planPass, the stuck-conflict log included |
| RoomObject.RoomState.MarkLocked | internal/room/save.go:456-461 | The lock is held since the pass began |
| RoomObject.RoomState.RecordSaveSuccess | internal/room/save.go:726-739 | Dirty clears only for the sequence number that was sent; markers and schedule are reset |
| RoomObject.RoomState.RecordSaveFailure | internal/room/save.go:746-764 | Backoff doubles up to five minutes, the streak keeps its start, write loss is only ever set |
| RoomObject.RoomState.TryEnterInFlight | internal/room/manager.go:339-347 | Entered exactly when nobody was |
| SaveWorker.Worker.Yield | internal/room/manager.go:154-156 | Any handlers, host changes and clock ticks between two critical sections are steps of the machine and leave the worker where it is |
| SaveWorker.Worker.Ask | internal/room/save.go:299-330 | A host call through the client is the machine's call: the host's own code, or an error without effect |
| SaveWorker.Worker.EnsureLocked | internal/room/save.go:377-440 | Returns no error exactly where the machine goes on with the lock, and the error it goes on with otherwise |
| SaveWorker.Worker.LockPlainly | internal/room/save.go:410-440 | LOCK with its one retry of an empty-lock 409 |
| SaveWorker.Worker.ResolveForeignLock | internal/room/save.go:447-454 | The own value counts as held, any other is a conflict |
| SaveWorker.Worker.AttemptSave | internal/room/save.go:298-357 | One candidate's outcome, and where the machine is after it |
| SaveWorker.Worker.WalkLadder | internal/room/save.go:255-271 | The loop over the ladder tracks allNoWrite and ends the save as the machine does |
| SaveWorker.Worker.PerformSave | internal/room/save.go:228-272 | The whole save walks the machine from its first section to its return |
| SaveWorker.Worker.RefreshWith | internal/room/save.go:481-512 | One candidate of refreshLock's loop |
| SaveWorker.Worker.RefreshTheLock | internal/room/save.go:470-520 | The whole of refreshLock walks the machine |
| SaveWorker.Worker.CheckVersion | internal/room/save.go:526-547 | The whole of checkVersion walks the machine |
| SaveWorker.Worker.GcRoom | internal/room/save.go:187-221 | The whole of gcRoom walks the machine |
| SaveWorker.Worker.PerformClose | internal/room/save.go:556-609 | The whole of performClose walks the machine |
| SaveWorker.Worker.EvaluateRoom | internal/room/save.go:121-179 | A background pass walks the machine from its clock read to its last notification |
| SaveWorker.Worker.Evaluate | internal/room/manager.go:311-335 | One room's turn in evaluateAll, with the inFlight guard |
| SaveWorker.Worker.Flush | internal/room/manager.go:246-303 | One room's turn in flushAll walks the machine, and reports the room incomplete exactly when it was still dirty after the attempt |
| SaveWorker.Worker.Loop | internal/room/manager.go:208-222 | After any number of passes, with everybody moving in between and inside them, the objects themselves have lost no edit, stored nothing during a conflict, pushed truthfully and taken no lock more often than a user agreed to |
| Registry.PresenceMeaning | internal/relay/rooms.go:108-136 | A roster lists every user once, in first-join order, with exactly that user's sockets |
| Registry.Registry.Join | internal/relay/rooms.go:45-66 | Membership, election and answer of a join, other rooms untouched |
| Registry.Registry.Leave | internal/relay/rooms.go:73-106 | Membership, election and outcome of a leave, empty rooms dropped |
| Registry.Registry.Elect | internal/relay/syncer.go:26-39 | The election and the sockets it names |
| Registry.Registry.ElectNextUser | internal/relay/syncer.go:59-71 | The loop with its seen set finds the first user whose earliest socket can write |
| Registry.Registry.HasSocket | internal/relay/syncer.go:78-85 | Finds a writable socket of the user exactly when there is one |
| Registry.Registry.SocketIDsForUser | internal/relay/syncer.go:89-100 | The user's sockets in join order |
| Registry.Registry.DemotionTargets | internal/relay/syncer.go:49-54 | The old syncer's remaining sockets, unless it stays |
| Registry.Registry.ListPresence | internal/relay/rooms.go:110-136 | The map of rows and the order list give the specified roster |
| Relay.BeliefsAgree | internal/relay/relay.go:234-277 | After any run of joins and leaves every member has the current roster and the right designation, and the room is sound |
| Relay.OneSyncerBelieved | internal/relay/syncer.go:26-84 | Members told to sync are sockets of the one named syncer, who can save, and each of its writable sockets was told |
| Relay.SyncerlessMeansReadOnlyFirst | internal/relay/syncer.go:56-71 | In a room without a syncer every member's user came first with a read-only socket |
| Relay.SyncerIsSticky | internal/relay/syncer.go:15-19 | A named syncer changes only when its last writable socket leaves |
| Relay.JoinAgrees | internal/relay/relay.go:253-277 | A join's emits put everybody right |
| Relay.JoinIsAnnounced | internal/relay/relay.go:253-277 | Everybody in the room, the newcomer included, hears who came, and the newcomer is to sync exactly if it is of the syncer's user and can write |
| Relay.LeaveAgrees | internal/relay/relay.go:331-355 | A leave's emits put everybody who stays right |
| Relay.SocketsOfMeans | internal/relay/syncer.go:87-100 | A socket is among a user's sockets exactly when a member of that user has it |
| Relay.NextFromMeans | internal/relay/syncer.go:56-71 | The elected user is that of the first qualifying member, and none qualifies when there is none |
| Relay.ElectsNobodyIff | internal/relay/syncer.go:26-71 | An election without a holder yields no syncer if and only if no member qualifies |
| Relay.WriterMeansSyncer | internal/relay/syncer.go:60-70 | With the same access on all of a user's sockets, a room with a writer has a syncer |
| Relay.MixedAccessCanStrand | internal/relay/syncer.go:60-70 | Without it, a user who came read-only first leaves a room with a writer syncer-less |
| Relay.Handlers.OnJoinRoom | internal/relay/relay.go:220-291 | The registry change, the three emits in order and the manager's event of a join; nothing for a closed socket |
| Relay.Handlers.OnDisconnecting | internal/relay/relay.go:317-357 | The same for a leave; nothing for a socket that never joined |
| EmitLocks.AtMostOneInside | internal/relay/emitlocks.go:5-14 | Under any interleaving two goroutines are never in one room's critical section |
| EmitLocks.EntriesExact | internal/relay/emitlocks.go:19-30 | Everybody who holds or awaits a room shares its one map entry, the count is exactly their number, and the entry exists exactly while there are any |
| EmitLocks.QuietRoomAgrees | internal/relay/relay.go:234-277 | Whenever nobody is between a mutation and its last emit every member's roster and designation are current; otherwise they will be after the emits still to go |
| EmitLocks.RoomEmitLocks.ReferTo | internal/relay/emitlocks.go:39-48 | lock's section on the map |
| EmitLocks.RoomEmitLocks.DropReferenceTo | internal/relay/emitlocks.go:67-75 | Unlock's section on the map |
| EmitLocks.Server.JoinRoom | internal/relay/relay.go:234-291 | The whole of a join under a free room's emit lock: the lock map ends as it began, and roster, emits and event are the specified ones |
| EmitLocks.Server.Disconnecting | internal/relay/relay.go:317-357 | The same for a leave |
| LiveUsers.LiveUsersAreMembers | internal/relay/relay.go:276-287 | However handlers interleave, when nobody is between a room's mutation and its unlock the manager counts at most its members, and exactly them if the file was known at a moment at which the room was empty; a record that heard of anybody is closing exactly when the room is empty, and due ten seconds after it heard of the last leave |
| LiveUsers.LateRecordIsShort | internal/room/manager.go:475-497 | A record made for a quiet room counts right from the start if and only if the room is empty |
| SceneMerge.MergeSceneElements | web/src/utils/syncSceneData.ts:220-251 | The two loops with their added set compute the specified merge |
| SceneMerge.ArrayToMap | web/src/utils/syncSceneData.ts:204-212 | Maps each id to its last element |
| SceneMerge.LastOfMeans | web/src/utils/syncSceneData.ts:204-212 | Of several local elements with one id the last counts |
| SceneMerge.MergeMeaning | web/src/utils/syncSceneData.ts:220-251 | For all inputs: no id twice, exactly the ids of both scenes, and for each the chosen element |
| SceneMerge.PickIsNewestIff | web/src/utils/syncSceneData.ts:174-197 | The pick has the higher version, and of equal versions the lower nonce, if and only if not the remote one is newer while the local one is being drawn or resized or an embeddable otherwise alike; it never falls behind the local one |
| SceneMerge.ResultIsNewest | web/src/utils/syncSceneData.ts:220-251 | Any grouping of merges of plain, coherent scenes holds exactly, of each element, the one nobody has a higher version of, nor a lower nonce of the same version |
| SceneMerge.MergesConverge | web/src/hooks/useBoardDataManager.ts:164-167 | Two groupings over the same versions end with the same elements |
| SceneMerge.SemilatticeLaws | web/src/utils/syncSceneData.ts:214-251 | The merge is commutative, associative and idempotent up to order |
| SceneBroadcast.SendsKeepPeersCurrent | web/src/utils/syncSceneData.ts:103-137 | After each init, update or healing send a peer that upserts by id holds every element at its exact version and nonce |
| SceneBroadcast.SendsWhenItMust | web/src/utils/syncSceneData.ts:103-126 | Before a first send every tick sends the whole scene, and healing sends it exactly from then on; no tick sends an empty message for a scene that is not empty |
| SceneBroadcast.SkipsKeepPeersCurrent | web/src/utils/syncSceneData.ts:115-117 | Also after a skip, if equal hashes mean equal id and marker lists |
| SceneBroadcast.HashFoldsScene | web/src/utils/syncSceneData.ts:14-45 | The hash folds every version, nonce and deletion of the scene in order, then the number of deletions, from 5381; an empty scene's is 1 |
| SceneBroadcast.MixIsOneToOne | web/src/utils/syncSceneData.ts:28-32 | A round of the hash is one-to-one in the hash so far and in the 32-bit word it takes in |
| SceneBroadcast.EditIsSent | web/src/utils/syncSceneData.ts:103-126 | In every run, a change of one element's version alone or nonce alone after a send changes the hash, is sent at the next tick, and is held by the peer, with no assumption about the hash |
| SceneBroadcast.OneNonceHides | web/src/utils/syncSceneData.ts:14-45 | When both numbers change, at most one word of the new nonce goes unseen |
| SceneBroadcast.DeltaEqualsFull | web/src/hooks/useSync.ts:351-438 | Where a marker determines its element the peer holds the sender's very elements after an incremental send |
| SceneBroadcast.RenamedElementIsSkipped | web/src/utils/syncSceneData.ts:14-45 | The hash does not look at ids: an element under a new id goes unseen |
| SceneBroadcast.IncrementalMeans | web/src/utils/syncSceneData.ts:128-137 | The difference is exactly the elements with another or no marker |
| SceneBroadcast.ComputeElementVersionHash | web/src/utils/syncSceneData.ts:14-45 | The loop computes the specified 32-bit hash |
| SceneBroadcast.BuildBroadcastedElementVersions | web/src/utils/syncSceneData.ts:61-68 | The markers of exactly these elements |
| SceneBroadcast.UpdateBroadcastedElementVersions | web/src/utils/syncSceneData.ts:70-85 | The markers overwritten by these elements |
| SceneBroadcast.SceneSync.GetIncrementalSceneElements | web/src/utils/syncSceneData.ts:128-137 | The filter gives the specified difference |
| SceneBroadcast.SceneSync.DecideSceneBroadcast | web/src/utils/syncSceneData.ts:103-126 | Init, skip, update, or init again on an empty difference |
| SceneBroadcast.SceneSync.DoSyncViaWebSocket | web/src/hooks/useSync.ts:361-386 | The refs and the payload after a tick |
| SceneBroadcast.SceneSync.DoPeriodicFullSceneHealing | web/src/hooks/useSync.ts:422-438 | The refs and the payload after healing, nothing before a first send |
| SceneBroadcast.SceneSync.Reset | web/src/hooks/useSync.ts:231-251 | The refs are as if nothing was sent |
| Peers.RendezvousOwner | internal/peers/rendezvous.go:12-23 | For any scoring function the loop returns the unique peer with the highest score, and of those the greatest name, whatever the order and repetitions of the list |
| Peers.RemovalKeepsOthersFiles | internal/peers/rendezvous.go:8-11 | A peer that leaves takes only its own files along |
| Peers.AdditionMovesOnlyToNewcomer | internal/peers/rendezvous.go:8-11 | A peer that joins only takes files over; none moves between old peers |
| Peers.OneOwner | internal/peers/peers.go:132-153 | Replicas with equal snapshots both own a file if and only if the snapshot is empty; with a non-empty one exactly one does if all are listed |
| Peers.Cluster.ResolveOnce | internal/peers/dns.go:100-133 | The snapshot is the sorted set of the answers' URLs, so it does not depend on their order or repetitions; a failed lookup keeps it |
| Peers.Cluster.Owner | internal/peers/peers.go:132-144 | None when disabled, self without peers, else the winner |
| Peers.Cluster.IsSelf | internal/peers/peers.go:146-153 | Whether this replica owns the file |
| ProofBase.SignedBase | internal/proof/sign.go:52-69 | The appends build, byte by byte, the token and the URL each behind its length, then 8 and the ticks, numbers with the most significant byte first and ASCII letters of the URL raised |
| ProofBase.DecodesLayout | internal/proof/sign.go:46-51 | A decoder recovers token, URL and ticks for fields under 2^32 bytes |
| ProofBase.DecodedWasLaidOut | internal/proof/sign.go:46-51 | What the decoder accepts is the layout of what it returns |
| ProofBase.BasesDiffer | internal/proof/sign.go:52-69 | Two requests share a signed base if and only if token, uppercased URL and ticks agree |
| ProofBase.UpperMeaning | internal/proof/sign.go:54-59 | Each lower-case ASCII letter is raised and no other byte changes, so two URLs agree after it exactly when they differ in letter case alone |
| ProofBase.TicksFit | internal/proof/sign.go:40-44 | Ticks of every 64-bit UnixNano are positive 64-bit numbers, monotone, and truncate toward the Unix epoch |

## Left out

- Lease.LeaseNeverLapses: a room past its close grace is left out, because the code does not refresh its lock (`PastGrace.LeaseEndsPastGrace`); Shutdown's flush is left out, because it runs after the loop has stopped.
- Takeover.ReloadTakesOver: about a conflict over a foreign lock; a version-drift conflict has none to take over.
- SaveWorker.Worker.Loop: models one room; the bounded pool that evaluates rooms side by side only orders passes of different rooms.
- EmitLocks.Server.JoinRoom: models one goroutine that finds the room's mutex free; waiting for it is a step of the machine in `EmitLocks`, whose theorems hold for any number of goroutines.
- EmitLocks.Server.Disconnecting: the same.
- RoomIndex.OneRoomPerFile: runs in which a scene is posted under an unobserved WOPISrc or a record is removed twice are excluded, since the two counterexamples show that they break it.
- WopiHost.Host.HandleCheckFileInfo: models the version alone, the one field of the response a save or check depends on.
- ProofBase.SignedBase: models uppercasing of ASCII letters only; the source relies on its URLs being ASCII.
- Rooms that PutScene creates before any Observe are in `RoomIndex` but not in `SaveMachine`, whose room starts from an Observe.
- The wopiSrc a room calls the host with, GetFile and the file's name and owner: they do not affect the lock or the save.
- Responses lost after the host applied a call, and call timeouts: a failed call has no effect in the model.
- Deliveries of the three manager hooks other than conflict-state pushes, the wake channel and the poll timer: a pass may begin at any time.
- Wrap-around of the 64-bit scene counter and of Go's time arithmetic.
- A dropped scene saved after an overwrite goes out as an empty body, as a nil slice does; whether the host should accept that is not judged.
- The digest behind the lock value, the MD5 version marker and the rendezvous score are arbitrary functions; nothing depends on their being free of collisions.
- Emits of init-room, image transfer and the socket.io adapter's own room membership, taken to mirror the registry.
- The scheduler's fairness: a goroutine that waits for an emit lock may wait forever.
- isDeepEqual and every element field but id, version, nonce, kind and deletion: a parameter and one opaque field.
- The files part of doSyncViaWebSocket, the gates before it, and throttling.
- Cluster start and stop, DNS lookups, the reverse proxy and the RSA signature.
- HTTP, session tokens, encryption, board API, discovery, configuration and the user interface.
