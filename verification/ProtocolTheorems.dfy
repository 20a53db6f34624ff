/** Consequences over whole runs: one winner of a race, chains of parents, order. */
module ProtocolTheorems {
  import opened CStrings
  import opened Manifest
  import opened Store
  import opened Protocol
  import opened ProtocolQueue
  import opened ProtocolPush
  import opened ProtocolStore
  import opened ProtocolHistory
  import opened ProtocolRuns

  // ---- accepted pushes on a branch form a chain -------------------------------------------------

  /** Entry i moved the head of the branch. */
  predicate Moved(log: seq<LogEntry>, i: nat, branch: string) {
    i < |log| && log[i].req.PushReq? && log[i].req.branch == branch && log[i].luck.Fine? && log[i].reply.Accepted?
  }

  lemma AttemptHead(hash: Hasher, repo: Repo, req: Request, luck: Luck, branch: string)
    requires req.PushReq?
    ensures var o := Attempt(hash, repo, req, luck);
            var moves := req.branch == branch && luck.Fine? && o.reply.Accepted?;
            && Head(o.repo, branch) == (if moves then o.reply.hash else Head(repo, branch))
            && (moves ==> o.reply.hash != "" && !Rejects(repo, branch, req.parent))
  {
    hide Print, NewEntries, PutFiles, Digest, Rejects;
  }

  /** The head of a branch after the first k logged pushes. */
  function HeadAt(hash: Hasher, start: Repo, log: seq<LogEntry>, k: nat, branch: string): string {
    if k <= |log| then Head(Past(hash, start, log, k), branch) else ""
  }

  /** One logged push either moves the head of its own branch or moves none. */
  lemma HeadStep(hash: Hasher, start: Repo, log: seq<LogEntry>, i: nat, branch: string)
    requires LogGood(hash, start, log) && i < |log|
    ensures HeadAt(hash, start, log, i + 1, branch) ==
            if Moved(log, i, branch) then log[i].reply.hash else HeadAt(hash, start, log, i, branch)
    ensures Moved(log, i, branch) ==>
              && log[i].reply.hash != ""
              && (HeadAt(hash, start, log, i, branch) == "" || HeadAt(hash, start, log, i, branch) == log[i].req.parent)
  {
    assert EntryGood(hash, start, log, i);
    hide Attempt, Head, Replay, LogGood;
    PastStep(hash, start, log, i);
    AttemptHead(hash, Past(hash, start, log, i), log[i].req, log[i].luck, branch);
  }

  lemma {:induction false} HeadKept(hash: Hasher, start: Repo, log: seq<LogEntry>, i: nat, j: nat, branch: string)
    requires LogGood(hash, start, log) && i <= j <= |log|
    requires forall k: nat :: i <= k < j ==> !Moved(log, k, branch)
    ensures HeadAt(hash, start, log, j, branch) == HeadAt(hash, start, log, i, branch)
    decreases j
  {
    if i < j {
      HeadKept(hash, start, log, i, j - 1, branch);
      hide LogGood, HeadAt, Moved;
      HeadStep(hash, start, log, j - 1, branch);
    }
  }

  lemma MovedIsAccepted(log: seq<LogEntry>, i: nat, branch: string)
    requires Moved(log, i, branch)
    ensures i < |log| && log[i].reply.Accepted?
  {
  }

  /** The last accepted push before position j left the head that position j finds. */
  lemma HeadSince(hash: Hasher, start: Repo, log: seq<LogEntry>, i: nat, j: nat, branch: string)
    requires LogGood(hash, start, log) && i < j <= |log| && Moved(log, i, branch)
    requires forall k: nat :: i < k < j ==> !Moved(log, k, branch)
    ensures HeadAt(hash, start, log, j, branch) == log[i].reply.hash != ""
  {
    hide LogGood, HeadAt, Moved;
    MovedIsAccepted(log, i, branch);
    HeadStep(hash, start, log, i, branch);
    HeadKept(hash, start, log, i + 1, j, branch);
  }

  lemma ChainInLog(hash: Hasher, start: Repo, log: seq<LogEntry>, i: nat, j: nat, branch: string)
    requires LogGood(hash, start, log) && i < j && Moved(log, i, branch) && Moved(log, j, branch)
    requires forall k: nat :: i < k < j ==> !Moved(log, k, branch)
    ensures log[j].req.parent == log[i].reply.hash
  {
    hide LogGood, HeadAt;
    HeadSince(hash, start, log, i, j, branch);
    HeadStep(hash, start, log, j, branch);
  }

  lemma {:induction false} LastMoved(log: seq<LogEntry>, i: nat, j: nat, branch: string) returns (m: nat)
    requires i < j <= |log| && Moved(log, i, branch)
    ensures i <= m < j && Moved(log, m, branch)
    ensures forall k: nat :: m < k < j ==> !Moved(log, k, branch)
    decreases j
  {
    if Moved(log, j - 1, branch) {
      m := j - 1;
    } else {
      m := LastMoved(log, i, j - 1, branch);
    }
  }

  /** A push after an accepted one is let through exactly when the last accepted push before it left
      the head that it names as parent. */
  lemma ThroughInLog(hash: Hasher, start: Repo, log: seq<LogEntry>, i: nat, j: nat, branch: string) returns (m: nat)
    requires LogGood(hash, start, log) && i < j < |log| && Moved(log, i, branch)
    requires log[j].req.PushReq? && log[j].req.branch == branch
    ensures i <= m < j && Moved(log, m, branch) && forall k: nat :: m < k < j ==> !Moved(log, k, branch)
    ensures log[j].reply != Conflict <==> log[m].reply.hash == log[j].req.parent
  {
    hide LogGood, Past, Moved;
    m := LastMoved(log, i, j, branch);
    MovedIsAccepted(log, m, branch);
    HeadSince(hash, start, log, m, j, branch);
    RejectedInLog(hash, start, log, j);
  }

  /** In every run, each accepted push on a branch names as parent the head that the accepted push
      before it left. */
  lemma AcceptedPushesChain(hash: Hasher, start: Repo, states: seq<State>, steps: seq<Step>,
                            n: nat, i: nat, j: nat, branch: string)
    requires IsRun(hash, start, states, steps) && n < |states|
    requires i < j && Moved(states[n].log, i, branch) && Moved(states[n].log, j, branch)
    requires forall k: nat :: i < k < j ==> !Moved(states[n].log, k, branch)
    ensures states[n].log[j].req.parent == states[n].log[i].reply.hash
  {
    hide IsRun, LogGood, Moved, Replay, AnswerLogged, LogIds;
    PushesAreAtomic(hash, start, states, steps, n);
    ChainInLog(hash, start, states[n].log, i, j, branch);
  }

  /** In every run, a push to a branch after an accepted one is let through if and only if the last
      accepted push between them, or that one itself, left the head that it names.  So a second push
      on a parent off which the first moved the head gets through exactly when a third one in
      between moved the head back. */
  lemma SharedParentMovedBack(hash: Hasher, start: Repo, states: seq<State>, steps: seq<Step>,
                              n: nat, i: nat, j: nat, branch: string) returns (m: nat)
    requires IsRun(hash, start, states, steps) && n < |states|
    requires i < j < |states[n].log| && Moved(states[n].log, i, branch)
    requires states[n].log[j].req.PushReq? && states[n].log[j].req.branch == branch
    ensures var log := states[n].log;
            && i <= m < j && Moved(log, m, branch) && (forall k: nat :: m < k < j ==> !Moved(log, k, branch))
            && (log[j].reply != Conflict <==> log[m].reply.hash == log[j].req.parent)
            && (log[j].reply != Conflict && log[i].reply.hash != log[j].req.parent ==> i < m)
  {
    hide *;
    PushesAreAtomic(hash, start, states, steps, n);
    m := ThroughInLog(hash, start, states[n].log, i, j, branch);
  }

  // ---- one winner ---------------------------------------------------------------------------------

  predicate PushesTo(req: Request, branch: string) {
    req.PushReq? && req.branch == branch
  }

  /** The reply to a push that met a failure of the server: no receive buffer, or no temporary file
      for the manifest. */
  predicate Failed(reply: Reply) {
    reply == Dropped || reply == Accepted("")
  }

  /** All pushes to the branch are on top of the same parent. */
  ghost predicate SameRace(log: seq<LogEntry>, branch: string, parent: string) {
    forall i :: 0 <= i < |log| && PushesTo(log[i].req, branch) ==> log[i].req.parent == parent
  }

  ghost predicate NoManifestHash(hash: Hasher, parent: string) {
    forall es :: Digest(hash, Print(es)) != parent
  }

  lemma MovedHash(hash: Hasher, start: Repo, log: seq<LogEntry>, i: nat, branch: string)
    requires LogGood(hash, start, log) && Moved(log, i, branch)
    ensures exists es :: log[i].reply.hash == Digest(hash, Print(es))
  {
    hide Print, NewEntries, PutFiles, Digest;
    assert EntryGood(hash, start, log, i);
    var past := Replay(hash, start, log[..i]);
    assert log[i].reply.hash == Digest(hash, Print(NewEntries(hash, past, branch, log[i].req.files)));
  }

  lemma MovedOffParent(hash: Hasher, start: Repo, log: seq<LogEntry>, i: nat, branch: string, parent: string)
    requires LogGood(hash, start, log) && Moved(log, i, branch) && NoManifestHash(hash, parent)
    ensures log[i].reply.hash != parent
  {
    hide LogGood, Print, Digest;
    MovedHash(hash, start, log, i, branch);
  }

  /** What one push of the race gets, by the head it finds. */
  lemma RaceEntry(hash: Hasher, start: Repo, log: seq<LogEntry>, i: nat, branch: string)
    requires LogGood(hash, start, log) && i < |log| && PushesTo(log[i].req, branch)
    ensures var head := HeadAt(hash, start, log, i, branch);
            if head != "" && head != log[i].req.parent then log[i].reply == Conflict
            else Moved(log, i, branch) || Failed(log[i].reply)
  {
    hide Print, NewEntries, PutFiles, Digest, Head, Replay;
    assert EntryGood(hash, start, log, i);
  }

  /** Of the first k entries, all pushes to the branch but entry m failed, or came after it and
      conflicted. */
  ghost predicate OthersLost(log: seq<LogEntry>, k: nat, branch: string, m: Option<nat>)
  {
    forall i :: 0 <= i < k && i < |log| && PushesTo(log[i].req, branch) && m != Some(i) ==>
      Failed(log[i].reply) || (m.Some? && log[i].reply == Conflict)
  }

  lemma OthersNext(log: seq<LogEntry>, k: nat, branch: string, m: Option<nat>)
    requires k < |log| && OthersLost(log, k, branch, m)
    requires PushesTo(log[k].req, branch) ==> Failed(log[k].reply) || (m.Some? && log[k].reply == Conflict)
    ensures OthersLost(log, k + 1, branch, m)
  {
    hide PushesTo, Failed;
  }

  lemma OthersMove(log: seq<LogEntry>, k: nat, branch: string)
    requires k < |log| && OthersLost(log, k, branch, None)
    ensures OthersLost(log, k + 1, branch, Some(k))
  {
    hide PushesTo, Failed;
  }

  /** The head that entry m, if any, has left. */
  function WonHead(log: seq<LogEntry>, m: Option<nat>): string {
    if m.Some? && m.value < |log| && log[m.value].reply.Accepted? then log[m.value].reply.hash else ""
  }

  /** After the first k entries: no push to the branch got through, or exactly one did. */
  ghost predicate RaceAfter(hash: Hasher, start: Repo, log: seq<LogEntry>, k: nat, branch: string, parent: string,
                            m: Option<nat>)
    requires k <= |log|
  {
    && HeadAt(hash, start, log, k, branch) == WonHead(log, m)
    && (m.Some? ==> m.value < k && Moved(log, m.value, branch) && WonHead(log, m) != "" && WonHead(log, m) != parent)
    && OthersLost(log, k, branch, m)
  }

  lemma RaceMoves(hash: Hasher, start: Repo, log: seq<LogEntry>, k: nat, branch: string, parent: string, m: Option<nat>)
    requires LogGood(hash, start, log) && SameRace(log, branch, parent) && NoManifestHash(hash, parent)
    requires k < |log| && RaceAfter(hash, start, log, k, branch, parent, m) && Moved(log, k, branch)
    ensures RaceAfter(hash, start, log, k + 1, branch, parent, Some(k))
  {
    hide LogGood, HeadAt, NoManifestHash, OthersLost;
    HeadStep(hash, start, log, k, branch);
    RaceEntry(hash, start, log, k, branch);
    MovedOffParent(hash, start, log, k, branch, parent);
    assert m == None;
    OthersMove(log, k, branch);
  }

  lemma RaceStays(hash: Hasher, start: Repo, log: seq<LogEntry>, k: nat, branch: string, parent: string, m: Option<nat>)
    requires LogGood(hash, start, log) && SameRace(log, branch, parent)
    requires k < |log| && RaceAfter(hash, start, log, k, branch, parent, m) && !Moved(log, k, branch)
    ensures RaceAfter(hash, start, log, k + 1, branch, parent, m)
  {
    hide LogGood, HeadAt, Moved, OthersLost, Failed;
    HeadStep(hash, start, log, k, branch);
    if PushesTo(log[k].req, branch) {
      RaceEntry(hash, start, log, k, branch);
    }
    OthersNext(log, k, branch, m);
  }

  lemma RaceNext(hash: Hasher, start: Repo, log: seq<LogEntry>, k: nat, branch: string, parent: string, m: Option<nat>)
    returns (m': Option<nat>)
    requires LogGood(hash, start, log) && SameRace(log, branch, parent) && NoManifestHash(hash, parent)
    requires k < |log| && RaceAfter(hash, start, log, k, branch, parent, m)
    ensures RaceAfter(hash, start, log, k + 1, branch, parent, m')
  {
    hide *;
    if Moved(log, k, branch) {
      m' := Some(k);
      RaceMoves(hash, start, log, k, branch, parent, m);
    } else {
      m' := m;
      RaceStays(hash, start, log, k, branch, parent, m);
    }
  }

  lemma {:induction false} RaceLog(hash: Hasher, start: Repo, log: seq<LogEntry>, k: nat, branch: string,
                                   parent: string)
    returns (m: Option<nat>)
    requires LogGood(hash, start, log) && SameRace(log, branch, parent) && NoManifestHash(hash, parent)
    requires Head(start, branch) == "" && k <= |log|
    ensures RaceAfter(hash, start, log, k, branch, parent, m)
    decreases k
  {
    if k == 0 {
      m := None;
      HeadAtStart(hash, start, log, branch);
    } else {
      hide LogGood, SameRace, NoManifestHash, Head, RaceAfter;
      m := RaceLog(hash, start, log, k - 1, branch, parent);
      m := RaceNext(hash, start, log, k - 1, branch, parent, m);
    }
  }

  lemma HeadAtStart(hash: Hasher, start: Repo, log: seq<LogEntry>, branch: string)
    ensures HeadAt(hash, start, log, 0, branch) == Head(start, branch)
  {
  }

  /** Connection id pushes to the branch. */
  predicate Races(s: State, id: nat, branch: string) {
    id < |s.arrivals| && PushesTo(s.arrivals[id], branch)
  }

  /** All connections that push to the branch name one parent and are answered.  There may be any
      other connections. */
  ghost predicate AllRaced(s: State, branch: string, parent: string) {
    forall id: nat :: Races(s, id, branch) ==> s.arrivals[id].parent == parent && id in s.replies
  }

  ghost predicate WonBy(s: State, branch: string, winner: nat) {
    && Races(s, winner, branch) && winner in s.replies
    && s.replies[winner].Accepted? && Head(s.repo, branch) == s.replies[winner].hash && s.replies[winner].hash != ""
    && forall id: nat :: Races(s, id, branch) && id != winner ==>
         id in s.replies && (s.replies[id] == Conflict || Failed(s.replies[id]))
  }

  ghost predicate SomeoneSpared(s: State, branch: string) {
    exists id: nat :: Races(s, id, branch) && id in s.replies && !Failed(s.replies[id])
  }

  /** However many clients race on an empty branch, among any other traffic and in every
      interleaving: if some push meets no failure of the server, exactly one is accepted and the
      others get the conflict reply, failures apart; if all meet one, the branch stays empty. */
  lemma ExactlyOneWinner(hash: Hasher, start: Repo, states: seq<State>, steps: seq<Step>, branch: string,
                         parent: string)
    returns (winner: Option<nat>)
    requires IsRun(hash, start, states, steps)
    requires Head(start, branch) == "" && NoManifestHash(hash, parent)
    requires AllRaced(states[|states| - 1], branch, parent)
    ensures var s := states[|states| - 1];
            && (winner.Some? <==> SomeoneSpared(s, branch))
            && if winner.Some? then WonBy(s, branch, winner.value) else Head(s.repo, branch) == ""
  {
    var s := states[|states| - 1];
    hide IsRun, LogGood, Replay, AllRaced, WonBy, LogIds, AnswerLogged, NoManifestHash, Head, HeadAt, RaceAfter,
         SameRace, Moved, SomeoneSpared;
    PushesAreAtomic(hash, start, states, steps, |states| - 1);
    RaceArrivals(s, branch, parent);
    var m := RaceLog(hash, start, s.log, |s.log|, branch, parent);
    HeadAtEnd(hash, start, s, branch);
    if m.Some? {
      RaceWon(hash, start, s, branch, parent, m.value);
      winner := Some(s.log[m.value].id);
    } else {
      RaceLost(hash, start, s, branch, parent);
      winner := None;
    }
  }

  lemma HeadAtEnd(hash: Hasher, start: Repo, s: State, branch: string)
    requires s.repo.heads == Replay(hash, start, s.log).heads
    ensures HeadAt(hash, start, s.log, |s.log|, branch) == Head(s.repo, branch)
  {
    hide Replay;
    assert s.log[..|s.log|] == s.log;
  }

  lemma RaceArrivals(s: State, branch: string, parent: string)
    requires AllRaced(s, branch, parent) && LogIds(s)
    ensures SameRace(s.log, branch, parent)
  {
    forall i | 0 <= i < |s.log| && PushesTo(s.log[i].req, branch)
      ensures s.log[i].req.parent == parent
    {
      assert Races(s, s.log[i].id, branch);
    }
  }

  /** The log entry that answers a push of the race. */
  lemma RaceAnswer(s: State, branch: string, parent: string, id: nat) returns (i: nat)
    requires AllRaced(s, branch, parent) && LogIds(s) && Races(s, id, branch)
    requires forall id: nat :: id in s.replies ==> AnswerLogged(s, id, s.replies[id])
    ensures id in s.replies && i < |s.log| && s.log[i].id == id && s.log[i].reply == s.replies[id]
    ensures PushesTo(s.log[i].req, branch)
  {
    assert AnswerLogged(s, id, s.replies[id]);
    i :| 0 <= i < |s.log| && s.log[i].id == id && s.log[i].reply == s.replies[id];
  }

  lemma RaceOthers(hash: Hasher, start: Repo, s: State, branch: string, parent: string, m: Option<nat>, id: nat)
    requires AllRaced(s, branch, parent) && LogIds(s) && Races(s, id, branch)
    requires forall id: nat :: id in s.replies ==> AnswerLogged(s, id, s.replies[id])
    requires RaceAfter(hash, start, s.log, |s.log|, branch, parent, m)
    ensures id in s.replies
    ensures m.Some? && s.log[m.value].id == id ==> s.replies[id] == s.log[m.value].reply
    ensures !(m.Some? && s.log[m.value].id == id) ==>
              Failed(s.replies[id]) || (m.Some? && s.replies[id] == Conflict)
  {
    hide AllRaced, AnswerLogged, HeadAt;
    var i := RaceAnswer(s, branch, parent, id);
    if m.Some? && s.log[m.value].id == id {
      assert i == m.value;
    }
  }

  lemma RaceWinner(hash: Hasher, start: Repo, s: State, branch: string, parent: string, m: nat)
    requires AllRaced(s, branch, parent) && LogIds(s)
    requires forall id: nat :: id in s.replies ==> AnswerLogged(s, id, s.replies[id])
    requires RaceAfter(hash, start, s.log, |s.log|, branch, parent, Some(m))
    requires HeadAt(hash, start, s.log, |s.log|, branch) == Head(s.repo, branch)
    ensures m < |s.log|
    ensures var winner := s.log[m].id;
            && Races(s, winner, branch) && winner in s.replies && s.replies[winner].Accepted?
            && Head(s.repo, branch) == s.replies[winner].hash && s.replies[winner].hash != ""
            && SomeoneSpared(s, branch)
  {
    hide *;
    RaceAfterWon(hash, start, s.log, branch, parent, m);
    WinnerRaces(s, m, branch);
    RaceOthers(hash, start, s, branch, parent, Some(m), s.log[m].id);
    WinnerSpared(s, branch, s.log[m].id);
  }

  lemma RaceAfterWon(hash: Hasher, start: Repo, log: seq<LogEntry>, branch: string, parent: string, m: nat)
    requires RaceAfter(hash, start, log, |log|, branch, parent, Some(m))
    ensures m < |log| && Moved(log, m, branch) && log[m].reply.Accepted?
    ensures HeadAt(hash, start, log, |log|, branch) == log[m].reply.hash && log[m].reply.hash != ""
  {
    hide HeadAt, OthersLost;
  }

  lemma WinnerRaces(s: State, m: nat, branch: string)
    requires LogIds(s) && m < |s.log| && Moved(s.log, m, branch)
    ensures Races(s, s.log[m].id, branch)
  {
  }

  lemma WinnerSpared(s: State, branch: string, id: nat)
    requires Races(s, id, branch) && id in s.replies && s.replies[id].Accepted? && s.replies[id].hash != ""
    ensures SomeoneSpared(s, branch)
  {
    hide Races;
  }

  lemma RaceWon(hash: Hasher, start: Repo, s: State, branch: string, parent: string, m: nat)
    requires AllRaced(s, branch, parent) && LogIds(s)
    requires forall id: nat :: id in s.replies ==> AnswerLogged(s, id, s.replies[id])
    requires RaceAfter(hash, start, s.log, |s.log|, branch, parent, Some(m))
    requires HeadAt(hash, start, s.log, |s.log|, branch) == Head(s.repo, branch)
    ensures m < |s.log|
    ensures WonBy(s, branch, s.log[m].id) && SomeoneSpared(s, branch)
  {
    hide AllRaced, AnswerLogged, HeadAt, Head, Races, LogIds, RaceAfter, Failed, SomeoneSpared;
    RaceWinner(hash, start, s, branch, parent, m);
    forall id: nat | Races(s, id, branch) && id != s.log[m].id
      ensures id in s.replies && (s.replies[id] == Conflict || Failed(s.replies[id]))
    {
      RaceOthers(hash, start, s, branch, parent, Some(m), id);
    }
  }

  lemma RaceLost(hash: Hasher, start: Repo, s: State, branch: string, parent: string)
    requires AllRaced(s, branch, parent) && LogIds(s)
    requires forall id: nat :: id in s.replies ==> AnswerLogged(s, id, s.replies[id])
    requires RaceAfter(hash, start, s.log, |s.log|, branch, parent, None)
    requires HeadAt(hash, start, s.log, |s.log|, branch) == Head(s.repo, branch)
    ensures Head(s.repo, branch) == "" && !SomeoneSpared(s, branch)
  {
    hide AllRaced, AnswerLogged, HeadAt, Head, Races;
    forall id: nat | Races(s, id, branch) && id in s.replies
      ensures Failed(s.replies[id])
    {
      RaceOthers(hash, start, s, branch, parent, None, id);
    }
  }

  // ---- order -----------------------------------------------------------------------------------

  lemma TakenStep(hash: Hasher, s: State, step: Step, s': State)
    requires QueueInv(s) && Next(hash, s, step, s')
    ensures TakenCount(s') == TakenCount(s) + if step.Take? then 1 else 0
    ensures step.Take? ==> step.w < |s'.tasks| && s'.tasks[step.w] == Leaving(TakenCount(s))
  {
    hide ClientNext, PushNext, LockInv, WakeupInv, OwnerInv;
    if ClientNext(s, step, s') {
      var w := ClientIsBusy(s, step, s');
      ClientTakesNone(s, step, s');
    } else if PushNext(hash, s, step, s') {
      var w := PushIsBusy(hash, s, step, s');
      PushTakesNone(hash, s, step, s');
    }
  }

  lemma ClientTakesNone(s: State, step: Step, s': State)
    requires ClientNext(s, step, s')
    ensures !step.Take?
  {
  }

  lemma PushTakesNone(hash: Hasher, s: State, step: Step, s': State)
    requires PushNext(hash, s, step, s')
    ensures !step.Take?
  {
  }

  lemma {:induction false} TakenGrows(hash: Hasher, start: Repo, states: seq<State>, steps: seq<Step>, i: nat, j: nat)
    requires IsRun(hash, start, states, steps) && i <= j < |states|
    ensures TakenCount(states[i]) <= TakenCount(states[j])
    decreases j
  {
    hide Next, Init, TakenCount, CollisionFree, RefInv, StoreInv, BookInv, HistoryInv, PullInv, QueueInv;
    if i < j {
      TakenGrows(hash, start, states, steps, i, j - 1);
      InvRun(hash, start, states, steps, j - 1);
      TakenStep(hash, states[j - 1], steps[j - 1], states[j]);
    }
  }

  /** Connections leave the queue in the order in which they were accepted. */
  lemma TakenInOrder(hash: Hasher, start: Repo, states: seq<State>, steps: seq<Step>, i: nat, j: nat)
    requires IsRun(hash, start, states, steps) && i < j < |steps| && steps[i].Take? && steps[j].Take?
    ensures steps[i].w < |states[i + 1].tasks| && states[i + 1].tasks[steps[i].w].Leaving?
    ensures steps[j].w < |states[j + 1].tasks| && states[j + 1].tasks[steps[j].w].Leaving?
    ensures states[i + 1].tasks[steps[i].w].id < states[j + 1].tasks[steps[j].w].id
  {
    hide Init, Next, CollisionFree, TakenCount, RefInv, StoreInv, BookInv, HistoryInv, PullInv, QueueInv;
    InvRun(hash, start, states, steps, i);
    InvRun(hash, start, states, steps, j);
    TakenStep(hash, states[i], steps[i], states[i + 1]);
    TakenStep(hash, states[j], steps[j], states[j + 1]);
    TakenGrows(hash, start, states, steps, i + 1, j);
  }
}
