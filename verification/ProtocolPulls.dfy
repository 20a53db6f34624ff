/** What a PULL sees, over whole runs: every push that was answered before it connected. */
module ProtocolPulls {
  import opened Manifest
  import opened Store
  import opened Protocol
  import opened ProtocolQueue
  import opened ProtocolPush
  import opened ProtocolStore
  import opened ProtocolHistory
  import opened ProtocolRuns
  import opened ProtocolTheorems

  // ---- what only grows ---------------------------------------------------------------------------

  /** A later state of the same run: log and arrivals have grown, and what was accepted in between
      was accepted after the pushes that were finished already. */
  ghost predicate Later(s: State, s': State) {
    && s.log <= s'.log && s.arrivals <= s'.arrivals && s.since <= s'.since
    && forall id :: |s.since| <= id < |s'.since| ==> |s.log| <= s'.since[id]
  }

  lemma MainIsLater(s: State, step: Step, s': State)
    requires MainNext(s, step, s')
    ensures Later(s, s')
  {
    hide WaitingSet;
  }

  lemma QueueIsLater(s: State, step: Step, s': State)
    requires QueueNext(s, step, s')
    ensures Later(s, s')
  {
  }

  lemma ClientIsLater(s: State, step: Step, s': State)
    requires ClientNext(s, step, s')
    ensures Later(s, s')
  {
    hide Head, ObjectReply;
  }

  lemma PushIsLater(hash: Hasher, s: State, step: Step, s': State)
    requires PushNext(hash, s, step, s')
    ensures Later(s, s')
  {
    hide PushNext;
    var w, decided, e := PushEffect(hash, s, step, s');
  }

  lemma NextIsLater(hash: Hasher, s: State, step: Step, s': State)
    requires Next(hash, s, step, s')
    ensures Later(s, s')
  {
    hide MainNext, QueueNext, ClientNext, PushNext, Later;
    if MainNext(s, step, s') {
      MainIsLater(s, step, s');
    } else if QueueNext(s, step, s') {
      QueueIsLater(s, step, s');
    } else if ClientNext(s, step, s') {
      ClientIsLater(s, step, s');
    } else {
      PushIsLater(hash, s, step, s');
    }
  }

  lemma LaterTrans(s: State, mid: State, s': State)
    requires Later(s, mid) && Later(mid, s')
    ensures Later(s, s')
  {
    forall id | |s.since| <= id < |s'.since|
      ensures |s.log| <= s'.since[id]
    {
      assert id < |mid.since| ==> mid.since[id] == s'.since[id];
    }
  }

  lemma LaterSame(s: State)
    ensures Later(s, s)
  {
  }

  lemma {:induction false} RunIsLater(hash: Hasher, start: Repo, states: seq<State>, steps: seq<Step>, a: nat, n: nat)
    requires IsRun(hash, start, states, steps) && a <= n < |states|
    ensures Later(states[a], states[n])
    decreases n
  {
    hide Next, Init, CollisionFree, Later;
    if a == n {
      LaterSame(states[a]);
    } else {
      RunIsLater(hash, start, states, steps, a, n - 1);
      NextIsLater(hash, states[n - 1], steps[n - 1], states[n]);
      LaterTrans(states[a], states[n - 1], states[n]);
    }
  }

  // ---- a PULL is not older than the pushes answered before it ---------------------------------------

  lemma SinceLater(hash: Hasher, start: Repo, s: State, s': State, id: nat)
    requires PullInv(hash, start, s) && Later(s, s') && PullInv(hash, start, s')
    requires |s.arrivals| <= id < |s'.arrivals|
    ensures Since(s', id) >= |s.log|
  {
    hide PullInv;
    SinceHolds(hash, start, s);
    SinceHolds(hash, start, s');
  }

  /** A PULL that connects after some state answers from the repository left by all the pushes that
      were finished in that state, and possibly later ones. */
  lemma PullNotStale(hash: Hasher, start: Repo, states: seq<State>, steps: seq<Step>, a: nat, n: nat, q: nat)
    requires IsRun(hash, start, states, steps) && a <= n < |states|
    requires |states[a].arrivals| <= q && q in states[n].replies && ReqOf(states[n], q).PullReq?
    ensures states[a].log <= states[n].log
    ensures PullSeen(hash, start, states[n].log, |states[a].log|, ReqOf(states[n], q).branch, states[n].replies[q])
  {
    hide IsRun, QueueInv, RefInv, BookInv, StoreInv, HistoryInv, Later, PullSeen, PullInv;
    RunIsLater(hash, start, states, steps, a, n);
    LaterLog(states[a], states[n]);
    InvRun(hash, start, states, steps, a);
    InvRun(hash, start, states, steps, n);
    SinceLater(hash, start, states[a], states[n], q);
    PullIsConsistent(hash, start, states, steps, n, q);
    SeenFromEarlier(hash, start, states[n].log, Since(states[n], q), |states[a].log|,
                    ReqOf(states[n], q).branch, states[n].replies[q]);
  }

  lemma LaterLog(s: State, s': State)
    requires Later(s, s')
    ensures s.log <= s'.log
  {
  }

  lemma SeenFromEarlier(hash: Hasher, start: Repo, log: seq<LogEntry>, from: nat, from': nat, branch: string,
                        reply: Reply)
    requires PullSeen(hash, start, log, from, branch, reply) && from' <= from
    ensures PullSeen(hash, start, log, from', branch, reply)
  {
    hide Past, PullReply;
  }

  /** A push that has been answered stands in the log, before whatever a later PULL sees. */
  lemma AnsweredBeforePull(hash: Hasher, start: Repo, states: seq<State>, steps: seq<Step>, a: nat, n: nat, p: nat,
                           q: nat)
    returns (i: nat)
    requires IsRun(hash, start, states, steps) && a <= n < |states|
    requires p in states[a].replies && ReqOf(states[a], p).PushReq?
    requires |states[a].arrivals| <= q && q in states[n].replies && ReqOf(states[n], q).PullReq?
    ensures var log := states[n].log;
            && i < |states[a].log| <= |log| && log[i].id == p && log[i].reply == states[a].replies[p]
            && PullSeen(hash, start, log, i + 1, ReqOf(states[n], q).branch, states[n].replies[q])
  {
    hide IsRun, Replay, LogGood, PullSeen, LogIds;
    PushesAreAtomic(hash, start, states, steps, a);
    PullNotStale(hash, start, states, steps, a, n, q);
    var reply := states[a].replies[p];
    assert AnswerLogged(states[a], p, reply);
    i :| 0 <= i < |states[a].log| && states[a].log[i].id == p && states[a].log[i].reply == reply;
    SeenFromEarlier(hash, start, states[n].log, |states[a].log|, i + 1, ReqOf(states[n], q).branch,
                    states[n].replies[q]);
  }

  // ---- PULL after an accepted push -------------------------------------------------------------------

  lemma HeadInObjects(hash: Hasher, repo: Repo, branch: string)
    requires Closed(hash, repo)
    ensures Head(repo, branch) != "" ==> Head(repo, branch) in repo.objects
  {
    hide GoodManifest, ContentAddressed;
  }

  lemma SameObject(a: map<string, string>, b: map<string, string>, objects: map<string, string>, h: string)
    requires Grows(a, objects) && Grows(b, objects) && h in a && h in b
    ensures a[h] == b[h]
  {
  }

  predicate SameHead(a: Repo, b: Repo, branch: string) {
    Head(a, branch) == Head(b, branch)
  }

  /** Two past repositories with the same head give the same answer. */
  lemma SameHeadSameReply(hash: Hasher, a: Repo, b: Repo, objects: map<string, string>, branch: string)
    requires Closed(hash, a) && Closed(hash, b) && Grows(a.objects, objects) && Grows(b.objects, objects)
    requires SameHead(a, b, branch)
    ensures PullReply(a, branch) == PullReply(b, branch)
  {
    hide Closed, Grows, Head;
    HeadInObjects(hash, a, branch);
    HeadInObjects(hash, b, branch);
    if Head(a, branch) != "" {
      SameObject(a.objects, b.objects, objects, Head(a, branch));
    }
  }

  lemma LoggedNames(hash: Hasher, s: State, i: nat)
    requires LogIds(s) && StoreInv(hash, s) && i < |s.log| && s.log[i].req.PushReq?
    ensures GoodNames(s.log[i].req.files)
  {
    hide Closed, TaskStored;
    assert GoodRequest(ReqOf(s, s.log[i].id));
  }

  lemma AttemptIsPush(hash: Hasher, repo: Repo, req: Request)
    requires req.PushReq?
    ensures Attempt(hash, repo, req, Fine) == AtomicPush(hash, repo, req.branch, req.parent, req.files, Fine)
  {
    hide AtomicPush;
  }

  /** The answer to a PULL on the repository that push i of the log has just left. */
  lemma PullBehindPush(hash: Hasher, start: Repo, log: seq<LogEntry>, i: nat, branch: string)
    requires LogGood(hash, start, log) && i < |log| && Moved(log, i, branch)
    requires Closed(hash, Past(hash, start, log, i)) && GoodNames(log[i].req.files)
    ensures PullsPush(hash, start, log, i, branch, PullReply(Past(hash, start, log, i + 1), branch))
  {
    var past := Past(hash, start, log, i);
    var e := log[i];
    PastStep(hash, start, log, i);
    EntryReply(hash, start, log, i);
    AttemptIsPush(hash, past, e.req);
    hide Closed, Past, GoodNames, Load, IsMerged, NewEntries, OldEntries, Listed, PullReply, AtomicPush, Attempt, Head,
         LogGood, Digest;
    PullAfterPush(hash, past, branch, e.req.parent, e.req.files);
  }

  lemma EntryReply(hash: Hasher, start: Repo, log: seq<LogEntry>, i: nat)
    requires LogGood(hash, start, log) && i < |log|
    ensures log[i].reply == Attempt(hash, Past(hash, start, log, i), log[i].req, log[i].luck).reply
  {
    hide Attempt, Replay;
    assert EntryGood(hash, start, log, i);
  }

  /** The reply is the object of push i: it hashes to the head that push left and loads as the exact
      merge of the manifest it found with its files. */
  ghost predicate PullsPush(hash: Hasher, start: Repo, log: seq<LogEntry>, i: nat, branch: string, reply: Reply)
    requires i < |log|
  {
    log[i].req.PushReq? &&
    var past := Past(hash, start, log, i);
    && reply.Content? && log[i].reply == Accepted(Digest(hash, reply.bytes))
    && var old_ := if branch in past.heads && past.heads[branch] in past.objects
                   then Load(past.objects[past.heads[branch]]) else [];
       && |old_| <= MAX_ENTRIES
       && IsMerged(old_, Listed(hash, log[i].req.files), Load(reply.bytes))
  }

  /** Entry i is the last to have moved the head of the branch. */
  ghost predicate LastMover(log: seq<LogEntry>, i: nat, branch: string) {
    Moved(log, i, branch) && forall j: nat :: i < j ==> !Moved(log, j, branch)
  }

  /** In every run: if push i was the last to move the head of a branch and was finished before a
      PULL of that branch connected, the PULL gets exactly what that push left. */
  lemma PullReadsLastPush(hash: Hasher, start: Repo, states: seq<State>, steps: seq<Step>,
                          a: nat, n: nat, i: nat, q: nat, branch: string)
    requires IsRun(hash, start, states, steps) && a <= n < |states|
    requires i < |states[a].log| && |states[a].arrivals| <= q
    requires q in states[n].replies && ReqOf(states[n], q) == PullReq(branch)
    requires LastMover(states[n].log, i, branch)
    ensures i < |states[n].log| && PullsPush(hash, start, states[n].log, i, branch, states[n].replies[q])
  {
    var s := states[n];
    hide IsRun, QueueInv, RefInv, StoreInv, PullInv, PullSeen, PullsPush, LastMover, LogGood, LogIds, HistoryInv,
         PullReply;
    PullNotStale(hash, start, states, steps, a, n, q);
    InvRun(hash, start, states, steps, n);
    PushesAreAtomic(hash, start, states, steps, n);
    LastPushSeen(hash, start, s, |states[a].log|, i, branch, s.replies[q]);
  }

  lemma KeptSince(hash: Hasher, start: Repo, log: seq<LogEntry>, i: nat, k: nat, branch: string)
    requires LogGood(hash, start, log) && LastMover(log, i, branch) && i < k <= |log|
    ensures SameHead(Past(hash, start, log, i + 1), Past(hash, start, log, k), branch)
  {
    hide LogGood, Past, Head, Moved;
    HeadKept(hash, start, log, i + 1, k, branch);
  }

  lemma SameReplySince(hash: Hasher, start: Repo, s: State, i: nat, k: nat, branch: string)
    requires LogGood(hash, start, s.log) && HistoryInv(hash, start, s) && i < k <= |s.log|
    requires LastMover(s.log, i, branch)
    ensures PullReply(Past(hash, start, s.log, i + 1), branch) == PullReply(Past(hash, start, s.log, k), branch)
  {
    hide LogGood, HistoryInv, LastMover, Replay, PullReply, SameHead, Closed, Grows;
    KeptSince(hash, start, s.log, i, k, branch);
    PastGood(hash, start, s, i + 1);
    PastGood(hash, start, s, k);
    SameHeadSameReply(hash, Past(hash, start, s.log, i + 1), Past(hash, start, s.log, k), s.repo.objects, branch);
  }

  lemma LastPushSeen(hash: Hasher, start: Repo, s: State, from: nat, i: nat, branch: string, reply: Reply)
    requires LogGood(hash, start, s.log) && LogIds(s) && StoreInv(hash, s) && HistoryInv(hash, start, s)
    requires i < from && PullSeen(hash, start, s.log, from, branch, reply)
    requires LastMover(s.log, i, branch)
    ensures i < |s.log| && PullsPush(hash, start, s.log, i, branch, reply)
  {
    hide Past, PullReply, LogGood, LogIds, StoreInv, HistoryInv, PullsPush, LastMover;
    MovedInLog(s.log, i, branch);
    var k: nat :| from <= k <= |s.log| && reply == PullReply(Past(hash, start, s.log, k), branch);
    hide *;
    SameReplySince(hash, start, s, i, k, branch);
    PastGood(hash, start, s, i);
    LoggedNames(hash, s, i);
    PullBehindPush(hash, start, s.log, i, branch);
  }

  lemma MovedInLog(log: seq<LogEntry>, i: nat, branch: string)
    requires LastMover(log, i, branch)
    ensures i < |log| && log[i].req.PushReq? && Moved(log, i, branch)
  {
  }
}
