/** The log and the answers agree, and a PULL answers from a repository that really existed. */
module ProtocolHistory {
  import opened Manifest
  import opened Store
  import opened Protocol
  import opened ProtocolQueue
  import opened ProtocolPush
  import opened ProtocolStore

  // ---- the log against the connections --------------------------------------------------------

  predicate Undecided(s: State, w: nat) {
    w < |s.tasks| && HasClient(s.tasks[w]) && !s.tasks[w].Finishing? && !s.tasks[w].Replying?
  }

  predicate Answering(s: State, w: nat) {
    w < |s.tasks| && (s.tasks[w].Finishing? || s.tasks[w].Replying?)
  }

  ghost predicate Logged(log: seq<LogEntry>, id: nat, reply: Reply) {
    exists i :: 0 <= i < |log| && log[i].id == id && log[i].reply == reply
  }

  /** A push that has an answer is in the log with that answer. */
  ghost predicate AnswerLogged(s: State, id: nat, reply: Reply) {
    id < |s.arrivals| && (s.arrivals[id].PushReq? ==> Logged(s.log, id, reply))
  }

  ghost predicate LogIds(s: State) {
    && (forall i :: 0 <= i < |s.log| ==> s.log[i].id < TakenCount(s) && s.log[i].req == ReqOf(s, s.log[i].id))
    && (forall i, j :: 0 <= i < j < |s.log| ==> s.log[i].id != s.log[j].id)
  }

  function ReqOf(s: State, id: nat): Request {
    if id < |s.arrivals| then s.arrivals[id] else BadReq
  }

  ghost predicate BookInv(s: State) {
    && LogIds(s)
    && (forall w: nat, i :: Undecided(s, w) && 0 <= i < |s.log| ==> s.log[i].id != s.tasks[w].id)
    && (forall w: nat :: Answering(s, w) ==> AnswerLogged(s, s.tasks[w].id, s.tasks[w].reply))
    && (forall id: nat :: id in s.replies ==> AnswerLogged(s, id, s.replies[id]))
  }

  lemma LoggedGrows(log: seq<LogEntry>, e: LogEntry, id: nat, reply: Reply)
    requires Logged(log, id, reply)
    ensures Logged(log + [e], id, reply)
  {
    var i :| 0 <= i < |log| && log[i].id == id && log[i].reply == reply;
    assert (log + [e])[i] == log[i];
  }

  /** A step that leaves the log and the answers alone. */
  lemma BookQuiet(s: State, s': State)
    requires BookInv(s)
    requires s'.log == s.log && s'.replies == s.replies && s.arrivals <= s'.arrivals && |s'.tasks| == |s.tasks|
    requires TakenCount(s) <= TakenCount(s') && TakenCount(s) <= |s.arrivals|
    requires forall v: nat :: Undecided(s', v) ==>
               (Undecided(s, v) && s'.tasks[v].id == s.tasks[v].id) || s'.tasks[v].id == TakenCount(s)
    requires forall v: nat :: Answering(s', v) ==>
               Answering(s, v) && s'.tasks[v].id == s.tasks[v].id && s'.tasks[v].reply == s.tasks[v].reply
    ensures BookInv(s')
  {
    hide Logged, HasClient;
    forall w: nat | Answering(s', w)
      ensures AnswerLogged(s', s'.tasks[w].id, s'.tasks[w].reply)
    {
      assert AnswerLogged(s, s.tasks[w].id, s.tasks[w].reply);
    }
    forall id: nat | id in s'.replies
      ensures AnswerLogged(s', id, s'.replies[id])
    {
      assert AnswerLogged(s, id, s.replies[id]);
    }
  }

  lemma BookMain(s: State, step: Step, s': State)
    requires BookInv(s) && FifoInv(s) && MainNext(s, step, s')
    ensures BookInv(s')
  {
    hide BookInv, WaitingSet;
    TakenMain(s, step, s');
    BookQuiet(s, s');
  }

  lemma TakenMain(s: State, step: Step, s': State)
    requires FifoInv(s) && MainNext(s, step, s')
    ensures TakenCount(s') == TakenCount(s) && TakenCount(s) <= |s.arrivals|
  {
  }

  lemma BookQueueStep(s: State, step: Step, s': State)
    requires BookInv(s) && FifoInv(s) && QueueNext(s, step, s')
    ensures BookInv(s')
  {
    hide BookInv;
    BookQuiet(s, s');
  }

  lemma BookClient(s: State, step: Step, s': State)
    requires BookInv(s) && FifoInv(s) && OwnerInv(s) && ClientNext(s, step, s')
    requires step.ReadObject? ==> PullTask(s, step.w)
    ensures BookInv(s')
  {
    if step.SendReply? {
      BookSend(s, step.w, s');
    } else if step.ReadHead? || step.ReadObject? {
      BookPull(s, step, s');
    } else {
      hide BookInv, OwnerInv;
      BookQuiet(s, s');
    }
  }

  lemma BookSend(s: State, w: nat, s': State)
    requires BookInv(s) && FifoInv(s) && ClientNext(s, SendReply(w), s')
    ensures BookInv(s')
  {
    hide Logged;
    forall v: nat | Answering(s', v)
      ensures AnswerLogged(s', s'.tasks[v].id, s'.tasks[v].reply)
    {
      assert Answering(s, v) && AnswerLogged(s, s.tasks[v].id, s.tasks[v].reply);
    }
    forall id: nat | id in s'.replies
      ensures AnswerLogged(s', id, s'.replies[id])
    {
      assert Answering(s, w) && AnswerLogged(s, s.tasks[w].id, s.tasks[w].reply);
      assert id != s.tasks[w].id ==> AnswerLogged(s, id, s.replies[id]);
    }
    forall v: nat | Undecided(s', v)
      ensures Undecided(s, v) && s'.tasks[v].id == s.tasks[v].id
    {
    }
  }

  lemma BookPull(s: State, step: Step, s': State)
    requires BookInv(s) && FifoInv(s) && OwnerInv(s) && ClientNext(s, step, s')
    requires step.ReadHead? || step.ReadObject?
    requires step.ReadObject? ==> PullTask(s, step.w)
    ensures BookInv(s')
  {
    hide Logged, Head;
    var w := step.w;
    forall v: nat | Answering(s', v)
      ensures AnswerLogged(s', s'.tasks[v].id, s'.tasks[v].reply)
    {
      if v != w {
        assert Answering(s, v) && AnswerLogged(s, s.tasks[v].id, s.tasks[v].reply);
      }
    }
    forall id: nat | id in s'.replies
      ensures AnswerLogged(s', id, s'.replies[id])
    {
      assert AnswerLogged(s, id, s.replies[id]);
    }
    forall v: nat | Undecided(s', v)
      ensures Undecided(s, v) && s'.tasks[v].id == s.tasks[v].id
    {
    }
  }

  /** Worker w has read a head for a PULL. */
  predicate PullTask(s: State, w: nat) {
    w < |s.tasks| && s.tasks[w].HeadRead? ==>
      s.tasks[w].id < |s.arrivals| && s.arrivals[s.tasks[w].id].PullReq?
  }

  predicate IsDecide(s: State, w: nat, s': State, e: LogEntry) {
    && Pushing(s, w) && e.id == s.tasks[w].id && e.req == s.arrivals[e.id]
    && |s'.tasks| == |s.tasks| && s'.tasks == s.tasks[w := Finishing(e.id, e.reply)]
    && s'.log == s.log + [e]
    && s'.arrivals == s.arrivals && s'.since == s.since && s'.replies == s.replies
    && s'.queue == s.queue && s'.acceptor == s.acceptor
  }

  lemma BookDecide(s: State, w: nat, s': State, e: LogEntry)
    requires BookInv(s) && FifoInv(s) && OwnerInv(s) && IsDecide(s, w, s', e)
    ensures BookInv(s')
  {
    assert Undecided(s, w) && Holds(s, w, e.id);
    BookDecideIds(s, w, s', e);
    BookDecideAnswers(s, w, s', e);
  }

  lemma BookDecideIds(s: State, w: nat, s': State, e: LogEntry)
    requires BookInv(s) && FifoInv(s) && OwnerInv(s) && IsDecide(s, w, s', e)
    requires Undecided(s, w) && Holds(s, w, e.id)
    ensures LogIds(s')
    ensures forall v: nat, i :: Undecided(s', v) && 0 <= i < |s'.log| ==> s'.log[i].id != s'.tasks[v].id
  {
    hide Logged, InPush, AnswerLogged;
    forall v: nat, i | Undecided(s', v) && 0 <= i < |s'.log|
      ensures s'.log[i].id != s'.tasks[v].id
    {
      assert v != w && Undecided(s, v) && Holds(s, v, s.tasks[v].id);
      assert i < |s.log| ==> s.log[i].id != s.tasks[v].id;
    }
  }

  lemma BookDecideAnswers(s: State, w: nat, s': State, e: LogEntry)
    requires BookInv(s) && IsDecide(s, w, s', e)
    ensures forall v: nat :: Answering(s', v) ==> AnswerLogged(s', s'.tasks[v].id, s'.tasks[v].reply)
    ensures forall id: nat :: id in s'.replies ==> AnswerLogged(s', id, s'.replies[id])
  {
    hide Logged, InPush, LogIds;
    LoggedLast(s.log, e);
    forall v: nat | Answering(s', v)
      ensures AnswerLogged(s', s'.tasks[v].id, s'.tasks[v].reply)
    {
      if v != w {
        assert Answering(s, v) && AnswerLogged(s, s.tasks[v].id, s.tasks[v].reply);
        AnswerGrows(s, s', e, s.tasks[v].id, s.tasks[v].reply);
      }
    }
    forall id: nat | id in s'.replies
      ensures AnswerLogged(s', id, s'.replies[id])
    {
      assert AnswerLogged(s, id, s.replies[id]);
      AnswerGrows(s, s', e, id, s.replies[id]);
    }
  }

  lemma LoggedLast(log: seq<LogEntry>, e: LogEntry)
    ensures Logged(log + [e], e.id, e.reply)
  {
    assert (log + [e])[|log|] == e;
  }

  lemma AnswerGrows(s: State, s': State, e: LogEntry, id: nat, reply: Reply)
    requires AnswerLogged(s, id, reply) && s'.arrivals == s.arrivals && s'.log == s.log + [e]
    ensures AnswerLogged(s', id, reply)
  {
    if s.arrivals[id].PushReq? {
      LoggedGrows(s.log, e, id, reply);
    }
  }

  /** A step inside handle_push either decides the push or changes neither log nor answers. */
  lemma PushEffect(hash: Hasher, s: State, step: Step, s': State) returns (w: nat, decided: bool, e: LogEntry)
    requires PushNext(hash, s, step, s')
    ensures decided ==> IsDecide(s, w, s', e)
    ensures !decided ==> QuietPush(s, w, s')
  {
    hide Rejects, Head, OldEntries, ListFile, Print, Digest, PutObject;
    w := step.w;
    decided := |s'.log| > |s.log|;
    e := if decided then s'.log[|s.log|] else LogEntry(0, BadReq, Fine, Invalid);
  }

  predicate QuietPush(s: State, w: nat, s': State) {
    && Pushing(s, w)
    && |s'.tasks| == |s.tasks| && s'.tasks == s.tasks[w := s'.tasks[w]]
    && InPush(s'.tasks[w]) && s'.tasks[w].id == s.tasks[w].id
    && s'.log == s.log && s'.arrivals == s.arrivals && s'.since == s.since && s'.replies == s.replies
    && s'.queue == s.queue && s'.acceptor == s.acceptor
  }

  lemma BookPush(hash: Hasher, s: State, step: Step, s': State)
    requires BookInv(s) && FifoInv(s) && OwnerInv(s) && PushNext(hash, s, step, s')
    ensures BookInv(s')
  {
    hide PushNext, BookInv, FifoInv, OwnerInv, IsDecide, QuietPush;
    var w, decided, e := PushEffect(hash, s, step, s');
    if decided {
      BookDecide(s, w, s', e);
    } else {
      BookQuietPush(s, w, s');
    }
  }

  lemma BookQuietPush(s: State, w: nat, s': State)
    requires BookInv(s) && FifoInv(s) && QuietPush(s, w, s')
    ensures BookInv(s')
  {
    hide BookInv;
    BookQuiet(s, s');
  }

  // ---- past repositories and PULL ----------------------------------------------------------------

  function Past(hash: Hasher, start: Repo, log: seq<LogEntry>, k: nat): Repo
    requires k <= |log|
  {
    Replay(hash, start, log[..k])
  }

  /** Every repository of the past was closed, and its objects are all still stored. */
  ghost predicate HistoryInv(hash: Hasher, start: Repo, s: State) {
    forall k: nat :: k <= |s.log| ==>
      Closed(hash, Past(hash, start, s.log, k)) && Grows(Past(hash, start, s.log, k).objects, s.repo.objects)
  }

  lemma HistoryQuiet(hash: Hasher, start: Repo, s: State, s': State)
    requires HistoryInv(hash, start, s) && s'.log == s.log && Grows(s.repo.objects, s'.repo.objects)
    ensures HistoryInv(hash, start, s')
  {
    hide Closed, Past, Grows;
    forall k: nat | k <= |s'.log|
      ensures Closed(hash, Past(hash, start, s'.log, k)) && Grows(Past(hash, start, s'.log, k).objects, s'.repo.objects)
    {
      GrowsTrans(Past(hash, start, s.log, k).objects, s.repo.objects, s'.repo.objects);
    }
  }

  lemma HistoryDecide(hash: Hasher, start: Repo, s: State, s': State, e: LogEntry)
    requires HistoryInv(hash, start, s) && s'.log == s.log + [e] && Grows(s.repo.objects, s'.repo.objects)
    requires s'.repo == Replay(hash, start, s'.log) && Closed(hash, s'.repo)
    ensures HistoryInv(hash, start, s')
  {
    hide Closed, Replay, Grows;
    forall k: nat | k <= |s'.log|
      ensures Closed(hash, Past(hash, start, s'.log, k)) && Grows(Past(hash, start, s'.log, k).objects, s'.repo.objects)
    {
      if k <= |s.log| {
        assert s'.log[..k] == s.log[..k];
        assert Closed(hash, Past(hash, start, s.log, k));
        GrowsTrans(Past(hash, start, s.log, k).objects, s.repo.objects, s'.repo.objects);
      } else {
        assert s'.log[..k] == s'.log;
        GrowsSame(s'.repo.objects);
      }
    }
  }

  /** A reply that PULL gives on the repository left by the first k logged pushes, for a k from a
      lower bound on. */
  ghost predicate PullSeen(hash: Hasher, start: Repo, log: seq<LogEntry>, from: nat, branch: string, reply: Reply) {
    exists k: nat :: from <= k <= |log| && reply == PullReply(Past(hash, start, log, k), branch)
  }

  /** How many pushes were finished when a connection was accepted. */
  function Since(s: State, id: nat): nat {
    if id < |s.since| then s.since[id] else 0
  }

  ghost predicate SinceInv(s: State) {
    |s.since| == |s.arrivals| && forall id :: 0 <= id < |s.since| ==> s.since[id] <= |s.log|
  }

  /** A PULL is answered from a past repository, a line that is no command with an error. */
  ghost predicate PullAnswer(hash: Hasher, start: Repo, s: State, id: nat, reply: Reply) {
    && (ReqOf(s, id).PullReq? ==> PullSeen(hash, start, s.log, Since(s, id), ReqOf(s, id).branch, reply))
    && (ReqOf(s, id).BadReq? ==> reply == Invalid)
  }

  ghost predicate PullReading(hash: Hasher, start: Repo, s: State, w: nat)
    requires w < |s.tasks| && s.tasks[w].HeadRead?
  {
    var t := s.tasks[w];
    && t.id < |s.arrivals| && s.arrivals[t.id].PullReq? && Since(s, t.id) <= t.seen <= |s.log|
    && t.head != "" && t.head == Head(Past(hash, start, s.log, t.seen), s.arrivals[t.id].branch)
  }

  ghost predicate PullInv(hash: Hasher, start: Repo, s: State) {
    && SinceInv(s)
    && (forall w: nat :: w < |s.tasks| && s.tasks[w].HeadRead? ==> PullReading(hash, start, s, w))
    && (forall w: nat :: Answering(s, w) ==> PullAnswer(hash, start, s, s.tasks[w].id, s.tasks[w].reply))
    && (forall id: nat :: id in s.replies ==> PullAnswer(hash, start, s, id, s.replies[id]))
  }

  lemma SinceHolds(hash: Hasher, start: Repo, s: State)
    requires PullInv(hash, start, s)
    ensures SinceInv(s)
  {
  }

  lemma SinceKept(s: State, s': State)
    requires SinceInv(s) && s'.arrivals == s.arrivals && s'.since == s.since && s.log <= s'.log
    ensures SinceInv(s') && s.since <= s'.since
  {
  }

  lemma SinceMain(s: State, step: Step, s': State)
    requires SinceInv(s) && MainNext(s, step, s')
    ensures SinceInv(s') && s.since <= s'.since
  {
    hide WaitingSet;
  }

  lemma PastPrefix(hash: Hasher, start: Repo, log: seq<LogEntry>, log': seq<LogEntry>, k: nat)
    requires log <= log' && k <= |log|
    ensures Past(hash, start, log', k) == Past(hash, start, log, k)
  {
    hide Replay;
    assert log'[..k] == log[..k];
  }

  lemma PullSeenGrows(hash: Hasher, start: Repo, log: seq<LogEntry>, log': seq<LogEntry>, from: nat,
                      branch: string, reply: Reply)
    requires PullSeen(hash, start, log, from, branch, reply) && log <= log'
    ensures PullSeen(hash, start, log', from, branch, reply)
  {
    hide Past, PullReply;
    var k: nat :| from <= k <= |log| && reply == PullReply(Past(hash, start, log, k), branch);
    PastPrefix(hash, start, log, log', k);
  }

  /** Answers already given stay good while arrivals and log grow. */
  lemma PullAnswerGrows(hash: Hasher, start: Repo, s: State, s': State, id: nat, reply: Reply)
    requires PullAnswer(hash, start, s, id, reply) && id < |s.arrivals| && SinceInv(s)
    requires s.arrivals <= s'.arrivals && s.since <= s'.since && s.log <= s'.log
    ensures PullAnswer(hash, start, s', id, reply)
  {
    hide PullSeen;
    if s.arrivals[id].PullReq? {
      PullSeenGrows(hash, start, s.log, s'.log, Since(s, id), s.arrivals[id].branch, reply);
    }
  }

  /** A step that starts no PULL and gives no new answer to one. */
  lemma PullQuiet(hash: Hasher, start: Repo, s: State, s': State)
    requires PullInv(hash, start, s) && BookInv(s)
    requires s.arrivals <= s'.arrivals && s.since <= s'.since && s.log <= s'.log && SinceInv(s')
    requires |s'.tasks| == |s.tasks| && s'.replies == s.replies
    requires forall v: nat :: v < |s.tasks| && s'.tasks[v].HeadRead? ==> s'.tasks[v] == s.tasks[v]
    requires forall v: nat :: Answering(s', v) ==>
               || (Answering(s, v) && s'.tasks[v].id == s.tasks[v].id && s'.tasks[v].reply == s.tasks[v].reply)
               || ReqOf(s', s'.tasks[v].id).PushReq?
    ensures PullInv(hash, start, s')
  {
    hide Past, PullAnswer, LogIds;
    forall v: nat | v < |s'.tasks| && s'.tasks[v].HeadRead?
      ensures PullReading(hash, start, s', v)
    {
      assert PullReading(hash, start, s, v);
      PastPrefix(hash, start, s.log, s'.log, s.tasks[v].seen);
    }
    PullQuietAnswers(hash, start, s, s');
  }

  lemma PullQuietAnswers(hash: Hasher, start: Repo, s: State, s': State)
    requires PullInv(hash, start, s) && BookInv(s)
    requires s.arrivals <= s'.arrivals && s.since <= s'.since && s.log <= s'.log && SinceInv(s')
    requires |s'.tasks| == |s.tasks| && s'.replies == s.replies
    requires forall v: nat :: Answering(s', v) ==>
               || (Answering(s, v) && s'.tasks[v].id == s.tasks[v].id && s'.tasks[v].reply == s.tasks[v].reply)
               || ReqOf(s', s'.tasks[v].id).PushReq?
    ensures forall w: nat :: Answering(s', w) ==> PullAnswer(hash, start, s', s'.tasks[w].id, s'.tasks[w].reply)
    ensures forall id: nat :: id in s'.replies ==> PullAnswer(hash, start, s', id, s'.replies[id])
  {
    hide PullSeen, LogIds, Logged, PullReading;
    forall v: nat | Answering(s', v)
      ensures PullAnswer(hash, start, s', s'.tasks[v].id, s'.tasks[v].reply)
    {
      if !ReqOf(s', s'.tasks[v].id).PushReq? {
        assert AnswerLogged(s, s.tasks[v].id, s.tasks[v].reply);
        assert PullAnswer(hash, start, s, s.tasks[v].id, s.tasks[v].reply);
        PullAnswerGrows(hash, start, s, s', s.tasks[v].id, s.tasks[v].reply);
      }
    }
    forall id: nat | id in s'.replies
      ensures PullAnswer(hash, start, s', id, s'.replies[id])
    {
      assert AnswerLogged(s, id, s.replies[id]);
      assert PullAnswer(hash, start, s, id, s.replies[id]);
      PullAnswerGrows(hash, start, s, s', id, s.replies[id]);
    }
  }

  lemma ReadHeadShape(s: State, w: nat, s': State)
    requires ClientNext(s, ReadHead(w), s')
    ensures OneTask(s, w, s') && (s'.tasks[w].Replying? || s'.tasks[w].HeadRead?)
  {
    hide Head;
  }

  lemma PastAll(hash: Hasher, start: Repo, log: seq<LogEntry>)
    ensures Past(hash, start, log, |log|) == Replay(hash, start, log)
  {
    hide Replay;
    assert log[..|log|] == log;
  }

  lemma ReadingShape(s: State, w: nat, s': State)
    requires ClientNext(s, ReadHead(w), s') && w < |s'.tasks| && s'.tasks[w].HeadRead?
    ensures s'.log == s.log && s'.arrivals == s.arrivals && s'.since == s.since
    ensures var t := s'.tasks[w];
            && t.id < |s.arrivals| && s.arrivals[t.id].PullReq? && t.seen == |s.log|
            && t.head == Head(s.repo, s.arrivals[t.id].branch) && t.head != ""
  {
    hide Head;
  }

  /** ReadHead takes the head that the logged pushes left. */
  lemma PullReadingHere(hash: Hasher, start: Repo, s: State, w: nat, s': State)
    requires ClientNext(s, ReadHead(w), s') && SinceInv(s)
    requires s.repo.heads == Replay(hash, start, s.log).heads
    requires w < |s'.tasks| && s'.tasks[w].HeadRead?
    ensures PullReading(hash, start, s', w)
  {
    hide Replay, ClientNext;
    ReadingShape(s, w, s');
    PastAll(hash, start, s.log);
  }

  lemma PullReadHead(hash: Hasher, start: Repo, s: State, w: nat, s': State)
    requires PullInv(hash, start, s) && BookInv(s) && ClientNext(s, ReadHead(w), s')
    requires s.repo.heads == Replay(hash, start, s.log).heads
    ensures PullInv(hash, start, s')
  {
    hide PullInv, BookInv, ClientNext, Replay, SinceInv, PullReading, PullAnswer;
    SinceHolds(hash, start, s);
    ReadHeadShape(s, w, s');
    if s'.tasks[w].Replying? {
      PullAnswerHere(hash, start, s, w, s');
      PullNewAnswer(hash, start, s, w, s');
    } else {
      PullReadingHere(hash, start, s, w, s');
      PullNewReading(hash, start, s, w, s');
    }
  }

  lemma NoCommitsShape(s: State, w: nat, s': State)
    requires ClientNext(s, ReadHead(w), s') && w < |s'.tasks| && s'.tasks[w].Replying?
    ensures s'.log == s.log && s'.arrivals == s.arrivals && s'.since == s.since
    ensures var id := s'.tasks[w].id;
            && id < |s.arrivals| && !s.arrivals[id].PushReq?
            && (s.arrivals[id].BadReq? ==> s'.tasks[w].reply == Invalid)
            && (s.arrivals[id].PullReq? ==>
                  s'.tasks[w].reply == NoCommits && Head(s.repo, s.arrivals[id].branch) == "")
  {
    hide Head;
  }

  lemma SeenNow(hash: Hasher, start: Repo, log: seq<LogEntry>, from: nat, branch: string, reply: Reply)
    requires from <= |log| && reply == PullReply(Past(hash, start, log, |log|), branch)
    ensures PullSeen(hash, start, log, from, branch, reply)
  {
    hide Past, PullReply;
  }

  lemma PullAnswerHere(hash: Hasher, start: Repo, s: State, w: nat, s': State)
    requires ClientNext(s, ReadHead(w), s') && w < |s'.tasks| && s'.tasks[w].Replying?
    requires s.repo.heads == Replay(hash, start, s.log).heads && SinceInv(s)
    ensures PullAnswer(hash, start, s', s'.tasks[w].id, s'.tasks[w].reply)
  {
    hide Replay, ClientNext, PullSeen;
    NoCommitsShape(s, w, s');
    PastAll(hash, start, s.log);
    var id := s'.tasks[w].id;
    if s.arrivals[id].PullReq? {
      SeenNow(hash, start, s.log, Since(s, id), s.arrivals[id].branch, NoCommits);
    }
  }

  lemma ReadObjectShape(s: State, w: nat, s': State)
    requires ClientNext(s, ReadObject(w), s') && w < |s.tasks| && s.tasks[w].HeadRead?
    ensures w < |s'.tasks| && s'.tasks[w] == Replying(s.tasks[w].id, ObjectReply(s.repo, s.tasks[w].head))
    ensures s'.log == s.log && s'.arrivals == s.arrivals && s'.since == s.since
  {
    hide ObjectReply;
  }

  /** The object that a head named in the past is still the same. */
  lemma SameObjectNow(hash: Hasher, past: Repo, repo: Repo, branch: string)
    requires Closed(hash, past) && Grows(past.objects, repo.objects) && Head(past, branch) != ""
    ensures ObjectReply(repo, Head(past, branch)) == PullReply(past, branch)
  {
    hide GoodManifest, ContentAddressed;
  }

  lemma ReadingIs(hash: Hasher, start: Repo, s: State, w: nat)
    requires PullInv(hash, start, s) && w < |s.tasks| && s.tasks[w].HeadRead?
    ensures PullReading(hash, start, s, w)
  {
    hide PullReading, PullAnswer;
  }

  lemma PastGood(hash: Hasher, start: Repo, s: State, k: nat)
    requires HistoryInv(hash, start, s) && k <= |s.log|
    ensures Closed(hash, Past(hash, start, s.log, k)) && Grows(Past(hash, start, s.log, k).objects, s.repo.objects)
  {
    hide Closed, Grows, Replay;
  }

  /** The object a PULL opens is still the one its head named. */
  lemma PullObjectHere(hash: Hasher, start: Repo, s: State, w: nat, s': State)
    requires PullInv(hash, start, s) && HistoryInv(hash, start, s) && ClientNext(s, ReadObject(w), s')
    requires w < |s.tasks| && s.tasks[w].HeadRead?
    ensures w < |s'.tasks| && s'.tasks[w].Replying?
    ensures PullAnswer(hash, start, s', s'.tasks[w].id, s'.tasks[w].reply)
  {
    hide Replay, Closed, Grows, Head, ObjectReply, PullReply, ClientNext, PullInv, HistoryInv, SinceInv;
    var t := s.tasks[w];
    ReadObjectShape(s, w, s');
    ReadingIs(hash, start, s, w);
    PastGood(hash, start, s, t.seen);
    SameObjectNow(hash, Past(hash, start, s.log, t.seen), s.repo, s.arrivals[t.id].branch);
  }

  predicate OneTask(s: State, w: nat, s': State) {
    && w < |s.tasks| && |s'.tasks| == |s.tasks| && s'.tasks == s.tasks[w := s'.tasks[w]]
    && s'.log == s.log && s'.arrivals == s.arrivals && s'.since == s.since && s'.replies == s.replies
  }

  lemma PullNewAnswer(hash: Hasher, start: Repo, s: State, w: nat, s': State)
    requires PullInv(hash, start, s) && OneTask(s, w, s') && s'.tasks[w].Replying?
    requires PullAnswer(hash, start, s', s'.tasks[w].id, s'.tasks[w].reply)
    ensures PullInv(hash, start, s')
  {
    hide Past, PullSeen;
    PullKeepsOthers(hash, start, s, w, s');
  }

  lemma PullNewReading(hash: Hasher, start: Repo, s: State, w: nat, s': State)
    requires PullInv(hash, start, s) && OneTask(s, w, s') && s'.tasks[w].HeadRead?
    requires PullReading(hash, start, s', w)
    ensures PullInv(hash, start, s')
  {
    hide Past, PullSeen;
    PullKeepsOthers(hash, start, s, w, s');
  }

  lemma PullKeepsOthers(hash: Hasher, start: Repo, s: State, w: nat, s': State)
    requires PullInv(hash, start, s) && OneTask(s, w, s')
    ensures forall v: nat :: v != w && v < |s'.tasks| && s'.tasks[v].HeadRead? ==> PullReading(hash, start, s', v)
    ensures forall v: nat :: v != w && Answering(s', v) ==>
              PullAnswer(hash, start, s', s'.tasks[v].id, s'.tasks[v].reply)
    ensures forall id: nat :: id in s'.replies ==> PullAnswer(hash, start, s', id, s'.replies[id])
  {
    hide Past, PullSeen;
    forall v: nat | v != w && v < |s'.tasks| && s'.tasks[v].HeadRead?
      ensures PullReading(hash, start, s', v)
    {
      assert PullReading(hash, start, s, v);
    }
    forall v: nat | v != w && Answering(s', v)
      ensures PullAnswer(hash, start, s', s'.tasks[v].id, s'.tasks[v].reply)
    {
      assert Answering(s, v) && PullAnswer(hash, start, s, s.tasks[v].id, s.tasks[v].reply);
    }
    forall id: nat | id in s'.replies
      ensures PullAnswer(hash, start, s', id, s'.replies[id])
    {
      assert PullAnswer(hash, start, s, id, s.replies[id]);
    }
  }

  lemma PullSend(hash: Hasher, start: Repo, s: State, w: nat, s': State)
    requires PullInv(hash, start, s) && ClientNext(s, SendReply(w), s')
    ensures PullInv(hash, start, s')
  {
    hide Past, PullSeen;
    var mid := SetTask(s, w, Free);
    PullKeepsOthers(hash, start, s, w, mid);
    PullSendReply(hash, start, s, w, s');
    hide ClientNext;
    PullSendTasks(hash, start, mid, s');
  }

  lemma PullSendReply(hash: Hasher, start: Repo, s: State, w: nat, s': State)
    requires PullInv(hash, start, s) && ClientNext(s, SendReply(w), s')
    ensures forall id: nat :: id in s'.replies ==> PullAnswer(hash, start, s', id, s'.replies[id])
    ensures SinceInv(s') && s'.tasks == SetTask(s, w, Free).tasks && s'.log == s.log
    ensures s'.arrivals == s.arrivals && s'.since == s.since
  {
    hide Past, PullSeen, PullReading;
    assert Answering(s, w) && PullAnswer(hash, start, s, s.tasks[w].id, s.tasks[w].reply);
    forall id: nat | id in s'.replies
      ensures PullAnswer(hash, start, s', id, s'.replies[id])
    {
      assert id in s.replies ==> PullAnswer(hash, start, s, id, s.replies[id]);
    }
  }

  /** Two states that differ only in the answers. */
  lemma PullSendTasks(hash: Hasher, start: Repo, mid: State, s': State)
    requires s'.tasks == mid.tasks && s'.log == mid.log && s'.arrivals == mid.arrivals && s'.since == mid.since
    requires SinceInv(s')
    requires forall v: nat :: v < |mid.tasks| && mid.tasks[v].HeadRead? ==> PullReading(hash, start, mid, v)
    requires forall v: nat :: Answering(mid, v) ==> PullAnswer(hash, start, mid, mid.tasks[v].id, mid.tasks[v].reply)
    requires forall id: nat :: id in s'.replies ==> PullAnswer(hash, start, s', id, s'.replies[id])
    ensures PullInv(hash, start, s')
  {
    hide Past, PullSeen;
    forall v: nat | v < |s'.tasks| && s'.tasks[v].HeadRead?
      ensures PullReading(hash, start, s', v)
    {
      assert PullReading(hash, start, mid, v);
    }
    forall v: nat | Answering(s', v)
      ensures PullAnswer(hash, start, s', s'.tasks[v].id, s'.tasks[v].reply)
    {
      assert Answering(mid, v) && PullAnswer(hash, start, mid, mid.tasks[v].id, mid.tasks[v].reply);
    }
  }

  lemma PullClient(hash: Hasher, start: Repo, s: State, step: Step, s': State)
    requires PullInv(hash, start, s) && BookInv(s) && HistoryInv(hash, start, s) && RefInv(hash, start, s)
    requires ClientNext(s, step, s')
    ensures PullInv(hash, start, s')
  {
    hide PullInv, BookInv, HistoryInv, Head;
    if step.ReadHead? {
      hide MidPush;
      PullReadHead(hash, start, s, step.w, s');
    } else if step.ReadObject? {
      hide RefInv;
      PullObjectHere(hash, start, s, step.w, s');
      PullNewAnswer(hash, start, s, step.w, s');
    } else if step.SendReply? {
      hide RefInv;
      PullSend(hash, start, s, step.w, s');
    } else {
      hide RefInv, SinceInv;
      SinceHolds(hash, start, s);
      SinceKept(s, s');
      PullQuiet(hash, start, s, s');
    }
  }

  lemma PullMain(hash: Hasher, start: Repo, s: State, step: Step, s': State)
    requires PullInv(hash, start, s) && BookInv(s) && MainNext(s, step, s')
    ensures PullInv(hash, start, s')
  {
    hide PullInv, BookInv, WaitingSet, SinceInv;
    SinceHolds(hash, start, s);
    SinceMain(s, step, s');
    PullQuiet(hash, start, s, s');
  }

  lemma PullQueueStep(hash: Hasher, start: Repo, s: State, step: Step, s': State)
    requires PullInv(hash, start, s) && BookInv(s) && QueueNext(s, step, s')
    ensures PullInv(hash, start, s')
  {
    hide PullInv, BookInv, SinceInv;
    SinceHolds(hash, start, s);
    SinceKept(s, s');
    PullQuiet(hash, start, s, s');
  }

  lemma PullPush(hash: Hasher, start: Repo, s: State, step: Step, s': State)
    requires PullInv(hash, start, s) && BookInv(s) && PushNext(hash, s, step, s')
    ensures PullInv(hash, start, s')
  {
    hide PushNext, PullInv, BookInv, IsDecide, QuietPush;
    var w, decided, e := PushEffect(hash, s, step, s');
    if decided {
      PullDecided(hash, start, s, w, s', e);
    } else {
      PullUndecided(hash, start, s, w, s');
    }
  }

  lemma PullDecided(hash: Hasher, start: Repo, s: State, w: nat, s': State, e: LogEntry)
    requires PullInv(hash, start, s) && BookInv(s) && IsDecide(s, w, s', e)
    ensures PullInv(hash, start, s')
  {
    hide PullInv, BookInv, SinceInv;
    SinceHolds(hash, start, s);
    SinceKept(s, s');
    PullQuiet(hash, start, s, s');
  }

  lemma PullUndecided(hash: Hasher, start: Repo, s: State, w: nat, s': State)
    requires PullInv(hash, start, s) && BookInv(s) && QuietPush(s, w, s')
    ensures PullInv(hash, start, s')
  {
    hide PullInv, BookInv, SinceInv;
    SinceHolds(hash, start, s);
    SinceKept(s, s');
    PullQuiet(hash, start, s, s');
  }
}
