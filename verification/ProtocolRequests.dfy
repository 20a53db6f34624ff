/** The requests of the transition system are those that byte streams decode to. */
module ProtocolRequests {
  import opened CStrings
  import opened Wire
  import opened Store
  import opened Protocol

  /** The request of a whole stream.  None: a variable the handler may read is not assigned, or the
      command is HISTORY. */
  function RequestOf(stream: string): Option<Request> {
    var head := DecodeLine(stream);
    match DecodeCommand(head.line)
    case Push(branch, count, Some(parent)) =>
      (match DecodeFiles(Rounds(count), head.rest)
       case None => None
       case Some(read) => Some(PushReq(branch, parent, read.files)))
    case Pull(branch) => Some(PullReq(branch))
    case Other => Some(BadReq)
    case _ => None
  }

  /** Serving a stream is what the transition system does atomically with its request: the step of the
      log for a push, an answer without a change for the others; and the system accepts the request. */
  lemma ServeIsRequest(hash: Hasher, repo: Repo, stream: string, luck: Luck)
    requires RequestOf(stream).Some?
    ensures var req := RequestOf(stream).value;
            var served := Serve(hash, repo, stream, luck);
            && GoodRequest(req) && served.Some?
            && Outcome(served.value.repo, served.value.reply) ==
               match req
               case PushReq(_, _, _) => Attempt(hash, repo, req, luck)
               case PullReq(branch) => Outcome(repo, PullReply(repo, branch))
               case BadReq => Outcome(repo, Invalid)
  {
    hide DecodeLine, DecodeCommand, DecodeFiles, PullReply, Digest, PutFiles, NewEntries, Rejects, GoodNames, Head;
    var head := DecodeLine(stream);
    var command := DecodeCommand(head.line);
    if command.Push? {
      DecodedNamesGood(Rounds(command.count), head.rest);
    }
  }
}
