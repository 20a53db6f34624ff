/** From the bytes of a command line to the reply, for each command the root server knows. */
module Commands {
  import opened CStrings
  import opened Manifest
  import opened Wire
  import opened WireRoundTrip
  import opened Store
  import opened PushEndToEnd

  // ---- one word and a branch ---------------------------------------------------------------------------

  lemma WordScans(word: string, t: string)
    requires IsWord(word) && |word| <= 15 && NoNul(t) && (t == "" || t[0] in WHITESPACE)
    ensures ScanLine(UpToNul(word + t)) ==
            match ScanWord(t, UNLIMITED)
            case NoMatch => Words(Some(word), None, 0, None)
            case Match(branch, rest) => if |branch| > BRANCH_MAX then Overrun else ScanCount(word, branch, rest)
  {
    hide ScanWord, UpToNul, StrCSpn, ScanCount, Free;
    assert NoNul(word + t) && word + t + "" == word + t;
    UpToNulStops(word + t, "");
    assert word + t == "" + word + t;
    ScanWordStops("", word, t, UNLIMITED);
  }

  /** A command word, a blank and a branch. */
  lemma TwoWordsScan(word: string, branch: string)
    requires IsWord(word) && |word| <= 15 && IsWord(branch) && |branch| <= 31
    ensures ScanLine(UpToNul(word + " " + branch)) == Words(Some(word), Some(branch), 0, None)
  {
    hide ScanWord, UpToNul, ScanCount, ScanLine;
    assert word + " " + branch == word + (" " + branch);
    assert NoNul(" " + branch);
    WordScans(word, " " + branch);
    assert " " + branch == " " + branch + "";
    ScanWordStops(" ", branch, "", UNLIMITED);
    NothingLeft(word, branch);
  }

  lemma NothingLeft(word: string, branch: string)
    ensures ScanCount(word, branch, "") == Words(Some(word), Some(branch), 0, None)
  {
    ScanWordNone("", UNLIMITED);
  }

  lemma OneWordAlone(word: string)
    requires IsWord(word) && |word| <= 15
    ensures ScanLine(UpToNul(word)) == Words(Some(word), None, 0, None)
  {
    hide ScanWord, UpToNul, ScanLine;
    assert word + "" == word;
    WordScans(word, "");
    ScanWordNone("", UNLIMITED);
  }

  lemma LineComes(line: string, rest: string)
    requires Free(line, {'\n'}) && |line| < 255
    ensures DecodeLine(line + "\n" + rest) == LineRead(line, rest)
  {
    hide DecodeLine;
    assert line + "\n" + rest == line + ("\n" + rest);
    LineThenMore(line, rest);
  }

  lemma WordsFree(word: string, branch: string)
    requires IsWord(word) && IsWord(branch)
    ensures Free(word + " " + branch, {'\n'}) && Free(word, {'\n'})
  {
  }

  /** What the words PULL and HISTORY make of a branch, whatever follows the line. */
  lemma BranchCommands(branch: string, rest: string)
    requires IsWord(branch) && |branch| <= 31
    ensures var pull := DecodeLine("PULL " + branch + "\n" + rest);
            var history := DecodeLine("HISTORY " + branch + "\n" + rest);
            && DecodeCommand(pull.line) == Pull(branch) && pull.rest == rest
            && DecodeCommand(history.line) == History(branch) && history.rest == rest
  {
    hide DecodeLine, ScanLine, UpToNul;
    assert IsWord("PULL") && IsWord("HISTORY");
    WordsFree("PULL", branch);
    WordsFree("HISTORY", branch);
    assert "PULL" + " " + branch == "PULL " + branch && "HISTORY" + " " + branch == "HISTORY " + branch;
    LineComes("PULL " + branch, rest);
    LineComes("HISTORY " + branch, rest);
    TwoWordsScan("PULL", branch);
    TwoWordsScan("HISTORY", branch);
  }

  /** Any other first word, alone or with one more word, is no command. */
  lemma OtherCommands(word: string, arg: string, rest: string)
    requires IsWord(word) && |word| <= 15 && word !in {"PUSH", "PULL", "HISTORY"}
    requires IsWord(arg) && |arg| <= 31
    ensures var alone, more := DecodeLine(word + "\n" + rest), DecodeLine(word + " " + arg + "\n" + rest);
            && DecodeCommand(alone.line) == Other && alone.rest == rest
            && DecodeCommand(more.line) == Other && more.rest == rest
  {
    hide DecodeLine, ScanLine, UpToNul;
    WordsFree(word, arg);
    LineComes(word, rest);
    LineComes(word + " " + arg, rest);
    OneWordAlone(word);
    TwoWordsScan(word, arg);
  }

  // ---- replies --------------------------------------------------------------------------------------------

  /** PULL: the bytes of the object that the head of that branch names are sent; a branch without a head
      has no commits, and a head without an object is missing.  Nothing changes. */
  lemma ServePull(hash: Hasher, repo: Repo, branch: string, rest: string, luck: Luck)
    requires IsWord(branch) && |branch| <= 31
    ensures var served := Serve(hash, repo, "PULL " + branch + "\n" + rest, luck);
            && (branch !in repo.heads ==> served == Some(Served(repo, NoCommits, rest)))
            && (branch in repo.heads && repo.heads[branch] != "" && repo.heads[branch] in repo.objects ==>
                  served == Some(Served(repo, Content(repo.objects[repo.heads[branch]]), rest)))
            && (branch in repo.heads && repo.heads[branch] != "" && repo.heads[branch] !in repo.objects ==>
                  served == Some(Served(repo, Missing, rest)))
  {
    hide DecodeLine, DecodeCommand, PullReply;
    BranchCommands(branch, rest);
    PullAnswers(repo, branch);
  }

  /** HISTORY of a branch without commits, and a line that is no command, are answered without a change. */
  lemma ServeOthers(hash: Hasher, repo: Repo, branch: string, word: string, rest: string, luck: Luck)
    requires IsWord(branch) && |branch| <= 31 && branch !in repo.heads
    requires IsWord(word) && |word| <= 15 && word !in {"PUSH", "PULL", "HISTORY"}
    ensures Serve(hash, repo, "HISTORY " + branch + "\n" + rest, luck) == Some(Served(repo, NoCommits, rest))
    ensures Serve(hash, repo, word + "\n" + rest, luck) == Some(Served(repo, Invalid, rest))
    ensures Serve(hash, repo, word + " " + branch + "\n" + rest, luck) == Some(Served(repo, Invalid, rest))
  {
    hide DecodeLine, DecodeCommand;
    BranchCommands(branch, rest);
    OtherCommands(word, branch, rest);
  }

  lemma PushText(branch: string, count: nat, parent: string)
    ensures PushLine(branch, count, parent) == "PUSH " + branch + " " + Dec(count) + " " + parent + "\n"
  {
    hide Dec;
  }

  /** PUSH: rejected when the head is neither missing nor the parent, dropped without a buffer, else one
      atomic push of the files behind the line. */
  lemma ServePushBytes(hash: Hasher, repo: Repo, branch: string, parent: string, files: seq<PushFile>, rest: string,
                       luck: Luck)
    requires IsWord(branch) && |branch| <= 31 && IsWord(parent) && |parent| <= 40
    requires |files| <= 0x7FFF_FFFF && |PushLine(branch, |files|, parent)| <= 255 && AllFit(files)
    ensures var line := "PUSH " + branch + " " + Dec(|files|) + " " + parent + "\n";
            var served := Serve(hash, repo, line + (EncodeFiles(files) + rest), luck);
            var rejected := branch in repo.heads && repo.heads[branch] != "" && repo.heads[branch] != parent;
            var o := AtomicPush(hash, repo, branch, parent, files, luck);
            && (rejected ==> served == Some(Served(repo, Conflict, EncodeFiles(files) + rest)))
            && (!rejected && luck == NoBuffer ==> served == Some(Served(repo, Dropped, EncodeFiles(files) + rest)))
            && (!rejected && luck != NoBuffer ==> served == Some(Served(o.repo, o.reply, rest)))
  {
    RejectsIs(repo, branch, parent);
    PushText(branch, |files|, parent);
    LineIsGood(branch, |files|, parent);
    hide *;
    ServePush(hash, repo, branch, |files|, parent, EncodeFiles(files) + rest, luck);
    DecodeAllFiles(files, rest);
  }

  lemma RejectsIs(repo: Repo, branch: string, parent: string)
    ensures Rejects(repo, branch, parent) <==>
            branch in repo.heads && repo.heads[branch] != "" && repo.heads[branch] != parent
  {
  }

  lemma LineIsGood(branch: string, count: nat, parent: string)
    requires IsWord(branch) && |branch| <= 31 && IsWord(parent) && |parent| <= 40
    requires count <= 0x7FFF_FFFF && |PushLine(branch, count, parent)| <= 255
    ensures GoodLine(branch, count, parent)
  {
    hide PushLine;
  }

  // ---- a negative number of files ------------------------------------------------------------------------

  lemma NegativeCountScans(branch: string, n: nat, parent: string)
    requires IsWord(parent) && |parent| <= 40 && n <= 0x8000_0000
    ensures ScanCount("PUSH", branch, " " + "-" + Dec(n) + " " + parent) ==
            Words(Some("PUSH"), Some(branch), 0 - n, Some(parent))
  {
    hide ScanInt, ScanWord, Dec;
    var afterCount := " " + parent;
    assert " " + "-" + Dec(n) + " " + parent == " " + ['-'] + Dec(n) + afterCount;
    ScanIntSigned(" ", '-', n, afterCount);
    assert afterCount == " " + parent + "";
    ScanWordStops(" ", parent, "", UNLIMITED);
  }

  lemma NegativeScans(branch: string, n: nat, parent: string)
    requires IsWord(branch) && |branch| <= 31 && IsWord(parent) && |parent| <= 40 && n <= 0x8000_0000
    requires NoNul("PUSH " + branch + " " + "-" + Dec(n) + " " + parent)
    ensures DecodeCommand("PUSH " + branch + " " + "-" + Dec(n) + " " + parent) == Push(branch, 0 - n, Some(parent))
  {
    hide ScanLine, ScanCount, Dec, UpToNul, IsWord;
    var line, rest := "PUSH " + branch + " " + "-" + Dec(n) + " " + parent, " " + "-" + Dec(n) + " " + parent;
    assert line == "PUSH " + branch + rest && line + "" == line;
    UpToNulStops(line, "");
    BranchScans(branch, rest);
    NegativeCountScans(branch, n, parent);
  }

  lemma NegativeClean(branch: string, n: nat, parent: string)
    requires IsWord(branch) && IsWord(parent)
    ensures var line := "PUSH " + branch + " " + "-" + Dec(n) + " " + parent; NoNul(line) && Free(line, {'\n'})
  {
    hide Dec;
    forall i | 0 <= i < |Dec(n)|
      ensures Dec(n)[i] != NUL && Dec(n)[i] != '\n'
    {
      DigitIsPlain(Dec(n)[i]);
    }
  }

  lemma ServeNoFiles(hash: Hasher, repo: Repo, stream: string, line: string, rest: string, branch: string, count: int,
                     parent: string)
    requires DecodeLine(stream) == LineRead(line, rest) && DecodeCommand(line) == Push(branch, count, Some(parent))
    requires count <= 0 && (branch in repo.heads ==> repo.heads[branch] == parent)
    ensures var o := AtomicPush(hash, repo, branch, parent, [], Fine);
            Serve(hash, repo, stream, Fine) == Some(Served(o.repo, o.reply, rest))
  {
    hide DecodeLine, DecodeCommand, AtomicPush;
  }

  /** A negative number of files counts as none: the push stores and lists nothing and moves the head to
      the manifest as it is. */
  lemma ServeNegativeCount(hash: Hasher, repo: Repo, branch: string, n: nat, parent: string, line: string, rest: string)
    requires IsWord(branch) && |branch| <= 31 && IsWord(parent) && |parent| <= 40 && n <= 0x8000_0000
    requires line == "PUSH " + branch + " " + "-" + Dec(n) + " " + parent && |line| < 255
    requires branch in repo.heads ==> repo.heads[branch] == parent
    ensures var o := AtomicPush(hash, repo, branch, parent, [], Fine);
            Serve(hash, repo, line + "\n" + rest, Fine) == Some(Served(o.repo, o.reply, rest))
  {
    hide *;
    NegativeClean(branch, n, parent);
    LineComes(line, rest);
    NegativeScans(branch, n, parent);
    ServeNoFiles(hash, repo, line + "\n" + rest, line, rest, branch, 0 - n, parent);
  }
}
