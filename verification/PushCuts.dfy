/** Pushes whose stream ends early, at any byte: what the root server makes of them. */
module PushCuts {
  import opened CStrings
  import opened Manifest
  import opened Wire
  import opened WireRoundTrip
  import opened Store
  import opened PushEndToEnd

  // ---- a cut inside the command line ---------------------------------------------------------------

  lemma {:induction false} DecLeads(n: nat)
    requires n > 0
    ensures Dec(n)[0] != '0'
  {
    if n >= 10 {
      DecLeads(n / 10);
    }
  }

  lemma {:induction false} ValuePositive(s: string)
    requires s != "" && s[0] != '0' && forall i :: 0 <= i < |s| ==> s[i] in DIGITS
    ensures Value(s) > 0
  {
    if |s| > 1 {
      ValuePositive(s[..|s| - 1]);
    }
  }

  lemma CountPositive(u: string)
    requires u != "" && u[0] in DIGITS && u[0] != '0'
    ensures ScanInt(" " + u).Match? && ScanInt(" " + u).value > 0
  {
    hide StrSpn, Value;
    DigitIsPlain(u[0]);
    SpnStops(" ", u, WHITESPACE);
    assert SkipSpace(" " + u) == u;
    assert u[0..] == u;
    ValuePositive(u[..StrSpn(u, DIGITS)]);
  }

  lemma NothingScans(t: string)
    requires t == "" || t == " "
    ensures ScanInt(t) == NoMatch && ScanWord(t, UNLIMITED) == NoMatch
  {
    assert t == t + "";
    SpnStops(t, "", WHITESPACE);
  }

  /** Cut inside the branch name or just behind it: the count stays 0 and there is no parent. */
  lemma CutInBranch(branch: string, t: string)
    requires IsWord(branch) && |branch| <= BRANCH_MAX && (t == "" || t == " ")
    ensures DecodeCommand("PUSH " + branch + t) == Push(branch, 0, None)
  {
    hide ScanWord, ScanInt, UpToNul, StrCSpn;
    var line := "PUSH " + branch + t;
    assert NoNul(line);
    UpToNulStops(line, "");
    assert line + "" == line;
    BranchScans(branch, t);
    NothingScans(t);
  }

  /** Cut behind the first digit of the count or later: some files are announced. */
  lemma CutAfterCount(branch: string, u: string)
    requires IsWord(branch) && |branch| <= BRANCH_MAX && u != "" && u[0] in DIGITS && u[0] != '0' && NoNul(u)
    ensures var command := DecodeCommand("PUSH " + branch + (" " + u));
            command == Unset || (command.Push? && command.branch == branch && command.count > 0)
  {
    hide ScanWord, ScanInt, UpToNul, StrCSpn;
    var line := "PUSH " + branch + (" " + u);
    assert NoNul(line);
    UpToNulStops(line, "");
    assert line + "" == line;
    BranchScans(branch, " " + u);
    CountPositive(u);
  }

  lemma OneWordScans(word: string, t: string)
    requires IsWord(word) && |word| <= COMMAND_MAX && (t == "" || t == " ")
    ensures ScanLine(UpToNul(word + t)) == Words(Some(word), None, 0, None)
  {
    hide ScanWord, UpToNul, StrCSpn;
    assert NoNul(word + t) && word + t + "" == word + t;
    UpToNulStops(word + t, "");
    assert word + t == "" + word + t;
    ScanWordStops("", word, t, UNLIMITED);
    NothingScans(t);
  }

  lemma CutInWord(c: nat)
    requires 0 < c <= 4
    ensures IsWord("PUSH"[..c]) && "PUSH "[..c] == "PUSH"[..c] + ""
    ensures c < 4 ==> |"PUSH"[..c]| < 4
  {
  }

  /** Cut inside the word PUSH or before the branch name: there is no command, another command, or no
      branch. */
  lemma CutInCommand(c: nat)
    requires c <= 5
    ensures var command := DecodeCommand("PUSH "[..c]); command == Unset || command == Other
  {
    hide ScanLine, UpToNul;
    if c == 0 {
      NothingDecodes();
      assert "PUSH "[..0] == "";
    } else if c <= 4 {
      CutInWord(c);
      OneWordScans("PUSH"[..c], "");
      assert c == 4 ==> "PUSH"[..c] == "PUSH";
    } else {
      CutInWord(4);
      assert "PUSH"[..4] == "PUSH" && "PUSH "[..5] == "PUSH" + " ";
      OneWordScans("PUSH", " ");
    }
  }

  lemma NothingDecodes()
    ensures ScanLine(UpToNul("")) == Words(None, None, 0, None)
  {
    hide ScanWord;
    NothingScans("");
    assert UpToNul("") == "";
  }

  // ---- the effect on the repository ------------------------------------------------------------------

  /** The part of the branch name that is left of a command line cut after c bytes. */
  function CutBranch(branch: string, c: nat): string
    requires 5 < c
  {
    branch[..Min(c - 5, |branch|)]
  }

  /** A command line cut behind the word PUSH and before the count announces no file and no parent. */
  predicate CutBeforeCount(branch: string, c: nat) {
    5 < c <= |branch| + 6
  }

  lemma NoFilesLeft(n: nat)
    requires n > 0
    ensures DecodeFiles(n, "") == None
  {
    hide DecodeFile;
    NoHeaderNoFile();
    if n > 1 {
      NoFilesLeft(n - 1);
    }
  }

  /** Announced files that never come: nothing is committed. */
  lemma ServeAnnounced(hash: Hasher, repo: Repo, t: string, luck: Luck)
    requires DecodeLine(t) == LineRead(t, "")
    requires var command := DecodeCommand(t);
             command == Unset || command == Other || (command.Push? && command.count > 0)
    ensures var served := Serve(hash, repo, t, luck);
            served.Some? ==> served.value.repo == repo && !served.value.reply.Accepted?
  {
    hide DecodeLine, DecodeCommand, DecodeFiles, AtomicPush, Rejects, Head;
    var command := DecodeCommand(t);
    if command.Push? {
      NoFilesLeft(Rounds(command.count));
    }
  }

  function ServedPush(hash: Hasher, repo: Repo, branch: string, parent: string, files: seq<PushFile>, luck: Luck)
    : Served
  {
    var o := AtomicPush(hash, repo, branch, parent, files, luck);
    Served(o.repo, o.reply, "")
  }

  lemma ServeNothingAnnounced(hash: Hasher, repo: Repo, t: string, branch: string, luck: Luck)
    requires DecodeLine(t) == LineRead(t, "") && DecodeCommand(t) == Push(branch, 0, None)
    ensures Serve(hash, repo, t, luck) ==
            if Head(repo, branch) != "" then None else Some(ServedPush(hash, repo, branch, "", [], luck))
  {
    hide DecodeLine, DecodeCommand, Digest, Print, NewEntries, PutFiles;
  }

  lemma LineParts(branch: string, count: nat, parent: string, c: nat)
    requires GoodLine(branch, count, parent) && count > 0 && c < |PushLine(branch, count, parent)|
    ensures var t := PushLine(branch, count, parent)[..c];
            && Free(t, {'\n'}) && |t| < HEADER_SIZE - 1
            && (c <= 5 ==> t == "PUSH "[..c])
            && (CutBeforeCount(branch, c) ==>
                  t == "PUSH " + CutBranch(branch, c) + (if c == |branch| + 6 then " " else ""))
            && (c > |branch| + 6 ==>
                  exists u :: t == "PUSH " + branch + (" " + u) && u != "" && u[0] in DIGITS && u[0] != '0' && NoNul(u))
  {
    hide Dec;
    var line := PushLine(branch, count, parent);
    var t := line[..c];
    LineClean(branch, count, parent);
    var body := "PUSH " + branch + " " + Dec(count) + " " + parent;
    assert t == body[..c];
    if c > |branch| + 6 {
      var u := (Dec(count) + " " + parent)[..c - (|branch| + 6)];
      assert body == "PUSH " + branch + (" " + (Dec(count) + " " + parent));
      assert t == "PUSH " + branch + (" " + u);
      DecLeads(count);
      assert u[0] == Dec(count)[0];
      assert forall i :: 0 <= i < |u| ==> u[i] == body[|branch| + 6 + i];
    }
  }

  lemma LineClean(branch: string, count: nat, parent: string)
    requires GoodLine(branch, count, parent)
    ensures var body := "PUSH " + branch + " " + Dec(count) + " " + parent; NoNul(body) && Free(body, {'\n'})
  {
    hide Dec;
    forall i | 0 <= i < |Dec(count)|
      ensures Dec(count)[i] != NUL && Dec(count)[i] != '\n'
    {
      DigitIsPlain(Dec(count)[i]);
    }
  }

  lemma CutLineServed(hash: Hasher, repo: Repo, branch: string, count: nat, parent: string, c: nat, luck: Luck)
    requires GoodLine(branch, count, parent) && count > 0 && c < |PushLine(branch, count, parent)|
    ensures var served := Serve(hash, repo, PushLine(branch, count, parent)[..c], luck);
            if CutBeforeCount(branch, c) then
              served == if Head(repo, CutBranch(branch, c)) != "" then None
                      else Some(ServedPush(hash, repo, CutBranch(branch, c), "", [], luck))
            else served.Some? ==> served.value.repo == repo && !served.value.reply.Accepted?
  {
    hide PushLine, GoodLine, DecodeLine, DecodeCommand, Serve, NoNul, Free;
    var t := PushLine(branch, count, parent)[..c];
    LineParts(branch, count, parent, c);
    LineThenMore(t, "");
    LineWords(branch, count, parent);
    if CutBeforeCount(branch, c) {
      CutBranchIsWord(branch, c);
      CutInBranch(CutBranch(branch, c), if c == |branch| + 6 then " " else "");
      ServeNothingAnnounced(hash, repo, t, CutBranch(branch, c), luck);
    } else if c <= 5 {
      CutInCommand(c);
      ServeAnnounced(hash, repo, t, luck);
    } else {
      var u :| t == "PUSH " + branch + (" " + u) && u != "" && u[0] in DIGITS && u[0] != '0' && NoNul(u);
      CutAfterCount(branch, u);
      ServeAnnounced(hash, repo, t, luck);
    }
  }

  lemma LineWords(branch: string, count: nat, parent: string)
    requires GoodLine(branch, count, parent)
    ensures IsWord(branch) && |branch| <= BRANCH_MAX
  {
  }

  lemma CutBranchIsWord(branch: string, c: nat)
    requires IsWord(branch) && CutBeforeCount(branch, c)
    ensures IsWord(CutBranch(branch, c)) && |CutBranch(branch, c)| <= |branch|
  {
  }

  lemma AcceptedUnless(hash: Hasher, repo: Repo, branch: string, parent: string, files: seq<PushFile>, luck: Luck)
    ensures AtomicPush(hash, repo, branch, parent, files, luck).reply.Accepted? <==>
            !Rejects(repo, branch, parent) && luck != NoBuffer
  {
    hide Digest, Print, PutFiles, NewEntries, Rejects;
  }

  /** The stream goes k bytes beyond the command line, at least to the terminator of the last header; the
      push is not rejected, and there is a buffer. */
  predicate CommitsShortened(repo: Repo, branch: string, parent: string, files: seq<PushFile>, k: int, luck: Luck) {
    k >= LastNamed(files) && !Rejects(repo, branch, parent) && luck != NoBuffer
  }

  /** The push is cut between the word PUSH and the count, and what is left of the branch name is a
      branch without commits. */
  predicate CommitsNothing(repo: Repo, branch: string, c: nat, luck: Luck) {
    CutBeforeCount(branch, c) && Head(repo, CutBranch(branch, c)) == "" && luck != NoBuffer
  }

  /** A stream of c bytes, k of them behind the command line, is committed in exactly two cases, and
      how; in no other case does an outcome that the program defines change the repository. */
  predicate CutOutcome(hash: Hasher, repo: Repo, branch: string, parent: string, files: seq<PushFile>, c: nat, k: int,
                       luck: Luck, served: Option<Served>)
  {
    && (served.Some? && served.value.reply.Accepted? <==>
          CommitsShortened(repo, branch, parent, files, k, luck) || CommitsNothing(repo, branch, c, luck))
    && (CommitsShortened(repo, branch, parent, files, k, luck) ==>
          served == Some(ServedPush(hash, repo, branch, parent, Shortened(files, k), luck)))
    && (CommitsNothing(repo, branch, c, luck) ==>
          served == Some(ServedPush(hash, repo, CutBranch(branch, c), "", [], luck)))
    && (served.Some? && !served.value.reply.Accepted? ==> served.value.repo == repo)
  }

  lemma NotAcceptedKeeps(hash: Hasher, repo: Repo, branch: string, parent: string, files: seq<PushFile>, luck: Luck)
    ensures var o := AtomicPush(hash, repo, branch, parent, files, luck); !o.reply.Accepted? ==> o.repo == repo
  {
    hide Digest, Print, PutFiles, NewEntries, Rejects;
  }

  lemma CutInLine(hash: Hasher, repo: Repo, branch: string, parent: string, files: seq<PushFile>, c: nat, luck: Luck)
    requires GoodLine(branch, |files|, parent) && files != []
    requires c < |PushLine(branch, |files|, parent)|
    ensures CutOutcome(hash, repo, branch, parent, files, c, c - |PushLine(branch, |files|, parent)|, luck,
                       Serve(hash, repo, PushLine(branch, |files|, parent)[..c], luck))
  {
    hide PushLine, GoodLine, Serve, AtomicPush, EncodeFiles, Shortened, Head;
    CutLineServed(hash, repo, branch, |files|, parent, c, luck);
    if CutBeforeCount(branch, c) {
      AcceptedUnless(hash, repo, CutBranch(branch, c), "", [], luck);
      NotAcceptedKeeps(hash, repo, CutBranch(branch, c), "", [], luck);
    }
  }

  lemma LineLongEnough(branch: string, count: nat, parent: string)
    requires GoodLine(branch, count, parent)
    ensures |PushLine(branch, count, parent)| > |branch| + 7
  {
    hide Dec;
  }

  /** What a stream gives that ends k bytes behind the command line. */
  lemma CutFilesServed(hash: Hasher, repo: Repo, branch: string, parent: string, files: seq<PushFile>, k: nat,
                       luck: Luck,
                       stream: string)
    requires GoodLine(branch, |files|, parent) && files != [] && AllFit(files) && k < |EncodeFiles(files)|
    requires stream == PushLine(branch, |files|, parent) + EncodeFiles(files)[..k]
    ensures var served := Serve(hash, repo, stream, luck);
            if CommitsShortened(repo, branch, parent, files, k, luck) then
              served == Some(ServedPush(hash, repo, branch, parent, Shortened(files, k), luck))
            else served.Some? ==> !served.value.reply.Accepted? && served.value.repo == repo
  {
    hide PushLine, GoodLine, Serve, AtomicPush, EncodeFiles, DecodeFiles, Shortened, AllFit, Rejects, LastNamed;
    ServePush(hash, repo, branch, |files|, parent, EncodeFiles(files)[..k], luck);
    CutFiles(files, k);
  }

  lemma PushAccepted(hash: Hasher, repo: Repo, branch: string, parent: string, files: seq<PushFile>, luck: Luck)
    requires !Rejects(repo, branch, parent) && luck != NoBuffer
    ensures ServedPush(hash, repo, branch, parent, files, luck).reply.Accepted?
  {
    hide AtomicPush, Rejects;
    AcceptedUnless(hash, repo, branch, parent, files, luck);
  }

  lemma KeptOutcome(hash: Hasher, repo: Repo, branch: string, parent: string, files: seq<PushFile>, c: nat, k: int,
                    luck: Luck, served: Option<Served>)
    requires !CommitsShortened(repo, branch, parent, files, k, luck) && c > |branch| + 6
    requires served.Some? ==> !served.value.reply.Accepted? && served.value.repo == repo
    ensures CutOutcome(hash, repo, branch, parent, files, c, k, luck, served)
  {
    hide CommitsShortened;
  }

  lemma ShortenedOutcome(hash: Hasher, repo: Repo, branch: string, parent: string, files: seq<PushFile>, c: nat, k: int,
                         luck: Luck, served: Option<Served>)
    requires CommitsShortened(repo, branch, parent, files, k, luck) && c > |branch| + 6
    requires served == Some(ServedPush(hash, repo, branch, parent, Shortened(files, k), luck))
    ensures CutOutcome(hash, repo, branch, parent, files, c, k, luck, served)
  {
    hide ServedPush, Shortened, LastNamed, Rejects;
    PushAccepted(hash, repo, branch, parent, Shortened(files, k), luck);
  }

  lemma CutInFiles(hash: Hasher, repo: Repo, branch: string, parent: string, files: seq<PushFile>, line: nat, k: nat,
                   luck: Luck, served: Option<Served>)
    requires line > |branch| + 7
    requires if CommitsShortened(repo, branch, parent, files, k, luck) then
               served == Some(ServedPush(hash, repo, branch, parent, Shortened(files, k), luck))
             else served.Some? ==> !served.value.reply.Accepted? && served.value.repo == repo
    ensures CutOutcome(hash, repo, branch, parent, files, line + k, k, luck, served)
  {
    hide *;
    if CommitsShortened(repo, branch, parent, files, k, luck) {
      ShortenedOutcome(hash, repo, branch, parent, files, line + k, k, luck, served);
    } else {
      KeptOutcome(hash, repo, branch, parent, files, line + k, k, luck, served);
    }
  }

  lemma TakeBehind(a: string, b: string, k: nat)
    requires k <= |b|
    ensures (a + b)[..|a| + k] == a + b[..k]
  {
  }

  lemma CutBehindLine(hash: Hasher, repo: Repo, branch: string, parent: string, files: seq<PushFile>, k: nat,
                      luck: Luck)
    requires GoodLine(branch, |files|, parent) && files != [] && AllFit(files) && k < |EncodeFiles(files)|
    ensures var line := PushLine(branch, |files|, parent);
            CutOutcome(hash, repo, branch, parent, files, |line| + k, k, luck,
                       Serve(hash, repo, (line + EncodeFiles(files))[..|line| + k], luck))
  {
    hide *;
    var line := PushLine(branch, |files|, parent);
    TakeBehind(line, EncodeFiles(files), k);
    LineLongEnough(branch, |files|, parent);
    var stream := (line + EncodeFiles(files))[..|line| + k];
    CutFilesServed(hash, repo, branch, parent, files, k, luck, stream);
    CutInFiles(hash, repo, branch, parent, files, |line|, k, luck, Serve(hash, repo, stream, luck));
  }

  /** What the root server makes of a push whose stream ends after c bytes, for every c.  It commits in
      exactly two cases: the push with what came of its last file, when the stream ends behind the
      terminator of the last header, and an empty manifest on what is left of the branch name, when it
      ends before the count. */
  lemma CutPushCommits(hash: Hasher, repo: Repo, branch: string, parent: string, files: seq<PushFile>, c: nat,
                       luck: Luck)
    requires GoodLine(branch, |files|, parent) && files != [] && AllFit(files)
    requires c < |PushLine(branch, |files|, parent)| + |EncodeFiles(files)|
    ensures CutOutcome(hash, repo, branch, parent, files, c, c - |PushLine(branch, |files|, parent)|, luck,
                       Serve(hash, repo, (PushLine(branch, |files|, parent) + EncodeFiles(files))[..c], luck))
  {
    hide *;
    if c < |PushLine(branch, |files|, parent)| {
      TakeFront(PushLine(branch, |files|, parent), EncodeFiles(files), c);
      CutInLine(hash, repo, branch, parent, files, c, luck);
    } else {
      CutBehindLine(hash, repo, branch, parent, files, c - |PushLine(branch, |files|, parent)|, luck);
    }
  }
}
