// The forwarding gate on the characters and command names of a line
// (has_bare_cr_or_nul in gateway/security_controls.py, nonsync_literal_size and
// classify in gateway/command_router.py, the loop of _client_to_upstream).
module Gate {
  import opened Wrappers
  import opened Text
  import opened ImapParser
  import opened CommandRouter
  import opened ClientPump
  import opened ForwardingSafety
  import OperationParser

  // ----- stray characters -----

  /** No NUL, and no CR but the one that ends the line, before its LF if it has one. */
  predicate NoStray(line: string) {
    forall i :: 0 <= i < |line| ==>
      line[i] != '\0' && (line[i] == '\r' ==> i == |line| - 1 || (i == |line| - 2 && line[|line| - 1] == '\n'))
  }

  lemma StrayIff(line: string)
    ensures HasBareCrOrNul(line) <==> !NoStray(line)
  {
    var body := if line != "" && line[|line| - 1] == '\n' then line[..|line| - 1] else line;
    var text := if body != "" && body[|body| - 1] == '\r' then body[..|body| - 1] else body;
    if HasBareCrOrNul(line) {
      var i :| 0 <= i < |text| && (text[i] == '\r' || text[i] == '\0');
      assert line[i] == text[i];
    }
    if !NoStray(line) {
      var i :| 0 <= i < |line| &&
        (line[i] == '\0' || (line[i] == '\r' && i != |line| - 1 && !(i == |line| - 2 && line[|line| - 1] == '\n')));
      assert i < |text| && text[i] == line[i];
    }
  }

  lemma {:induction false} WithoutStray(s: string)
    ensures '\r' !in Without(s) && '\0' !in Without(s)
  {
    if s == "" {
    } else {
      WithoutStray(s[1..]);
    }
  }

  /** A line with a stray character, and no other, is answered BAD: nothing else happens and the next line is read. */
  lemma StrayIsBad(s: Session, input: string, w: World)
    requires input != ""
    ensures var t, r := Serve(s, input, w), ReadLine(input);
            && ((exists e :: e in t.events && e.Answer? && e.reply.BadLine?) <==> !NoStray(r.data))
            && (!NoStray(r.data) ==>
                  && t.session == s && t.rest == r.rest && t.open && |t.events| == 1
                  && t.events[0].Answer? && t.events[0].reply.BadLine?
                  && '\r' !in t.events[0].reply.tag && '\0' !in t.events[0].reply.tag)
  {
    hide HasBareCrOrNul, NoStray, ParseLine, LiteralTurn, ParsedTurn, ReadLine, Chomp, Without;
    var r := ReadLine(input);
    var raw := Chomp(r.data);
    StrayIff(r.data);
    if HasBareCrOrNul(r.data) {
      WithoutStray(raw[..IndexOf(raw, ' ')]);
      assert Serve(s, input, w).events[0] in Serve(s, input, w).events;
    } else {
      match ParseLine(raw) {
        case None => LiteralNotBad(s, raw, r.rest, w);
        case Some(cmd) => ParsedNotBad(s, r.data, raw, cmd, r.rest, w);
      }
    }
  }

  lemma LiteralNotBad(s: Session, raw: string, input: string, w: World)
    ensures forall e :: e in LiteralTurn(s, raw, input, w).events ==> !(e.Answer? && e.reply.BadLine?)
  {
    hide Discard, Words, Chomp, AppendFlags, TakesLiteral, AnyLiteralTail, ClientPump.Suppressed, ReadLine, AppendSize, AppendFolder,
         FirstWord;
  }

  lemma ParsedNotBad(s: Session, line: string, raw: string, cmd: ParsedCommand, input: string, w: World)
    ensures forall e :: e in ParsedTurn(s, line, raw, cmd, input, w).events ==> !(e.Answer? && e.reply.BadLine?)
  {
    hide Discard, NonsyncSize, Trim, IsStoreDeleted, IsArchiveCopy, OperationParser.BuildParsedOp, EnableLine, FilterEnable;
  }


  // ----- non-synchronizing literals -----

  predicate NonsyncAt(line: string, i: nat, j: nat) {
    && i + 1 < j && j + 1 < |line| && line[i] == '{' && (forall k :: i < k < j ==> IsDigit(line[k]))
    && (line[j] == '+' || line[j] == '-') && line[j + 1] == '}' && forall k :: j + 2 <= k < |line| ==> IsSpace(line[k])
  }

  /** {digits+} or {digits-} with nothing but white space after it. */
  ghost predicate EndsNonsync(line: string) {
    exists i: nat, j: nat :: NonsyncAt(line, i, j)
  }

  lemma {:induction false} TrimRightAt(s: string) returns (e: nat)
    ensures e <= |s| && TrimRight(s) == s[..e] && (forall k :: e <= k < |s| ==> IsSpace(s[k])) && (e > 0 ==> !IsSpace(s[e - 1]))
  {
    if s != "" && IsSpace(s[|s| - 1]) {
      e := TrimRightAt(s[..|s| - 1]);
      assert forall k :: e <= k < |s| - 1 ==> s[k] == s[..|s| - 1][k];
    } else {
      e := |s|;
      assert s[..|s|] == s;
    }
  }

  lemma {:induction false} DigitsAt(s: string, from: nat, end: nat)
    requires from < end <= |s| && !IsDigit(s[from]) && forall k :: from < k < end ==> IsDigit(s[k])
    ensures DigitsBefore(s, end) == end - from - 1
  {
    if end == from + 1 {
    } else {
      DigitsAt(s, from, end - 1);
    }
  }

  lemma {:induction false} DigitsBeforeAre(s: string, end: nat)
    requires end <= |s|
    ensures forall k :: end - DigitsBefore(s, end) <= k < end ==> IsDigit(s[k])
  {
    if end == 0 || !IsDigit(s[end - 1]) {
    } else {
      DigitsBeforeAre(s, end - 1);
    }
  }

  lemma SizeShape(s: string, end: nat)
    requires end <= |s| && SizeBefore(s, end).Some?
    ensures var n := DigitsBefore(s, end); 0 < n < end && s[end - n - 1] == '{'
  {
    hide ReadNat, DigitsBefore;
  }

  lemma NonsyncFound(line: string)
    requires NonsyncSize(line).Some?
    ensures EndsNonsync(line)
  {
    hide TrimRight, SizeBefore;
    var e := TrimRightAt(line);
    var t := line[..e];
    assert TrimRight(line) == t;
    SizeShape(t, e - 2);
    var n := DigitsBefore(t, e - 2);
    DigitsBeforeAre(t, e - 2);
    ShapeIsThere(line, t, e, n);
  }

  lemma ShapeIsThere(line: string, t: string, e: nat, n: nat)
    requires e <= |line| && t == line[..e] && 0 < n && n + 3 <= e && t[e - 1] == '}' && Sign(t[e - 2]) && t[e - 3 - n] == '{'
    requires forall k :: e - 2 - n <= k < e - 2 ==> IsDigit(t[k])
    requires forall k :: e <= k < |line| ==> IsSpace(line[k])
    ensures EndsNonsync(line)
  {
    hide IsSpace, IsDigit;
    assert forall k :: 0 <= k < e ==> line[k] == t[k];
    assert NonsyncAt(line, e - 3 - n, e - 2);
  }

  lemma NonsyncRead(line: string, i: nat, j: nat)
    requires NonsyncAt(line, i, j)
    ensures NonsyncSize(line).Some?
  {
    hide ReadNat;
    var e := TrimRightAt(line);
    assert e == j + 2 by {
      assert !IsSpace(line[j + 1]);
    }
    var t := line[..e];
    assert forall k :: 0 <= k < e ==> t[k] == line[k];
    DigitsAt(t, i, j);
  }

  lemma NonsyncIff(line: string)
    ensures NonsyncSize(line).Some? <==> EndsNonsync(line)
  {
    hide NonsyncSize, NonsyncAt;
    if NonsyncSize(line).Some? {
      NonsyncFound(line);
    }
    if EndsNonsync(line) {
      var i: nat, j: nat :| NonsyncAt(line, i, j);
      NonsyncRead(line, i, j);
    }
  }

  /** Line ends are white space, so dropping them makes no difference. */
  lemma {:induction false} TrimChomped(s: string)
    ensures TrimRight(Chomp(s)) == TrimRight(s)
  {
    if s != "" && (s[|s| - 1] == '\r' || s[|s| - 1] == '\n') {
      TrimChomped(s[..|s| - 1]);
    }
  }

  lemma ChompedNonsync(line: string)
    ensures NonsyncSize(Chomp(line)) == NonsyncSize(line)
  {
    hide TrimRight, Chomp, SizeBefore;
    TrimChomped(line);
  }

  // ----- command names -----

  /** The commands the gateway lists as reads. */
  predicate Reads(name: string) {
    name in {
      "SELECT", "EXAMINE", "UNSELECT", "FETCH", "SEARCH", "ESEARCH", "SORT", "THREAD", "LIST", "LSUB", "XLIST", "STATUS",
      "SUBSCRIBE", "UNSUBSCRIBE", "NAMESPACE", "GETQUOTA", "GETQUOTAROOT", "GETACL", "MYRIGHTS", "LISTRIGHTS", "GETMETADATA",
      "CAPABILITY", "ID", "ENABLE", "NOOP", "CHECK", "IDLE", "LOGOUT"}
  }

  /** The second word, or the third after UID, in capitals. */
  function VerbOf(raw: string): string {
    var ws := Words(raw);
    if |ws| < 2 then "" else if |ws| >= 3 && Upper(ws[1]) == "UID" then Upper(ws[2]) else Upper(ws[1])
  }

  /** The end of IDLE: a line of its own. */
  predicate Done(raw: string) {
    |Words(raw)| < 2 && Upper(Trim(raw)) == "DONE"
  }

  lemma ReadIff(raw: string, cmd: ParsedCommand)
    requires ParseLine(raw) == Some(cmd)
    ensures Classify(cmd) == Class.Read <==>
            Reads(VerbOf(raw)) || Done(raw) || (|Words(raw)| >= 2 && VerbOf(raw) == "" && Upper(Words(raw)[0]) == "DONE")
    ensures cmd.command == VerbOf(raw)
  {
    hide Words, Tokenize, AfterTokens, SyncLiteral, Trim, Upper;
  }

  lemma VerbNotEmpty(raw: string)
    requires |Words(raw)| >= 2
    ensures VerbOf(raw) != ""
  {
    hide Words;
    WordsClean(raw);
  }

  /**
   * What may be forwarded: no stray character, no non-synchronizing literal, a command that
   * waits for no literal and is one of the listed reads, or a bare DONE.
   */
  ghost predicate Passable(line: string) {
    && NoStray(line) && !EndsNonsync(line) && ParseLine(Chomp(line)).Some?
    && (Reads(VerbOf(Chomp(line))) || Done(Chomp(line)))
  }

  lemma PassableIff(line: string)
    requires VerbOf(Chomp(line)) != "ENABLE"
    ensures MayForward(line) <==> Passable(line)
  {
    hide HasBareCrOrNul, NonsyncSize, ParseLine, Classify, Chomp, NoStray, EndsNonsync, VerbOf, Done, Reads, Words;
    var raw := Chomp(line);
    StrayIff(line);
    ChompedNonsync(line);
    NonsyncIff(line);
    if ParseLine(raw).Some? {
      ReadIff(raw, ParseLine(raw).value);
      if |Words(raw)| >= 2 {
        VerbNotEmpty(raw);
      }
    }
  }

  lemma MayForwardPassable(line: string)
    requires MayForward(line)
    ensures Passable(line)
  {
    hide HasBareCrOrNul, NonsyncSize, ParseLine, Classify, Chomp, NoStray, EndsNonsync, VerbOf, Done, Reads, Words;
    var raw := Chomp(line);
    StrayIff(line);
    ChompedNonsync(line);
    NonsyncIff(line);
    ReadIff(raw, ParseLine(raw).value);
    if |Words(raw)| >= 2 {
      VerbNotEmpty(raw);
    }
  }

  /** Every line written upstream, on its characters and its command name. */
  lemma ForwardedIsPassable(s: Session, input: string, k: nat, worlds: Worlds, line: string)
    requires Forward(line) in ServeAll(s, input, k, worlds).0
    ensures Passable(line)
  {
    hide ServeAll, MayForward, Passable;
    ForwardedIsSafe(s, input, k, worlds, line);
    MayForwardPassable(line);
  }

  /** A turn writes its line upstream exactly when the line is passable (an ENABLE may be cut instead). */
  lemma TurnForwardsIff(s: Session, input: string, w: World)
    requires input != "" && VerbOf(Chomp(ReadLine(input).data)) != "ENABLE"
    ensures Forward(ReadLine(input).data) in Serve(s, input, w).events <==> Passable(ReadLine(input).data)
  {
    hide Serve, Passable, MayForward, Passed, Chomp, VerbOf, ReadLine, Forwards;
    var line := ReadLine(input).data;
    ForwardsIn(Serve(s, input, w).events, line);
    TurnForwards(s, input, w);
    PassableIff(line);
    PassedIff(line);
    if MayForward(line) {
      PassedVerb(line);
    }
  }

  lemma PassedVerb(line: string)
    requires MayForward(line) && VerbOf(Chomp(line)) != "ENABLE"
    ensures line in Passed(line)
  {
    hide HasBareCrOrNul, NonsyncSize, ParseLine, Classify, Chomp, VerbOf, EnableLine, FilterEnable;
    ReadIff(Chomp(line), ParseLine(Chomp(line)).value);
    assert Forwards([Forward(line)]) == [line] by { assert [Forward(line)][1..] == []; }
  }
}
