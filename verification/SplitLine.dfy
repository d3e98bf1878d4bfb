// How one flag cuts a response line in two: from the agent's STORE command to
// the lines the agent reads.
module SplitLine {
  import opened Wrappers
  import opened Text
  import opened Flags
  import opened ImapParser
  import opened ResponseLine
  import opened FlagPatch
  import opened UpstreamPump
  import AgentView
  import ClientPump
  import CommandRouter
  import EndToEnd
  import Execution
  import ForwardingSafety
  import ImapServer
  import OperationParser
  import RelayFraming

  /** Backslash, r, backslash, n, X: five harmless characters on the wire. */
  const FLAG := "\\r\\nX"

  const UPSTREAM_LINE := "* 1 FETCH (UID 5 FLAGS ())"

  lemma FlagIsFlag()
    ensures EndToEnd.FlagArgument("(" + FLAG + ")") && EndToEnd.Plain(FLAG) && OperationParser.FlagList("(" + FLAG + ")") == [FLAG]
  {
    var f := "(" + FLAG + ")";
    assert f[1..|f| - 1] == FLAG;
    WordsOfJoin([FLAG]);
  }

  lemma StoreEvents(s: ClientPump.Session, cmd: ParsedCommand, w: ClientPump.World, op: OperationParser.ParsedOperation)
    requires s.held == None && !w.stageFails && cmd.uid && cmd.command == "STORE" && cmd.args != []
    requires OperationParser.BuildParsedOp(cmd) == Some(op) && op.opType != "trash"
    ensures ClientPump.FlushEvents(s, cmd, w) + ClientPump.StageTurn(ClientPump.Flushed(s, cmd), cmd, w).0 ==
            [ClientPump.Stage(op, s.folder, ClientPump.Direct), ClientPump.Answer(ClientPump.Staged(cmd.tag))]
  {
    hide OperationParser.BuildParsedOp, ClientPump.IsStoreDeleted;
    assert !ClientPump.IsArchiveCopy(cmd, w.profile);
    var es := ClientPump.StageTurn(s, cmd, w).0;
    assert [] + es == es;
  }

  lemma FlagOperation(tag: string, uidSet: string, op: string)
    requires OperationParser.FlagsOp(op) == "+FLAGS"
    ensures OperationParser.BuildParsedOp(ParsedCommand(tag, "STORE", true, [uidSet, op, "(" + FLAG + ")"])) ==
            Some(OperationParser.ParsedOperation("store", [uidSet], None, [FLAG], []))
  {
    hide OperationParser.FlagsOp, OperationParser.FlagList;
    FlagIsFlag();
    assert OperationParser.Normalised(FLAG) == "r\\nx" by {
      assert FLAG[1..] == "r\\nX";
      assert OperationParser.StripBackslashes(FLAG) == "r\\nX";
      assert Lower("r\\nX") == "r\\nx";
    }
    var flags := [FLAG];
    assert forall name :: OperationParser.Names(flags, name) ==> OperationParser.Normalised(FLAG) == name;
  }

  /** The flag passes every check of the client-to-upstream pump and is staged as it is. */
  lemma FlagIsStaged(s: ClientPump.Session, tag: string, uid: string, verb: string, uidSet: string, op: string, rest: string,
                     w: ClientPump.World)
    requires Clean(tag) && uid != "" && ForwardingSafety.Prefix(uid) && Clean(verb) && Upper(verb) == "STORE"
    requires AtomWord(uidSet) && Execution.ServerChange(op) == Some(ImapServer.Add)
    requires EndToEnd.Plain(EndToEnd.StoreLine(tag, uid, verb, uidSet, op, "(" + FLAG + ")"))
    requires s.held == None && !w.stageFails
    ensures var line := EndToEnd.StoreLine(tag, uid, verb, uidSet, op, "(" + FLAG + ")") + "\r\n" + rest;
            line != "" && ClientPump.Serve(s, line, w) ==
            ClientPump.Turn([ClientPump.Stage(OperationParser.ParsedOperation("store", [uidSet], None, [FLAG], []), s.folder, ClientPump.Direct),
                             ClientPump.Answer(ClientPump.Staged(tag))], s, rest, true)
  {
    hide EndToEnd.StoreLine, EndToEnd.Plain, ParseLine, OperationParser.BuildParsedOp, OperationParser.FlagsOp, Upper, Clean, AtomWord,
         Execution.ServerChange, ForwardingSafety.Prefix, ClientPump.FlushEvents, ClientPump.StageTurn, CommandRouter.NonsyncSize,
         EndToEnd.FlagArgument, OperationParser.FlagList;
    var flagArg := "(" + FLAG + ")";
    var raw := EndToEnd.StoreLine(tag, uid, verb, uidSet, op, flagArg);
    var cmd := ParsedCommand(tag, "STORE", true, [uidSet, op, flagArg]);
    FlagIsFlag();
    EndToEnd.AddOpIsAtom(op);
    EndToEnd.StoreLineParses(tag, uid, verb, uidSet, op, flagArg);
    EndToEnd.StoreEnds(tag, uid, verb, uidSet, op, flagArg);
    EndToEnd.LineServed(s, raw, cmd, rest, w);
    FlagOperation(tag, uidSet, op);
    StoreEvents(s, cmd, w, OperationParser.ParsedOperation("store", [uidSet], None, [FLAG], []));
    SessionKept(s, cmd, w);
  }

  lemma SessionKept(s: ClientPump.Session, cmd: ParsedCommand, w: ClientPump.World)
    requires s.held == None && cmd.uid && cmd.command == "STORE"
    ensures ClientPump.StageTurn(ClientPump.Flushed(s, cmd), cmd, w).1 == s && CommandRouter.Classify(cmd) == CommandRouter.Write
  {
    hide OperationParser.BuildParsedOp, ClientPump.IsStoreDeleted;
  }

  // ----- on the way back -----

  lemma OneFlagSorted(f: string)
    ensures SortedFlags({f}) == [f]
  {
    HasLeast({f});
    assert {f} - {f} == {};
  }

  /** What the escapes of the flag say when re.sub reads them. */
  lemma FlagUnescaped(matched: string)
    ensures ReplacementText(FlagsText({FLAG}), matched) == Some("FLAGS (\r\nX)")
  {
    hide ReplacementText, SortedFlags;
    OneFlagSorted(FLAG);
    assert FlagsText({FLAG}) == "FLAGS (" + "\\r\\nX)";
    PlainReplacement("FLAGS (", "\\r\\nX)", matched);
    EscapesRead(matched);
    assert "FLAGS (" + "\r\nX)" == "FLAGS (\r\nX)";
  }

  lemma EscapesRead(matched: string)
    ensures ReplacementText("\\r\\nX)", matched) == Some("\r\nX)")
  {
    var s := "\\r\\nX)";
    assert s[1..] == "r\\nX)" && s[2..] == "\\nX)" && s[2..][1..] == "nX)" && s[2..][2..] == "X)";
    PlainReplacement("X)", "", matched);
    assert "X)" + "" == "X)";
    assert ReplacementText("", matched) == Some("") by { NothingReplaced(matched); }
    assert ReplacementText("\\nX)", matched) == Some("\n" + "X)");
    assert ReplacementText(s, matched) == Some("\r" + ("\n" + "X)"));
    assert "\r" + ("\n" + "X)") == "\r\nX)";
  }

  lemma UpstreamLineParts()
    ensures Counted(UPSTREAM_LINE) == Some(("1", "FETCH (UID 5 FLAGS ())"))
    ensures FetchPayload(UPSTREAM_LINE) == Some("UID 5 FLAGS ()") && FindUid("UID 5 FLAGS ()", 0) == Some(5)
  {
    hide Counted, FindUid, FetchPayload;
    var l, rest := UPSTREAM_LINE, "FETCH (UID 5 FLAGS ())";
    AgentView.CountedAt("1", rest);
    assert l == "* " + "1" + " " + rest;
    PayloadOf(l, rest);
    PayloadUid();
  }

  lemma PayloadOf(l: string, rest: string)
    requires Counted(l) == Some(("1", rest)) && rest == "FETCH (UID 5 FLAGS ())"
    ensures FetchPayload(l) == Some("UID 5 FLAGS ()")
  {
    hide Counted;
    assert rest[..7] == "FETCH (" && Upper("FETCH (") == "FETCH (";
    assert rest[7..|rest| - 1] == "UID 5 FLAGS ()";
  }

  lemma PayloadUid()
    ensures FindUid("UID 5 FLAGS ()", 0) == Some(5)
  {
    hide DigitRun, ReadNat;
    var payload := "UID 5 FLAGS ()";
    assert payload[0..] == payload && payload[..4] == "UID " && payload[4..] == "5" + " FLAGS ()";
    assert Upper("UID ") == "UID ";
    AgentView.DigitRunAt("5", " FLAGS ()");
    assert ("5" + " FLAGS ()")[..1] == "5" && ReadNat("5") == 5 by { FiveIsFive(); }
    assert UidAt(payload, 0) == Some(5);
  }

  lemma FiveIsFive()
    ensures AllDigits("5") && ReadNat("5") == 5 && ("5" + " FLAGS ()")[..1] == "5"
  {
  }

  lemma UpstreamFlags()
    ensures FindFlags(UPSTREAM_LINE, 0) == Some((17, 25)) && FindFlags("UID 5 FLAGS ()", 0) == Some((6, 14))
  {
    hide FindFlags;
    var l, p := UPSTREAM_LINE, "UID 5 FLAGS ()";
    FlagsAt(l, 17);
    FlagsAt(p, 6);
  }

  /** Only one place in the two texts starts with an F that an L follows. */
  lemma FlagsAt(s: string, i: nat)
    requires (s == UPSTREAM_LINE && i == 17) || (s == "UID 5 FLAGS ()" && i == 6)
    ensures FindFlags(s, 0) == Some((i, i + 8))
  {
    hide FindFlags, AgentView.FlagsHere;
    assert AgentView.FlagsHere(s, i) && IndexOf(s[i + 7..], ')') == 0 < |s[i + 7..]| by { OpensHere(s, i); }
    forall k | 0 <= k < i ensures !AgentView.FlagsHere(s, k) {
      assert s[k] != 'f' && !(s[k] == 'F' && (s[k + 1] == 'L' || s[k + 1] == 'l'));
      NotHere(s, k);
    }
    AgentView.FindAt(s, 0, i);
  }

  lemma OpensHere(s: string, i: nat)
    requires (s == UPSTREAM_LINE && i == 17) || (s == "UID 5 FLAGS ()" && i == 6)
    ensures AgentView.FlagsHere(s, i) && IndexOf(s[i + 7..], ')') == 0 < |s[i + 7..]|
  {
    assert s[i..][..7] == "FLAGS (" && Upper("FLAGS (") == "FLAGS (";
    assert s[i + 7..][0] == ')';
  }

  lemma NotHere(s: string, k: nat)
    requires k + 1 < |s| && s[k] != 'f' && !(s[k] == 'F' && (s[k + 1] == 'L' || s[k + 1] == 'l'))
    ensures !AgentView.FlagsHere(s, k)
  {
    if Begins(s[k..], "FLAGS (") {
      AgentView.UpperAt(s[k..][..7], 0);
      AgentView.UpperAt(s[k..][..7], 1);
    }
  }

  /**
   * With that flag pending, the agent reads two response lines where upstream sent one: the
   * first breaks off inside the list, the second is text of the agent's own choosing.
   */
  lemma FlagSplitsLine(c: Context)
    requires c.folder && c.changes(5) == ([FLAG], []) && 5 !in c.pending && c.capabilityIssued == None && c.revertIssued == None
    ensures var h := Handle(Tags(None, None), UPSTREAM_LINE, false, c);
            && h.sent == ["* 1 FETCH (UID 5 FLAGS (\r\nX))"] && Splits(Tags(None, None), UPSTREAM_LINE, c)
            && Parse(Sent(h.sent), None, false) == [Line("* 1 FETCH (UID 5 FLAGS ("), Line("X))")]
  {
    hide Handle, Splits, Patched, Parse, Sent, FlagsText, Merged, ReplacementText, FindUid, FindFlags, HasCrlf;
    var l, sent := UPSTREAM_LINE, "* 1 FETCH (UID 5 FLAGS (\r\nX))";
    UpstreamLineParts();
    UpstreamFlags();
    assert Merged(l, "UID 5 FLAGS ()", [FLAG], []) == {FLAG} by { MergedFlag(l); }
    FlagUnescaped(l[17..25]);
    assert Patched(l, c) == sent by { PatchedText(l, c, sent); }
    HandledAs(l, c, sent);
    TwoLines(sent);
  }

  lemma MergedFlag(l: string)
    requires FindFlags("UID 5 FLAGS ()", 0) == Some((6, 14))
    ensures Merged(l, "UID 5 FLAGS ()", [FLAG], []) == {FLAG}
  {
    var p := "UID 5 FLAGS ()";
    assert p[13..13] == "" && Words("") == [];
  }

  lemma PatchedText(l: string, c: Context, sent: string)
    requires l == UPSTREAM_LINE && sent == "* 1 FETCH (UID 5 FLAGS (\r\nX))"
    requires c.folder && c.changes(5) == ([FLAG], [])
    requires FetchPayload(l) == Some("UID 5 FLAGS ()") && FindUid("UID 5 FLAGS ()", 0) == Some(5) && FindFlags(l, 0) == Some((17, 25))
    requires Merged(l, "UID 5 FLAGS ()", [FLAG], []) == {FLAG}
    requires ReplacementText(FlagsText({FLAG}), l[17..25]) == Some("FLAGS (\r\nX)")
    ensures Patched(l, c) == sent
  {
    hide FlagsText, Merged, ReplacementText, FindUid, FindFlags, FetchPayload;
    assert l[..17] + "FLAGS (\r\nX)" + l[25..] == sent;
  }

  lemma HandledAs(l: string, c: Context, sent: string)
    requires l == UPSTREAM_LINE && sent == "* 1 FETCH (UID 5 FLAGS (\r\nX))" && Patched(l, c) == sent
    requires FetchPayload(l) == Some("UID 5 FLAGS ()") && FindUid("UID 5 FLAGS ()", 0) == Some(5)
    requires Counted(l) == Some(("1", "FETCH (UID 5 FLAGS ())"))
    requires 5 !in c.pending && c.capabilityIssued == None && c.revertIssued == None
    ensures Handle(Tags(None, None), l, false, c).sent == [sent] && Splits(Tags(None, None), l, c)
  {
    hide Handle, Splits, Patched, FindUid, PatchSplits, Announces, TaggedOk, IsCapability, IsSearch, ExistsCount, HasCrlf, Counted, FetchPayload,
         FetchLiteral, Recounted, Filtered, Fires, AgentView.OpensFetch, Suppressed;
    assert AgentView.OpensFetch(l) by { LineOpensFetch(l); }
    AgentView.FetchUntouched(Tags(None, None), l, c);
    assert !Suppressed(l, c) by { NotSuppressed(l, c); }
    assert FetchLiteral(l) == None by { NoBraceNoLiteral(l); }
    var i := 24;
    assert sent[i] == '\r' && sent[i + 1] == '\n';
    assert HasCrlf(sent) by { CrlfThere(sent, i); }
    assert !HasCrlf(l) by { NoReturnHere(l); }
    PatchedAlone(l, c);
    SplitsWhen(l, c);
  }

  lemma PatchedAlone(l: string, c: Context)
    requires Recounted(Filtered(Tags(None, None), l, c), c) == l && !Fires(Tags(None, None), l, c)
    requires FetchLiteral(l) == None && !Suppressed(l, c)
    ensures Handle(Tags(None, None), l, false, c).sent == [Patched(l, c)]
  {
    hide Patched, Announces, FetchLiteral, Suppressed, Recounted, Filtered, Fires, IsCapability, Upper;
    assert [] + [Patched(l, c)] == [Patched(l, c)];
  }

  lemma LineOpensFetch(l: string)
    requires Counted(l) == Some(("1", "FETCH (UID 5 FLAGS ())"))
    ensures AgentView.OpensFetch(l)
  {
    hide Counted;
    var rest := "FETCH (UID 5 FLAGS ())";
    assert rest[..7] == "FETCH (" && Upper("FETCH (") == "FETCH (";
  }

  lemma NotSuppressed(l: string, c: Context)
    requires FetchPayload(l) == Some("UID 5 FLAGS ()") && FindUid("UID 5 FLAGS ()", 0) == Some(5) && 5 !in c.pending
    ensures !Suppressed(l, c)
  {
    hide FindUid, FetchPayload, IsFetch;
  }

  lemma CrlfThere(s: string, i: nat)
    requires i + 1 < |s| && s[i] == '\r' && s[i + 1] == '\n'
    ensures HasCrlf(s)
  {
  }

  lemma NoReturnHere(s: string)
    requires '\r' !in s
    ensures !HasCrlf(s)
  {
  }

  lemma NoBraceNoLiteral(l: string)
    requires '}' !in l
    ensures FetchLiteral(l) == None
  {
    hide FindUid, Counted;
    TrimRightEdges(l);
    var t := TrimRight(l);
    assert '}' !in t;
  }

  lemma SplitsWhen(l: string, c: Context)
    requires !HasCrlf(l) && HasCrlf(Patched(l, c)) && FetchLiteral(l) == None && !Suppressed(l, c)
    requires Recounted(Filtered(Tags(None, None), l, c), c) == l
    ensures Splits(Tags(None, None), l, c)
  {
    hide Patched, PatchSplits, FetchLiteral, Suppressed, Recounted, Filtered, Fires, HasCrlf;
    RelayFraming.PatchKeeps(l, c);
  }

  lemma TwoLines(sent: string)
    requires sent == "* 1 FETCH (UID 5 FLAGS (\r\nX))"
    ensures Parse(Sent([sent]), None, false) == [Line("* 1 FETCH (UID 5 FLAGS ("), Line("X))")]
  {
    hide Announces, CrlfAt, Parse;
    var a, b := "* 1 FETCH (UID 5 FLAGS (", "X))";
    SentOne(sent);
    assert sent + CRLF == a + CRLF + (b + CRLF + "");
    NoReturnHere(a);
    NoReturnHere(b);
    ParseLineStep(a, b + CRLF + "", false);
    assert Announces(a, false) == None && Announces(b, false) == None by { NoBrace(a); NoBrace(b); }
    ParseLineStep(b, "", false);
    assert Parse("", None, false) == [] by { NothingRead(); }
  }

  lemma NoBrace(l: string)
    requires l == "" || l[|l| - 1] != '}'
    ensures Announces(l, false) == None
  {
  }

  lemma NothingRead()
    ensures Parse("", None, false) == []
  {
  }
}
