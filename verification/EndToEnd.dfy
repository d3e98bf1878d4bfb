// From the agent's bytes to the upstream mailbox: what is served, staged and
// later executed has the effect of what the agent asked for.
module EndToEnd {
  import opened Wrappers
  import opened Text
  import opened ImapParser
  import opened CommandRouter
  import opened OperationParser
  import opened ClientPump
  import Execution
  import ImapServer
  import UidSets
  import ForwardingSafety
  import HeldCopy

  /** The staged row of an operation event. */
  function RowOf(e: Event): Execution.Row
    requires e.Stage?
  {
    Execution.Row(e.op.opType, e.op.messageIds, e.folder, e.op.folderTo, e.op.flagsAdd, e.op.flagsRemove)
  }

  // ----- one quoted UID MOVE or COPY -----

  predicate Plain(s: string) {
    '\r' !in s && '\n' !in s && '\0' !in s
  }

  /** A line that ends neither in whitespace nor in a brace is served as it parses. */
  lemma LineServed(s: Session, raw: string, cmd: ParsedCommand, rest: string, w: World)
    requires Plain(raw) && raw != "" && !IsSpace(raw[|raw| - 1]) && raw[|raw| - 1] != '}' && ParseLine(raw) == Some(cmd)
    ensures Serve(s, raw + "\r\n" + rest, w) == ParsedTurn(s, raw + "\r\n", raw, cmd, rest, w) && NonsyncSize(raw) == None
  {
    hide ParseLine, ParsedTurn, HasBareCrOrNul, NonsyncSize, Chomp, ReadLine;
    ForwardingSafety.LineReads(raw, rest);
    ForwardingSafety.ChompLine(raw);
    ForwardingSafety.CleanLine(raw);
    ForwardingSafety.NoMarkerEnd(raw);
  }

  lemma TransferStaged(s: Session, line: string, raw: string, cmd: ParsedCommand, rest: string, w: World)
    requires NonsyncSize(raw) == None && cmd.uid && |cmd.args| == 2 && (cmd.command == "MOVE" || cmd.command == "COPY")
    requires s.held == None && !w.stageFails && !IsArchiveCopy(cmd, w.profile)
    ensures var op := if cmd.command == "MOVE" then ParseMove(cmd.args[0], cmd.args[1]) else ParseCopy(cmd.args[0], cmd.args[1]);
            ParsedTurn(s, line, raw, cmd, rest, w) == Turn([Stage(op, s.folder, Direct), Answer(Staged(cmd.tag))], s, rest, true)
  {
    hide NonsyncSize, UnquoteMailbox, IsArchiveCopy;
    assert cmd.args[1..] == [cmd.args[1]];
    assert !IsStoreDeleted(cmd);
  }

  /**
   * A quoted UID MOVE (or a UID COPY to an ordinary folder) on the wire: the pump answers
   * STAGED and stages one operation in the selected folder, and executing that operation
   * does to the server exactly what the command itself would have done.
   */
  lemma ServedTransferMeaning(s: Session, folder: string, tag: string, verb: string, uidSet: string, name: string, rest: string,
                              w: World, server: ImapServer.Server, a: Execution.Answer)
    requires AtomWord(tag) && AtomWord(verb) && AtomWord(uidSet) && Upper(verb) in {"MOVE", "COPY"}
    requires name != "" && !SyncLiteral(name) && !Surrounded(name) && Plain(UidCommand(tag, verb, uidSet, name))
    requires s == Session(Some(folder), None) && folder != "" && !w.stageFails && Execution.SelectSucceeds(server, folder, a)
    requires Upper(verb) == "COPY" ==> !IsArchiveCopy(ParsedCommand(tag, "COPY", true, [uidSet, name]), w.profile)
    ensures var t := Serve(s, UidCommand(tag, verb, uidSet, name) + "\r\n" + rest, w);
            && t.open && t.rest == rest && t.session == s && |t.events| == 2
            && t.events[0].Stage? && t.events[1] == Answer(Staged(tag)) && Execution.Replayable(RowOf(t.events[0]).opType)
            && var r := Execution.Replay(server, RowOf(t.events[0]), a);
               Execution.Reply(r.server, r.ok) ==
               if Upper(verb) == "MOVE" then Execution.UidMove(server, folder, uidSet, name, a)
               else Execution.UidCopy(server, folder, uidSet, name, a)
  {
    hide UidCommand, SyncLiteral, Surrounded, ParseLine, AtomWord, Serve, ParsedTurn, Execution.UidMove, Execution.UidCopy,
         IsArchiveCopy, NonsyncSize, Plain;
    var raw := UidCommand(tag, verb, uidSet, name);
    var cmd := ParsedCommand(tag, Upper(verb), true, [uidSet, name]);
    ParseUidCommand(tag, verb, uidSet, name);
    QuotedEnd(tag, verb, uidSet, name);
    LineServed(s, raw, cmd, rest, w);
    if Upper(verb) == "MOVE" {
      MoveIsNoCopy(cmd, w.profile);
    }
    TransferStaged(s, raw + "\r\n", raw, cmd, rest, w);
    RowReplays(server, folder, Upper(verb), uidSet, name, a);
  }

  lemma MoveIsNoCopy(cmd: ParsedCommand, p: Profile)
    requires cmd.command == "MOVE"
    ensures !IsArchiveCopy(cmd, p)
  {
  }

  lemma QuotedEnd(tag: string, verb: string, uidSet: string, name: string)
    ensures var raw := UidCommand(tag, verb, uidSet, name); raw != "" && raw[|raw| - 1] == '"'
  {
    hide Escape;
  }

  lemma RowReplays(server: ImapServer.Server, folder: string, command: string, uidSet: string, name: string, a: Execution.Answer)
    requires command == "MOVE" || command == "COPY"
    requires name != "" && !Surrounded(name) && folder != "" && Execution.SelectSucceeds(server, folder, a)
    ensures var op := if command == "MOVE" then ParseMove(uidSet, name) else ParseCopy(uidSet, name);
            var row := RowOf(Stage(op, Some(folder), Direct));
            && Execution.Replayable(row.opType)
            && var r := Execution.Replay(server, row, a);
               Execution.Reply(r.server, r.ok) ==
               if command == "MOVE" then Execution.UidMove(server, folder, uidSet, name, a)
               else Execution.UidCopy(server, folder, uidSet, name, a)
  {
    hide Execution.UidMove, Execution.UidCopy, Execution.SelectSucceeds, Surrounded, Replace;
  }

  // ----- COPY, then STORE \Deleted -----

  /** A flag argument as clients write it: one list in parentheses, or one atom. */
  predicate FlagArgument(f: string) {
    || AtomWord(f)
    || (|f| >= 2 && f[0] == '(' && f[|f| - 1] == ')' && '(' !in f[1..|f| - 1] && ')' !in f[1..|f| - 1])
  }

  lemma {:induction false} LexFlat(inner: string, depth: int)
    requires depth == 1 && '(' !in inner && ')' !in inner
    ensures LexParen(inner + ")", depth) == Lexed(inner + ")", "")
  {
    var s := inner + ")";
    if inner == "" {
    } else {
      assert s[1..] == inner[1..] + ")";
      LexFlat(inner[1..], depth);
      assert [s[0]] + (inner[1..] + ")") == s;
    }
  }

  lemma FlagArgumentAlone(f: string)
    requires FlagArgument(f)
    ensures Tokenize(f) == [f]
  {
    hide LexQuoted, LexBrace, LexAtom, LexParen, LexBracket;
    if AtomWord(f) {
      LexAtomWhole(f);
    } else {
      var inner := f[1..|f| - 1];
      assert f[1..] == inner + ")";
      LexFlat(inner, 1);
      assert f[0..] == f;
      ParenStep(f, 0, 0);
      assert ['('] + f[1..] == f;
    }
    assert Tokenize("") == [];
  }

  lemma AtomsThen(a: string, b: string, f: string)
    requires AtomWord(a) && AtomWord(b)
    ensures Tokenize(a + [' '] + (b + [' '] + f)) == [a, b] + Tokenize(f)
  {
    AtomThen(a, b + [' '] + f);
    AtomThen(b, f);
    hide Tokenize;
    assert [a] + ([b] + Tokenize(f)) == [a, b] + Tokenize(f);
  }

  lemma AtomThen(a: string, rest: string)
    requires AtomWord(a)
    ensures Tokenize(a + [' '] + rest) == [a] + Tokenize(rest)
  {
    hide LexQuoted, LexBrace, LexAtom, LexParen;
    LexAtomAt(a, rest);
    assert ([' '] + rest)[1..] == rest;
  }

  /** tag UID STORE set op flags */
  function StoreLine(tag: string, uid: string, verb: string, uidSet: string, op: string, flagArg: string): string {
    ForwardingSafety.Command(tag, uid, verb, uidSet + [' '] + (op + [' '] + flagArg))
  }

  /** A STORE line, in any spelling, reaches the parser with its list whole. */
  lemma StoreLineParses(tag: string, uid: string, verb: string, uidSet: string, op: string, flagArg: string)
    requires Clean(tag) && uid != "" && ForwardingSafety.Prefix(uid) && Clean(verb)
    requires AtomWord(uidSet) && AtomWord(op) && FlagArgument(flagArg)
    ensures ParseLine(StoreLine(tag, uid, verb, uidSet, op, flagArg)) ==
            Some(ParsedCommand(tag, Upper(verb), true, [uidSet, op, flagArg]))
  {
    hide Tokenize, ParseLine, ForwardingSafety.Command, Upper;
    var args := uidSet + [' '] + (op + [' '] + flagArg);
    AtomsThen(uidSet, op, flagArg);
    FlagArgumentAlone(flagArg);
    assert [uidSet, op] + [flagArg] == [uidSet, op, flagArg];
    assert args[0] == uidSet[0] != ' ' by { assert !IsSpace(uidSet[0]); }
    assert !SyncLiteral(flagArg) by { NoMarker(flagArg); }
    ForwardingSafety.CommandParses(tag, uid, verb, args);
  }

  lemma NoMarker(f: string)
    requires FlagArgument(f)
    ensures !SyncLiteral(f) && f != "" && f[|f| - 1] !in {' ', '\r', '\n'}
  {
    if AtomWord(f) {
      assert !IsSpace(f[|f| - 1]);
      if f[0] == '~' && |f| >= 2 {
        assert f[1..][0] == f[1];
      }
    }
  }

  /** The client's first line: tag UID COPY set "name". */
  function CopyLine(tag: string, uid: string, verb: string, uidSet: string, name: string): string {
    ForwardingSafety.Command(tag, uid, verb, uidSet + [' '] + Quote(name))
  }

  lemma CopyLineParses(tag: string, uid: string, verb: string, uidSet: string, name: string)
    requires Clean(tag) && uid != "" && ForwardingSafety.Prefix(uid) && Clean(verb) && AtomWord(uidSet) && !SyncLiteral(name)
    ensures ParseLine(CopyLine(tag, uid, verb, uidSet, name)) == Some(ParsedCommand(tag, Upper(verb), true, [uidSet, name]))
  {
    hide Tokenize, ParseLine, ForwardingSafety.Command, Upper, SyncLiteral, Quote;
    var args := uidSet + [' '] + Quote(name);
    AtomThenQuoted(uidSet, name);
    assert args[0] == uidSet[0] != ' ' by { assert !IsSpace(uidSet[0]); }
    ForwardingSafety.CommandParses(tag, uid, verb, args);
  }

  lemma CommandEnd(tag: string, uid: string, verb: string, args: string)
    requires args != ""
    ensures var raw := ForwardingSafety.Command(tag, uid, verb, args); raw != "" && raw[|raw| - 1] == args[|args| - 1]
  {
  }

  // ----- a list that reads as \Deleted says so in its text -----

  lemma {:induction false} WordInside(s: string, w: string) returns (a: string, b: string)
    requires w in Words(s)
    ensures s == a + w + b
    decreases |s|
  {
    hide WordLength, TrimLeft;
    TrimLeftShorter(s);
    var t := TrimLeft(s);
    var lead := TrimmedOff(s);
    var n := WordLength(t);
    if w == t[..n] {
      a, b := lead, t[n..];
    } else {
      var a', b' := WordInside(t[n..], w);
      a, b := lead + t[..n] + a', b';
      Regrouped(lead, t, n, a', w, b');
    }
  }

  lemma Regrouped(lead: string, t: string, n: nat, a: string, w: string, b: string)
    requires n <= |t| && t[n..] == a + w + b
    ensures lead + t == (lead + t[..n] + a) + w + b
  {
    assert t == t[..n] + (a + w + b);
  }

  lemma {:induction false} TrimmedOff(s: string) returns (lead: string)
    ensures s == lead + TrimLeft(s)
  {
    lead := "";
    if s != "" && IsSpace(s[0]) {
      var more := TrimmedOff(s[1..]);
      lead := [s[0]] + more;
      assert s == [s[0]] + s[1..];
    } else {
      assert "" + s == s;
    }
  }

  lemma LowerParts(a: string, w: string, b: string)
    ensures Lower(a + w + b) == Lower(a) + Lower(w) + Lower(b)
  {
  }

  lemma DeletedIsSaid(flagArg: string)
    requires ImapServer.DELETED in ImapServer.Canonical(Execution.ServerFlags([flagArg])) && flagArg != ""
    ensures Contains(Lower(flagArg), "deleted")
  {
    hide Contains, Words, Lower;
    var w :| w in FlagList(flagArg) && Lower(w) == ImapServer.DELETED;
    var a, b := "", "";
    if flagArg[0] == '(' && flagArg[|flagArg| - 1] == ')' && |flagArg| >= 2 {
      var inner := flagArg[1..|flagArg| - 1];
      var a', b' := WordInside(inner, w);
      a, b := "(" + a', b' + ")";
      assert flagArg == "(" + (a' + w + b') + ")" == a + w + b;
    } else {
      assert flagArg == a + w + b;
    }
    LowerParts(a, w, b);
    assert Lower(flagArg) == Lower(a) + "\\deleted" + Lower(b);
    assert Contains("\\deleted", "deleted") by { BackslashDeleted(); }
    HeldCopy.ContainsInside(Lower(a), "\\deleted", Lower(b), "deleted");
  }

  lemma BackslashDeleted()
    ensures Contains("\\deleted", "deleted")
  {
    assert "\\deleted"[1..] == "deleted";
  }

  /** The first turn: the copy is held. */
  lemma CopyTurn(s: Session, raw: string, tag: string, uidSet: string, name: string, rest: string, w: World)
    requires Plain(raw) && raw != "" && raw[|raw| - 1] == '"'
    requires ParseLine(raw) == Some(ParsedCommand(tag, "COPY", true, [uidSet, name]))
    requires IsArchiveCopy(ParsedCommand(tag, "COPY", true, [uidSet, name]), w.profile) && s.held == None
    ensures Serve(s, raw + "\r\n" + rest, w) ==
            Turn([Answer(CopyCompleted(tag, uidSet, name))], s.(held := Some(Held(tag, uidSet, name))), rest, true)
  {
    hide ParseLine, NonsyncSize, Special, Plain, Serve;
    var cmd := ParsedCommand(tag, "COPY", true, [uidSet, name]);
    LineServed(s, raw, cmd, rest, w);
    assert CopyFolder(cmd) == name by { assert [uidSet, name][1..] == [name]; }
    assert [] + [Answer(CopyCompleted(tag, uidSet, name))] == [Answer(CopyCompleted(tag, uidSet, name))];
  }

  /** The second: the STORE merges it into a MOVE. */
  lemma StoreTurn(s: Session, raw: string, tag: string, uidSet: string, name: string, op: string, flagArg: string, rest: string,
                  w: World, h: Held)
    requires Plain(raw) && raw != "" && !IsSpace(raw[|raw| - 1]) && raw[|raw| - 1] != '}'
    requires ParseLine(raw) == Some(ParsedCommand(tag, "STORE", true, [uidSet, op, flagArg]))
    requires FlagsOp(op) == "+FLAGS" && Contains(Lower(flagArg), "deleted") && !w.stageFails
    requires h.uidSet == uidSet && h.destination == name && s.held == Some(h)
    ensures Serve(s, raw + "\r\n" + rest, w) ==
            Turn([Stage(ParseMove(uidSet, name), s.folder, FromHeld(uidSet, name)), Answer(Staged(tag))], s.(held := None), rest, true)
  {
    hide ParseLine, NonsyncSize, Special, Plain, Serve, FlagsOp, Contains, ParseMove, ParseCopy, BuildParsedOp;
    var cmd := ParsedCommand(tag, "STORE", true, [uidSet, op, flagArg]);
    LineServed(s, raw, cmd, rest, w);
    assert IsStoreDeleted(cmd) && !IsArchiveCopy(cmd, w.profile);
    var es := [Stage(ParseMove(uidSet, name), s.folder, FromHeld(uidSet, name)), Answer(Staged(tag))];
    assert [] + es == es;
  }

  lemma TwoTurns(s: Session, first: string, second: string, k: nat, worlds: Worlds, es: seq<Event>, mid: Session,
                 fs: seq<Event>, end: Session, rest: string)
    requires first != "" && second != ""
    requires Serve(s, first, worlds(k)) == Turn(es, mid, second, true)
    requires Serve(mid, second, worlds(k + 1)) == Turn(fs, end, rest, true)
    ensures ServeAll(s, first, k, worlds) ==
            (es + fs + ServeAll(end, rest, k + 2, worlds).0, ServeAll(end, rest, k + 2, worlds).1)
  {
    hide Serve, ServeAll;
    ServeAllStep(s, first, k, worlds);
    ServeAllStep(mid, second, k + 1, worlds);
    assert es + (fs + ServeAll(end, rest, k + 2, worlds).0) == es + fs + ServeAll(end, rest, k + 2, worlds).0;
  }

  /** The end of a flag argument that names \Deleted. */
  lemma DeletedEnd(flagArg: string)
    requires FlagArgument(flagArg) && ImapServer.DELETED in ImapServer.Canonical(Execution.ServerFlags([flagArg]))
    ensures flagArg != "" && !IsSpace(flagArg[|flagArg| - 1]) && flagArg[|flagArg| - 1] != '}'
  {
    if AtomWord(flagArg) {
      assert FlagList(flagArg) == [flagArg];
      assert Lower(flagArg)[|flagArg| - 1] == 'd';
      assert Lower(flagArg)[|flagArg| - 1] == LowerChar(flagArg[|flagArg| - 1]);
    }
  }

  lemma AddOpIsAtom(op: string)
    requires Execution.ServerChange(op) == Some(ImapServer.Add)
    ensures AtomWord(op) && FlagsOp(op) == "+FLAGS"
  {
    Execution.FlagsOpAgrees(op);
    forall i | 0 <= i < |op| ensures !IsSpace(op[i]) && op[i] !in {'"', '(', '{', '['} {
      assert Upper(op)[i] == UpperChar(op[i]);
      assert Upper(op)[i] in "+FLAGS.SILENT";
    }
  }

  /**
   * The two commands of a client without MOVE, as they come over the wire and in any
   * spelling: the COPY is answered and held, the STORE of \Deleted (silent or not, in a list
   * or bare) merges it into one operation in the same folder, the stream goes on after both,
   * and executing that operation looks to every client as if COPY, STORE and UID EXPUNGE had
   * been carried out.
   */
  lemma MergedCopyMeaning(folder: string, tag1: string, uid1: string, copy: string, uidSet: string, name: string,
                          tag2: string, uid2: string, store: string, op: string, flagArg: string, rest: string, k: nat,
                          worlds: Worlds, server: ImapServer.Server, ps: seq<UidSets.Part>, a: Execution.Answer)
    requires Clean(tag1) && uid1 != "" && ForwardingSafety.Prefix(uid1) && Clean(copy) && Upper(copy) == "COPY"
    requires Clean(tag2) && uid2 != "" && ForwardingSafety.Prefix(uid2) && Clean(store) && Upper(store) == "STORE"
    requires AtomWord(uidSet) && !SyncLiteral(name) && !Surrounded(name) && FlagArgument(flagArg)
    requires Plain(CopyLine(tag1, uid1, copy, uidSet, name)) && Plain(StoreLine(tag2, uid2, store, uidSet, op, flagArg))
    requires Execution.ServerChange(op) == Some(ImapServer.Add)
    requires ImapServer.DELETED in ImapServer.Canonical(Execution.ServerFlags([flagArg]))
    requires folder != "" && name != folder && !worlds(k + 1).stageFails
    requires IsArchiveCopy(ParsedCommand(tag1, "COPY", true, [uidSet, name]), worlds(k).profile)
    requires Execution.SelectSucceeds(server, folder, a) && a.commandOk && UidSets.ReadSet(uidSet) == Some(ps)
    requires ImapServer.CanTransfer(server, folder, ImapServer.Matched(server.boxes[folder], ps), name, a.p)
    ensures var s := Session(Some(folder), None);
            var merged := Stage(ParseMove(uidSet, name), Some(folder), FromHeld(uidSet, name));
            && ServeAll(s, CopyLine(tag1, uid1, copy, uidSet, name) + "\r\n" +
                           (StoreLine(tag2, uid2, store, uidSet, op, flagArg) + "\r\n" + rest), k, worlds) ==
               ([Answer(CopyCompleted(tag1, uidSet, name))] + [merged, Answer(Staged(tag2))] + ServeAll(s, rest, k + 2, worlds).0,
                ServeAll(s, rest, k + 2, worlds).1)
            && Execution.Replayable(RowOf(merged).opType) && Execution.Replay(server, RowOf(merged), a).ok
            && Execution.LookAlike(Execution.Replay(server, RowOf(merged), a).server,
                 Execution.CopyStoreExpunge(server, folder, ImapServer.Matched(server.boxes[folder], ps), name, a.p,
                                            ImapServer.Canonical(Execution.ServerFlags([flagArg]))))
  {
    hide CopyLine, StoreLine, Plain, Serve, ServeAll, ParseLine, Surrounded, SyncLiteral, FlagArgument, IsArchiveCopy, FlagsOp, Contains,
         Execution.ServerChange, Execution.ServerFlags, ImapServer.Canonical, AtomWord, Clean, ForwardingSafety.Prefix, Upper,
         ImapServer.CanTransfer, ImapServer.Matched, UidSets.ReadSet, Execution.LookAlike, Execution.CopyStoreExpunge,
         ImapServer.Move, Execution.Replay, ParseMove;
    var s := Session(Some(folder), None);
    var first, second := CopyLine(tag1, uid1, copy, uidSet, name), StoreLine(tag2, uid2, store, uidSet, op, flagArg);
    var held := Held(tag1, uidSet, name);
    AddOpIsAtom(op);
    DeletedEnd(flagArg);
    DeletedIsSaid(flagArg);
    CopyLineParses(tag1, uid1, copy, uidSet, name);
    StoreLineParses(tag2, uid2, store, uidSet, op, flagArg);
    LineEnds(tag1, uid1, copy, uidSet, name);
    StoreEnds(tag2, uid2, store, uidSet, op, flagArg);
    CopyTurn(s, first, tag1, uidSet, name, second + "\r\n" + rest, worlds(k));
    StoreTurn(s.(held := Some(held)), second, tag2, uidSet, name, op, flagArg, rest, worlds(k + 1), held);
    TwoTurns(s, first + "\r\n" + (second + "\r\n" + rest), second + "\r\n" + rest, k, worlds,
             [Answer(CopyCompleted(tag1, uidSet, name))], s.(held := Some(held)),
             [Stage(ParseMove(uidSet, name), Some(folder), FromHeld(uidSet, name)), Answer(Staged(tag2))], s, rest);
    assert name != "" by { ArchiveNamed(tag1, uidSet, name, worlds(k).profile); }
    MergedReplay(server, folder, uidSet, name, ps, a);
    Execution.RewriteMeaningIff(server, folder, ImapServer.Matched(server.boxes[folder], ps), name, a.p,
                                ImapServer.Canonical(Execution.ServerFlags([flagArg])));
  }

  lemma ArchiveNamed(tag: string, uidSet: string, name: string, p: Profile)
    requires IsArchiveCopy(ParsedCommand(tag, "COPY", true, [uidSet, name]), p)
    ensures name != ""
  {
    hide Special;
    assert [uidSet, name][1..] == [name];
  }

  lemma LineEnds(tag: string, uid: string, verb: string, uidSet: string, name: string)
    ensures var raw := CopyLine(tag, uid, verb, uidSet, name); raw != "" && raw[|raw| - 1] == '"'
  {
    hide Escape;
    CommandEnd(tag, uid, verb, uidSet + [' '] + Quote(name));
  }

  lemma StoreEnds(tag: string, uid: string, verb: string, uidSet: string, op: string, flagArg: string)
    requires flagArg != ""
    ensures var raw := StoreLine(tag, uid, verb, uidSet, op, flagArg); raw != "" && raw[|raw| - 1] == flagArg[|flagArg| - 1]
  {
    CommandEnd(tag, uid, verb, uidSet + [' '] + (op + [' '] + flagArg));
  }

  lemma MergedReplay(server: ImapServer.Server, folder: string, uidSet: string, name: string, ps: seq<UidSets.Part>,
                     a: Execution.Answer)
    requires folder != "" && name != "" && !Surrounded(name)
    requires Execution.SelectSucceeds(server, folder, a) && a.commandOk && UidSets.ReadSet(uidSet) == Some(ps)
    requires ImapServer.CanTransfer(server, folder, ImapServer.Matched(server.boxes[folder], ps), name, a.p)
    ensures var row := RowOf(Stage(ParseMove(uidSet, name), Some(folder), FromHeld(uidSet, name)));
            && Execution.Replayable(row.opType) && Execution.Replay(server, row, a).ok
            && Execution.Replay(server, row, a).server ==
               ImapServer.Move(server, folder, ImapServer.Matched(server.boxes[folder], ps), name, a.p)
  {
    hide Surrounded, Replace, ImapServer.Move, ImapServer.Matched, ImapServer.CanTransfer, UidSets.ReadSet;
    RowReplays(server, folder, "MOVE", uidSet, name, a);
  }
}
