// Replaying a staged operation against the upstream server
// (gateway/execution.py), and what that means compared with the command the
// agent sent.
module Execution {
  import opened Wrappers
  import opened Text
  import opened UidSets
  import opened ImapServer
  import opened ImapParser
  import opened OperationParser

  // ----- what the server answers -----

  /** One COPYUID response code: the destination's UIDVALIDITY and UIDs. */
  datatype Code = CopyUid(validity: nat, dest: seq<Part>)

  /** Everything the server is free to choose in one exchange. */
  datatype Answer = Answer(
    selectOk: bool, announced: Option<nat>, commandOk: bool, canMove: bool, p: Placement, codes: seq<Code>)

  datatype Reply = Reply(server: Server, ok: bool)

  predicate SelectSucceeds(s: Server, box: string, a: Answer) {
    a.selectOk && box in s.boxes
  }

  function ServerChange(op: string): Option<Change> {
    var u := Upper(op);
    if u == "+FLAGS" || u == "+FLAGS.SILENT" then Some(Add)
    else if u == "-FLAGS" || u == "-FLAGS.SILENT" then Some(Remove)
    else if u == "FLAGS" || u == "FLAGS.SILENT" then Some(ImapServer.Replace)
    else None
  }

  /** Flags as the server reads them: one list in parentheses, or bare flags. */
  function ServerFlags(args: seq<string>): seq<string> {
    if |args| == 1 then FlagList(args[0]) else args
  }

  function UidStore(s: Server, box: string, uidSet: string, op: string, flagArgs: seq<string>, a: Answer): Reply {
    match (ReadSet(uidSet), ServerChange(op))
    case (Some(ps), Some(change)) =>
      if a.commandOk && box in s.boxes
      then Reply(Store(s, box, Matched(s.boxes[box], ps), change, Canonical(ServerFlags(flagArgs))), true)
      else Reply(s, false)
    case _ => Reply(s, false)
  }

  function UidMove(s: Server, box: string, uidSet: string, to: string, a: Answer): Reply {
    match ReadSet(uidSet)
    case Some(ps) =>
      if a.commandOk && box in s.boxes && CanTransfer(s, box, Matched(s.boxes[box], ps), to, a.p)
      then Reply(Move(s, box, Matched(s.boxes[box], ps), to, a.p), true)
      else Reply(s, false)
    case None => Reply(s, false)
  }

  function UidCopy(s: Server, box: string, uidSet: string, to: string, a: Answer): Reply {
    match ReadSet(uidSet)
    case Some(ps) =>
      if a.commandOk && box in s.boxes && CanTransfer(s, box, Matched(s.boxes[box], ps), to, a.p)
      then Reply(Copy(s, box, Matched(s.boxes[box], ps), to, a.p), true)
      else Reply(s, false)
    case None => Reply(s, false)
  }

  // ----- COPYUID -----

  function DestTexts(codes: seq<Code>): (r: seq<string>)
    ensures |r| == |codes| && forall i :: 0 <= i < |r| ==> r[i] == ShowSet(codes[i].dest)
  {
    seq(|codes|, i requires 0 <= i < |codes| => ShowSet(codes[i].dest))
  }

  /** parse_copyuid: the joined destination sets, when the codes agree on one UIDVALIDITY. */
  function CopyUidOf(codes: seq<Code>): Option<(nat, string)> {
    if OneValidity(codes)
    then Some((codes[0].validity, Join(DestTexts(codes), ',')))
    else None
  }

  /** A code is used only when all of them carry one UIDVALIDITY, and then with every UID they list. */
  lemma CopyUidIff(codes: seq<Code>, validity: nat, uids: string)
    ensures CopyUidOf(codes) == Some((validity, uids)) <==>
            codes != [] && (forall i :: 0 <= i < |codes| ==> codes[i].validity == validity) && uids == Join(DestTexts(codes), ',')
  {
    hide Join, DestTexts;
  }

  predicate OneValidity(codes: seq<Code>) {
    codes != [] && forall i :: 0 <= i < |codes| ==> codes[i].validity == codes[0].validity
  }

  lemma OneValidityIff(codes: seq<Code>, validities: set<nat>)
    requires forall v :: v in validities <==> exists k :: 0 <= k < |codes| && codes[k].validity == v
    ensures |validities| == 1 <==> OneValidity(codes)
    ensures OneValidity(codes) ==> validities == {codes[0].validity}
  {
    if OneValidity(codes) {
      assert codes[0].validity in validities;
      assert validities == {codes[0].validity};
    }
    if |validities| == 1 {
      var v :| v in validities;
      forall w | w in validities ensures w == v {
        SubsetSize({v, w}, validities);
      }
      forall i | 0 <= i < |codes| ensures codes[i].validity == v {
        assert codes[i].validity in validities;
      }
    }
  }

  method ParseCopyUid(codes: seq<Code>) returns (r: Option<(nat, string)>)
    ensures r == CopyUidOf(codes)
  {
    hide ShowSet;
    var validities: set<nat> := {};
    var destSets: seq<string> := [];
    for i := 0 to |codes|
      invariant forall v :: v in validities <==> exists k :: 0 <= k < i && codes[k].validity == v
      invariant destSets == DestTexts(codes)[..i]
    {
      hide CopyUidOf;
      validities := validities + {codes[i].validity};
      destSets := destSets + [ShowSet(codes[i].dest)];
    }
    assert DestTexts(codes)[..|codes|] == DestTexts(codes);
    OneValidityIff(codes, validities);
    if |validities| != 1 {
      return None;
    }
    var v :| v in validities;
    r := Some((v, Join(destSets, ',')));
  }

  // ----- the executor -----

  /** The staged_operations columns the executor reads. */
  datatype Row = Row(
    opType: string, messageIds: seq<string>, folderFrom: Option<string>, folderTo: Option<string>,
    flagsAdd: seq<string>, flagsRemove: seq<string>)

  /** JSON detail of the audit row. */
  datatype Detail = NoDetail | MovedTo(validity: nat, uids: string) | TrashFallback(folder: string)

  datatype Replayed = Replayed(server: Server, ok: bool, folderTo: Option<string>, detail: Detail)

  predicate FlagReplay(opType: string) {
    opType in {"store", "trash", "mark_read", "flag", "unflag", "mark_unread"}
  }

  predicate Replayable(opType: string) {
    FlagReplay(opType) || opType == "move" || opType == "copy"
  }

  function OrEmpty(o: Option<string>): string {
    match o case Some(s) => s case None => ""
  }

  function Source(row: Row): string {
    if OrEmpty(row.folderFrom) != "" then OrEmpty(row.folderFrom) else "INBOX"
  }

  function UidSetOf(row: Row): string {
    if row.messageIds != [] then Join(row.messageIds, ',') else "1"
  }

  predicate TrashMoves(row: Row, a: Answer) {
    row.opType == "trash" && OrEmpty(row.folderTo) != "" && a.canMove
  }

  function MoveDetail(codes: seq<Code>): Detail {
    match CopyUidOf(codes) case Some((v, uids)) => MovedTo(v, uids) case None => NoDetail
  }

  /** _execute_imap_upstream as one step; ok is false where it raises. */
  function Replay(s: Server, row: Row, a: Answer): Replayed
    requires Replayable(row.opType)
  {
    var box, to, uidSet := Source(row), OrEmpty(row.folderTo), UidSetOf(row);
    if TrashMoves(row, a) || row.opType == "move" then
      if to == "" || !SelectSucceeds(s, box, a) then Replayed(s, false, row.folderTo, NoDetail)
      else
        var reply := UidMove(s, box, uidSet, to, a);
        Replayed(reply.server, reply.ok, row.folderTo, if reply.ok then MoveDetail(a.codes) else NoDetail)
    else if row.opType == "copy" then
      if to == "" || !SelectSucceeds(s, box, a) then Replayed(s, false, row.folderTo, NoDetail)
      else
        var reply := UidCopy(s, box, uidSet, to, a);
        Replayed(reply.server, reply.ok, row.folderTo, NoDetail)
    else
      var fallsBack := row.opType == "trash" && to != "";
      var folderTo := if fallsBack then None else row.folderTo;
      if !SelectSucceeds(s, box, a) || (row.flagsAdd == [] && row.flagsRemove == []) then
        Replayed(s, false, folderTo, NoDetail)
      else
        var reply := if row.flagsAdd != [] then UidStore(s, box, uidSet, "+FLAGS", [Parens(row.flagsAdd)], a)
                     else UidStore(s, box, uidSet, "-FLAGS", [Parens(row.flagsRemove)], a);
        Replayed(reply.server, reply.ok, folderTo, if fallsBack && reply.ok then TrashFallback(to) else NoDetail)
  }

  function Parens(flags: seq<string>): string {
    ['('] + Join(flags, ' ') + [')']
  }

  /** A logged-in upstream connection; every command carries the server's answer. */
  class UpstreamClient {
    var server: Server
    var selected: Option<string>

    constructor (s: Server)
      ensures server == s && selected == None
    {
      server, selected := s, None;
    }

    method Select(box: string, a: Answer) returns (ok: bool, announced: Option<nat>)
      modifies this`selected
      ensures ok == SelectSucceeds(server, box, a) && announced == a.announced
      ensures selected == if ok then Some(box) else None
    {
      ok, announced := SelectSucceeds(server, box, a), a.announced;
      selected := if ok then Some(box) else None;
    }

    method Store(uidSet: string, op: string, flags: string, a: Answer) returns (ok: bool)
      requires selected.Some?
      modifies this`server
      ensures Reply(server, ok) == UidStore(old(server), selected.value, uidSet, op, [flags], a)
    {
      var reply := UidStore(server, selected.value, uidSet, op, [flags], a);
      server, ok := reply.server, reply.ok;
    }

    method Move(uidSet: string, to: string, a: Answer) returns (ok: bool)
      requires selected.Some?
      modifies this`server
      ensures Reply(server, ok) == UidMove(old(server), selected.value, uidSet, to, a)
    {
      var reply := UidMove(server, selected.value, uidSet, to, a);
      server, ok := reply.server, reply.ok;
    }

    method Copy(uidSet: string, to: string, a: Answer) returns (ok: bool)
      requires selected.Some?
      modifies this`server
      ensures Reply(server, ok) == UidCopy(old(server), selected.value, uidSet, to, a)
    {
      var reply := UidCopy(server, selected.value, uidSet, to, a);
      server, ok := reply.server, reply.ok;
    }
  }

  /** _execute_imap_upstream, command by command. */
  method ExecuteImapUpstream(client: UpstreamClient, row: Row, a: Answer)
    returns (ok: bool, folderTo: Option<string>, detail: Detail)
    requires Replayable(row.opType)
    modifies client
    ensures Replayed(client.server, ok, folderTo, detail) == Replay(old(client.server), row, a)
  {
    hide UidStore, UidMove, UidCopy, CopyUidOf, Parens;
    var to := OrEmpty(row.folderTo);
    ok, folderTo, detail := false, row.folderTo, NoDetail;
    if row.opType == "trash" && to != "" && a.canMove {
      var selected, _ := client.Select(Source(row), a);
      if selected {
        ok := client.Move(UidSetOf(row), to, a);
        if ok {
          var code := ParseCopyUid(a.codes);
          detail := if code.Some? then MovedTo(code.value.0, code.value.1) else NoDetail;
        }
      }
    } else if FlagReplay(row.opType) {
      if row.opType == "trash" && to != "" {
        folderTo := None;
      }
      var selected, _ := client.Select(Source(row), a);
      if selected && row.flagsAdd != [] {
        ok := client.Store(UidSetOf(row), "+FLAGS", Parens(row.flagsAdd), a);
      } else if selected && row.flagsRemove != [] {
        ok := client.Store(UidSetOf(row), "-FLAGS", Parens(row.flagsRemove), a);
      }
      if ok && row.opType == "trash" && to != "" {
        detail := TrashFallback(to);
      }
    } else if to != "" {
      var selected, _ := client.Select(Source(row), a);
      if selected && row.opType == "move" {
        ok := client.Move(UidSetOf(row), to, a);
        if ok {
          var code := ParseCopyUid(a.codes);
          detail := if code.Some? then MovedTo(code.value.0, code.value.1) else NoDetail;
        }
      } else if selected {
        ok := client.Copy(UidSetOf(row), to, a);
      }
    }
  }

  // ----- staging then executing -----

  /** create_operation's row for a parsed command, in the session's folder; trash is the known Trash folder. */
  function Staged(op: ParsedOperation, folder: Option<string>, trash: Option<string>): Row {
    Row(op.opType, op.messageIds, folder,
        if op.opType == "trash" && OrEmpty(op.folderTo) == "" then trash else op.folderTo,
        op.flagsAdd, op.flagsRemove)
  }

  /** The list the executor sends back is the list the agent sent. */
  lemma ParensKeepFlags(raw: string)
    requires raw != "" && raw[0] == '(' && raw[|raw| - 1] == ')'
    ensures FlagList(Parens(FlagList(raw))) == FlagList(raw)
  {
    hide Words;
    var inner := raw[1..|raw| - 1];
    WordsClean(inner);
    WordsOfJoin(Words(inner));
    var sent := Parens(Words(inner));
    assert sent[1..|sent| - 1] == Join(Words(inner), ' ');
  }

  lemma FlagsOpAgrees(op: string)
    requires ServerChange(op).Some?
    ensures FlagsOp(op) == match ServerChange(op).value case Add => "+FLAGS" case Remove => "-FLAGS" case Replace => "FLAGS"
  {
    hide OperationParser.Replace;
    var u := Upper(op);
    var plain := match ServerChange(op).value case Add => "+FLAGS" case Remove => "-FLAGS" case Replace => "FLAGS";
    assert u == plain + "" || u == plain + ".SILENT";
    assert '.' !in plain;
    NothingToReplace(plain, "");
    NothingToReplace(plain, ".SILENT");
    SilentGone();
  }

  lemma SilentGone()
    ensures OperationParser.Replace("", ".SILENT", "") == "" && OperationParser.Replace(".SILENT", ".SILENT", "") == ""
  {
  }

  lemma {:induction false} NothingToReplace(s: string, rest: string)
    requires '.' !in s
    ensures OperationParser.Replace(s + rest, ".SILENT", "") == s + OperationParser.Replace(rest, ".SILENT", "")
  {
    hide OperationParser.Replace;
    if s == "" {
      assert s + rest == rest;
      assert "" + OperationParser.Replace(rest, ".SILENT", "") == OperationParser.Replace(rest, ".SILENT", "");
    } else {
      NothingToReplace(s[1..], rest);
      assert ".SILENT"[0] == '.' && s[0] in s;
      ReplaceMiss(s[0], s[1..] + rest, ".SILENT", "");
      assert [s[0]] + (s[1..] + rest) == s + rest;
      assert [s[0]] + (s[1..] + OperationParser.Replace(rest, ".SILENT", "")) == s + OperationParser.Replace(rest, ".SILENT", "");
    }
  }

  /** The row a UID STORE with one flag argument is staged as. */
  function StagedStore(uidSet: string, op: string, flagArg: string, folder: string, trash: Option<string>): Row {
    Staged(ParseStore(uidSet, op, FlagList(flagArg)), Some(folder), trash)
  }

  /**
   * Adding or removing a non-empty parenthesised list, other than a move to Trash: executing
   * the staged row does to the server exactly what the agent's own command would have done.
   */
  lemma StagedStoreMeaning(s: Server, folder: string, uidSet: string, op: string, flagArg: string,
                           trash: Option<string>, a: Answer)
    requires folder != "" && SelectSucceeds(s, folder, a)
    requires flagArg != "" && flagArg[0] == '(' && flagArg[|flagArg| - 1] == ')' && FlagList(flagArg) != []
    requires ServerChange(op).Some? && ServerChange(op).value != ImapServer.Replace
    requires !TrashMoves(StagedStore(uidSet, op, flagArg, folder, trash), a)
    ensures var r := Replay(s, StagedStore(uidSet, op, flagArg, folder, trash), a);
            Reply(r.server, r.ok) == UidStore(s, folder, uidSet, op, [flagArg], a)
  {
    hide FlagList, FlagsOp, Parens, ReadSet, Matched, ImapServer.Store, Canonical;
    FlagsOpAgrees(op);
    ParensKeepFlags(flagArg);
    PlainOps();
  }

  /** Adding \Deleted, with a Trash folder known and a server that can move: the messages go to Trash. */
  lemma StagedTrashMeaning(s: Server, folder: string, uidSet: string, op: string, flagArg: string, trash: string, a: Answer)
    requires folder != "" && SelectSucceeds(s, folder, a) && trash != "" && a.canMove
    requires ServerChange(op) == Some(Add) && exists i :: 0 <= i < |FlagList(flagArg)| && Lower(FlagList(flagArg)[i]) == "\\deleted"
    ensures var r := Replay(s, StagedStore(uidSet, op, flagArg, folder, Some(trash)), a);
            Reply(r.server, r.ok) == UidMove(s, folder, uidSet, trash, a) && r.folderTo == Some(trash)
  {
    hide FlagList, FlagsOp, UidMove;
    FlagsOpAgrees(op);
    var flags := FlagList(flagArg);
    var i :| 0 <= i < |flags| && Lower(flags[i]) == "\\deleted";
    DeletedNormalised(flags[i]);
    assert Names(flags, "deleted");
  }

  lemma DeletedNormalised(flag: string)
    requires Lower(flag) == "\\deleted"
    ensures Normalised(flag) == "deleted"
  {
    assert Lower(flag)[0] == LowerChar(flag[0]) && Lower(flag)[1] == LowerChar(flag[1]);
    assert flag[1..][0] == flag[1];
    assert StripBackslashes(flag) == flag[1..];
    assert Lower(flag[1..]) == Lower(flag)[1..];
    assert Lower(flag)[1..] == "deleted";
  }

  lemma PlainOps()
    ensures ServerChange("+FLAGS") == Some(Add) && ServerChange("-FLAGS") == Some(Remove)
  {
    assert Upper("+FLAGS") == "+FLAGS" && Upper("-FLAGS") == "-FLAGS";
  }

  /** A replacement, or an empty list, fails and leaves the server as it was. */
  lemma ReplacementFails(s: Server, folder: string, uidSet: string, op: string, flagArg: string,
                         trash: Option<string>, a: Answer)
    requires ServerChange(op) == Some(ImapServer.Replace) || FlagList(flagArg) == []
    ensures var row := StagedStore(uidSet, op, flagArg, folder, trash);
            Replayable(row.opType) && Replay(s, row, a).server == s && !Replay(s, row, a).ok
  {
    hide FlagList, FlagsOp;
    if FlagList(flagArg) != [] {
      FlagsOpAgrees(op);
    }
  }

  /** Only the first of several bare flags is staged; a move to Trash apart, it is what the executor stores. */
  lemma BareFlagReplays(s: Server, folder: string, uidSet: string, ps: seq<Part>, op: string, flag: string,
                        trash: Option<string>, a: Answer)
    requires folder != "" && SelectSucceeds(s, folder, a) && a.commandOk && ReadSet(uidSet) == Some(ps)
    requires Clean(flag) && FlagList(flag) == [flag] && ServerChange(op).Some? && ServerChange(op).value != ImapServer.Replace
    requires !TrashMoves(StagedStore(uidSet, op, flag, folder, trash), a)
    ensures var r := Replay(s, StagedStore(uidSet, op, flag, folder, trash), a);
            r.ok && r.server == ImapServer.Store(s, folder, Matched(s.boxes[folder], ps), ServerChange(op).value, Canonical([flag]))
  {
    hide FlagList, Parens, ReadSet, Matched, Canonical, ImapServer.Store, StagedStore, ServerChange;
    hide UidMove, UidCopy, MoveDetail, Clean, TrashMoves;
    var row := StagedStore(uidSet, op, flag, folder, trash);
    BareFlagRow(uidSet, op, flag, folder, trash);
    BareFlagAlone(flag);
    PlainOps();
    assert UidSetOf(row) == uidSet && Source(row) == folder;
  }

  lemma BareFlagAlone(flag: string)
    requires Clean(flag)
    ensures FlagList(Parens([flag])) == [flag]
  {
    WordsOfJoin([flag]);
    var sent := Parens([flag]);
    assert sent[1..|sent| - 1] == flag;
  }

  lemma BareFlagRow(uidSet: string, op: string, flag: string, folder: string, trash: Option<string>)
    requires FlagList(flag) == [flag] && ServerChange(op).Some? && ServerChange(op).value != ImapServer.Replace
    ensures var row := StagedStore(uidSet, op, flag, folder, trash);
            && FlagReplay(row.opType) && row.messageIds == [uidSet] && row.folderFrom == Some(folder)
            && row.flagsAdd == (if ServerChange(op).value == Add then [flag] else [])
            && row.flagsRemove == (if ServerChange(op).value == Remove then [flag] else [])
  {
    hide FlagList, FlagsOp;
    FlagsOpAgrees(op);
  }

  /** On a message with the flags had, changing f does what changing the longer list g does. */
  predicate SameChange(change: Change, had: set<string>, f: set<string>, g: set<string>) {
    if change == Add then g <= had + f else had * g <= f
  }

  /**
   * Bare flags after the first are dropped at staging, whether added or removed: when that
   * changes nothing, and when it does.
   */
  lemma BareFlagsKeepMeaningIff(s: Server, folder: string, uidSet: string, ps: seq<Part>, op: string, flags: seq<string>,
                                trash: Option<string>, a: Answer)
    requires folder != "" && SelectSucceeds(s, folder, a) && a.commandOk && ReadSet(uidSet) == Some(ps)
    requires |flags| >= 2 && Clean(flags[0]) && FlagList(flags[0]) == [flags[0]]
    requires ServerChange(op).Some? && ServerChange(op).value != ImapServer.Replace
    requires !TrashMoves(StagedStore(uidSet, op, flags[0], folder, trash), a)
    ensures var r := Replay(s, StagedStore(uidSet, op, flags[0], folder, trash), a);
            r.ok && (r.server == UidStore(s, folder, uidSet, op, flags, a).server <==>
                     forall u :: u in Matched(s.boxes[folder], ps) ==>
                       SameChange(ServerChange(op).value, s.boxes[folder].msgs[u].flags, Canonical([flags[0]]), Canonical(flags)))
  {
    var uids, change := Matched(s.boxes[folder], ps), ServerChange(op).value;
    BareFlagReplays(s, folder, uidSet, ps, op, flags[0], trash, a);
    hide Replay, StagedStore, Matched, ReadSet, FlagList, ServerChange, TrashMoves;
    assert Canonical([flags[0]]) <= Canonical(flags);
    assert UidStore(s, folder, uidSet, op, flags, a).server == ImapServer.Store(s, folder, uids, change, Canonical(flags));
    hide Canonical, Restored, SameChange;
    RestoredAgree(s.boxes[folder], uids, change, Canonical([flags[0]]), Canonical(flags));
    StoresAgree(s, folder, uids, change, Canonical([flags[0]]), Canonical(flags));
  }

  lemma RestoredAgree(box: Mailbox, uids: set<nat>, change: Change, f: set<string>, g: set<string>)
    requires f <= g && uids <= box.msgs.Keys && change != ImapServer.Replace
    ensures Restored(box, uids, change, f) == Restored(box, uids, change, g) <==>
            forall u :: u in uids ==> SameChange(change, box.msgs[u].flags, f, g)
  {
    var a, b := Restored(box, uids, change, f), Restored(box, uids, change, g);
    if a == b {
      forall u | u in uids ensures SameChange(change, box.msgs[u].flags, f, g) {
        assert a.msgs[u].flags == b.msgs[u].flags;
        ChangesAgree(change, box.msgs[u].flags, f, g);
      }
    }
    if forall u :: u in uids ==> SameChange(change, box.msgs[u].flags, f, g) {
      forall u | u in box.msgs ensures a.msgs[u] == b.msgs[u] {
        if u in uids {
          ChangesAgree(change, box.msgs[u].flags, f, g);
        }
      }
      assert a.msgs == b.msgs;
    }
  }

  lemma ChangesAgree(change: Change, had: set<string>, f: set<string>, g: set<string>)
    requires f <= g && change != ImapServer.Replace
    ensures Changed(had, change, f) == Changed(had, change, g) <==> SameChange(change, had, f, g)
  {
    if change == Remove && Changed(had, change, f) == Changed(had, change, g) {
      forall x | x in had * g ensures x in f {
        assert x !in had - g;
      }
    }
  }

  lemma StoresAgree(s: Server, folder: string, uids: set<nat>, change: Change, f: set<string>, g: set<string>)
    requires folder in s.boxes
    ensures ImapServer.Store(s, folder, uids, change, f) == ImapServer.Store(s, folder, uids, change, g) <==>
            Restored(s.boxes[folder], uids, change, f) == Restored(s.boxes[folder], uids, change, g)
  {
    hide Restored;
    if ImapServer.Store(s, folder, uids, change, f) == ImapServer.Store(s, folder, uids, change, g) {
      assert ImapServer.Store(s, folder, uids, change, f).boxes[folder] == ImapServer.Store(s, folder, uids, change, g).boxes[folder];
    }
  }

  /** From the line on the wire: a quoted UID MOVE or COPY, staged and executed, is that command. */
  lemma StagedTransferMeaning(s: Server, folder: string, tag: string, verb: string, uidSet: string, name: string,
                              trash: Option<string>, a: Answer)
    requires AtomWord(tag) && AtomWord(verb) && AtomWord(uidSet) && Upper(verb) in {"MOVE", "COPY"}
    requires name != "" && !SyncLiteral(name) && !Surrounded(name)
    requires folder != "" && SelectSucceeds(s, folder, a)
    ensures var cmd := ParseLine(UidCommand(tag, verb, uidSet, name));
            && cmd.Some? && BuildParsedOp(cmd.value).Some?
            && var row := Staged(BuildParsedOp(cmd.value).value, Some(folder), trash);
               && Replayable(row.opType)
               && var r := Replay(s, row, a);
                  Reply(r.server, r.ok) == if Upper(verb) == "MOVE" then UidMove(s, folder, uidSet, name, a)
                                           else UidCopy(s, folder, uidSet, name, a)
  {
    hide ParseLine, UidCommand, SyncLiteral, Surrounded, UidMove, UidCopy;
    ParseUidCommand(tag, verb, uidSet, name);
    assert [uidSet, name][1..] == [name];
  }

  // ----- COPY then STORE \Deleted, rewritten as MOVE -----

  /** What a client can tell about the server: everything but which copy a message is. */
  function View(box: Mailbox): (nat, nat, map<nat, (string, set<string>)>) {
    (box.uidvalidity, box.uidnext, map u | u in box.msgs :: (box.msgs[u].content, box.msgs[u].flags))
  }

  predicate LookAlike(s: Server, t: Server) {
    s.boxes.Keys == t.boxes.Keys && forall n :: n in s.boxes ==> View(s.boxes[n]) == View(t.boxes[n])
  }

  /** UID COPY, UID STORE +FLAGS, UID EXPUNGE: what section 3.3 of RFC 6851 says MOVE stands for. */
  function CopyStoreExpunge(s: Server, from: string, uids: set<nat>, to: string, p: Placement, flags: set<string>): Server
    requires CanTransfer(s, from, uids, to, p)
  {
    UidExpunge(Store(Copy(s, from, uids, to, p), from, uids, Add, flags), from, uids)
  }

  /**
   * The rewritten pair has the effect of the three commands exactly when the STORE really
   * marks the messages deleted, or they all were already.
   */
  lemma RewriteMeaningIff(s: Server, from: string, uids: set<nat>, to: string, p: Placement, flags: set<string>)
    requires CanTransfer(s, from, uids, to, p) && from != to
    ensures LookAlike(Move(s, from, uids, to, p), CopyStoreExpunge(s, from, uids, to, p, flags)) <==>
            DELETED in flags || forall u :: u in uids ==> DELETED in s.boxes[from].msgs[u].flags
  {
    var m, c := Move(s, from, uids, to, p), CopyStoreExpunge(s, from, uids, to, p, flags);
    DestinationsLookAlike(s, from, uids, to, p, flags);
    SourcesLookAlikeIff(s, from, uids, to, p, flags);
    assert m.boxes.Keys == s.boxes.Keys == c.boxes.Keys;
    assert forall n :: n in s.boxes && n != from && n != to ==> m.boxes[n] == s.boxes[n] == c.boxes[n];
    hide View;
  }

  lemma DestinationsLookAlike(s: Server, from: string, uids: set<nat>, to: string, p: Placement, flags: set<string>)
    requires CanTransfer(s, from, uids, to, p) && from != to
    ensures View(Move(s, from, uids, to, p).boxes[to]) == View(CopyStoreExpunge(s, from, uids, to, p, flags).boxes[to])
  {
    var m, c := Move(s, from, uids, to, p).boxes[to], Copy(s, from, uids, to, p).boxes[to];
    assert CopyStoreExpunge(s, from, uids, to, p, flags).boxes[to] == c;
    assert m.msgs.Keys == c.msgs.Keys;
    assert View(m).2 == View(c).2;
  }

  lemma SourcesLookAlikeIff(s: Server, from: string, uids: set<nat>, to: string, p: Placement, flags: set<string>)
    requires CanTransfer(s, from, uids, to, p) && from != to
    ensures View(Move(s, from, uids, to, p).boxes[from]) == View(CopyStoreExpunge(s, from, uids, to, p, flags).boxes[from])
            <==> DELETED in flags || forall u :: u in uids ==> DELETED in s.boxes[from].msgs[u].flags
  {
    hide Fits;
    var src := s.boxes[from];
    var m, c := Move(s, from, uids, to, p).boxes[from], CopyStoreExpunge(s, from, uids, to, p, flags).boxes[from];
    assert m.msgs.Keys == src.msgs.Keys - uids;
    forall u | u in src.msgs ensures u in c.msgs <==> !(u in uids && DELETED in src.msgs[u].flags + flags) {
    }
    if DELETED in flags || forall u :: u in uids ==> DELETED in src.msgs[u].flags {
      assert m.msgs == c.msgs;
    } else {
      var u :| u in uids && DELETED !in src.msgs[u].flags;
      assert u in View(c).2 && u !in View(m).2;
    }
  }
}
