// A flag change from the agent's line to its undo: which STORE commands can be
// undone once executed, and when undoing one restores the mailbox
// (gateway/operation_parser.py, gateway/execution.py, gateway/undo.py).
module FlagRoundTrip {
  import opened Wrappers
  import opened Text
  import opened ImapParser
  import opened CommandRouter
  import opened OperationParser
  import opened ClientPump
  import opened EndToEnd
  import Execution
  import ImapServer
  import UidSets
  import ForwardingSafety
  import Undo
  import UndoOnce

  /** \Seen or \Flagged, in any case of its letters. */
  predicate SeenOrFlagged(flag: string) {
    Lower(flag) == "\\seen" || Lower(flag) == "\\flagged"
  }

  lemma SystemFlagNormalised(flag: string, name: string)
    requires name != "" && name[0] != '\\' && Lower(flag) == ['\\'] + name
    ensures Normalised(flag) == name
  {
    assert Lower(flag)[0] == LowerChar(flag[0]) && Lower(flag)[1] == LowerChar(flag[1]);
    assert flag[0] == '\\' && flag[1] != '\\';
    assert flag[1..][0] == flag[1];
    assert StripBackslashes(flag) == flag[1..];
    assert Lower(flag[1..]) == Lower(flag)[1..];
  }

  lemma SeenFlagNamed(flags: seq<string>, i: nat)
    requires i < |flags| && SeenOrFlagged(flags[i])
    ensures Names(flags, "seen") || Names(flags, "flagged")
  {
    hide Normalised;
    if Lower(flags[i]) == "\\seen" {
      assert "\\seen" == ['\\'] + "seen";
      SystemFlagNormalised(flags[i], "seen");
    } else {
      assert "\\flagged" == ['\\'] + "flagged";
      SystemFlagNormalised(flags[i], "flagged");
    }
  }

  // ----- the line -----

  /** A UID STORE of one list, as the agent may write it, with its folder selected and no COPY held. */
  ghost predicate StoreOf(s: Session, folder: string, tag: string, uid: string, verb: string, uidSet: string, op: string,
                          flagArg: string, w: World)
  {
    && Clean(tag) && uid != "" && ForwardingSafety.Prefix(uid) && Clean(verb) && Upper(verb) == "STORE" && AtomWord(uidSet)
    && AtomWord(op) && FlagArgument(flagArg) && flagArg[0] == '(' && flagArg[|flagArg| - 1] == ')'
    && Plain(StoreLine(tag, uid, verb, uidSet, op, flagArg))
    && s == Session(Some(folder), None) && folder != "" && !w.stageFails
  }

  lemma StoreServed(s: Session, folder: string, tag: string, uid: string, verb: string, uidSet: string, op: string, flagArg: string,
                    rest: string, w: World)
    requires StoreOf(s, folder, tag, uid, verb, uidSet, op, flagArg, w)
    ensures Serve(s, StoreLine(tag, uid, verb, uidSet, op, flagArg) + "\r\n" + rest, w) ==
            Turn([Stage(WithTrash(ParseStore(uidSet, op, FlagList(flagArg)), w.trash), s.folder, Direct), Answer(Staged(tag))],
                 s, rest, true)
  {
    hide StoreLine, ParseLine, Plain, Serve, NonsyncSize, FlagList, ParseStore, WithTrash, Contains, FlagsOp, Clean, AtomWord, FlagArgument,
         ForwardingSafety.Prefix, Upper;
    var raw := StoreLine(tag, uid, verb, uidSet, op, flagArg);
    var cmd := ParsedCommand(tag, "STORE", true, [uidSet, op, flagArg]);
    StoreLineParses(tag, uid, verb, uidSet, op, flagArg);
    NoMarker(flagArg);
    StoreEnds(tag, uid, verb, uidSet, op, flagArg);
    LineServed(s, raw, cmd, rest, w);
    var es := [Stage(WithTrash(ParseStore(uidSet, op, FlagList(flagArg)), w.trash), s.folder, Direct), Answer(Staged(tag))];
    assert [] + es == es;
    assert !IsArchiveCopy(cmd, w.profile) && !Merges(s, cmd);
  }


  // ----- the row -----

  lemma StoreRow(uidSet: string, op: string, flags: seq<string>, trash: Option<string>, folder: string)
    requires Execution.ServerChange(op).Some? && Execution.ServerChange(op).value != ImapServer.Replace
    requires Execution.ServerChange(op).value == ImapServer.Add ==> !Names(flags, "deleted")
    ensures var add := Execution.ServerChange(op).value == ImapServer.Add;
            var row := RowOf(Stage(WithTrash(ParseStore(uidSet, op, flags), trash), Some(folder), Direct));
            && row.messageIds == [uidSet] && row.folderFrom == Some(folder)
            && row.flagsAdd == (if add then flags else []) && row.flagsRemove == (if add then [] else flags)
            && (if Names(flags, "seen") || Names(flags, "flagged")
                then row.opType == (if Names(flags, "seen") then (if add then "mark_read" else "mark_unread")
                                    else (if add then "flag" else "unflag"))
                else row.opType == "store")
  {
    hide Names, FlagsOp;
    Execution.FlagsOpAgrees(op);
  }

  /**
   * From the agent's line to the undo: a UID STORE that adds or removes a list with \Seen or
   * \Flagged in it (and adds no \Deleted) is staged as one operation; executed and then undone it
   * leaves the server as it was exactly when no message of the set already had an added flag, or
   * lacked a removed one.
   */
  lemma ServedStoreUndone(s: Session, folder: string, tag: string, uid: string, verb: string, uidSet: string, op: string, flagArg: string,
                          rest: string, w: World, id: string, world: Undo.World, ps: seq<UidSets.Part>, a: Execution.Answer,
                          now: nat, b: Execution.Answer)
    requires StoreOf(s, folder, tag, uid, verb, uidSet, op, flagArg, w)
    requires Execution.ServerChange(op).Some? && Execution.ServerChange(op).value != ImapServer.Replace
    requires exists i: nat :: i < |FlagList(flagArg)| && SeenOrFlagged(FlagList(flagArg)[i])
    requires Execution.ServerChange(op).value == ImapServer.Add ==> !Names(FlagList(flagArg), "deleted")
    requires UidSets.ReadSet(uidSet) == Some(ps) && Execution.SelectSucceeds(world.server, folder, a)
    requires b.selectOk && a.commandOk && b.commandOk
    requires var t := Serve(s, StoreLine(tag, uid, verb, uidSet, op, flagArg) + "\r\n" + rest, w);
             |t.events| > 0 && t.events[0].Stage? ==> id in world.ops && world.ops[id] == Undo.Op("pending", RowOf(t.events[0]), 0)
    ensures var t := Serve(s, StoreLine(tag, uid, verb, uidSet, op, flagArg) + "\r\n" + rest, w);
            var add := Execution.ServerChange(op).value == ImapServer.Add;
            var flags, box := ImapServer.Canonical(FlagList(flagArg)), world.server.boxes[folder];
            && |t.events| == 2 && t.events[0].Stage? && t.events[1] == Answer(Staged(tag)) && t.rest == rest && t.session == s
            && Execution.Replayable(RowOf(t.events[0]).opType)
            && (Undo.Reverted(Undo.Executed(world, id, a), id, now, b).server == world.server <==>
                forall u :: u in ImapServer.Matched(box, ps) ==>
                  if add then box.msgs[u].flags !! flags else flags <= box.msgs[u].flags)
  {
    hide StoreOf, StoreLine, Serve, FlagList, ParseStore, Names, SeenOrFlagged, Execution.ServerChange, ImapServer.Canonical,
         ImapServer.Matched, Undo.Reverted, Undo.Executed, UidSets.ReadSet, Execution.Parens, RowOf, WithTrash;
    SessionFolder(s, folder, tag, uid, verb, uidSet, op, flagArg, w);
    StoreServed(s, folder, tag, uid, verb, uidSet, op, flagArg, rest, w);
    var flags := FlagList(flagArg);
    var i: nat :| i < |flags| && SeenOrFlagged(flags[i]);
    SeenFlagNamed(flags, i);
    StoreRow(uidSet, op, flags, w.trash, folder);
    var row := world.ops[id].row;
    SameList(s, folder, tag, uid, verb, uidSet, op, flagArg, w);
    assert Execution.UidSetOf(row) == uidSet && Execution.Source(row) == folder;
    Undo.FlagUndoRestoresIff(world, id, ps, a, now, b);
  }

  lemma SessionFolder(s: Session, folder: string, tag: string, uid: string, verb: string, uidSet: string, op: string, flagArg: string, w: World)
    requires StoreOf(s, folder, tag, uid, verb, uidSet, op, flagArg, w)
    ensures s.folder == Some(folder) && folder != ""
  {
  }

  lemma SameList(s: Session, folder: string, tag: string, uid: string, verb: string, uidSet: string, op: string, flagArg: string, w: World)
    requires StoreOf(s, folder, tag, uid, verb, uidSet, op, flagArg, w)
    ensures Execution.ServerFlags([Execution.Parens(FlagList(flagArg))]) == FlagList(flagArg)
    ensures folder != ""
  {
    hide FlagList, Execution.Parens;
    Execution.ParensKeepFlags(flagArg);
  }

  /** A STORE that names neither \Seen nor \Flagged, with or without a backslash, and adds no \Deleted, is never undone. */
  lemma OtherStoreNotUndone(uidSet: string, op: string, flags: seq<string>, trash: Option<string>, folder: string, world: Undo.World,
                            id: string, now: nat, b: Execution.Answer)
    requires Execution.ServerChange(op).Some? && Execution.ServerChange(op).value != ImapServer.Replace
    requires !Names(flags, "seen") && !Names(flags, "flagged") && !Names(flags, "deleted")
    requires id in world.ops
    requires world.ops[id].row.opType == RowOf(Stage(WithTrash(ParseStore(uidSet, op, flags), trash), Some(folder), Direct)).opType
    ensures Undo.Reverted(world, id, now, b) == world && Undo.Attempted(world, id, now, b).result.Err?
  {
    hide Names, Undo.Reverted, Undo.Attempted;
    StoreRow(uidSet, op, flags, trash, folder);
    UndoOnce.NotAdmittedIsRefused(world, id, now, b);
  }

  // ----- the row is the one executed -----

  /**
   * From the agent's line: a UID STORE of one list is staged as the row whose execution the storing and trash results are about,
   * the known Trash folder included, so executing it does what the agent asked: the STORE itself, or the move to Trash.
   */
  lemma ServedStoreMeaning(s: Session, folder: string, tag: string, uid: string, verb: string, uidSet: string, op: string, flagArg: string,
                           rest: string, w: World, server: ImapServer.Server, a: Execution.Answer)
    requires StoreOf(s, folder, tag, uid, verb, uidSet, op, flagArg, w) && Execution.SelectSucceeds(server, folder, a)
    requires FlagList(flagArg) != [] && Execution.ServerChange(op).Some? && Execution.ServerChange(op).value != ImapServer.Replace
    ensures var t := Serve(s, StoreLine(tag, uid, verb, uidSet, op, flagArg) + "\r\n" + rest, w);
            && |t.events| == 2 && t.events[0].Stage? && t.events[1] == Answer(Staged(tag)) && t.rest == rest && t.session == s
            && Execution.Replayable(RowOf(t.events[0]).opType)
            && var r := Execution.Replay(server, RowOf(t.events[0]), a);
               var trashes := Execution.ServerChange(op).value == ImapServer.Add && Names(FlagList(flagArg), "deleted")
                              && a.canMove && w.trash.Some? && w.trash.value != "";
               Execution.Reply(r.server, r.ok) ==
               if trashes then Execution.UidMove(server, folder, uidSet, w.trash.value, a)
               else Execution.UidStore(server, folder, uidSet, op, [flagArg], a)
  {
    hide StoreOf, StoreLine, Serve, FlagList, Names, Execution.ServerChange, UidSets.ReadSet, Execution.UidMove, Execution.UidStore, Execution.Replay,
         WithTrash, ParseStore, RowOf;
    StoreServed(s, folder, tag, uid, verb, uidSet, op, flagArg, rest, w);
    SessionFolder(s, folder, tag, uid, verb, uidSet, op, flagArg, w);
    RowIsStaged(uidSet, op, flagArg, folder, w.trash);
    StoreExecutes(server, folder, uidSet, op, flagArg, w.trash, a) by { ListArgument(s, folder, tag, uid, verb, uidSet, op, flagArg, w); }
  }

  lemma ListArgument(s: Session, folder: string, tag: string, uid: string, verb: string, uidSet: string, op: string, flagArg: string, w: World)
    requires StoreOf(s, folder, tag, uid, verb, uidSet, op, flagArg, w)
    ensures folder != "" && flagArg != "" && flagArg[0] == '(' && flagArg[|flagArg| - 1] == ')'
  {
    NoMarker(flagArg);
  }

  lemma RowIsStaged(uidSet: string, op: string, flagArg: string, folder: string, trash: Option<string>)
    ensures RowOf(Stage(WithTrash(ParseStore(uidSet, op, FlagList(flagArg)), trash), Some(folder), Direct)) ==
            Execution.StagedStore(uidSet, op, flagArg, folder, trash)
  {
    hide FlagList, Names, FlagsOp;
  }

  lemma StoreExecutes(server: ImapServer.Server, folder: string, uidSet: string, op: string, flagArg: string, trash: Option<string>,
                      a: Execution.Answer)
    requires folder != "" && Execution.SelectSucceeds(server, folder, a)
    requires flagArg != "" && flagArg[0] == '(' && flagArg[|flagArg| - 1] == ')' && FlagList(flagArg) != []
    requires Execution.ServerChange(op).Some? && Execution.ServerChange(op).value != ImapServer.Replace
    ensures var row := Execution.StagedStore(uidSet, op, flagArg, folder, trash);
            && Execution.Replayable(row.opType)
            && var r := Execution.Replay(server, row, a);
               var trashes := Execution.ServerChange(op).value == ImapServer.Add && Names(FlagList(flagArg), "deleted")
                              && a.canMove && trash.Some? && trash.value != "";
               Execution.Reply(r.server, r.ok) ==
               if trashes then Execution.UidMove(server, folder, uidSet, trash.value, a)
               else Execution.UidStore(server, folder, uidSet, op, [flagArg], a)
  {
    hide FlagList, Names, FlagsOp, Execution.ServerChange, Execution.UidMove, Execution.UidStore;
    Execution.FlagsOpAgrees(op);
    if !Execution.TrashMoves(Execution.StagedStore(uidSet, op, flagArg, folder, trash), a) {
      Execution.StagedStoreMeaning(server, folder, uidSet, op, flagArg, trash, a);
    }
  }
}
