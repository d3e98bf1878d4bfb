// What an undo refuses, and that an undone operation is never undone again
// (gateway/undo.py), over runs of the gateway's own steps with other clients
// at work on the server.
module UndoOnce {
  import opened Wrappers
  import opened ImapServer
  import opened Execution
  import opened Undo
  import UidSets
  import Text

  /** An operation the checks let through, read off its row. */
  predicate Admitted(w: World, id: string, now: nat) {
    && id in w.ops && w.ops[id].status == "executed"
    && (var t := w.ops[id].row.opType;
        t == "move" || t == "trash" || t == "mark_read" || t == "mark_unread" || t == "flag" || t == "unflag")
    && (w.ops[id].undoExpiresAt == 0 || now <= w.ops[id].undoExpiresAt)
  }

  /** Anything else is refused: no command is sent, no row is written. */
  lemma NotAdmittedIsRefused(w: World, id: string, now: nat, a: Answer)
    requires !Admitted(w, id, now)
    ensures Reverted(w, id, now, a) == w && Attempted(w, id, now, a).result.Err?
  {
  }

  /** The flags and the direction of a flag undo: what was added goes, what was removed comes back. */
  predicate FlagBackSucceeds(s: Server, row: Row, a: Answer) {
    && (if row.opType in {"mark_read", "flag"} then row.flagsAdd != [] else row.flagsRemove != [])
    && SelectSucceeds(s, Source(row), a) && a.commandOk && ReadsAsSet(UidSetOf(row))
  }

  predicate ReadsAsSet(uidSet: string) {
    UidSets.ReadSet(uidSet).Some?
  }


  /** An admitted flag undo succeeds exactly when flags were recorded and the server carries the STORE out. */
  lemma FlagUndoSucceedsIff(w: World, id: string, now: nat, a: Answer)
    requires Admitted(w, id, now) && w.ops[id].row.opType !in {"move", "trash"}
    ensures Attempted(w, id, now, a).result.Ok? <==> FlagBackSucceeds(w.server, w.ops[id].row, a)
  {
    hide Parens, Matched, Restored, UidSets.ReadSet;
    PlainOps();
  }

  /** A MOVE whose recorded destination is no list of numbers and ranges is refused before the server is asked. */
  lemma MalformedDestinationRefused(w: World, id: string, now: nat, a: Answer)
    requires id in w.ops && w.ops[id].row.opType in {"move", "trash"}
    requires match LastExecuted(w.audit, id)
             case Some(MovedTo(_, uids)) =>
               exists i :: 0 <= i < |uids| && uids[i] != ',' && uids[i] != ':' && !Text.IsDigit(uids[i])
             case _ => true
    ensures Reverted(w, id, now, a) == w && Attempted(w, id, now, a).result.Err?
  {
    hide Text.Split, UidSetText;
    match LastExecuted(w.audit, id) {
      case Some(MovedTo(validity, uids)) =>
        if UidSetText(uids) {
          SetTextChars(uids);
        }
      case _ =>
    }
  }

  lemma SetTextChars(s: string)
    requires UidSetText(s)
    ensures forall i :: 0 <= i < |s| ==> s[i] == ',' || s[i] == ':' || Text.IsDigit(s[i])
  {
    hide Text.Split, RangeText, Text.Join;
    var parts := Text.Split(s, ',');
    Text.JoinSplit(s, ',');
    forall k | 0 <= k < |parts| ensures forall i :: 0 <= i < |parts[k]| ==> parts[k][i] == ':' || Text.IsDigit(parts[k][i]) {
      RangeChars(parts[k]);
    }
    JoinedChars(parts, ',', {':'});
  }

  lemma RangeChars(token: string)
    requires RangeText(token)
    ensures forall i :: 0 <= i < |token| ==> token[i] == ':' || Text.IsDigit(token[i])
  {
    hide Text.Split, Text.Join;
    var parts := Text.Split(token, ':');
    Text.JoinSplit(token, ':');
    JoinedChars(parts, ':', {});
  }

  /** Joined text holds the characters of its parts and the separator. */
  lemma {:induction false} JoinedChars(parts: seq<string>, sep: char, extra: set<char>)
    requires forall k :: 0 <= k < |parts| ==> forall i :: 0 <= i < |parts[k]| ==> parts[k][i] in extra || Text.IsDigit(parts[k][i])
    ensures forall i :: 0 <= i < |Text.Join(parts, sep)| ==>
              var c := Text.Join(parts, sep)[i]; c == sep || c in extra || Text.IsDigit(c)
  {
    if |parts| <= 1 {
    } else {
      assert forall k :: 0 <= k < |parts[1..]| ==> parts[1..][k] == parts[k + 1];
      JoinedChars(parts[1..], sep, extra);
    }
  }

  /** A row without a source folder is one in INBOX. */
  lemma DefaultFolderIsInbox(s: Server, row: Row, a: Answer)
    requires Replayable(row.opType) && OrEmpty(row.folderFrom) == ""
    ensures Replay(s, row, a) == Replay(s, row.(folderFrom := Some("INBOX")), a)
  {
    hide UidStore, UidMove, UidCopy, MoveDetail, Parens;
  }

  /**
   * A move to Trash on a server that cannot move marks the messages deleted instead: the row then names no folder they went
   * to, the log says which folder was meant, and no later undo of it is tried, whatever else has happened.
   */
  lemma TrashFallbackNotUndone(w: World, id: string, a: Answer, t: World, now: nat, b: Answer)
    requires id in w.ops && w.ops[id].row.opType == "trash" && OrEmpty(w.ops[id].row.folderTo) != "" && !a.canMove
    requires id in t.ops && t.ops[id].row == Executed(w, id, a).ops[id].row
    ensures var done := Executed(w, id, a);
            && done.ops[id].row.folderTo == None && |done.audit| == |w.audit| + 1
            && (done.ops[id].status == "executed" ==>
                  done.audit[|w.audit|] == Entry(id, "executed", TrashFallback(OrEmpty(w.ops[id].row.folderTo))))
            && Reverted(t, id, now, b) == t && Attempted(t, id, now, b).result.Err?
  {
    hide UidStore, UidMove, UidCopy, MoveDetail, Parens, RecordedDestination, MoveBack, FlagBack, SelectSucceeds;
  }

  // ----- runs -----

  datatype Act =
    | Stage(id: string, row: Row)
    | Execute(id: string, a: Answer)
    | UndoIt(id: string, now: nat, a: Answer)
    | Elsewhere(step: Step)

  /** Only a pending or claimed operation is executed; a new one has a new id. */
  function After(w: World, e: Act): World {
    match e
    case Stage(id, row) => if id in w.ops then w else w.(ops := w.ops[id := Op("pending", row, 0)])
    case Execute(id, a) =>
      if id in w.ops && w.ops[id].status in {"pending", "approved"} && Replayable(w.ops[id].row.opType) then Executed(w, id, a) else w
    case UndoIt(id, now, a) => Reverted(w, id, now, a)
    case Elsewhere(step) => if Enabled(w.server, step) then w.(server := Apply(w.server, step)) else w
  }

  function AfterAll(w: World, acts: seq<Act>): World
    decreases |acts|
  {
    if acts == [] then w else AfterAll(After(w, acts[0]), acts[1..])
  }

  /** How often the log says so of the operation. */
  function Times(audit: seq<Entry>, id: string, event: string): nat {
    if audit == [] then 0
    else
      var e := audit[|audit| - 1];
      Times(audit[..|audit| - 1], id, event) + if e.operation == id && e.event == event then 1 else 0
  }

  /** One row for the execution and one for the undo, as far as the operation has come. */
  predicate LogFits(w: World, id: string) {
    var status := if id in w.ops then w.ops[id].status else "";
    && Times(w.audit, id, "executed") == (if status == "executed" || status == "reverted" then 1 else 0)
    && Times(w.audit, id, "execution_failed") == (if status == "failed" then 1 else 0)
    && Times(w.audit, id, "reverted") == (if status == "reverted" then 1 else 0)
  }

  lemma LoggedOne(audit: seq<Entry>, e: Entry, id: string, event: string)
    ensures Times(audit + [e], id, event) == Times(audit, id, event) + if e.operation == id && e.event == event then 1 else 0
  {
    assert (audit + [e])[..|audit|] == audit;
  }

  lemma LoggedAll(audit: seq<Entry>, e: Entry, id: string)
    ensures forall event :: Times(audit + [e], id, event) == Times(audit, id, event) + if e.operation == id && e.event == event then 1 else 0
  {
    hide Times;
    forall event ensures Times(audit + [e], id, event) == Times(audit, id, event) + if e.operation == id && e.event == event then 1 else 0 {
      LoggedOne(audit, e, id, event);
    }
  }

  lemma StepKeepsFit(w: World, e: Act, id: string)
    requires LogFits(w, id)
    ensures LogFits(After(w, e), id)
  {
    hide Replay, Attempted, Times, Enabled, Apply;
    if e.Execute? && After(w, e) != w {
      LoggedAll(w.audit, After(w, e).audit[|w.audit|], id);
    } else if e.UndoIt? {
      if !Admitted(w, e.id, e.now) {
        NotAdmittedIsRefused(w, e.id, e.now, e.a);
      }
      LoggedAll(w.audit, Entry(e.id, "reverted", NoDetail), id);
    }
  }

  lemma {:induction false} RunKeepsFit(w: World, acts: seq<Act>, id: string)
    requires LogFits(w, id)
    ensures LogFits(AfterAll(w, acts), id)
    decreases |acts|
  {
    hide LogFits, After;
    if acts == [] {
    } else {
      StepKeepsFit(w, acts[0], id);
      RunKeepsFit(After(w, acts[0]), acts[1..], id);
    }
  }

  /**
   * Over every run an operation is undone at most once, and its rows say what became of it: one executed row exactly
   * when it is executed or undone since, one failure row exactly when it failed, one reverted row exactly when undone.
   */
  lemma UndoneAtMostOnce(w: World, acts: seq<Act>, id: string)
    requires id !in w.ops && forall event :: Times(w.audit, id, event) == 0
    ensures LogFits(AfterAll(w, acts), id)
  {
    hide After, AfterAll, Times;
    RunKeepsFit(w, acts, id);
  }

  lemma {:induction false} UndoneStays(w: World, acts: seq<Act>, id: string)
    requires id in w.ops && w.ops[id].status == "reverted"
    ensures id in AfterAll(w, acts).ops && AfterAll(w, acts).ops[id] == w.ops[id]
    decreases |acts|
  {
    hide Replay, Attempted, Enabled, Apply;
    if acts == [] {
    } else {
      var e := acts[0];
      if e.UndoIt? && e.id == id {
        NotAdmittedIsRefused(w, id, e.now, e.a);
      }
      UndoneStays(After(w, e), acts[1..], id);
    }
  }

  /** After a successful undo, whatever happens next, a further undo of that operation is refused and changes nothing. */
  lemma SecondUndoRefused(w: World, id: string, now: nat, a: Answer, acts: seq<Act>, now': nat, b: Answer)
    requires Attempted(w, id, now, a).result.Ok?
    ensures var t := AfterAll(Reverted(w, id, now, a), acts);
            Reverted(t, id, now', b) == t && Attempted(t, id, now', b).result.Err?
  {
    hide Attempted, AfterAll;
    if !Admitted(w, id, now) {
      NotAdmittedIsRefused(w, id, now, a);
    }
    var undone := Reverted(w, id, now, a);
    UndoneStays(undone, acts, id);
    NotAdmittedIsRefused(AfterAll(undone, acts), id, now', b);
  }
}
