// Executing an operation and undoing it (gateway/execution.py, gateway/undo.py),
// with other clients at work on the server in between.
module Undo {
  import opened Wrappers
  import opened Text
  import opened UidSets
  import opened ImapServer
  import opened Execution

  /** A staged_operations row with its status, and an audit_log row with its JSON detail. */
  datatype Op = Op(status: string, row: Row, undoExpiresAt: nat)

  datatype Entry = Entry(operation: string, event: string, detail: Detail)

  datatype World = World(server: Server, ops: map<string, Op>, audit: seq<Entry>)

  // ----- executing -----

  /** execute_operation for an IMAP operation. */
  function Executed(w: World, id: string, a: Answer): World
    requires id in w.ops && Replayable(w.ops[id].row.opType)
  {
    var r := Replay(w.server, w.ops[id].row, a);
    var row := w.ops[id].row.(folderTo := r.folderTo);
    World(r.server,
          w.ops[id := w.ops[id].(status := if r.ok then "executed" else "failed", row := row)],
          w.audit + [if r.ok then Entry(id, "executed", r.detail) else Entry(id, "execution_failed", NoDetail)])
  }

  // ----- undoing -----

  predicate Moves(opType: string) {
    opType == "move" || opType == "trash"
  }

  predicate Undoable(opType: string) {
    opType in {"move", "trash", "mark_read", "mark_unread", "flag", "unflag"}
  }

  function LastExecuted(audit: seq<Entry>, id: string): Option<Detail> {
    if audit == [] then None
    else
      var e := audit[|audit| - 1];
      if e.operation == id && e.event == "executed" then Some(e.detail) else LastExecuted(audit[..|audit| - 1], id)
  }

  predicate RangeText(token: string) {
    var parts := Split(token, ':');
    |parts| <= 2 && forall i :: 0 <= i < |parts| ==> AllDigits(parts[i])
  }

  /** ^\d+(:\d+)?(,\d+(:\d+)?)*$ */
  predicate UidSetText(s: string) {
    forall i :: 0 <= i < |Split(s, ',')| ==> RangeText(Split(s, ',')[i])
  }

  /** _load_move_destination. */
  function RecordedDestination(audit: seq<Entry>, id: string): Option<(string, nat)> {
    match LastExecuted(audit, id)
    case Some(MovedTo(validity, uids)) => if UidSetText(uids) then Some((uids, validity)) else None
    case _ => None
  }

  datatype Undone = MovedAll | MovedSome(got: nat, expected: nat) | FlagsRemoved | FlagsAdded

  datatype Attempt = Attempt(server: Server, result: Result<Undone, string>)

  /** A count that int() cannot read would raise. */
  function Counted(uidSet: string): nat {
    match UndoSum(Split(uidSet, ',')) case Some(n) => n case None => 0
  }

  function MoveBack(s: Server, row: Row, uids: string, validity: nat, a: Answer): Attempt {
    var to := OrEmpty(row.folderTo);
    if !SelectSucceeds(s, to, a) then Attempt(s, Err("SELECT failed"))
    else if a.announced != Some(validity) then Attempt(s, Err("UIDVALIDITY changed"))
    else
      var reply := UidMove(s, to, uids, Source(row), a);
      if !reply.ok then Attempt(reply.server, Err("UID MOVE failed"))
      else match CopyUidOf(a.codes)
        case None => Attempt(reply.server, Err("moved nothing"))
        case Some((_, back)) =>
          var expected, got := Counted(uids), Counted(back);
          Attempt(reply.server, Ok(if got < expected then MovedSome(got, expected) else MovedAll))
  }

  function FlagBack(s: Server, row: Row, op: string, flags: seq<string>, done: Undone, a: Answer): Attempt {
    if flags == [] then Attempt(s, Err("no flags recorded"))
    else if !SelectSucceeds(s, Source(row), a) then Attempt(s, Err("SELECT failed"))
    else
      var reply := UidStore(s, Source(row), UidSetOf(row), op, [Parens(flags)], a);
      Attempt(reply.server, if reply.ok then Ok(done) else Err("UID STORE failed"))
  }

  /** The checks of undo_operation followed by _execute_undo_imap. */
  function Attempted(w: World, id: string, now: nat, a: Answer): Attempt {
    if id !in w.ops then Attempt(w.server, Err("not found"))
    else
      var op := w.ops[id];
      var row := op.row;
      if op.status != "executed" then Attempt(w.server, Err("not executed"))
      else if !Undoable(row.opType) then Attempt(w.server, Err("not undoable"))
      else if op.undoExpiresAt != 0 && now > op.undoExpiresAt then Attempt(w.server, Err("window expired"))
      else if Moves(row.opType) then
        if OrEmpty(row.folderTo) == "" then Attempt(w.server, Err("folder_to not recorded"))
        else match RecordedDestination(w.audit, id)
          case None => Attempt(w.server, Err("destination not recorded"))
          case Some((uids, validity)) => MoveBack(w.server, row, uids, validity, a)
      else if row.opType == "mark_read" || row.opType == "flag" then
        FlagBack(w.server, row, "-FLAGS", row.flagsAdd, FlagsRemoved, a)
      else FlagBack(w.server, row, "+FLAGS", row.flagsRemove, FlagsAdded, a)
  }

  /** undo_operation: only a success is marked and logged. */
  function Reverted(w: World, id: string, now: nat, a: Answer): World {
    var t := Attempted(w, id, now, a);
    if t.result.Ok? && id in w.ops
    then World(t.server, w.ops[id := w.ops[id].(status := "reverted")], w.audit + [Entry(id, "reverted", NoDetail)])
    else w.(server := t.server)
  }

  /** The gateway's tables and its connection to the server. */
  class Gateway {
    const client: UpstreamClient
    var ops: map<string, Op>
    var audit: seq<Entry>

    constructor (c: UpstreamClient)
      ensures client == c && ops == map[] && audit == []
    {
      client, ops, audit := c, map[], [];
    }

    function State(): World
      reads this, client
    {
      World(client.server, ops, audit)
    }

    method ExecuteOperation(id: string, a: Answer) returns (ok: bool)
      requires id in ops && Replayable(ops[id].row.opType)
      modifies this, client
      ensures State() == Executed(old(State()), id, a)
      ensures ok == (ops[id].status == "executed")
    {
      hide Replay;
      var op := ops[id];
      var folderTo, detail;
      ok, folderTo, detail := ExecuteImapUpstream(client, op.row, a);
      var row := op.row.(folderTo := folderTo);
      if ok {
        ops := ops[id := op.(status := "executed", row := row)];
        audit := audit + [Entry(id, "executed", detail)];
      } else {
        ops := ops[id := op.(status := "failed", row := row)];
        audit := audit + [Entry(id, "execution_failed", NoDetail)];
      }
    }

    method MoveBackUpstream(row: Row, uids: string, validity: nat, a: Answer) returns (r: Result<Undone, string>)
      modifies client
      ensures Attempt(client.server, r) == MoveBack(old(client.server), row, uids, validity, a)
    {
      var selected, announced := client.Select(OrEmpty(row.folderTo), a);
      if !selected {
        return Err("SELECT failed");
      }
      if announced != Some(validity) {
        return Err("UIDVALIDITY changed");
      }
      var ok := client.Move(uids, Source(row), a);
      if !ok {
        return Err("UID MOVE failed");
      }
      var moved := ParseCopyUid(a.codes);
      if moved == None {
        return Err("moved nothing");
      }
      var expected := CountUidSetForUndo(uids);
      var got := CountUidSetForUndo(moved.value.1);
      var e, g := if expected.Some? then expected.value else 0, if got.Some? then got.value else 0;
      r := Ok(if g < e then MovedSome(g, e) else MovedAll);
    }

    method FlagBackUpstream(row: Row, op: string, flags: seq<string>, done: Undone, a: Answer)
      returns (r: Result<Undone, string>)
      modifies client
      ensures Attempt(client.server, r) == FlagBack(old(client.server), row, op, flags, done, a)
    {
      if flags == [] {
        return Err("no flags recorded");
      }
      var selected, _ := client.Select(Source(row), a);
      if !selected {
        return Err("SELECT failed");
      }
      var ok := client.Store(UidSetOf(row), op, Parens(flags), a);
      r := if ok then Ok(done) else Err("UID STORE failed");
    }

    method UndoOperation(id: string, now: nat, a: Answer) returns (r: Result<Undone, string>)
      modifies this, client
      ensures State() == Reverted(old(State()), id, now, a)
      ensures r == Attempted(old(State()), id, now, a).result
    {
      hide MoveBack, FlagBack, RecordedDestination;
      if id !in ops {
        return Err("not found");
      }
      var op := ops[id];
      var row := op.row;
      if op.status != "executed" {
        return Err("not executed");
      }
      if !Undoable(row.opType) {
        return Err("not undoable");
      }
      if op.undoExpiresAt != 0 && now > op.undoExpiresAt {
        return Err("window expired");
      }
      if Moves(row.opType) {
        if OrEmpty(row.folderTo) == "" {
          return Err("folder_to not recorded");
        }
        var destination := RecordedDestination(audit, id);
        if destination == None {
          return Err("destination not recorded");
        }
        r := MoveBackUpstream(row, destination.value.0, destination.value.1, a);
      } else if row.opType == "mark_read" || row.opType == "flag" {
        r := FlagBackUpstream(row, "-FLAGS", row.flagsAdd, FlagsRemoved, a);
      } else {
        r := FlagBackUpstream(row, "+FLAGS", row.flagsRemove, FlagsAdded, a);
      }
      if r.Ok? {
        ops := ops[id := op.(status := "reverted")];
        audit := audit + [Entry(id, "reverted", NoDetail)];
      }
    }
  }

  // ----- what the server promises -----

  function AllParts(codes: seq<Code>): seq<Part> {
    if codes == [] then [] else AllParts(codes[..|codes| - 1]) + codes[|codes| - 1].dest
  }

  predicate ClosedCodes(codes: seq<Code>) {
    forall i :: 0 <= i < |codes| ==> codes[i].dest != [] && Closed(codes[i].dest)
  }

  /**
   * COPYUID codes are true (section 3 of RFC 4315): together they list each new UID once.
   * A server may split them over several codes, or send none at all.
   */
  predicate Reports(codes: seq<Code>, validity: nat, uids: set<nat>) {
    codes != [] ==>
      && uids != {} && ClosedCodes(codes) && Closed(AllParts(codes))
      && (forall i :: 0 <= i < |codes| ==> codes[i].validity == validity)
      && SetUids(AllParts(codes)) == uids && SetSize(AllParts(codes)) == |uids|
  }

  /** A SELECT answer carries the mailbox's own UIDVALIDITY, or none. */
  predicate AnnouncesTruly(s: Server, box: string, a: Answer) {
    a.announced.Some? ==> box in s.boxes && a.announced.value == s.boxes[box].uidvalidity
  }

  predicate TrueMoveAnswer(s: Server, to: string, a: Answer) {
    to in s.boxes && a.codes != [] ==> Reports(a.codes, s.boxes[to].uidvalidity, a.p.back.Keys)
  }

  // ----- COPYUID text -----

  lemma ShowSetAppend(a: seq<Part>, b: seq<Part>)
    requires a != [] && b != []
    ensures ShowSet(a + b) == ShowSet(a) + [','] + ShowSet(b)
  {
    assert ShowParts(a + b) == ShowParts(a) + ShowParts(b);
    JoinAppend(ShowParts(a), ShowParts(b), ',');
  }

  lemma {:induction false} JoinedSets(codes: seq<Code>)
    requires codes != [] && ClosedCodes(codes)
    ensures AllParts(codes) != [] && Join(DestTexts(codes), ',') == ShowSet(AllParts(codes))
  {
    hide ShowSet, Closed;
    var n := |codes| - 1;
    var front := codes[..n];
    if n == 0 {
      assert AllParts(codes) == codes[0].dest;
    } else {
      JoinedSets(front);
      assert DestTexts(codes) == DestTexts(front) + [ShowSet(codes[n].dest)];
      JoinAppend(DestTexts(front), [ShowSet(codes[n].dest)], ',');
      ShowSetAppend(AllParts(front), codes[n].dest);
    }
  }

  lemma ClosedSetText(ps: seq<Part>)
    requires ps != [] && Closed(ps)
    ensures UidSetText(ShowSet(ps)) && ReadSet(ShowSet(ps)) == Some(ps)
    ensures UndoSum(Split(ShowSet(ps), ',')) == Some(SetSize(ps))
  {
    ReadShowSet(ps);
    CountersAgree(ps);
    ShowPartsLackComma(ps);
    SplitJoin(ShowParts(ps), ',');
    forall i | 0 <= i < |ps| ensures RangeText(ShowParts(ps)[i]) {
      ClosedPartText(ps[i]);
    }
  }

  lemma ClosedPartText(p: Part)
    requires ClosedPart(p)
    ensures RangeText(ShowPart(p))
  {
    match p {
      case One(b) =>
        NumText(b.n);
        IndexOfAbsent(ShowNat(b.n), ':');
      case Range(lo, hi) =>
        NumText(lo.n);
        NumText(hi.n);
        var parts := [ShowNat(lo.n), ShowNat(hi.n)];
        SplitJoin(parts, ':');
        assert parts[1..] == [ShowNat(hi.n)];
        assert Join(parts, ':') == ShowPart(p);
    }
  }

  /** A set without "*" names the same UIDs in every mailbox. */
  lemma ClosedMatched(box: Mailbox, ps: seq<Part>)
    requires Closed(ps)
    ensures Matched(box, ps) == box.msgs.Keys * SetUids(ps)
  {
    forall u | u in box.msgs ensures u in Matched(box, ps) <==> u in SetUids(ps) {
      ClosedDenotes(ps, MaxOf(SortedUids(box.msgs.Keys)), u);
    }
  }

  lemma ClosedDenotes(ps: seq<Part>, max: nat, u: nat)
    requires Closed(ps)
    ensures Denotes(ps, max, u) <==> Denotes(ps, 0, u)
  {
    forall i | 0 <= i < |ps| ensures Covers(ps[i], max, u) <==> Covers(ps[i], 0, u) {
      assert ClosedPart(ps[i]);
    }
  }

  // ----- the forward move -----

  lemma MoveIsTraced(s: Server, from: string, uids: set<nat>, to: string, p: Placement, ids: map<nat, nat>)
    requires Valid(s) && CanTransfer(s, from, uids, to, p)
    requires ids == map u | u in p.back :: s.boxes[from].msgs[p.back[u]].id
    ensures Traced(Move(s, from, uids, to, p), to, s.boxes[to].uidvalidity, ids)
  {
    assert BoxValid(s, to, s.boxes[to]);
  }

  /** The message changed place, or is gone. */
  ghost predicate Displaced(s: Server, t: Server, id: nat) {
    exists n, u :: At(s, n, u, id) && !At(t, n, u, id)
  }

  ghost predicate Present(s: Server, id: nat) {
    exists n, u :: At(s, n, u, id)
  }

  lemma MoveDisplaces(s: Server, from: string, uids: set<nat>, to: string, p: Placement, id: nat)
    requires Valid(s) && CanTransfer(s, from, uids, to, p)
    ensures Displaced(s, Move(s, from, uids, to, p), id) <==> exists u :: u in uids && At(s, from, u, id)
    ensures Present(s, id) <==> Present(Move(s, from, uids, to, p), id)
  {
    hide Denotes;
    var t := Move(s, from, uids, to, p);
    assert BoxValid(s, to, s.boxes[to]);
    hide Valid, BoxValid;
    forall u | u in uids && At(s, from, u, id) ensures !At(t, from, u, id) && Present(t, id) {
      var a :| a in p.back && p.back[a] == u;
      assert At(t, to, a, id);
    }
    forall n, u: nat | At(s, n, u, id) && !(n == from && u in uids) ensures At(t, n, u, id) {
    }
    forall n, u: nat | At(t, n, u, id) ensures Present(s, id) {
      if n == to && u in p.back {
        assert At(s, from, p.back[u], id);
      } else {
        assert At(s, n, u, id);
      }
    }
  }

  // ----- what an undo may touch -----

  /** What is known of a mailbox under the recorded UIDVALIDITY is enough for an undo. */
  lemma MoveBackIsTraced(s: Server, row: Row, codes: seq<Code>, validity: nat, ids: map<nat, nat>, b: Answer, id: nat)
    requires Valid(s) && codes != [] && Reports(codes, validity, ids.Keys)
    requires Traced(s, OrEmpty(row.folderTo), validity, ids) && AnnouncesTruly(s, OrEmpty(row.folderTo), b)
    ensures var t := MoveBack(s, row, Join(DestTexts(codes), ','), validity, b).server;
            (Displaced(s, t, id) ==> id in ids.Values) && (Present(s, id) <==> Present(t, id))
  {
    hide Reports, Traced, Valid, At, DestTexts, MoveBack, Move, Fits;
    var to := OrEmpty(row.folderTo);
    var t := MoveBack(s, row, Join(DestTexts(codes), ','), validity, b).server;
    BackMoves(s, row, codes, validity, ids.Keys, b);
    if t != s {
      var there := s.boxes[to].msgs.Keys * ids.Keys;
      TracedAt(s, to, validity, ids);
      MoveDisplaces(s, to, there, Source(row), b.p, id);
      TracedIds(s, to, there, ids, id);
    } else {
      NothingDisplaced(s, id);
    }
  }

  lemma ReportsMean(codes: seq<Code>, validity: nat, uids: set<nat>)
    requires codes != [] && Reports(codes, validity, uids)
    ensures uids != {} && ClosedCodes(codes) && Closed(AllParts(codes)) && SetUids(AllParts(codes)) == uids
    ensures SetSize(AllParts(codes)) == |uids| && CopyUidOf(codes) == Some((validity, Join(DestTexts(codes), ',')))
  {
  }

  /** Read back from the audit row, the undo's UID MOVE takes what is left of the recorded UIDs. */
  lemma BackMoves(s: Server, row: Row, codes: seq<Code>, validity: nat, recorded: set<nat>, b: Answer)
    requires codes != [] && Reports(codes, validity, recorded)
    ensures var to, r := OrEmpty(row.folderTo), MoveBack(s, row, Join(DestTexts(codes), ','), validity, b);
            r.server != s || r.result.Ok? ==>
              && b.announced == Some(validity) && to in s.boxes && UidSetText(Join(DestTexts(codes), ','))
              && CanTransfer(s, to, s.boxes[to].msgs.Keys * recorded, Source(row), b.p)
              && r.server == Move(s, to, s.boxes[to].msgs.Keys * recorded, Source(row), b.p)
  {
    hide Reports, DestTexts, Move, Fits, CopyUidOf, UidSetText;
    var to := OrEmpty(row.folderTo);
    ReportsMean(codes, validity, recorded);
    JoinedSets(codes);
    ClosedSetText(AllParts(codes));
    if to in s.boxes {
      ClosedMatched(s.boxes[to], AllParts(codes));
    }
  }

  lemma TracedIds(s: Server, box: string, uids: set<nat>, ids: map<nat, nat>, id: nat)
    requires box in s.boxes && BoxTraces(s.boxes[box], ids) && uids <= ids.Keys
    ensures (exists u :: u in uids && At(s, box, u, id)) ==> id in ids.Values
  {
    forall u | u in uids && At(s, box, u, id) ensures id in ids.Values {
      assert ids[u] == id;
    }
  }

  lemma {:induction false} LastExecutedSkips(audit: seq<Entry>, e: Entry, extra: seq<Entry>, id: string)
    requires e.operation == id && e.event == "executed"
    requires forall i :: 0 <= i < |extra| ==> extra[i].operation != id || extra[i].event != "executed"
    ensures LastExecuted(audit + [e] + extra, id) == Some(e.detail)
  {
    var all := audit + [e] + extra;
    if extra == [] {
      assert all[|all| - 1] == e;
    } else {
      assert all[|all| - 1] == extra[|extra| - 1];
      assert all[..|all| - 1] == audit + [e] + extra[..|extra| - 1];
      LastExecutedSkips(audit, e, extra[..|extra| - 1], id);
    }
  }

  /** Time passes: other clients act, other operations come and go. */
  ghost predicate Later(w: World, steps: seq<Step>, extra: seq<Entry>, id: string, later: World) {
    && later.server == After(w.server, steps) && later.audit == w.audit + extra
    && id in w.ops && id in later.ops && later.ops[id] == w.ops[id]
    && forall i :: 0 <= i < |extra| ==> extra[i].operation != id || extra[i].event != "executed"
  }

  /** Only a forward move that reported where it went leaves anything to undo. */
  lemma UndoNeedsReport(w0: World, id: string, a: Answer, steps: seq<Step>, extra: seq<Entry>, w2: World, now: nat, b: Answer)
    requires id in w0.ops && Moves(w0.ops[id].row.opType) && Later(Executed(w0, id, a), steps, extra, id, w2)
    ensures var row, row2 := w0.ops[id].row, w2.ops[id].row;
            var t := Attempted(w2, id, now, b);
            (t.server == w2.server && t.result.Err?) ||
            (&& OrEmpty(row.folderTo) != "" && SelectSucceeds(w0.server, Source(row), a)
             && UidMove(w0.server, Source(row), UidSetOf(row), OrEmpty(row.folderTo), a).ok
             && Executed(w0, id, a).server == UidMove(w0.server, Source(row), UidSetOf(row), OrEmpty(row.folderTo), a).server
             && CopyUidOf(a.codes).Some? && OrEmpty(row2.folderTo) == OrEmpty(row.folderTo) && Source(row2) == Source(row)
             && t == MoveBack(w2.server, row2, CopyUidOf(a.codes).value.1, CopyUidOf(a.codes).value.0, b))
  {
    hide UidMove, UidStore, UidCopy, CopyUidOf, MoveBack, UidSetText, After, Parens;
    var r := Replay(w0.server, w0.ops[id].row, a);
    if r.ok {
      LastExecutedSkips(w0.audit, Entry(id, "executed", r.detail), extra, id);
    }
  }

  lemma ForwardIsTraced(s: Server, from: string, uidSet: string, to: string, a: Answer, validity: nat)
    returns (ids: map<nat, nat>)
    requires Valid(s) && OnePlaceEach(s) && TrueMoveAnswer(s, to, a) && UidMove(s, from, uidSet, to, a).ok
    requires CopyUidOf(a.codes).Some? && CopyUidOf(a.codes).value.0 == validity
    ensures var t := UidMove(s, from, uidSet, to, a).server;
            && Valid(t) && OnePlaceEach(t) && Reports(a.codes, validity, ids.Keys) && Traced(t, to, validity, ids)
            && forall id :: id in ids.Values ==> Displaced(s, t, id)
  {
    var uids := Matched(s.boxes[from], ReadSet(uidSet).value);
    ids := MovedIds(s, from, uids, to, a.p);
    hide Reports, Traced, Valid, At, OnePlaceEach, Matched, ReadSet, CanTransfer, Displaced;
    ReportsMean(a.codes, s.boxes[to].uidvalidity, a.p.back.Keys);
    TransferKeeps(s, from, uids, to, a.p);
    MoveIsTraced(s, from, uids, to, a.p, ids);
  }

  lemma TransferKeeps(s: Server, from: string, uids: set<nat>, to: string, p: Placement)
    requires Valid(s) && OnePlaceEach(s) && CanTransfer(s, from, uids, to, p)
    ensures Valid(Move(s, from, uids, to, p)) && OnePlaceEach(Move(s, from, uids, to, p))
  {
    hide Valid, OnePlaceEach, Move;
    StepKeepsValid(s, Transfer(from, uids, to, p));
    StepKeepsOnePlaceEach(s, Transfer(from, uids, to, p));
  }

  lemma MovedIds(s: Server, from: string, uids: set<nat>, to: string, p: Placement) returns (ids: map<nat, nat>)
    requires Valid(s) && CanTransfer(s, from, uids, to, p)
    ensures ids.Keys == p.back.Keys && ids == map u | u in p.back :: s.boxes[from].msgs[p.back[u]].id
    ensures forall id :: id in ids.Values ==> Displaced(s, Move(s, from, uids, to, p), id)
  {
    hide Valid, At, Displaced, Move;
    ids := map u | u in p.back :: s.boxes[from].msgs[p.back[u]].id;
    forall id | id in ids.Values ensures Displaced(s, Move(s, from, uids, to, p), id) {
      var u :| u in ids && ids[u] == id;
      AtMeans(s, from, p.back[u]);
      MoveDisplaces(s, from, uids, to, p, id);
    }
  }

  lemma AtMeans(s: Server, box: string, u: nat)
    requires box in s.boxes && u in s.boxes[box].msgs
    ensures At(s, box, u, s.boxes[box].msgs[u].id)
  {
  }

  /**
   * Undo never touches a stranger. Between the forward move and the undo, any steps by other
   * clients: every message the undo moves is one the forward move moved, and no message is
   * lost or made.
   */
  lemma UndoNeverTouchesAStranger(w0: World, id: string, a: Answer, steps: seq<Step>, extra: seq<Entry>,
                                  w2: World, now: nat, b: Answer, message: nat)
    requires Valid(w0.server) && OnePlaceEach(w0.server) && id in w0.ops && Moves(w0.ops[id].row.opType)
    requires TrueMoveAnswer(w0.server, OrEmpty(w0.ops[id].row.folderTo), a)
    requires Later(Executed(w0, id, a), steps, extra, id, w2)
    requires AnnouncesTruly(w2.server, OrEmpty(w2.ops[id].row.folderTo), b)
    ensures var w1, w3 := Executed(w0, id, a), Reverted(w2, id, now, b);
            && (Displaced(w2.server, w3.server, message) ==> Displaced(w0.server, w1.server, message))
            && (Present(w2.server, message) <==> Present(w3.server, message))
  {
    hide Valid, OnePlaceEach, TrueMoveAnswer, AnnouncesTruly, Displaced, Present, UidMove, MoveBack, Replay, CopyUidOf, After;
    UndoNeedsReport(w0, id, a, steps, extra, w2, now, b);
    var t := Attempted(w2, id, now, b);
    assert Reverted(w2, id, now, b).server == t.server;
    if t.server == w2.server {
      NothingDisplaced(w2.server, message);
    } else {
      var row, row2 := w0.ops[id].row, w2.ops[id].row;
      var to, validity := OrEmpty(row.folderTo), CopyUidOf(a.codes).value.0;
      var ids := ForwardIsTraced(w0.server, Source(row), UidSetOf(row), to, a, validity);
      RunKeepsTraced(Executed(w0, id, a).server, steps, to, validity, ids);
      CodesMean(a.codes);
      MoveBackIsTraced(w2.server, row2, a.codes, validity, ids, b, message);
    }
  }

  lemma CodesMean(codes: seq<Code>)
    requires CopyUidOf(codes).Some?
    ensures codes != [] && CopyUidOf(codes).value.1 == Join(DestTexts(codes), ',')
  {
  }

  lemma NothingDisplaced(s: Server, id: nat)
    ensures !Displaced(s, s, id)
  {
  }

  // ----- what an undo reports -----

  lemma {:induction false} InjectiveSize(back: map<nat, nat>, uids: set<nat>)
    requires forall u :: u in uids <==> exists a :: a in back && back[a] == u
    requires forall a, b :: a in back && b in back && back[a] == back[b] ==> a == b
    ensures |back.Keys| == |uids|
    decreases |back|
  {
    if back.Keys == {} {
      assert uids == {};
    } else {
      var a :| a in back;
      var rest := map x | x in back && x != a :: back[x];
      assert rest.Keys == back.Keys - {a};
      assert |rest| == |rest.Keys| && |back| == |back.Keys|;
      forall u ensures u in uids - {back[a]} <==> exists x :: x in rest && rest[x] == u {
        if u in uids - {back[a]} {
          var x :| x in back && back[x] == u;
          assert x in rest && rest[x] == u;
        }
      }
      InjectiveSize(rest, uids - {back[a]});
    }
  }

  lemma FitsSize(p: Placement, uids: set<nat>, uidnext: nat)
    requires Fits(p, uids, uidnext)
    ensures |p.back.Keys| == |uids|
  {
    InjectiveSize(p.back, uids);
  }

  /**
   * A successful undo says exactly how many of the recorded messages came back: all of them
   * just when none has left the folder, and always at least one.
   */
  lemma UndoReportsExactly(s: Server, row: Row, codes: seq<Code>, validity: nat, recorded: set<nat>, b: Answer, v: nat)
    requires codes != [] && Reports(codes, validity, recorded)
    requires b.codes != [] && Reports(b.codes, v, b.p.back.Keys)
    requires MoveBack(s, row, Join(DestTexts(codes), ','), validity, b).result.Ok?
    ensures OrEmpty(row.folderTo) in s.boxes
    ensures var left := s.boxes[OrEmpty(row.folderTo)].msgs.Keys * recorded;
            && left != {}
            && MoveBack(s, row, Join(DestTexts(codes), ','), validity, b).result ==
               Ok(if left == recorded then MovedAll else MovedSome(|left|, |recorded|))
  {
    hide Reports, Split, CopyUidOf, DestTexts;
    var to, uids := OrEmpty(row.folderTo), Join(DestTexts(codes), ',');
    ReportsMean(codes, validity, recorded);
    JoinedSets(codes);
    ClosedSetText(AllParts(codes));
    ReportsMean(b.codes, v, b.p.back.Keys);
    JoinedSets(b.codes);
    ClosedSetText(AllParts(b.codes));
    var left := s.boxes[to].msgs.Keys * recorded;
    ClosedMatched(s.boxes[to], AllParts(codes));
    assert CanTransfer(s, to, left, Source(row), b.p);
    hide Matched;
    FitsSize(b.p, left, s.boxes[Source(row)].uidnext);
    assert Counted(uids) == |recorded| && Counted(CopyUidOf(b.codes).value.1) == |left|;
    if left != recorded {
      SubsetSize(left, recorded);
    }
  }

  /** The server does what it is asked, and sends a COPYUID exactly when something moved. */
  predicate Obliges(s: Server, from: string, uids: set<nat>, to: string, b: Answer) {
    && SelectSucceeds(s, from, b) && b.announced == Some(s.boxes[from].uidvalidity) && b.commandOk
    && CanTransfer(s, from, uids, to, b.p) && (b.codes != [] <==> uids != {}) && (b.codes != [] ==> OneValidity(b.codes))
  }

  /** From an obliging server, the move back succeeds exactly when the folder is still the same one and holds a recorded message. */
  lemma MoveBackSucceedsIff(s: Server, row: Row, codes: seq<Code>, validity: nat, recorded: set<nat>, b: Answer)
    requires codes != [] && Reports(codes, validity, recorded) && OrEmpty(row.folderTo) in s.boxes
    requires Obliges(s, OrEmpty(row.folderTo), s.boxes[OrEmpty(row.folderTo)].msgs.Keys * recorded, Source(row), b)
    ensures MoveBack(s, row, Join(DestTexts(codes), ','), validity, b).result.Ok? <==>
            s.boxes[OrEmpty(row.folderTo)].uidvalidity == validity && s.boxes[OrEmpty(row.folderTo)].msgs.Keys * recorded != {}
  {
    hide Reports, DestTexts, Move, Fits, UidSetText, Counted, CanTransfer, ReadSet, Matched, SetUids, AllParts, Closed;
    ReportsMean(codes, validity, recorded);
    JoinedSets(codes);
    ClosedSetText(AllParts(codes));
    ClosedMatched(s.boxes[OrEmpty(row.folderTo)], AllParts(codes));
  }

  lemma RecordedText(audit: seq<Entry>, id: string, codes: seq<Code>, validity: nat, recorded: set<nat>)
    requires codes != [] && Reports(codes, validity, recorded)
    requires LastExecuted(audit, id) == Some(MoveDetail(codes))
    ensures RecordedDestination(audit, id) == Some((Join(DestTexts(codes), ','), validity))
  {
    hide Reports, DestTexts, UidSetText, CopyUidOf, AllParts, Closed;
    ReportsMean(codes, validity, recorded);
    JoinedSets(codes);
    ClosedSetText(AllParts(codes));
  }

  /** A reported forward move that is still executed is undone by moving back what was recorded. */
  lemma AttemptMovesBack(w0: World, id: string, a: Answer, steps: seq<Step>, extra: seq<Entry>, w2: World, now: nat, b: Answer,
                         validity: nat, recorded: set<nat>)
    requires id in w0.ops && Moves(w0.ops[id].row.opType) && (w0.ops[id].row.opType == "trash" ==> a.canMove)
    requires Executed(w0, id, a).ops[id].status == "executed" && OrEmpty(w0.ops[id].row.folderTo) != ""
    requires a.codes != [] && Reports(a.codes, validity, recorded)
    requires Later(Executed(w0, id, a), steps, extra, id, w2)
    requires w0.ops[id].undoExpiresAt == 0 || now <= w0.ops[id].undoExpiresAt
    ensures var row2 := w2.ops[id].row;
            && OrEmpty(row2.folderTo) == OrEmpty(w0.ops[id].row.folderTo) && Source(row2) == Source(w0.ops[id].row)
            && Attempted(w2, id, now, b) == MoveBack(w2.server, row2, Join(DestTexts(a.codes), ','), validity, b)
  {
    hide UidMove, UidStore, UidCopy, CopyUidOf, MoveBack, UidSetText, After, Parens, Reports, DestTexts, RecordedDestination, MoveDetail;
    var r := Replay(w0.server, w0.ops[id].row, a);
    LastExecutedSkips(w0.audit, Entry(id, "executed", r.detail), extra, id);
    RecordedText(w2.audit, id, a.codes, validity, recorded);
  }

  /**
   * The converse: an executed and reported MOVE, whatever other clients did since, is undone
   * by an obliging server exactly when the destination is still the mailbox it was (its
   * UIDVALIDITY unchanged) and at least one of the moved messages is still in it.
   */
  lemma UndoSucceedsIff(w0: World, id: string, a: Answer, steps: seq<Step>, extra: seq<Entry>, w2: World, now: nat, b: Answer)
    requires id in w0.ops && Moves(w0.ops[id].row.opType) && (w0.ops[id].row.opType == "trash" ==> a.canMove)
    requires Executed(w0, id, a).ops[id].status == "executed" && OrEmpty(w0.ops[id].row.folderTo) in w0.server.boxes
    requires OrEmpty(w0.ops[id].row.folderTo) != "" && a.codes != [] && TrueMoveAnswer(w0.server, OrEmpty(w0.ops[id].row.folderTo), a)
    requires Later(Executed(w0, id, a), steps, extra, id, w2)
    requires w0.ops[id].undoExpiresAt == 0 || now <= w0.ops[id].undoExpiresAt
    requires OrEmpty(w0.ops[id].row.folderTo) in w2.server.boxes
    requires var to := OrEmpty(w0.ops[id].row.folderTo);
             Obliges(w2.server, to, w2.server.boxes[to].msgs.Keys * a.p.back.Keys, Source(w0.ops[id].row), b)
    ensures var to := OrEmpty(w0.ops[id].row.folderTo);
            Attempted(w2, id, now, b).result.Ok? <==>
            w2.server.boxes[to].uidvalidity == w0.server.boxes[to].uidvalidity && w2.server.boxes[to].msgs.Keys * a.p.back.Keys != {}
  {
    hide Executed, Attempted, MoveBack, Reports, DestTexts, Obliges, After, Source;
    var to := OrEmpty(w0.ops[id].row.folderTo);
    var validity := w0.server.boxes[to].uidvalidity;
    AttemptMovesBack(w0, id, a, steps, extra, w2, now, b, validity, a.p.back.Keys);
    MoveBackSucceedsIff(w2.server, w2.ops[id].row, a.codes, validity, a.p.back.Keys, b);
  }

  /** No COPYUID only where nothing moved (section 3 of RFC 4315). */
  predicate MovesAreReported(s: Server, to: string, b: Answer) {
    && (b.codes == [] ==> b.p.back == map[] && (to in s.boxes ==> b.p.next == s.boxes[to].uidnext))
    && (b.codes != [] ==> OneValidity(b.codes))
  }

  /** An undo that fails has not changed the server, provided the server reports its moves. */
  lemma FailedUndoChangesNothing(w: World, id: string, now: nat, b: Answer)
    requires id in w.ops ==> MovesAreReported(w.server, Source(w.ops[id].row), b)
    ensures Attempted(w, id, now, b).result.Err? ==> Reverted(w, id, now, b).server == w.server
  {
    hide RecordedDestination, UidStore, FlagBack;
    var t := Attempted(w, id, now, b);
    if id in w.ops && Moves(w.ops[id].row.opType) && RecordedDestination(w.audit, id).Some? && t.result.Err? {
      var (uids, validity) := RecordedDestination(w.audit, id).value;
      var row := w.ops[id].row;
      if t.server != w.server {
        EmptyMove(w.server, OrEmpty(row.folderTo), Matched(w.server.boxes[OrEmpty(row.folderTo)], ReadSet(uids).value), Source(row), b.p);
      }
    } else if id in w.ops {
      FlagBackFails(w.server, w.ops[id].row, "-FLAGS", w.ops[id].row.flagsAdd, FlagsRemoved, b);
      FlagBackFails(w.server, w.ops[id].row, "+FLAGS", w.ops[id].row.flagsRemove, FlagsAdded, b);
    }
  }

  lemma FlagBackFails(s: Server, row: Row, op: string, flags: seq<string>, done: Undone, a: Answer)
    ensures FlagBack(s, row, op, flags, done, a).result.Err? ==> FlagBack(s, row, op, flags, done, a).server == s
  {
  }

  lemma EmptyMove(s: Server, from: string, uids: set<nat>, to: string, p: Placement)
    requires CanTransfer(s, from, uids, to, p) && p.back == map[] && p.next == s.boxes[to].uidnext
    ensures Move(s, from, uids, to, p) == s
  {
    assert uids == {};
    var t := Move(s, from, uids, to, p);
    assert s.boxes[from].msgs - uids == s.boxes[from].msgs;
    assert t.boxes[to].msgs == s.boxes[to].msgs;
    assert t.boxes == s.boxes;
  }

  // ----- an undo right after -----

  predicate HeldAt(s: Server, box: string, uid: nat, m: Message) {
    box in s.boxes && uid in s.boxes[box].msgs && s.boxes[box].msgs[uid] == m
  }

  ghost predicate Holds(s: Server, box: string, m: Message) {
    exists u :: HeldAt(s, box, u, m)
  }

  /** Where every message is after a MOVE. */
  lemma MoveLocates(s: Server, from: string, uids: set<nat>, to: string, p: Placement, n: string, u: nat, m: Message)
    requires Valid(s) && CanTransfer(s, from, uids, to, p)
    ensures HeldAt(Move(s, from, uids, to, p), n, u, m) <==>
            (n == to && u in p.back && HeldAt(s, from, p.back[u], m)) ||
            (!(n == to && u in p.back) && !(n == from && u in uids) && HeldAt(s, n, u, m))
    ensures n == to && u in p.back ==> !HeldAt(s, to, u, m)
  {
    assert BoxValid(s, to, s.boxes[to]);
    hide Denotes, Valid;
  }

  lemma ThereAndBack(s: Server, from: string, uids: set<nat>, to: string, p: Placement, q: Placement, n: string, m: Message)
    requires Valid(s) && CanTransfer(s, from, uids, to, p) && Valid(Move(s, from, uids, to, p))
    requires CanTransfer(Move(s, from, uids, to, p), to, p.back.Keys, from, q)
    ensures Holds(s, n, m) <==> Holds(Move(Move(s, from, uids, to, p), to, p.back.Keys, from, q), n, m)
  {
    hide Valid, HeldAt, Move;
    var t := Move(s, from, uids, to, p);
    var back := Move(t, to, p.back.Keys, from, q);
    forall u | HeldAt(s, n, u, m) ensures Holds(back, n, m) {
      if n == from && u in uids {
        var a :| a in p.back && p.back[a] == u;
        var c :| c in q.back && q.back[c] == a;
        MoveLocates(s, from, uids, to, p, to, a, m);
        MoveLocates(t, to, p.back.Keys, from, q, from, c, m);
      } else {
        MoveLocates(s, from, uids, to, p, n, u, m);
        MoveLocates(t, to, p.back.Keys, from, q, n, u, m);
      }
    }
    forall c | HeldAt(back, n, c, m) ensures Holds(s, n, m) {
      MoveLocates(t, to, p.back.Keys, from, q, n, c, m);
      if n == from && c in q.back {
        var a := q.back[c];
        MoveLocates(s, from, uids, to, p, to, a, m);
        assert HeldAt(s, from, p.back[a], m);
      } else {
        MoveLocates(s, from, uids, to, p, n, c, m);
      }
    }
  }

  /**
   * With nothing in between, a successful undo of a move gives every folder back exactly the
   * messages it had, flags and content included (under new UIDs in the source folder).
   */
  lemma UndoAtOnceRestores(w0: World, id: string, a: Answer, now: nat, b: Answer, box: string, m: Message)
    requires Valid(w0.server) && OnePlaceEach(w0.server) && id in w0.ops && Moves(w0.ops[id].row.opType)
    requires TrueMoveAnswer(w0.server, OrEmpty(w0.ops[id].row.folderTo), a)
    requires Attempted(Executed(w0, id, a), id, now, b).result.Ok?
    ensures Holds(w0.server, box, m) <==> Holds(Reverted(Executed(w0, id, a), id, now, b).server, box, m)
  {
    hide Valid, OnePlaceEach, Holds, UidMove, MoveBack, Replay, CopyUidOf, TrueMoveAnswer;
    var w1 := Executed(w0, id, a);
    UndoNeedsReport(w0, id, a, [], [], w1, now, b);
    var row := w0.ops[id].row;
    MoveAndBack(w0.server, row, w1.ops[id].row, a, b, box, m);
  }

  lemma MoveAndBack(s: Server, row: Row, row2: Row, a: Answer, b: Answer, box: string, m: Message)
    requires Valid(s) && OnePlaceEach(s) && TrueMoveAnswer(s, OrEmpty(row.folderTo), a)
    requires UidMove(s, Source(row), UidSetOf(row), OrEmpty(row.folderTo), a).ok && CopyUidOf(a.codes).Some?
    requires OrEmpty(row2.folderTo) == OrEmpty(row.folderTo) && Source(row2) == Source(row)
    requires var t := UidMove(s, Source(row), UidSetOf(row), OrEmpty(row.folderTo), a).server;
             MoveBack(t, row2, CopyUidOf(a.codes).value.1, CopyUidOf(a.codes).value.0, b).result.Ok?
    ensures var t := UidMove(s, Source(row), UidSetOf(row), OrEmpty(row.folderTo), a).server;
            Holds(s, box, m) <==>
            Holds(MoveBack(t, row2, CopyUidOf(a.codes).value.1, CopyUidOf(a.codes).value.0, b).server, box, m)
  {
    hide Valid, OnePlaceEach, Holds, DestTexts, Fits, Move, MoveBack, Matched, ReadSet, SetUids, AllParts;
    var from, to := Source(row), OrEmpty(row.folderTo);
    var uids := Matched(s.boxes[from], ReadSet(UidSetOf(row)).value);
    MoveAndTakeBack(s, from, uids, to, a.p, a.codes, row2, b, box, m);
  }

  lemma MoveAndTakeBack(s: Server, from: string, uids: set<nat>, to: string, p: Placement, codes: seq<Code>,
                        row2: Row, b: Answer, box: string, m: Message)
    requires Valid(s) && OnePlaceEach(s) && CanTransfer(s, from, uids, to, p)
    requires codes != [] && Reports(codes, s.boxes[to].uidvalidity, p.back.Keys)
    requires OrEmpty(row2.folderTo) == to && Source(row2) == from
    requires MoveBack(Move(s, from, uids, to, p), row2, Join(DestTexts(codes), ','), s.boxes[to].uidvalidity, b).result.Ok?
    ensures Holds(s, box, m) <==>
            Holds(MoveBack(Move(s, from, uids, to, p), row2, Join(DestTexts(codes), ','), s.boxes[to].uidvalidity, b).server, box, m)
  {
    hide Valid, OnePlaceEach, Holds, Reports, DestTexts, Fits, Move, MoveBack, Source, OrEmpty;
    var t := Move(s, from, uids, to, p);
    TransferKeeps(s, from, uids, to, p);
    MovedArePresent(s, from, uids, to, p);
    assert t.boxes[to].msgs.Keys * p.back.Keys == p.back.Keys;
    BackMoves(t, row2, codes, s.boxes[to].uidvalidity, p.back.Keys, b);
    ThereAndBack(s, from, uids, to, p, b.p, box, m);
  }

  lemma MovedArePresent(s: Server, from: string, uids: set<nat>, to: string, p: Placement)
    requires CanTransfer(s, from, uids, to, p)
    ensures to in Move(s, from, uids, to, p).boxes && p.back.Keys <= Move(s, from, uids, to, p).boxes[to].msgs.Keys
  {
  }

  // ----- flag undo -----

  lemma StoreBackIff(box: Mailbox, uids: set<nat>, add: bool, flags: set<string>)
    requires uids <= box.msgs.Keys
    ensures var there := Restored(box, uids, if add then Add else Remove, flags);
            Restored(there, uids, if add then Remove else Add, flags) == box <==>
            forall u :: u in uids ==> if add then box.msgs[u].flags !! flags else flags <= box.msgs[u].flags
  {
    var there := Restored(box, uids, if add then Add else Remove, flags);
    var back := Restored(there, uids, if add then Remove else Add, flags);
    forall u | u in uids
      ensures back.msgs[u] == box.msgs[u] <==> if add then box.msgs[u].flags !! flags else flags <= box.msgs[u].flags
    {
      var had := box.msgs[u].flags;
      assert back.msgs[u].flags == if add then (had + flags) - flags else (had - flags) + flags;
      assert back.msgs[u] == box.msgs[u].(flags := back.msgs[u].flags);
    }
    if forall u :: u in uids ==> if add then box.msgs[u].flags !! flags else flags <= box.msgs[u].flags {
      assert back.msgs == box.msgs;
    }
  }

  /**
   * Undoing a flag operation at once gives the mailbox back exactly when no message it
   * touched already had one of the added flags, or lacked one of the removed ones.
   */
  lemma FlagUndoRestoresIff(w0: World, id: string, ps: seq<Part>, a: Answer, now: nat, b: Answer)
    requires id in w0.ops && w0.ops[id].row.opType in {"mark_read", "flag", "mark_unread", "unflag"}
    requires var row := w0.ops[id].row;
             && ReadSet(UidSetOf(row)) == Some(ps) && SelectSucceeds(w0.server, Source(row), a) && b.selectOk
             && a.commandOk && b.commandOk && (w0.ops[id].undoExpiresAt == 0 || now <= w0.ops[id].undoExpiresAt)
             && if row.opType in {"mark_read", "flag"} then row.flagsAdd != []
                else row.flagsAdd == [] && row.flagsRemove != []
    ensures var row := w0.ops[id].row;
            var add := row.opType in {"mark_read", "flag"};
            var flags := Canonical(ServerFlags([Parens(if add then row.flagsAdd else row.flagsRemove)]));
            var box := w0.server.boxes[Source(row)];
            Reverted(Executed(w0, id, a), id, now, b).server == w0.server <==>
            forall u :: u in Matched(box, ps) ==>
              if add then box.msgs[u].flags !! flags else flags <= box.msgs[u].flags
  {
    hide Canonical, ServerFlags, Parens, Restored, Changed, Matched, Executed, Reverted;
    var row := w0.ops[id].row;
    var add := row.opType in {"mark_read", "flag"};
    var flags := Canonical(ServerFlags([Parens(if add then row.flagsAdd else row.flagsRemove)]));
    var s, box := w0.server, w0.server.boxes[Source(row)];
    var uids := Matched(box, ps);
    PlainOps();
    var there := Restored(box, uids, if add then Add else Remove, flags);
    FlagForward(w0, id, ps, a, add, flags);
    var w1 := Executed(w0, id, a);
    var back := Restored(there, uids, if add then Remove else Add, flags);
    assert Matched(there, ps) == uids by { RestoredMatches(box, uids, if add then Add else Remove, flags, ps); }
    FlagBackward(w1, id, ps, now, b, add, flags, there, back);
    BackIff(s, Source(row), there, back);
    StoreBackIff(box, uids, add, flags);
  }

  lemma FlagForward(w: World, id: string, ps: seq<Part>, a: Answer, add: bool, flags: set<string>)
    requires id in w.ops && FlagReplay(w.ops[id].row.opType) && w.ops[id].row.opType != "trash"
    requires var row := w.ops[id].row;
             && ReadSet(UidSetOf(row)) == Some(ps) && SelectSucceeds(w.server, Source(row), a) && a.commandOk
             && (if add then row.flagsAdd != [] else row.flagsAdd == [] && row.flagsRemove != [])
             && flags == Canonical(ServerFlags([Parens(if add then row.flagsAdd else row.flagsRemove)]))
    ensures var w1, row := Executed(w, id, a), w.ops[id].row;
            var box := w.server.boxes[Source(row)];
            && w1.server == w.server.(boxes := w.server.boxes[Source(row) :=
                 Restored(box, Matched(box, ps), if add then Add else Remove, flags)])
            && w1.ops == w.ops[id := w.ops[id].(status := "executed")]
  {
    hide Canonical, ServerFlags, Parens, Restored, Changed, Matched, UidMove, UidCopy, ReadSet;
    PlainOps();
  }

  lemma FlagBackward(w: World, id: string, ps: seq<Part>, now: nat, b: Answer, add: bool, flags: set<string>,
                     there: Mailbox, back: Mailbox)
    requires id in w.ops && w.ops[id].row.opType in {"mark_read", "flag", "mark_unread", "unflag"}
    requires w.ops[id].status == "executed" && (w.ops[id].undoExpiresAt == 0 || now <= w.ops[id].undoExpiresAt)
    requires var row := w.ops[id].row;
             && ReadSet(UidSetOf(row)) == Some(ps) && Source(row) in w.server.boxes && w.server.boxes[Source(row)] == there
             && b.selectOk && b.commandOk && add == (row.opType in {"mark_read", "flag"})
             && (if add then row.flagsAdd != [] else row.flagsAdd == [] && row.flagsRemove != [])
             && flags == Canonical(ServerFlags([Parens(if add then row.flagsAdd else row.flagsRemove)]))
    requires back == Restored(there, Matched(there, ps), if add then Remove else Add, flags)
    ensures Reverted(w, id, now, b).server ==
            w.server.(boxes := w.server.boxes[Source(w.ops[id].row) := back])
  {
    hide Canonical, ServerFlags, Parens, Restored, Changed, Matched, UidMove, UidCopy, MoveBack;
    PlainOps();
  }

  lemma BackIff(s: Server, name: string, there: Mailbox, back: Mailbox)
    requires name in s.boxes
    ensures s.(boxes := s.boxes[name := there][name := back]) == s <==> back == s.boxes[name]
  {
    var t := s.(boxes := s.boxes[name := there][name := back]);
    assert t.boxes[name] == back;
    if back == s.boxes[name] {
      assert t.boxes == s.boxes;
    }
  }

  lemma RestoredMatches(box: Mailbox, uids: set<nat>, c: Change, flags: set<string>, ps: seq<Part>)
    ensures Matched(Restored(box, uids, c, flags), ps) == Matched(box, ps)
  {
    assert Restored(box, uids, c, flags).msgs.Keys == box.msgs.Keys;
  }
}
