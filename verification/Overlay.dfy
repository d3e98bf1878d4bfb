// The pending-operation overlay: how the upstream-to-client pump patches FETCH
// flags, SEARCH results and the EXISTS count so the agent sees its own staged
// changes (state_db.get_pending_flag_changes_for_uid, proxy._upstream_to_client).
module Overlay {
  import opened Wrappers
  import opened Flags
  import opened OperationParser
  import Text
  import UidSets
  import Mirror

  const FLAG_OP_TYPES: set<string> := {"store", "trash", "mark_read", "mark_unread", "flag", "unflag"}

  /** The columns of staged_operations the overlay query looks at. */
  datatype OpRow = OpRow(
    status: string, opType: string, folderFrom: string, agentId: Option<string>,
    messageIds: seq<string>, flagsAdd: seq<string>, flagsRemove: seq<string>)

  predicate NamesUid(entries: seq<string>, uid: nat) {
    exists i :: 0 <= i < |entries| && UidSets.UidInEntry(entries[i], uid)
  }

  /** The WHERE clause of the query together with the UID test of its loop. */
  predicate Affects(row: OpRow, folder: string, agent: Option<string>, uid: nat) {
    && row.status == "pending" && row.opType in FLAG_OP_TYPES
    && row.folderFrom == folder && row.agentId == agent
    && NamesUid(row.messageIds, uid)
  }

  function Selected(rows: seq<OpRow>, folder: string, agent: Option<string>, uid: nat): seq<OpRow> {
    if rows == [] then []
    else
      var last := rows[|rows| - 1];
      Selected(rows[..|rows| - 1], folder, agent, uid) + if Affects(last, folder, agent, uid) then [last] else []
  }

  function AllAdded(rows: seq<OpRow>): seq<string> {
    if rows == [] then [] else AllAdded(rows[..|rows| - 1]) + rows[|rows| - 1].flagsAdd
  }

  function AllRemoved(rows: seq<OpRow>): seq<string> {
    if rows == [] then [] else AllRemoved(rows[..|rows| - 1]) + rows[|rows| - 1].flagsRemove
  }

  method GetPendingFlagChangesForUid(rows: seq<OpRow>, folder: string, agent: Option<string>, uid: nat)
    returns (flagsToAdd: seq<string>, flagsToRemove: seq<string>)
    ensures flagsToAdd == AllAdded(Selected(rows, folder, agent, uid))
    ensures flagsToRemove == AllRemoved(Selected(rows, folder, agent, uid))
  {
    flagsToAdd, flagsToRemove := [], [];
    for i := 0 to |rows|
      invariant flagsToAdd == AllAdded(Selected(rows[..i], folder, agent, uid))
      invariant flagsToRemove == AllRemoved(Selected(rows[..i], folder, agent, uid))
    {
      assert rows[..i + 1][..i] == rows[..i];
      var kept := Selected(rows[..i], folder, agent, uid);
      assert (kept + [rows[i]])[..|kept|] == kept;
      assert kept + [] == kept;
      if Affects(rows[i], folder, agent, uid) {
        flagsToAdd := flagsToAdd + rows[i].flagsAdd;
        flagsToRemove := flagsToRemove + rows[i].flagsRemove;
      }
    }
    assert rows[..|rows|] == rows;
  }

  /** The other query: the lists of the agent's pending moves out of the folder. */
  function MoveLists(rows: seq<OpRow>, folder: string, agent: Option<string>): seq<seq<string>> {
    if rows == [] then []
    else
      var last := rows[|rows| - 1];
      MoveLists(rows[..|rows| - 1], folder, agent) +
      if last.status == "pending" && last.opType == "move" && last.folderFrom == folder && last.agentId == agent
      then [last.messageIds] else []
  }

  method GetPendingMoveUidsForFolder(rows: seq<OpRow>, folder: string, agent: Option<string>) returns (pending: set<nat>)
    ensures forall u :: u in pending <==> MovedAway(rows, folder, agent, u)
  {
    var lists := MoveLists(rows, folder, agent);
    pending := UidSets.PendingMoveUids(lists);
    forall u ensures u in pending <==> MovedAway(rows, folder, agent, u) {
      InMoveLists(rows, folder, agent, u);
    }
  }

  /** Some pending move of the agent out of the folder has an entry that names the UID. */
  predicate MovedAway(rows: seq<OpRow>, folder: string, agent: Option<string>, u: nat) {
    exists i, j :: 0 <= i < |rows| && 0 <= j < |rows[i].messageIds| && u in UidSets.PendingUids(rows[i].messageIds[j])
      && rows[i].status == "pending" && rows[i].opType == "move" && rows[i].folderFrom == folder && rows[i].agentId == agent
  }

  predicate InLists(lists: seq<seq<string>>, u: nat) {
    exists i, j :: 0 <= i < |lists| && 0 <= j < |lists[i]| && u in UidSets.PendingUids(lists[i][j])
  }

  lemma InListsAppend(lists: seq<seq<string>>, last: seq<string>, u: nat)
    ensures InLists(lists + [last], u) <==> InLists(lists, u) || exists j :: 0 <= j < |last| && u in UidSets.PendingUids(last[j])
  {
    hide UidSets.PendingUids;
    var all := lists + [last];
    assert forall i :: 0 <= i < |lists| ==> all[i] == lists[i];
    assert all[|lists|] == last;
    if InLists(lists, u) {
      var i, j :| 0 <= i < |lists| && 0 <= j < |lists[i]| && u in UidSets.PendingUids(lists[i][j]);
      assert u in UidSets.PendingUids(all[i][j]);
    }
    if j :| 0 <= j < |last| && u in UidSets.PendingUids(last[j]) {
      assert u in UidSets.PendingUids(all[|lists|][j]);
    }
  }

  lemma MovedAwayLast(rows: seq<OpRow>, folder: string, agent: Option<string>, u: nat)
    requires rows != []
    ensures var last := rows[|rows| - 1];
            MovedAway(rows, folder, agent, u) <==>
            MovedAway(rows[..|rows| - 1], folder, agent, u) ||
            (last.status == "pending" && last.opType == "move" && last.folderFrom == folder && last.agentId == agent
             && exists j :: 0 <= j < |last.messageIds| && u in UidSets.PendingUids(last.messageIds[j]))
  {
    hide UidSets.PendingUids;
    var n := |rows| - 1;
    assert forall i :: 0 <= i < n ==> rows[..n][i] == rows[i];
  }

  lemma {:induction false} InMoveLists(rows: seq<OpRow>, folder: string, agent: Option<string>, u: nat)
    ensures InLists(MoveLists(rows, folder, agent), u) <==> MovedAway(rows, folder, agent, u)
  {
    hide UidSets.PendingUids, InLists, MovedAway;
    if rows == [] {
      assert !InLists([], u) by { NothingListed(u); }
      assert !MovedAway([], folder, agent, u) by { NothingMoved(folder, agent, u); }
    } else {
      var n := |rows| - 1;
      var front := MoveLists(rows[..n], folder, agent);
      InMoveLists(rows[..n], folder, agent, u);
      MovedAwayLast(rows, folder, agent, u);
      InListsAppend(front, rows[n].messageIds, u);
      assert front + [] == front;
    }
  }

  lemma NothingListed(u: nat)
    ensures !InLists([], u)
  {
  }

  lemma NothingMoved(folder: string, agent: Option<string>, u: nat)
    ensures !MovedAway([], folder, agent, u)
  {
  }

  // ----- the rows of staged commands -----

  datatype Command = StoreFlags(flagsOp: string, flags: seq<string>) | MoveTo(destination: string) | CopyTo(destination: string)

  /** A UID command as it was staged, and what became of it. */
  datatype Stored = Stored(status: string, command: Command, ps: seq<UidSets.Part>, folder: string, agent: Option<string>)

  /** create_operation's row for it. */
  function RowOf(x: Stored): OpRow {
    var set_ := UidSets.ShowSet(x.ps);
    var op := match x.command
              case StoreFlags(flagsOp, flags) => ParseStore(set_, flagsOp, flags)
              case MoveTo(destination) => ParseMove(set_, destination)
              case CopyTo(destination) => ParseCopy(set_, destination);
    OpRow(x.status, op.opType, x.folder, x.agent, op.messageIds, op.flagsAdd, op.flagsRemove)
  }

  function RowsOf(stored: seq<Stored>): (r: seq<OpRow>)
    ensures |r| == |stored| && forall i :: 0 <= i < |r| ==> r[i] == RowOf(stored[i])
  {
    seq(|stored|, i requires 0 <= i < |stored| => RowOf(stored[i]))
  }

  /** The command is waiting for a decision, of that agent and folder, and its set names the UID. */
  predicate Waits(x: Stored, folder: string, agent: Option<string>, uid: nat) {
    x.status == "pending" && x.folder == folder && x.agent == agent && UidSets.Denotes(x.ps, 0, uid)
  }

  lemma PlainSetNames(ps: seq<UidSets.Part>, uid: nat)
    requires UidSets.Plain(ps)
    ensures UidSets.UidInEntry(UidSets.ShowSet(ps), uid) <==> UidSets.Denotes(ps, 0, uid)
    ensures uid in UidSets.PendingUids(UidSets.ShowSet(ps)) <==> UidSets.Denotes(ps, 0, uid)
  {
    hide UidSets.ShowSet, UidSets.UidInEntry, UidSets.PendingUids, UidSets.Denotes;
    UidSets.PendingMeaning(ps);
    SetUidsAre(ps, uid);
  }

  lemma SetUidsAre(ps: seq<UidSets.Part>, uid: nat)
    requires UidSets.Plain(ps)
    ensures uid in UidSets.SetUids(ps) <==> UidSets.Denotes(ps, 0, uid)
  {
    hide UidSets.Denotes;
  }

  lemma StoreRowAffects(x: Stored, folder: string, agent: Option<string>, uid: nat)
    requires UidSets.Plain(x.ps)
    ensures Affects(RowOf(x), folder, agent, uid) <==> x.command.StoreFlags? && Waits(x, folder, agent, uid)
  {
    hide UidSets.ShowSet, UidSets.UidInEntry, UidSets.Denotes, UidSets.Plain, Names, FlagsOp;
    PlainSetNames(x.ps, uid);
    assert [UidSets.ShowSet(x.ps)][0] == UidSets.ShowSet(x.ps);
  }

  /** Some STORE that waits puts the flag on the UID's message, or takes it off. */
  predicate WaitingStore(stored: seq<Stored>, folder: string, agent: Option<string>, uid: nat, op: string, flag: string) {
    exists i :: 0 <= i < |stored| && Waits(stored[i], folder, agent, uid)
      && stored[i].command.StoreFlags? && FlagsOp(stored[i].command.flagsOp) == op && flag in stored[i].command.flags
  }

  lemma WaitingStoreLast(stored: seq<Stored>, folder: string, agent: Option<string>, uid: nat, op: string, flag: string)
    requires stored != []
    ensures var n := |stored| - 1;
            WaitingStore(stored, folder, agent, uid, op, flag) <==>
            WaitingStore(stored[..n], folder, agent, uid, op, flag) || WaitingStore([stored[n]], folder, agent, uid, op, flag)
  {
    hide Waits, FlagsOp;
    var n := |stored| - 1;
    assert forall i :: 0 <= i < n ==> stored[..n][i] == stored[i];
    assert [stored[n]][0] == stored[n];
  }

  /**
   * For every table of staged commands with plain sets: the query says a flag is to be added to a
   * message exactly when a STORE +FLAGS that waits for a decision, by that agent and in that folder,
   * names the message and the flag, and to be removed exactly when a STORE -FLAGS does. Decided
   * operations, other agents, other folders, moves and copies say nothing, and no kind of STORE is left out.
   */
  lemma {:induction false} QueryReadsStores(stored: seq<Stored>, folder: string, agent: Option<string>, uid: nat, flag: string)
    requires forall i :: 0 <= i < |stored| ==> UidSets.Plain(stored[i].ps)
    ensures flag in AllAdded(Selected(RowsOf(stored), folder, agent, uid)) <==> WaitingStore(stored, folder, agent, uid, "+FLAGS", flag)
    ensures flag in AllRemoved(Selected(RowsOf(stored), folder, agent, uid)) <==> WaitingStore(stored, folder, agent, uid, "-FLAGS", flag)
  {
    hide Affects, RowOf, UidSets.Plain, WaitingStore, Waits;
    if stored == [] {
      NoStoreWaits(folder, agent, uid, flag);
    } else {
      var n := |stored| - 1;
      var front, last := RowsOf(stored[..n]), RowOf(stored[n]);
      assert RowsOf(stored)[..n] == front && RowsOf(stored)[n] == last;
      QueryReadsStores(stored[..n], folder, agent, uid, flag);
      WaitingStoreLast(stored, folder, agent, uid, "+FLAGS", flag);
      WaitingStoreLast(stored, folder, agent, uid, "-FLAGS", flag);
      OneStoreReads(stored[n], folder, agent, uid, flag);
      var kept := Selected(front, folder, agent, uid);
      assert (kept + [last])[..|kept|] == kept;
      assert kept + [] == kept;
    }
  }

  lemma NoStoreWaits(folder: string, agent: Option<string>, uid: nat, flag: string)
    ensures !WaitingStore([], folder, agent, uid, "+FLAGS", flag) && !WaitingStore([], folder, agent, uid, "-FLAGS", flag)
  {
  }

  lemma OneStoreReads(x: Stored, folder: string, agent: Option<string>, uid: nat, flag: string)
    requires UidSets.Plain(x.ps)
    ensures Affects(RowOf(x), folder, agent, uid) && flag in RowOf(x).flagsAdd <==> WaitingStore([x], folder, agent, uid, "+FLAGS", flag)
    ensures Affects(RowOf(x), folder, agent, uid) && flag in RowOf(x).flagsRemove <==> WaitingStore([x], folder, agent, uid, "-FLAGS", flag)
  {
    hide Affects, Waits, UidSets.Plain, UidSets.ShowSet, Names, FlagsOp;
    StoreRowAffects(x, folder, agent, uid);
    assert [x][0] == x;
  }

  /** Likewise the UIDs hidden from the agent are those its waiting MOVEs out of the folder name. */
  lemma QueryReadsMoves(stored: seq<Stored>, folder: string, agent: Option<string>, uid: nat)
    requires forall i :: 0 <= i < |stored| ==> UidSets.Plain(stored[i].ps)
    ensures MovedAway(RowsOf(stored), folder, agent, uid) <==>
            exists i :: 0 <= i < |stored| && stored[i].command.MoveTo? && Waits(stored[i], folder, agent, uid)
  {
    hide UidSets.PendingUids, UidSets.ShowSet, UidSets.Plain, UidSets.Denotes;
    var rows := RowsOf(stored);
    forall i | 0 <= i < |stored|
      ensures rows[i].messageIds == [UidSets.ShowSet(stored[i].ps)] && (rows[i].opType == "move" <==> stored[i].command.MoveTo?)
      ensures rows[i].status == stored[i].status && rows[i].folderFrom == stored[i].folder && rows[i].agentId == stored[i].agent
      ensures uid in UidSets.PendingUids(rows[i].messageIds[0]) <==> UidSets.Denotes(stored[i].ps, 0, uid)
    {
      PlainSetNames(stored[i].ps, uid);
      MoveRow(stored[i]);
    }
    if i :| 0 <= i < |stored| && stored[i].command.MoveTo? && Waits(stored[i], folder, agent, uid) {
      assert uid in UidSets.PendingUids(rows[i].messageIds[0]);
    }
  }

  lemma MoveRow(x: Stored)
    ensures RowOf(x).messageIds == [UidSets.ShowSet(x.ps)] && (RowOf(x).opType == "move" <==> x.command.MoveTo?)
  {
    hide UidSets.ShowSet, Names, FlagsOp, UnquoteMailbox;
  }

  // ----- patched flags against replaying the operations -----

  /** The flags the patched FETCH line carries. */
  function Patched(base: set<string>, rows: seq<OpRow>): set<string> {
    base + AsSet(AllAdded(rows)) - AsSet(AllRemoved(rows))
  }

  /** The operations applied one by one, as the mirror applies them. */
  function Replayed(base: set<string>, rows: seq<OpRow>): set<string> {
    if rows == [] then base
    else
      var last := rows[|rows| - 1];
      Replayed(base, rows[..|rows| - 1]) + AsSet(last.flagsAdd) - AsSet(last.flagsRemove)
  }

  predicate Touches(row: OpRow, flag: string) {
    flag in row.flagsAdd || flag in row.flagsRemove
  }

  /** The last operation that mentions the flag leaves it set. */
  predicate EndsAdded(rows: seq<OpRow>, flag: string) {
    rows != [] &&
    (var last := rows[|rows| - 1];
     if Touches(last, flag) then flag !in last.flagsRemove else EndsAdded(rows[..|rows| - 1], flag))
  }

  predicate Added(rows: seq<OpRow>, flag: string) {
    exists i :: 0 <= i < |rows| && flag in rows[i].flagsAdd
  }

  predicate Removed(rows: seq<OpRow>, flag: string) {
    exists i :: 0 <= i < |rows| && flag in rows[i].flagsRemove
  }

  lemma {:induction false} AddedIs(rows: seq<OpRow>, flag: string)
    ensures flag in AllAdded(rows) <==> Added(rows, flag)
    ensures flag in AllRemoved(rows) <==> Removed(rows, flag)
  {
    if rows == [] {
    } else {
      var n := |rows| - 1;
      AddedIs(rows[..n], flag);
      assert forall i :: 0 <= i < n ==> rows[..n][i] == rows[i];
      if Added(rows, flag) && flag !in rows[n].flagsAdd {
        var i :| 0 <= i < |rows| && flag in rows[i].flagsAdd;
        assert rows[..n][i] == rows[i];
      }
      if Removed(rows, flag) && flag !in rows[n].flagsRemove {
        var i :| 0 <= i < |rows| && flag in rows[i].flagsRemove;
        assert rows[..n][i] == rows[i];
      }
    }
  }

  /** One flag after a replay: decided by the last operation naming it, else by the base. */
  lemma {:induction false} ReplayedFlag(base: set<string>, rows: seq<OpRow>, flag: string)
    ensures flag in Replayed(base, rows) <==>
            EndsAdded(rows, flag) || (flag in base && !Added(rows, flag) && !Removed(rows, flag))
  {
    if rows == [] {
    } else {
      var n := |rows| - 1;
      ReplayedFlag(base, rows[..n], flag);
      AddedIs(rows, flag);
      AddedIs(rows[..n], flag);
    }
  }

  lemma {:induction false} EndsAddedIsAdded(rows: seq<OpRow>, flag: string)
    ensures EndsAdded(rows, flag) ==> Added(rows, flag)
    ensures Added(rows, flag) && !Removed(rows, flag) ==> EndsAdded(rows, flag)
  {
    if rows == [] {
    } else {
      var n := |rows| - 1;
      EndsAddedIsAdded(rows[..n], flag);
      AddedIs(rows, flag);
      AddedIs(rows[..n], flag);
    }
  }

  /** The patched flags equal the replayed ones unless a removed flag was last added back. */
  lemma PatchAgreesIff(base: set<string>, rows: seq<OpRow>)
    ensures Patched(base, rows) == Replayed(base, rows) <==>
            forall f :: Removed(rows, f) ==> !EndsAdded(rows, f)
  {
    forall f
      ensures f in Patched(base, rows) <==> (f in base || Added(rows, f)) && !Removed(rows, f)
      ensures f in Replayed(base, rows) <==> EndsAdded(rows, f) || (f in base && !Added(rows, f) && !Removed(rows, f))
      ensures EndsAdded(rows, f) ==> Added(rows, f)
      ensures Added(rows, f) && !Removed(rows, f) ==> EndsAdded(rows, f)
    {
      AddedIs(rows, f);
      ReplayedFlag(base, rows, f);
      EndsAddedIsAdded(rows, f);
    }
    if Patched(base, rows) == Replayed(base, rows) {
      forall f | Removed(rows, f) ensures !EndsAdded(rows, f) {
        assert f !in Patched(base, rows);
      }
    }
  }

  /** No flag is both added and removed. */
  ghost predicate Consistent(rows: seq<OpRow>) {
    forall f :: !(Added(rows, f) && Removed(rows, f))
  }

  /** parse_store never fills both lists with one flag. */
  ghost predicate OneSided(rows: seq<OpRow>) {
    forall i, f :: 0 <= i < |rows| && f in rows[i].flagsAdd ==> f !in rows[i].flagsRemove
  }

  lemma AddedMembership(rows: seq<OpRow>, flag: string)
    ensures Added(rows, flag) <==> exists r :: r in rows && flag in r.flagsAdd
    ensures Removed(rows, flag) <==> exists r :: r in rows && flag in r.flagsRemove
  {
    if Added(rows, flag) {
      var i :| 0 <= i < |rows| && flag in rows[i].flagsAdd;
      assert rows[i] in rows;
    }
    if Removed(rows, flag) {
      var i :| 0 <= i < |rows| && flag in rows[i].flagsRemove;
      assert rows[i] in rows;
    }
  }

  lemma SameAfterPermutation(rows: seq<OpRow>, perm: seq<OpRow>, flag: string)
    requires multiset(rows) == multiset(perm)
    ensures Added(rows, flag) <==> Added(perm, flag)
    ensures Removed(rows, flag) <==> Removed(perm, flag)
  {
    hide Added, Removed;
    AddedMembership(rows, flag);
    AddedMembership(perm, flag);
    assert forall r :: r in rows <==> r in multiset(rows);
    assert forall r :: r in perm <==> r in multiset(perm);
  }

  /** The patch agrees with every replay order exactly when no flag is both added and removed. */
  lemma PatchAgreesInAnyOrderIff(base: set<string>, rows: seq<OpRow>)
    requires OneSided(rows)
    ensures Consistent(rows) <==>
            forall perm {:trigger Replayed(base, perm)} :: multiset(perm) == multiset(rows) ==>
              Replayed(base, perm) == Patched(base, rows)
  {
    hide Replayed, Patched, OneSided;
    if Consistent(rows) {
      forall perm: seq<OpRow> | multiset(perm) == multiset(rows) ensures Replayed(base, perm) == Patched(base, rows) {
        ConsistentReplay(base, rows, perm);
      }
    } else {
      var f :| Added(rows, f) && Removed(rows, f);
      var perm := AddedLast(base, rows, f);
      assert Replayed(base, perm) != Patched(base, rows);
    }
  }

  /** A flag both added and removed: the order that adds it last keeps it, the patch does not. */
  lemma AddedLast(base: set<string>, rows: seq<OpRow>, f: string) returns (perm: seq<OpRow>)
    requires OneSided(rows) && Added(rows, f) && Removed(rows, f)
    ensures multiset(perm) == multiset(rows) && f in Replayed(base, perm) && f !in Patched(base, rows)
  {
    hide Replayed, Patched;
    var k :| 0 <= k < |rows| && f in rows[k].flagsAdd;
    perm := rows[..k] + rows[k + 1..] + [rows[k]];
    assert rows == rows[..k] + [rows[k]] + rows[k + 1..];
    assert EndsAdded(perm, f);
    AddedIs(rows, f);
    ReplayedFlag(base, perm, f);
    RemovedNotPatched(base, rows, f);
  }

  lemma RemovedNotPatched(base: set<string>, rows: seq<OpRow>, f: string)
    requires Removed(rows, f)
    ensures f !in Patched(base, rows)
  {
    AddedIs(rows, f);
  }

  lemma ConsistentReplay(base: set<string>, rows: seq<OpRow>, perm: seq<OpRow>)
    requires Consistent(rows) && multiset(perm) == multiset(rows)
    ensures Replayed(base, perm) == Patched(base, rows)
  {
    forall f ensures f in Replayed(base, perm) <==> f in Patched(base, rows) {
      SameAfterPermutation(rows, perm, f);
      AddedIs(rows, f);
      ReplayedFlag(base, perm, f);
      EndsAddedIsAdded(perm, f);
    }
  }

  // ----- the mirror replays -----

  lemma MergeIsReplayStep(flags: seq<string>, add: seq<string>, remove: seq<string>)
    ensures AsSet(Mirror.Merge(flags, add, remove)) == AsSet(flags) + AsSet(add) - AsSet(remove)
  {
  }

  lemma PlainAffects(ps: seq<UidSets.Part>, known: seq<nat>, uid: nat)
    requires UidSets.Plain(ps) && uid in known
    ensures var r := UidSets.Expand(UidSets.ShowSet(ps), known);
            r.Ok? && (uid in r.value <==> NamesUid([UidSets.ShowSet(ps)], uid))
  {
    hide UidSets.Expand, UidSets.ShowSet, UidSets.UidInEntry, UidSets.PendingUids, UidSets.SetUids, UidSets.Denotes;
    UidSets.ExpansionMeaning(ps, known);
    UidSets.PendingMeaning(ps);
    assert NamesUid([UidSets.ShowSet(ps)], uid) <==> UidSets.UidInEntry(UidSets.ShowSet(ps), uid) by {
      assert [UidSets.ShowSet(ps)][0] == UidSets.ShowSet(ps);
    }
    assert uid in UidSets.SetUids(ps) <==> UidSets.Denotes(ps, UidSets.MaxOf(known), uid);
  }

  /** The flag lists of a STORE, and what staging it does to the mirror: nothing when both are empty. */
  function Mirrored(t: Mirror.Table, folderId: nat, x: Stored): Mirror.Table {
    var row := RowOf(x);
    if row.flagsAdd == [] && row.flagsRemove == [] then t
    else Mirror.Stage(t, Mirror.Op(Mirror.FlagChange(row.flagsAdd, row.flagsRemove), folderId, UidSets.ShowSet(x.ps))).0
  }

  function MirroredAll(t: Mirror.Table, folderId: nat, stored: seq<Stored>): Mirror.Table
    decreases |stored|
  {
    if stored == [] then t else MirroredAll(Mirrored(t, folderId, stored[0]), folderId, stored[1..])
  }

  /** A run of one agent's STOREs in one folder, none of them decided yet. */
  predicate Run(stored: seq<Stored>, folder: string, agent: Option<string>) {
    forall i :: 0 <= i < |stored| ==> RunOf(stored[i], folder, agent)
  }

  predicate RunOf(x: Stored, folder: string, agent: Option<string>) {
    x.status == "pending" && x.folder == folder && x.agent == agent && x.command.StoreFlags? && UidSets.Plain(x.ps)
  }

  /** Replaying from the front, to follow the order of staging. */
  function ReplayedFront(base: set<string>, rows: seq<OpRow>, uid: nat): set<string>
    decreases |rows|
  {
    if rows == [] then base
    else
      var r := rows[0];
      ReplayedFront(if NamesUid(r.messageIds, uid) then base + AsSet(r.flagsAdd) - AsSet(r.flagsRemove) else base,
                    rows[1..], uid)
  }

  lemma {:induction false} ReplayedFrontAppend(base: set<string>, rows: seq<OpRow>, r: OpRow, uid: nat)
    ensures ReplayedFront(base, rows + [r], uid) ==
            var before := ReplayedFront(base, rows, uid);
            if NamesUid(r.messageIds, uid) then before + AsSet(r.flagsAdd) - AsSet(r.flagsRemove) else before
    decreases |rows|
  {
    hide NamesUid;
    if rows == [] {
      assert [r][1..] == [];
      assert [] + [r] == [r];
    } else {
      assert (rows + [r])[1..] == rows[1..] + [r];
      var next := if NamesUid(rows[0].messageIds, uid)
                  then base + AsSet(rows[0].flagsAdd) - AsSet(rows[0].flagsRemove) else base;
      ReplayedFrontAppend(next, rows[1..], r, uid);
    }
  }

  lemma {:induction false} FrontIsReplayed(base: set<string>, rows: seq<OpRow>, folder: string, agent: Option<string>,
                                           uid: nat)
    requires forall i :: 0 <= i < |rows| ==>
      rows[i].status == "pending" && rows[i].opType in FLAG_OP_TYPES && rows[i].folderFrom == folder && rows[i].agentId == agent
    ensures ReplayedFront(base, rows, uid) == Replayed(base, Selected(rows, folder, agent, uid))
  {
    hide NamesUid;
    if rows == [] {
    } else {
      var n := |rows| - 1;
      var front, last := rows[..n], rows[n];
      assert rows == front + [last];
      FrontIsReplayed(base, front, folder, agent, uid);
      ReplayedFrontAppend(base, front, last, uid);
      var kept := Selected(front, folder, agent, uid);
      assert (kept + [last])[..|kept|] == kept;
      assert kept + [] == kept;
    }
  }

  lemma StageChange(t: Mirror.Table, folderId: nat, ps: seq<UidSets.Part>, add: seq<string>, remove: seq<string>, uid: nat)
    requires UidSets.Plain(ps) && (folderId, uid) in t
    ensures var t' := Mirror.Stage(t, Mirror.Op(Mirror.FlagChange(add, remove), folderId, UidSets.ShowSet(ps))).0;
            && (folderId, uid) in t'
            && AsSet(t'[(folderId, uid)].flags) ==
               if NamesUid([UidSets.ShowSet(ps)], uid)
               then AsSet(t[(folderId, uid)].flags) + AsSet(add) - AsSet(remove)
               else AsSet(t[(folderId, uid)].flags)
  {
    hide NamesUid, UidSets.Plain, UidSets.ShowSet;
    PlainAffects(ps, Mirror.KnownUids(t, folderId), uid);
    MergeIsReplayStep(t[(folderId, uid)].flags, add, remove);
  }

  lemma StagePlain(t: Mirror.Table, folderId: nat, x: Stored, uid: nat)
    requires UidSets.Plain(x.ps) && (folderId, uid) in t
    ensures var t' := Mirrored(t, folderId, x);
            && (folderId, uid) in t'
            && AsSet(t'[(folderId, uid)].flags) ==
               if NamesUid(RowOf(x).messageIds, uid)
               then AsSet(t[(folderId, uid)].flags) + AsSet(RowOf(x).flagsAdd) - AsSet(RowOf(x).flagsRemove)
               else AsSet(t[(folderId, uid)].flags)
  {
    hide RowOf, NamesUid, UidSets.Plain, UidSets.ShowSet, Mirror.Stage;
    assert RowOf(x).messageIds == [UidSets.ShowSet(x.ps)] by { MoveRow(x); }
    StageChange(t, folderId, x.ps, RowOf(x).flagsAdd, RowOf(x).flagsRemove, uid);
  }

  /**
   * After staging any run of STOREs with plain sets, of whatever kind, the mirror holds, for each
   * mirrored UID, the flags the rows selected for it give when applied one by one.
   */
  lemma MirrorReplays(t: Mirror.Table, folderId: nat, stored: seq<Stored>, folder: string, agent: Option<string>, uid: nat)
    requires (folderId, uid) in t && Run(stored, folder, agent)
    ensures var t' := MirroredAll(t, folderId, stored);
            && (folderId, uid) in t'
            && AsSet(t'[(folderId, uid)].flags) ==
               Replayed(AsSet(t[(folderId, uid)].flags), Selected(RowsOf(stored), folder, agent, uid))
  {
    hide MirroredAll, RowOf;
    MirrorReplaysFront(t, folderId, stored, folder, agent, uid);
    forall i | 0 <= i < |stored|
      ensures var row := RowsOf(stored)[i];
              row.status == "pending" && row.opType in FLAG_OP_TYPES && row.folderFrom == folder && row.agentId == agent
    {
      StoreRowShown(stored[i], folder, agent);
    }
    FrontIsReplayed(AsSet(t[(folderId, uid)].flags), RowsOf(stored), folder, agent, uid);
  }

  lemma StoreRowShown(x: Stored, folder: string, agent: Option<string>)
    requires RunOf(x, folder, agent)
    ensures var row := RowOf(x);
            row.status == "pending" && row.opType in FLAG_OP_TYPES && row.folderFrom == folder && row.agentId == agent
  {
    hide Names, FlagsOp, UidSets.ShowSet;
  }

  lemma {:induction false} MirrorReplaysFront(t: Mirror.Table, folderId: nat, stored: seq<Stored>, folder: string, agent: Option<string>,
                                              uid: nat)
    requires (folderId, uid) in t && Run(stored, folder, agent)
    ensures var t' := MirroredAll(t, folderId, stored);
            && (folderId, uid) in t'
            && AsSet(t'[(folderId, uid)].flags) == ReplayedFront(AsSet(t[(folderId, uid)].flags), RowsOf(stored), uid)
    decreases |stored|
  {
    hide NamesUid, UidSets.Plain, Mirrored, RowOf;
    if stored == [] {
    } else {
      StagePlain(t, folderId, stored[0], uid);
      MirrorReplaysFront(Mirrored(t, folderId, stored[0]), folderId, stored[1..], folder, agent, uid);
      assert RowsOf(stored)[1..] == RowsOf(stored[1..]);
    }
  }

  // ----- EXISTS and SEARCH -----

  function AdjustedExists(n: nat, pending: set<nat>): nat {
    if n >= |pending| then n - |pending| else 0
  }

  /** A SEARCH token survives unless it is a pending UID. */
  predicate Survives(token: string, pending: set<nat>) {
    !(Text.AllDigits(token) && Text.ReadNat(token) in pending)
  }

  function FilterSearch(tokens: seq<string>, pending: set<nat>): seq<string> {
    if tokens == [] then []
    else (if Survives(tokens[0], pending) then [tokens[0]] else []) + FilterSearch(tokens[1..], pending)
  }

  function Shown(uids: seq<nat>): (r: seq<string>)
    ensures |r| == |uids|
  {
    seq(|uids|, i requires 0 <= i < |uids| => Text.ShowNat(uids[i]))
  }

  predicate Distinct(uids: seq<nat>) {
    forall i, j :: 0 <= i < j < |uids| ==> uids[i] != uids[j]
  }

  function UidsOf(uids: seq<nat>): set<nat> {
    set u | u in uids
  }

  lemma {:induction false} DistinctSize(uids: seq<nat>)
    requires Distinct(uids)
    ensures |UidsOf(uids)| == |uids|
  {
    if uids == [] {
    } else {
      DistinctSize(uids[1..]);
      assert UidsOf(uids) == {uids[0]} + UidsOf(uids[1..]);
      assert uids[0] !in UidsOf(uids[1..]);
    }
  }

  lemma ShownSurvives(u: nat, pending: set<nat>)
    ensures Survives(Text.ShowNat(u), pending) <==> u !in pending
  {
    Text.ReadShow(u);
  }

  lemma UidsOfTail(uids: seq<nat>)
    requires uids != [] && Distinct(uids)
    ensures UidsOf(uids) == {uids[0]} + UidsOf(uids[1..]) && uids[0] !in UidsOf(uids[1..]) && Distinct(uids[1..])
  {
    assert uids == [uids[0]] + uids[1..];
  }

  lemma LessOne(u: nat, rest: set<nat>, pending: set<nat>)
    requires u !in rest
    ensures |({u} + rest) - pending| == |rest - pending| + if u in pending then 0 else 1
  {
    if u in pending {
      assert ({u} + rest) - pending == rest - pending;
    } else {
      assert ({u} + rest) - pending == {u} + (rest - pending);
    }
  }

  lemma {:induction false} FilterLength(uids: seq<nat>, pending: set<nat>)
    requires Distinct(uids)
    ensures |FilterSearch(Shown(uids), pending)| == |UidsOf(uids) - pending|
  {
    hide Text.ShowNat, Text.ReadNat, Text.AllDigits, Distinct;
    if uids == [] {
    } else {
      UidsOfTail(uids);
      FilterLength(uids[1..], pending);
      assert Shown(uids)[1..] == Shown(uids[1..]);
      ShownSurvives(uids[0], pending);
      LessOne(uids[0], UidsOf(uids[1..]), pending);
    }
  }

  /**
   * Over the whole mailbox the adjusted EXISTS never exceeds what SEARCH still lists,
   * and is exact just when the pending UIDs are all present (or cover everything).
   */
  lemma ExistsAgainstSearch(uids: seq<nat>, pending: set<nat>)
    requires Distinct(uids)
    ensures AdjustedExists(|uids|, pending) <= |FilterSearch(Shown(uids), pending)|
    ensures AdjustedExists(|uids|, pending) == |FilterSearch(Shown(uids), pending)| <==>
            pending <= UidsOf(uids) || UidsOf(uids) <= pending
  {
    DistinctSize(uids);
    FilterLength(uids, pending);
    var all := UidsOf(uids);
    assert all == (all - pending) + (all * pending);
    assert |all| == |all - pending| + |all * pending|;
    UidSets.SubsetSize(all * pending, pending);
    UidSets.SubsetSize(all * pending, all);
    assert all * pending == pending <==> pending <= all;
    assert all * pending == all <==> all <= pending;
  }
}
