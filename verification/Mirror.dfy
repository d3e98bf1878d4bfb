// The optimistic mirror of the mailbox (the messages table of state_db.py) and
// its reverts: staging a flag change or a MOVE takes a snapshot and changes the
// mirror; a rejection restores from the snapshot.
module Mirror {
  import opened Wrappers
  import opened Flags
  import Text
  import UidSets

  /** Columns no snapshot keeps: message_id, date_sent and size. */
  datatype Extra = Extra(messageId: Option<string>, dateSent: Option<int>, size: Option<int>)

  const NO_EXTRA := Extra(None, None, None)

  datatype MessageRow = MessageRow(
    seqNum: Option<nat>, flags: seq<string>, sender: Option<string>, subject: Option<string>, extra: Extra)

  /** (folder_id, uid) is UNIQUE in the messages table. */
  type Key = (nat, nat)
  type Table = map<Key, MessageRow>

  // ----- queries -----

  function UidsIn(t: Table, folder: nat): set<nat> {
    set k | k in t && k.0 == folder :: k.1
  }

  /** SELECT uid FROM messages WHERE folder_id = ? ORDER BY uid. */
  function KnownUids(t: Table, folder: nat): (r: seq<nat>)
    ensures forall u :: u in r <==> (folder, u) in t
  {
    var r := UidSets.SortedUids(UidsIn(t, folder));
    assert forall u :: u in UidsIn(t, folder) <==> (folder, u) in t;
    r
  }

  predicate Holds(t: Table, folder: nat, uids: seq<nat>) {
    forall u :: u in uids ==> (folder, u) in t
  }

  /** get_messages_by_uid_set: the mirrored UIDs a set names, or the ValueError of a malformed one. */
  function MatchingUids(t: Table, folder: nat, uidSet: string): (r: Result<seq<nat>, string>)
    ensures r.Ok? ==> Holds(t, folder, r.value) && UidSets.Ascending(r.value)
  {
    UidSets.Expand(uidSet, KnownUids(t, folder))
  }

  // ----- snapshots -----

  datatype SnapState = SnapState(
    flags: seq<string>, seqNum: Option<nat>, folder: nat, sender: Option<string>, subject: Option<string>)

  /** The JSON object of the snapshot column: keys are text, in insertion order. */
  type Snapshot = seq<(string, SnapState)>

  function StateOf(t: Table, folder: nat, uid: nat): SnapState
    requires (folder, uid) in t
  {
    var r := t[(folder, uid)];
    SnapState(r.flags, r.seqNum, folder, r.sender, r.subject)
  }

  function SnapshotOf(t: Table, folder: nat, uids: seq<nat>): (s: Snapshot)
    requires Holds(t, folder, uids)
    ensures |s| == |uids|
    ensures forall i :: 0 <= i < |uids| ==> s[i] == (Text.ShowNat(uids[i]), StateOf(t, folder, uids[i]))
  {
    seq(|uids|, i requires 0 <= i < |uids| => (Text.ShowNat(uids[i]), StateOf(t, folder, uids[i])))
  }

  // ----- the optimistic changes -----

  function Merge(flags: seq<string>, add: seq<string>, remove: seq<string>): seq<string> {
    SortedFlags(AsSet(flags) + AsSet(add) - AsSet(remove))
  }

  function ApplyFlags(t: Table, folder: nat, uids: seq<nat>, add: seq<string>, remove: seq<string>): Table {
    map k | k in t ::
      if k.0 == folder && k.1 in uids then t[k].(flags := Merge(t[k].flags, add, remove)) else t[k]
  }

  function RemoveRows(t: Table, folder: nat, uids: seq<nat>): Table {
    map k | k in t && !(k.0 == folder && k.1 in uids) :: t[k]
  }

  // ----- restoring -----

  function RestoreRow(t: Table, uid: nat, st: SnapState): Table {
    var k := (st.folder, uid);
    if k in t then t[k := t[k].(flags := st.flags)]
    else t[k := MessageRow(st.seqNum, st.flags, st.sender, st.subject, NO_EXTRA)]
  }

  predicate KeysParse(s: Snapshot) {
    forall i :: 0 <= i < |s| ==> UidSets.ReadInt(s[i].0).Some?
  }

  function RestoreRows(t: Table, s: Snapshot): Table
    requires KeysParse(s)
  {
    if s == [] then t
    else
      var last := |s| - 1;
      RestoreRow(RestoreRows(t, s[..last]), UidSets.ReadInt(s[last].0).value, s[last].1)
  }

  /** restore_from_snapshot: a key int() refuses leaves the transaction uncommitted. */
  function Restore(t: Table, s: Snapshot): Table {
    if KeysParse(s) then RestoreRows(t, s) else t
  }

  // ----- staging and rejecting one operation -----

  datatype Change = FlagChange(add: seq<string>, remove: seq<string>) | Move

  datatype Op = Op(change: Change, folder: nat, uidSet: string)

  /** The mirror side of staging: the new table and the snapshot stored with the operation. */
  function Stage(t: Table, op: Op): (Table, Option<Snapshot>) {
    match MatchingUids(t, op.folder, op.uidSet)
    case Err(_) => (t, None)
    case Ok(uids) =>
      var s := SnapshotOf(t, op.folder, uids);
      match op.change
      case Move => (RemoveRows(t, op.folder, uids), Some(s))
      case FlagChange(add, remove) =>
        (ApplyFlags(t, op.folder, uids, add, remove),
         Some(if s == [] then [(op.uidSet, SnapState([], None, op.folder, None, None))] else s))
  }

  function Reject(t: Table, s: Option<Snapshot>): Table {
    match s case None => t case Some(snap) => Restore(t, snap)
  }

  /** What the agent can see of a row and what a snapshot keeps of it. */
  function Visible(t: Table): Table {
    map k | k in t :: t[k].(extra := NO_EXTRA)
  }

  /**
   * A flag change naming one UID the mirror does not hold. Its synthesised snapshot
   * makes a rejection insert a row that was never there.
   */
  predicate Phantom(t: Table, op: Op) {
    op.change.FlagChange? && MatchingUids(t, op.folder, op.uidSet) == Ok([]) && UidSets.ReadInt(op.uidSet).Some?
  }

  // ----- restoring what was snapshotted -----

  /** The row a restored key ends with. */
  function RestoredRow(t: Table, k: Key, st: SnapState): MessageRow {
    if k in t then t[k].(flags := st.flags)
    else MessageRow(st.seqNum, st.flags, st.sender, st.subject, NO_EXTRA)
  }

  /** What restoring a snapshot of before does to t, all rows at once. */
  function RestoredTable(t: Table, before: Table, folder: nat, uids: seq<nat>): Table
    requires Holds(before, folder, uids)
  {
    map k | k in t.Keys + (set u | u in uids :: (folder, u)) ::
      if k.0 == folder && k.1 in uids then RestoredRow(t, k, StateOf(before, folder, k.1)) else t[k]
  }

  lemma RestoredTableStep(t: Table, before: Table, folder: nat, uids: seq<nat>, u: nat)
    requires Holds(before, folder, uids + [u]) && u !in uids
    ensures Holds(before, folder, uids)
    ensures RestoreRow(RestoredTable(t, before, folder, uids), u, StateOf(before, folder, u)) ==
            RestoredTable(t, before, folder, uids + [u])
  {
    assert forall v :: v in uids + [u] <==> v in uids || v == u;
    var a := RestoredTable(t, before, folder, uids);
    var b := RestoredTable(t, before, folder, uids + [u]);
    var r := RestoreRow(a, u, StateOf(before, folder, u));
    assert (folder, u) in a <==> (folder, u) in t;
    assert r.Keys == b.Keys;
    forall k | k in b ensures r[k] == b[k] {
    }
  }

  lemma {:induction false} RestoreSnapshotOf(t: Table, before: Table, folder: nat, uids: seq<nat>)
    requires UidSets.Ascending(uids) && Holds(before, folder, uids)
    ensures KeysParse(SnapshotOf(before, folder, uids))
    ensures RestoreRows(t, SnapshotOf(before, folder, uids)) == RestoredTable(t, before, folder, uids)
  {
    hide RestoreRow, RestoredTable, StateOf;
    var s := SnapshotOf(before, folder, uids);
    forall i | 0 <= i < |uids| ensures UidSets.ReadInt(s[i].0) == Some(uids[i]) {
      UidSets.NumText(uids[i]);
    }
    if uids == [] {
      assert RestoredTable(t, before, folder, []) == t by {
        RestoredTableEmpty(t, before, folder);
      }
    } else {
      var n := |uids| - 1;
      var front := uids[..n];
      assert uids == front + [uids[n]];
      assert s[..n] == SnapshotOf(before, folder, front);
      RestoreSnapshotOf(t, before, folder, front);
      RestoredTableStep(t, before, folder, front, uids[n]);
    }
  }

  lemma RestoredTableEmpty(t: Table, before: Table, folder: nat)
    ensures RestoredTable(t, before, folder, []) == t
  {
  }

  lemma RestoreAfterFlags(t: Table, folder: nat, uids: seq<nat>, add: seq<string>, remove: seq<string>)
    requires UidSets.Ascending(uids) && Holds(t, folder, uids)
    ensures Restore(ApplyFlags(t, folder, uids, add, remove), SnapshotOf(t, folder, uids)) == t
  {
    hide RestoreRows, Merge;
    var t' := ApplyFlags(t, folder, uids, add, remove);
    RestoreSnapshotOf(t', t, folder, uids);
    var r := RestoredTable(t', t, folder, uids);
    assert r.Keys == t.Keys;
    forall k | k in t ensures r[k] == t[k] {
      assert k == (k.0, k.1);
    }
  }

  lemma RestoreAfterMove(t: Table, folder: nat, uids: seq<nat>)
    requires UidSets.Ascending(uids) && Holds(t, folder, uids)
    ensures Visible(Restore(RemoveRows(t, folder, uids), SnapshotOf(t, folder, uids))) == Visible(t)
  {
    hide RestoreRows;
    var t' := RemoveRows(t, folder, uids);
    RestoreSnapshotOf(t', t, folder, uids);
    var r := RestoredTable(t', t, folder, uids);
    assert r.Keys == t.Keys;
    forall k | k in t ensures r[k].(extra := NO_EXTRA) == t[k].(extra := NO_EXTRA) {
      assert k == (k.0, k.1);
    }
  }

  /** A UID the whole text of a set spells is matched when the mirror holds it. */
  lemma LoneUidMatches(t: Table, folder: nat, uidSet: string)
    requires UidSets.ReadInt(uidSet).Some? && (folder, UidSets.ReadInt(uidSet).value) in t
    ensures MatchingUids(t, folder, uidSet).Ok? && MatchingUids(t, folder, uidSet) != Ok([])
  {
    UidSets.LoneUid(uidSet, KnownUids(t, folder));
    assert |UidSets.SortedUids({UidSets.ReadInt(uidSet).value})| == 1;
  }

  /** Rejecting an operation at once is an exact inverse unless the operation is a phantom flag change. */
  lemma RejectInvertsStageIff(t: Table, op: Op)
    ensures var (t', s) := Stage(t, op); Visible(Reject(t', s)) == Visible(t) <==> !Phantom(t, op)
  {
    hide MatchingUids, ApplyFlags, RemoveRows, Restore, Visible;
    match MatchingUids(t, op.folder, op.uidSet) {
      case Err(_) =>
      case Ok(uids) =>
        match op.change {
          case Move => RestoreAfterMove(t, op.folder, uids);
          case FlagChange(add, remove) =>
            if uids == [] {
              ApplyFlagsNowhere(t, op.folder, add, remove);
              PhantomRestore(t, op);
            } else {
              RestoreAfterFlags(t, op.folder, uids, add, remove);
            }
        }
    }
  }

  lemma ApplyFlagsNowhere(t: Table, folder: nat, add: seq<string>, remove: seq<string>)
    ensures ApplyFlags(t, folder, [], add, remove) == t
  {
  }

  lemma PhantomRestore(t: Table, op: Op)
    requires MatchingUids(t, op.folder, op.uidSet) == Ok([])
    ensures var s := [(op.uidSet, SnapState([], None, op.folder, None, None))];
            Visible(Restore(t, s)) == Visible(t) <==> UidSets.ReadInt(op.uidSet).None?
  {
    var s := [(op.uidSet, SnapState([], None, op.folder, None, None))];
    if UidSets.ReadInt(op.uidSet).Some? {
      var k := (op.folder, UidSets.ReadInt(op.uidSet).value);
      if k in t {
        LoneUidMatches(t, op.folder, op.uidSet);
      }
      assert s[..0] == [];
      assert k in Restore(t, s);
      assert k in Visible(Restore(t, s)) && k !in Visible(t);
    } else {
      assert s[0].0 == op.uidSet;
      assert !KeysParse(s);
    }
  }

  // ----- stacks -----

  /** Two mirrors that differ at most in unseen columns stay so under any restore. */
  lemma {:induction false} RestoreRowsCongruent(a: Table, b: Table, s: Snapshot)
    requires KeysParse(s) && Visible(a) == Visible(b)
    ensures Visible(RestoreRows(a, s)) == Visible(RestoreRows(b, s))
  {
    if s == [] {
    } else {
      var last := |s| - 1;
      RestoreRowsCongruent(a, b, s[..last]);
      RestoreRowCongruent(RestoreRows(a, s[..last]), RestoreRows(b, s[..last]),
                          UidSets.ReadInt(s[last].0).value, s[last].1);
    }
  }

  lemma RestoreRowCongruent(a: Table, b: Table, uid: nat, st: SnapState)
    requires Visible(a) == Visible(b)
    ensures Visible(RestoreRow(a, uid, st)) == Visible(RestoreRow(b, uid, st))
  {
    assert a.Keys == Visible(a).Keys == Visible(b).Keys == b.Keys;
    assert forall k :: k in a ==> Visible(a)[k] == Visible(b)[k];
  }

  function StageAll(t: Table, ops: seq<Op>): (r: (Table, seq<Option<Snapshot>>))
    ensures |r.1| == |ops|
  {
    if ops == [] then (t, [])
    else
      var (t', s) := Stage(t, ops[0]);
      var (t'', rest) := StageAll(t', ops[1..]);
      (t'', [s] + rest)
  }

  /** Reject the newest first. */
  function RejectLifo(t: Table, stack: seq<Option<Snapshot>>): Table {
    if stack == [] then t else Reject(RejectLifo(t, stack[1..]), stack[0])
  }

  /** No operation of the stack is a phantom when it is staged. */
  predicate NoPhantoms(t: Table, ops: seq<Op>) {
    ops == [] || (!Phantom(t, ops[0]) && NoPhantoms(Stage(t, ops[0]).0, ops[1..]))
  }

  /** Rejecting a whole stack in reverse staging order brings every visible column back. */
  lemma {:induction false} LifoRevertIsInverse(t: Table, ops: seq<Op>)
    requires NoPhantoms(t, ops)
    ensures var (t', stack) := StageAll(t, ops); Visible(RejectLifo(t', stack)) == Visible(t)
  {
    if ops == [] {
    } else {
      var (t1, s) := Stage(t, ops[0]);
      LifoRevertIsInverse(t1, ops[1..]);
      var (t2, rest) := StageAll(t1, ops[1..]);
      assert ([s] + rest)[1..] == rest;
      RejectInvertsStageIff(t, ops[0]);
      if s.Some? && KeysParse(s.value) {
        RestoreRowsCongruent(RejectLifo(t2, rest), t1, s.value);
      }
    }
  }

  // ----- the other order -----

  /** Reject the oldest first, as expiry does. */
  function RejectFifo(t: Table, stack: seq<Option<Snapshot>>): Table
    decreases |stack|
  {
    if stack == [] then t else RejectFifo(Reject(t, stack[0]), stack[1..])
  }

  predicate Matches(t: Table, op: Op, k: Key) {
    var m := MatchingUids(t, op.folder, op.uidSet);
    m.Ok? && k.0 == op.folder && k.1 in m.value
  }

  /** The flags the last operation of the stack to match a row found on it. */
  function LastFlags(t: Table, ops: seq<Op>, k: Key): Option<seq<string>>
    decreases |ops|
  {
    if ops == [] then None
    else
      var later := LastFlags(Stage(t, ops[0]).0, ops[1..], k);
      if later.Some? then later
      else if Matches(t, ops[0], k) && k in t then Some(t[k].flags) else None
  }

  /** Rows of t are rows of the original, up to flags and the columns no snapshot keeps. */
  predicate SameMail(t: Table, original: Table) {
    forall k :: k in t ==> k in original && t[k].(flags := [], extra := NO_EXTRA) == original[k].(flags := [], extra := NO_EXTRA)
  }

  lemma MatchesMeans(t: Table, op: Op)
    requires MatchingUids(t, op.folder, op.uidSet).Ok?
    ensures forall u :: u in MatchingUids(t, op.folder, op.uidSet).value <==> Matches(t, op, (op.folder, u))
    ensures forall k :: Matches(t, op, k) ==> k in t
  {
    hide MatchingUids;
    forall k | Matches(t, op, k) ensures k in t {
      assert k == (k.0, k.1);
    }
  }

  /** What staging leaves of each row. */
  lemma StagedRows(t: Table, op: Op)
    ensures var t' := Stage(t, op).0;
            && (forall k :: k in t' ==> k in t && t'[k].(flags := []) == t[k].(flags := []))
            && (forall k :: k in t && !Matches(t, op, k) ==> k in t' && t'[k] == t[k])
  {
    hide MatchingUids, Merge;
  }

  /** What rejecting a staged operation makes of each row of any later mirror. */
  lemma RejectedRows(t: Table, op: Op, x: Table)
    requires !Phantom(t, op)
    ensures var y := Reject(x, Stage(t, op).1);
            && (forall k :: Matches(t, op, k) ==> k in t && k in y && y[k] == RestoredRow(x, k, StateOf(t, k.0, k.1)))
            && (forall k :: !Matches(t, op, k) ==> (k in y <==> k in x) && (k in x ==> y[k] == x[k]))
  {
    hide MatchingUids, Restore, RestoredRow, StateOf;
    match MatchingUids(t, op.folder, op.uidSet) {
      case Err(_) =>
      case Ok(uids) =>
        if op.change.FlagChange? && uids == [] {
          UnparsedKey(x, op);
        } else {
          RejectedSnapshot(t, op, x, uids);
        }
    }
  }

  lemma UnparsedKey(x: Table, op: Op)
    requires UidSets.ReadInt(op.uidSet).None?
    ensures Restore(x, [(op.uidSet, SnapState([], None, op.folder, None, None))]) == x
  {
    var s := [(op.uidSet, SnapState([], None, op.folder, None, None))];
    assert s[0].0 == op.uidSet;
    assert !KeysParse(s);
  }

  lemma RejectedSnapshot(t: Table, op: Op, x: Table, uids: seq<nat>)
    requires MatchingUids(t, op.folder, op.uidSet) == Ok(uids)
    ensures var y := Restore(x, SnapshotOf(t, op.folder, uids));
            && (forall k :: Matches(t, op, k) ==> k in t && k in y && y[k] == RestoredRow(x, k, StateOf(t, k.0, k.1)))
            && (forall k :: !Matches(t, op, k) ==> (k in y <==> k in x) && (k in x ==> y[k] == x[k]))
  {
    hide MatchingUids, RestoreRows, RestoredRow;
    RestoreSnapshotOf(x, t, op.folder, uids);
    forall k | Matches(t, op, k) ensures k in t && k in RestoredTable(x, t, op.folder, uids) {
      assert k == (op.folder, k.1) && k in set u | u in uids :: (op.folder, u);
    }
  }

  /** Rejecting the stack oldest first, from any later mirror of the same mail. */
  lemma {:induction false} FifoRows(t: Table, ops: seq<Op>, x: Table, original: Table, k: Key)
    requires NoPhantoms(t, ops) && SameMail(t, original) && SameMail(x, original)
    ensures var r := RejectFifo(x, StageAll(t, ops).1);
            && SameMail(r, original)
            && match LastFlags(t, ops, k)
               case Some(flags) => k in r && r[k].flags == flags
               case None => (k in r <==> k in x) && (k in x ==> r[k] == x[k])
    decreases |ops|
  {
    hide Stage, Phantom, Reject, Matches, SameMail, RestoredRow;
    if ops == [] {
    } else {
      var (t1, s) := Stage(t, ops[0]);
      var y := Reject(x, s);
      var rest := StageAll(t1, ops[1..]).1;
      assert ([s] + rest)[1..] == rest;
      StagedRows(t, ops[0]);
      RejectedRows(t, ops[0], x);
      StagedSameMail(t, t1, original);
      RejectedSameMail(t, ops[0], x, y, original);
      FifoRows(t1, ops[1..], y, original, k);
      if Matches(t, ops[0], k) {
        assert y[k].flags == t[k].flags by { RestoredFlags(t, x, k); }
      }
    }
  }

  lemma RestoredFlags(t: Table, x: Table, k: Key)
    requires k in t
    ensures RestoredRow(x, k, StateOf(t, k.0, k.1)).flags == t[k].flags
  {
    assert k == (k.0, k.1);
  }

  lemma StagedSameMail(t: Table, t1: Table, original: Table)
    requires SameMail(t, original) && forall k :: k in t1 ==> k in t && t1[k].(flags := []) == t[k].(flags := [])
    ensures SameMail(t1, original)
  {
    forall k | k in t1 ensures t1[k].(flags := [], extra := NO_EXTRA) == t[k].(flags := [], extra := NO_EXTRA) {
      assert t1[k].(flags := []).(extra := NO_EXTRA) == t[k].(flags := []).(extra := NO_EXTRA);
    }
  }

  lemma RejectedSameMail(t: Table, op: Op, x: Table, y: Table, original: Table)
    requires SameMail(t, original) && SameMail(x, original)
    requires forall k :: Matches(t, op, k) ==> k in t && k in y && y[k] == RestoredRow(x, k, StateOf(t, k.0, k.1))
    requires forall k :: !Matches(t, op, k) ==> (k in y <==> k in x) && (k in x ==> y[k] == x[k])
    ensures SameMail(y, original)
  {
    hide Matches;
    forall k | k in y
      ensures k in original && y[k].(flags := [], extra := NO_EXTRA) == original[k].(flags := [], extra := NO_EXTRA)
    {
      if Matches(t, op, k) {
        assert k == (k.0, k.1);
      }
    }
  }

  /** Rows no operation of the stack matched are left alone by staging. */
  lemma {:induction false} UnmatchedKept(t: Table, ops: seq<Op>, original: Table, k: Key)
    requires SameMail(t, original)
    ensures var t' := StageAll(t, ops).0;
            && SameMail(t', original)
            && (LastFlags(t, ops, k).None? ==> (k in t' <==> k in t) && (k in t ==> t'[k] == t[k]))
            && (LastFlags(t, ops, k).Some? ==> k in t)
    decreases |ops|
  {
    hide Stage, Matches, SameMail;
    if ops == [] {
    } else {
      var t1 := Stage(t, ops[0]).0;
      StagedRows(t, ops[0]);
      StagedSameMail(t, t1, original);
      UnmatchedKept(t1, ops[1..], original, k);
    }
  }

  /**
   * Expiry rejects oldest first. For every stack of flag and move operations over any
   * folders, that brings every visible column back exactly when each row was last matched
   * with the flags it has in the original mirror (or never matched); otherwise a row is left
   * with the flags the last operation to match it found.
   */
  lemma FifoRevertIff(t: Table, ops: seq<Op>)
    requires NoPhantoms(t, ops)
    ensures var (t', stack) := StageAll(t, ops);
            && (Visible(RejectFifo(t', stack)) == Visible(t) <==>
                forall k :: k in t ==> LastFlags(t, ops, k) == None || LastFlags(t, ops, k) == Some(t[k].flags))
            && (forall k :: k in t ==>
                  k in RejectFifo(t', stack) &&
                  (LastFlags(t, ops, k).Some? ==> RejectFifo(t', stack)[k].flags == LastFlags(t, ops, k).value))
  {
    hide StageAll, RejectFifo, LastFlags, NoPhantoms, SameMail;
    var (t', stack) := StageAll(t, ops);
    var r := RejectFifo(t', stack);
    assert SameMail(t, t) by { SameMailSelf(t); }
    forall k ensures (k in r <==> k in t) && (k in t ==> r[k].flags == if LastFlags(t, ops, k).Some? then LastFlags(t, ops, k).value else t[k].flags) {
      UnmatchedKept(t, ops, t, k);
      FifoRows(t, ops, t', t, k);
    }
    UnmatchedKept(t, ops, t, (0, 0));
    FifoRows(t, ops, t', t, (0, 0));
    VisibleIff(r, t);
  }

  lemma SameMailSelf(t: Table)
    ensures SameMail(t, t)
  {
  }

  lemma VisibleIff(r: Table, t: Table)
    requires r.Keys == t.Keys && SameMail(r, t)
    ensures Visible(r) == Visible(t) <==> forall k :: k in t ==> r[k].flags == t[k].flags
  {
    if Visible(r) == Visible(t) {
      forall k | k in t ensures r[k].flags == t[k].flags {
        assert Visible(r)[k] == Visible(t)[k];
      }
    }
    if forall k :: k in t ==> r[k].flags == t[k].flags {
      forall k | k in t ensures Visible(r)[k] == Visible(t)[k] {
        assert r[k].(flags := [], extra := NO_EXTRA) == t[k].(flags := [], extra := NO_EXTRA);
      }
      assert Visible(r).Keys == Visible(t).Keys;
    }
  }

  /**
   * For two flag changes with one UID set, oldest first leaves the first change applied, for
   * the second snapshot already contains it; so it restores the mirror exactly when the first
   * change altered no row.
   */
  lemma FifoRevertKeepsFirstChange(t: Table, folder: nat, uidSet: string, first: Change, second: Change)
    requires first.FlagChange? && second.FlagChange?
    requires MatchingUids(t, folder, uidSet).Ok? && MatchingUids(t, folder, uidSet).value != []
    ensures var (t1, s1) := Stage(t, Op(first, folder, uidSet));
            var (t2, s2) := Stage(t1, Op(second, folder, uidSet));
            && Reject(Reject(t2, s1), s2) == t1
            && (Reject(Reject(t2, s1), s2) == t <==>
                forall u :: u in MatchingUids(t, folder, uidSet).value ==>
                  Merge(t[(folder, u)].flags, first.add, first.remove) == t[(folder, u)].flags)
  {
    hide MatchingUids, ApplyFlags, Restore, Merge;
    var uids := MatchingUids(t, folder, uidSet).value;
    var t1 := ApplyFlags(t, folder, uids, first.add, first.remove);
    ApplyFlagsKeepsKeys(t, folder, uids, first.add, first.remove);
    UnalteredIff(t, folder, uids, first.add, first.remove);
    SameMatches(t, t1, folder, uidSet);
    var t2 := ApplyFlags(t1, folder, uids, second.add, second.remove);
    ApplyFlagsKeepsKeys(t1, folder, uids, second.add, second.remove);
    RestoreBothSnapshots(t, t1, t2, folder, uids);
  }

  lemma UnalteredIff(t: Table, folder: nat, uids: seq<nat>, add: seq<string>, remove: seq<string>)
    requires Holds(t, folder, uids)
    ensures ApplyFlags(t, folder, uids, add, remove) == t <==>
            forall u :: u in uids ==> Merge(t[(folder, u)].flags, add, remove) == t[(folder, u)].flags
  {
    hide Merge;
    var t' := ApplyFlags(t, folder, uids, add, remove);
    if t' == t {
      forall u | u in uids ensures Merge(t[(folder, u)].flags, add, remove) == t[(folder, u)].flags {
        assert t'[(folder, u)].flags == Merge(t[(folder, u)].flags, add, remove);
      }
    } else {
      assert t'.Keys == t.Keys;
      if forall u :: u in uids ==> Merge(t[(folder, u)].flags, add, remove) == t[(folder, u)].flags {
        forall k | k in t ensures t'[k] == t[k] {
          assert k == (k.0, k.1);
        }
        assert false;
      }
    }
  }

  lemma ApplyFlagsKeepsKeys(t: Table, folder: nat, uids: seq<nat>, add: seq<string>, remove: seq<string>)
    ensures var t' := ApplyFlags(t, folder, uids, add, remove);
            t'.Keys == t.Keys && forall k :: k in t ==> t'[k] == t[k].(flags := t'[k].flags)
    ensures var t' := ApplyFlags(t, folder, uids, add, remove);
            forall k :: k in t && !(k.0 == folder && k.1 in uids) ==> t'[k] == t[k]
  {
    hide Merge;
  }

  lemma RestoreBothSnapshots(t: Table, t1: Table, t2: Table, folder: nat, uids: seq<nat>)
    requires UidSets.Ascending(uids) && Holds(t, folder, uids) && Holds(t1, folder, uids)
    requires t.Keys == t1.Keys == t2.Keys
    requires forall k :: k in t ==> t2[k] == t1[k].(flags := t2[k].flags)
    requires forall k :: k in t && !(k.0 == folder && k.1 in uids) ==> t2[k] == t1[k]
    ensures Restore(Restore(t2, SnapshotOf(t, folder, uids)), SnapshotOf(t1, folder, uids)) == t1
  {
    hide RestoreRows;
    RestoreSnapshotOf(t2, t, folder, uids);
    var t3 := RestoredTable(t2, t, folder, uids);
    RestoreSnapshotOf(t3, t1, folder, uids);
    var t4 := RestoredTable(t3, t1, folder, uids);
    assert t4.Keys == t1.Keys;
    forall k | k in t1 ensures t4[k] == t1[k] {
      assert k == (k.0, k.1);
    }
  }

  lemma SameMatches(a: Table, b: Table, folder: nat, uidSet: string)
    requires a.Keys == b.Keys
    ensures MatchingUids(a, folder, uidSet) == MatchingUids(b, folder, uidSet)
  {
    assert UidsIn(a, folder) == UidsIn(b, folder);
  }

  lemma ApplyFlagsStep(t: Table, folder: nat, uids: seq<nat>, u: nat, add: seq<string>, remove: seq<string>)
    requires u !in uids && (folder, u) in t
    ensures var a := ApplyFlags(t, folder, uids, add, remove);
            var k := (folder, u);
            && k in a
            && ApplyFlags(t, folder, uids + [u], add, remove) == a[k := a[k].(flags := Merge(a[k].flags, add, remove))]
  {
    hide Merge;
    assert forall v :: v in uids + [u] <==> v in uids || v == u;
  }

  // ----- the messages table -----

  class MessagesDb {
    var messages: Table

    /** snapshot_messages. */
    method SnapshotMessages(folder: nat, uidSet: string) returns (r: Result<Snapshot, string>)
      ensures r == match MatchingUids(messages, folder, uidSet)
                   case Err(e) => Err(e)
                   case Ok(uids) => Ok(SnapshotOf(messages, folder, uids))
    {
      hide MatchingUids, StateOf;
      var rows := MatchingUids(messages, folder, uidSet);
      if rows.Err? {
        return Err(rows.error);
      }
      var snapshot: Snapshot := [];
      for i := 0 to |rows.value|
        invariant snapshot == SnapshotOf(messages, folder, rows.value[..i])
      {
        var uid := rows.value[i];
        snapshot := snapshot + [(Text.ShowNat(uid), StateOf(messages, folder, uid))];
      }
      assert rows.value[..|rows.value|] == rows.value;
      r := Ok(snapshot);
    }

    /** apply_optimistic_flag_update: one UPDATE per matching row, one commit. */
    method ApplyOptimisticFlagUpdate(folder: nat, uidSet: string, add: seq<string>, remove: seq<string>)
      modifies this
      ensures messages == match old(MatchingUids(messages, folder, uidSet))
                          case Err(_) => old(messages)
                          case Ok(uids) => ApplyFlags(old(messages), folder, uids, add, remove)
    {
      hide MatchingUids, ApplyFlags, Merge;
      var rows := MatchingUids(messages, folder, uidSet);
      if rows.Err? || rows.value == [] {
        ApplyFlagsNowhere(messages, folder, add, remove);
        return;
      }
      var work := messages;
      ApplyFlagsNowhere(messages, folder, add, remove);
      for i := 0 to |rows.value|
        invariant work == ApplyFlags(messages, folder, rows.value[..i], add, remove)
        invariant messages == old(messages)
      {
        var k := (folder, rows.value[i]);
        assert rows.value[i] !in rows.value[..i];
        ApplyFlagsStep(messages, folder, rows.value[..i], rows.value[i], add, remove);
        work := work[k := work[k].(flags := Merge(work[k].flags, add, remove))];
        assert rows.value[..i + 1] == rows.value[..i] + [rows.value[i]];
      }
      assert rows.value[..|rows.value|] == rows.value;
      messages := work;
    }

    /** remove_messages_from_folder. */
    method RemoveMessagesFromFolder(folder: nat, uidSet: string)
      modifies this
      ensures messages == match old(MatchingUids(messages, folder, uidSet))
                          case Err(_) => old(messages)
                          case Ok(uids) => RemoveRows(old(messages), folder, uids)
    {
      hide MatchingUids, RemoveRows;
      var rows := MatchingUids(messages, folder, uidSet);
      if rows.Ok? {
        messages := RemoveRows(messages, folder, rows.value);
      }
    }

    /** restore_from_snapshot: row by row in one transaction. */
    method RestoreFromSnapshot(snapshot: Option<Snapshot>)
      modifies this
      ensures messages == Reject(old(messages), snapshot)
    {
      if snapshot == None {
        return;
      }
      var work := messages;
      var s := snapshot.value;
      for i := 0 to |s|
        invariant KeysParse(s[..i]) && work == RestoreRows(messages, s[..i])
        invariant messages == old(messages)
      {
        var uid := UidSets.ReadInt(s[i].0);
        if uid == None {
          assert !KeysParse(s);
          return;
        }
        assert s[..i + 1][..i] == s[..i];
        var k := (s[i].1.folder, uid.value);
        if k in work {
          work := work[k := work[k].(flags := s[i].1.flags)];
        } else {
          work := work[k := MessageRow(s[i].1.seqNum, s[i].1.flags, s[i].1.sender, s[i].1.subject, NO_EXTRA)];
        }
      }
      assert s[..|s|] == s;
      messages := work;
    }

    /** The pump's snapshot and optimistic update for one write command. */
    method StageOptimistically(op: Op) returns (snapshot: Option<Snapshot>)
      modifies this
      ensures (messages, snapshot) == Stage(old(messages), op)
    {
      var taken := SnapshotMessages(op.folder, op.uidSet);
      if taken.Err? {
        return None;
      }
      var s := taken.value;
      match op.change {
        case FlagChange(add, remove) =>
          if s == [] {
            s := [(op.uidSet, SnapState([], None, op.folder, None, None))];
          }
          ApplyOptimisticFlagUpdate(op.folder, op.uidSet, add, remove);
        case Move =>
          RemoveMessagesFromFolder(op.folder, op.uidSet);
      }
      snapshot := Some(s);
    }
  }
}
