// The hash-chained audit log (gateway/audit.py): insertion, the verification
// walk, and the external chain-head anchor. SHA-256 is a parameter h; what the
// theorems need of it is that it is injective and never yields the genesis
// value. A table is the sequence of rows in id order.
module AuditChain {
  import opened Wrappers
  import Text

  type Hash = string -> string

  const SEP: char := '\U{1f}'

  function Zeros(n: nat): (r: string)
    ensures |r| == n && Text.Lacks(r, SEP)
  {
    if n == 0 then "" else ['0'] + Zeros(n - 1)
  }

  const HASH_LENGTH := 64

  const GENESIS_HASH: string := Zeros(HASH_LENGTH)

  datatype Fields = Fields(
    timestamp: int, operationId: Option<string>, event: string, actor: Option<string>,
    agentId: Option<string>, opType: Option<string>, detail: Option<string>, userId: Option<int>)

  /** The hashed columns of a row. */
  datatype Body = Body(id: int, fields: Fields, prevHash: Option<string>)

  /** entryHash is None on rows written before hash chaining existed. */
  datatype Row = Row(body: Body, entryHash: Option<string>)

  type HashedRow = r: Row | r.entryHash.Some?
    witness Row(Body(0, Fields(0, None, "", None, None, None, None, None), None), Some(""))

  // ----- the hashed payload -----

  function Show(v: Option<string>): string {
    match v case None => "" case Some(s) => s
  }

  function ShowOptInt(v: Option<int>): string {
    match v case None => "" case Some(n) => Text.ShowInt(n)
  }

  function Parts(r: Body): (parts: seq<string>)
    ensures |parts| == 10
  {
    var f := r.fields;
    [Show(r.prevHash), Text.ShowInt(r.id), Text.ShowInt(f.timestamp), Show(f.operationId), f.event,
     Show(f.actor), Show(f.agentId), Show(f.opType), Show(f.detail), ShowOptInt(f.userId)]
  }

  function Payload(r: Body): string {
    Text.Join(Parts(r), SEP)
  }

  predicate SeparatorFree(r: Body) {
    var f := r.fields;
    && Text.Lacks(Show(r.prevHash), SEP) && Text.Lacks(Show(f.operationId), SEP)
    && Text.Lacks(f.event, SEP) && Text.Lacks(Show(f.actor), SEP) && Text.Lacks(Show(f.agentId), SEP)
    && Text.Lacks(Show(f.opType), SEP) && Text.Lacks(Show(f.detail), SEP)
  }

  predicate AllSeparatorFree(rows: seq<Row>) {
    forall i :: 0 <= i < |rows| ==> SeparatorFree(rows[i].body)
  }

  /** The hashed columns with NULL read as "", as the payload renders them. */
  function Canonical(r: Body): Body {
    var f := r.fields;
    Body(r.id,
         Fields(f.timestamp, Some(Show(f.operationId)), f.event, Some(Show(f.actor)), Some(Show(f.agentId)),
                Some(Show(f.opType)), Some(Show(f.detail)), f.userId),
         Some(Show(r.prevHash)))
  }

  predicate SameHashedFields(a: Body, b: Body) {
    Canonical(a) == Canonical(b)
  }

  lemma ShowOptIntInjective(a: Option<int>, b: Option<int>)
    requires ShowOptInt(a) == ShowOptInt(b)
    ensures a == b
  {
    if a.Some? && b.Some? {
      Text.ShowIntInjective(a.value, b.value);
    }
  }

  lemma PartsLackSeparator(r: Body)
    requires SeparatorFree(r)
    ensures Text.AllLack(Parts(r), SEP)
  {
    assert forall n: int :: Text.Lacks(Text.ShowInt(n), SEP);
  }

  lemma PartsSeparatorFreeIff(r: Body)
    ensures Text.AllLack(Parts(r), SEP) <==> SeparatorFree(r)
  {
    if SeparatorFree(r) {
      PartsLackSeparator(r);
    } else {
      var p, f := Parts(r), r.fields;
      assert p[0] == Show(r.prevHash) && p[3] == Show(f.operationId) && p[4] == f.event && p[5] == Show(f.actor);
      assert p[6] == Show(f.agentId) && p[7] == Show(f.opType) && p[8] == Show(f.detail);
    }
  }

  /** A payload of a separator-free row is no other row's: the separators count the columns. */
  lemma OneSideEnough(a: Body, b: Body)
    requires SeparatorFree(a) && Payload(a) == Payload(b)
    ensures SeparatorFree(b)
  {
    hide Parts, SeparatorFree;
    PartsSeparatorFreeIff(a);
    PartsSeparatorFreeIff(b);
    Text.CountJoin(Parts(a), SEP);
    Text.CountJoin(Parts(b), SEP);
  }

  /** The joined payload of a separator-free row determines every hashed column, whatever the other row holds. */
  lemma PayloadInjective(a: Body, b: Body)
    requires SeparatorFree(a)
    ensures Payload(a) == Payload(b) <==> SameHashedFields(a, b)
  {
    if Payload(a) == Payload(b) {
      OneSideEnough(a, b);
      PartsLackSeparator(a);
      PartsLackSeparator(b);
      Text.JoinInjective(Parts(a), Parts(b), SEP);
      PartsDetermine(a, b);
    }
  }

  lemma PartsDetermine(a: Body, b: Body)
    requires Parts(a) == Parts(b)
    ensures SameHashedFields(a, b)
  {
    var p, q := Parts(a), Parts(b);
    assert p[0] == q[0] && p[1] == q[1] && p[2] == q[2] && p[3] == q[3] && p[4] == q[4];
    assert p[5] == q[5] && p[6] == q[6] && p[7] == q[7] && p[8] == q[8] && p[9] == q[9];
    Text.ShowIntInjective(a.id, b.id);
    Text.ShowIntInjective(a.fields.timestamp, b.fields.timestamp);
    ShowOptIntInjective(a.fields.userId, b.fields.userId);
  }

  lemma JoinTwo(x: string, y: string)
    ensures Text.Join([x, y], SEP) == x + [SEP] + y
  {
    assert [x, y][1..] == [y];
  }

  /** The middle of a joined list counts only as text. */
  lemma JoinMiddle(front: seq<string>, mid: seq<string>, other: seq<string>, back: seq<string>)
    requires front != [] && mid != [] && other != [] && back != [] && Text.Join(mid, SEP) == Text.Join(other, SEP)
    ensures Text.Join(front + (mid + back), SEP) == Text.Join(front + (other + back), SEP)
  {
    Text.JoinAppend(front, mid + back, SEP);
    Text.JoinAppend(front, other + back, SEP);
    Text.JoinAppend(mid, back, SEP);
    Text.JoinAppend(other, back, SEP);
  }

  lemma PartsAround(r: Body)
    ensures Parts(r) == Parts(r)[..3] + ([Show(r.fields.operationId), r.fields.event] + Parts(r)[5..])
  {
  }

  /** A separator inside both rows' fields lets two different rows share one payload. */
  lemma SeparatorNeeded()
    ensures exists a: Body, b: Body :: !SameHashedFields(a, b) && Payload(a) == Payload(b)
  {
    var f := Fields(0, Some(['x', SEP, 'y']), "z", None, None, None, None, None);
    var a := Body(1, f, None);
    var b := a.(fields := f.(operationId := Some("x"), event := ['y', SEP, 'z']));
    assert Parts(a)[..3] == Parts(b)[..3] && Parts(a)[5..] == Parts(b)[5..];
    PartsAround(a);
    PartsAround(b);
    JoinTwo(['x', SEP, 'y'], "z");
    JoinTwo("x", ['y', SEP, 'z']);
    assert ['x', SEP, 'y'] + [SEP] + "z" == "x" + [SEP] + ['y', SEP, 'z'];
    hide Parts, Text.Join;
    JoinMiddle(Parts(a)[..3], [['x', SEP, 'y'], "z"], ["x", ['y', SEP, 'z']], Parts(a)[5..]);
    assert !SameHashedFields(a, b) && Payload(a) == Payload(b);
  }

  // ----- the digest of a row -----

  /** How an entry hash is computed from the hashed columns. */
  type Digest = Body -> string

  function EntryDigest(h: Hash): Digest {
    (r: Body) => h(Payload(r))
  }

  /** A row shares the digest of a separator-free one exactly when their hashed columns agree. */
  ghost predicate Binding(d: Digest) {
    forall a, b :: SeparatorFree(a) ==> (d(a) == d(b) <==> SameHashedFields(a, b))
  }

  ghost predicate AvoidsGenesis(d: Digest) {
    forall r: Body :: d(r) != GENESIS_HASH
  }

  /** The digest the gateway uses is binding for every injective hash. */
  lemma InjectiveHashBinds(h: Hash)
    requires forall s, t :: h(s) == h(t) ==> s == t
    requires forall s :: h(s) != GENESIS_HASH
    ensures Binding(EntryDigest(h)) && AvoidsGenesis(EntryDigest(h))
  {
    forall a, b | SeparatorFree(a)
      ensures EntryDigest(h)(a) == EntryDigest(h)(b) <==> SameHashedFields(a, b)
    {
      PayloadInjective(a, b);
    }
    forall r: Body ensures EntryDigest(h)(r) != GENESIS_HASH {
      assert h(Payload(r)) != GENESIS_HASH;
    }
  }

  // ----- the chain a verifier should accept -----

  ghost predicate Linked(rows: seq<HashedRow>, i: nat)
    requires i < |rows|
  {
    i > 0 ==> rows[i].body.prevHash == rows[i - 1].entryHash
  }

  ghost predicate HashOk(d: Digest, r: HashedRow) {
    d(r.body) == r.entryHash.value
  }

  /** Every link and every recomputed hash holds; the first prev_hash is taken as given. */
  ghost predicate Intact(d: Digest, rows: seq<HashedRow>) {
    forall i :: 0 <= i < |rows| ==> Linked(rows, i) && HashOk(d, rows[i])
  }

  /** The first hashed row links to the genesis value. */
  ghost predicate Rooted(rows: seq<HashedRow>) {
    rows != [] ==> rows[0].body.prevHash == Some(GENESIS_HASH)
  }

  ghost predicate IdsAscend(rows: seq<Row>) {
    forall i, j :: 0 <= i < j < |rows| ==> rows[i].body.id < rows[j].body.id
  }

  // ----- the verification walk -----

  datatype ChainError =
    | PrevMismatch(id: int, expected: Option<string>, got: Option<string>)
    | HashMismatch(id: int, stored: string, computed: string)

  /** WHERE entry_hash IS NOT NULL ORDER BY id ASC. */
  function HashedRows(table: seq<Row>): (rows: seq<HashedRow>) {
    if table == [] then []
    else HashedRows(table[..|table| - 1]) +
         (var r := table[|table| - 1]; if r.entryHash.Some? then [r] else [])
  }

  /** What the walk says of row i; a broken link hides the row's own hash. */
  function RowError(d: Digest, rows: seq<HashedRow>, i: nat): Option<ChainError>
    requires i < |rows|
  {
    if i > 0 && rows[i].body.prevHash != rows[i - 1].entryHash then
      Some(PrevMismatch(rows[i].body.id, rows[i - 1].entryHash, rows[i].body.prevHash))
    else if d(rows[i].body) != rows[i].entryHash.value then
      Some(HashMismatch(rows[i].body.id, rows[i].entryHash.value, d(rows[i].body)))
    else None
  }

  /** The errors of the first n rows, in order. */
  function Report(d: Digest, rows: seq<HashedRow>, n: nat): seq<ChainError>
    requires n <= |rows|
  {
    if n == 0 then []
    else Report(d, rows, n - 1) +
         (match RowError(d, rows, n - 1) case None => [] case Some(e) => [e])
  }

  function FullReport(d: Digest, rows: seq<HashedRow>): seq<ChainError> {
    Report(d, rows, |rows|)
  }

  method VerifyAuditChain(d: Digest, table: seq<Row>) returns (ok: bool, errors: seq<ChainError>)
    ensures errors == FullReport(d, HashedRows(table))
    ensures ok <==> Intact(d, HashedRows(table))
  {
    var rows := HashedRows(table);
    ReportEmptyIff(d, rows, |rows|);
    errors := [];
    if rows == [] {
      return true, [];
    }
    var expectedPrev := rows[0].body.prevHash;
    for i := 0 to |rows|
      invariant errors == Report(d, rows, i)
      invariant expectedPrev == if i == 0 then rows[0].body.prevHash else rows[i - 1].entryHash
    {
      var row := rows[i];
      if row.body.prevHash != expectedPrev {
        errors := errors + [PrevMismatch(row.body.id, expectedPrev, row.body.prevHash)];
        expectedPrev := row.entryHash;
        continue;
      }
      var computed := d(row.body);
      if Some(computed) != row.entryHash {
        errors := errors + [HashMismatch(row.body.id, row.entryHash.value, computed)];
      }
      expectedPrev := row.entryHash;
    }
    ok := errors == [];
  }

  lemma RowErrorNoneIff(d: Digest, rows: seq<HashedRow>, i: nat)
    requires i < |rows|
    ensures RowError(d, rows, i) == None <==> Linked(rows, i) && HashOk(d, rows[i])
  {
  }

  lemma {:induction false} ReportEmptyIff(d: Digest, rows: seq<HashedRow>, n: nat)
    requires n <= |rows|
    ensures Report(d, rows, n) == [] <==> forall i :: 0 <= i < n ==> Linked(rows, i) && HashOk(d, rows[i])
  {
    if n == 0 {
    } else {
      ReportEmptyIff(d, rows, n - 1);
      RowErrorNoneIff(d, rows, n - 1);
    }
  }

  /** Rows whose own check passes add nothing to the report. */
  lemma {:induction false} ReportSkipsGood(d: Digest, rows: seq<HashedRow>, a: nat, b: nat)
    requires a <= b <= |rows|
    requires forall k :: a <= k < b ==> RowError(d, rows, k) == None
    ensures Report(d, rows, b) == Report(d, rows, a)
  {
    if a < b {
      ReportSkipsGood(d, rows, a, b - 1);
    }
  }

  /** A single bad row gives a report of that row alone. */
  lemma ReportWithOneError(d: Digest, rows: seq<HashedRow>, i: nat)
    requires i < |rows| && RowError(d, rows, i).Some?
    requires forall k :: 0 <= k < |rows| && k != i ==> RowError(d, rows, k) == None
    ensures FullReport(d, rows) == [RowError(d, rows, i).value]
  {
    ReportSkipsGood(d, rows, 0, i);
    ReportSkipsGood(d, rows, i + 1, |rows|);
  }

  // ----- tampering with a verified chain -----

  /** A row whose stored hash was computed for other field values is reported wherever it sits. */
  lemma AlteredRowReported(d: Digest, rows: seq<HashedRow>, i: nat, original: HashedRow)
    requires Binding(d) && i < |rows|
    requires HashOk(d, original) && rows[i].entryHash == original.entryHash
    requires SeparatorFree(original.body)
    requires !SameHashedFields(rows[i].body, original.body)
    ensures FullReport(d, rows) != []
  {
    ReportEmptyIff(d, rows, |rows|);
    assert !HashOk(d, rows[i]);
  }

  /** Rewriting one row in place goes unseen exactly when no hashed column changed. */
  lemma AlterationSeenIff(d: Digest, rows: seq<HashedRow>, i: nat, forged: HashedRow)
    requires Binding(d) && Intact(d, rows) && i < |rows|
    requires forged.entryHash == rows[i].entryHash
    requires SeparatorFree(rows[i].body)
    ensures FullReport(d, rows[i := forged]) == [] <==>
            SameHashedFields(forged.body, rows[i].body) && (i > 0 ==> forged.body.prevHash == rows[i].body.prevHash)
  {
    var t := rows[i := forged];
    ReportEmptyIff(d, t, |t|);
    assert HashOk(d, rows[i]) && Linked(rows, i);
    assert HashOk(d, forged) <==> SameHashedFields(forged.body, rows[i].body);
    if SameHashedFields(forged.body, rows[i].body) && (i > 0 ==> forged.body.prevHash == rows[i].body.prevHash) {
      forall k | 0 <= k < |t| ensures Linked(t, k) && HashOk(d, t[k]) {
        assert Linked(rows, k) && HashOk(d, rows[k]);
      }
    }
    if FullReport(d, t) == [] {
      assert Linked(t, i) && HashOk(d, t[i]);
    }
  }

  lemma EntryHashesDistinct(d: Digest, rows: seq<HashedRow>, i: nat, j: nat)
    requires Binding(d) && Intact(d, rows) && IdsAscend(rows) && AllSeparatorFree(rows)
    requires i < j < |rows|
    ensures rows[i].entryHash != rows[j].entryHash
  {
    assert HashOk(d, rows[i]) && HashOk(d, rows[j]);
    assert !SameHashedFields(rows[i].body, rows[j].body);
  }

  /** The rows left when those from i up to j are deleted. */
  function Without(rows: seq<HashedRow>, i: nat, j: nat): (t: seq<HashedRow>)
    requires i <= j <= |rows|
    ensures |t| == |rows| - (j - i)
    ensures forall k :: 0 <= k < i ==> t[k] == rows[k]
    ensures forall k :: i <= k < |t| ==> t[k] == rows[k - i + j]
  {
    rows[..i] + rows[j..]
  }

  /** Away from a cut, a row fares as it did before the deletion. */
  lemma RowErrorShift(d: Digest, rows: seq<HashedRow>, t: seq<HashedRow>, k: nat, at: nat)
    requires Intact(d, rows) && k < |t| && at < |rows| && t[k] == rows[at]
    requires k > 0 ==> at > 0 && t[k - 1] == rows[at - 1]
    ensures RowError(d, t, k) == None
  {
    assert Linked(rows, at) && HashOk(d, rows[at]);
  }

  /** The row after an interior gap links to a hash that is no longer above it. */
  lemma RowErrorAtGap(d: Digest, rows: seq<HashedRow>, i: nat, j: nat)
    requires Binding(d) && Intact(d, rows) && IdsAscend(rows) && AllSeparatorFree(rows)
    requires 0 < i < j < |rows|
    ensures RowError(d, Without(rows, i, j), i) ==
            Some(PrevMismatch(rows[j].body.id, rows[i - 1].entryHash, rows[j].body.prevHash))
  {
    hide Binding, AllSeparatorFree, IdsAscend, HashOk, Without;
    EntryHashesDistinct(d, rows, i - 1, j - 1);
    assert Linked(rows, j);
  }

  /** Deleting a contiguous interior block yields exactly one error, at the row after the gap. */
  lemma InteriorDeletionReportsOne(d: Digest, rows: seq<HashedRow>, i: nat, j: nat)
    requires Binding(d) && Intact(d, rows) && IdsAscend(rows) && AllSeparatorFree(rows)
    requires 0 < i < j < |rows|
    ensures FullReport(d, Without(rows, i, j)) ==
            [PrevMismatch(rows[j].body.id, rows[i - 1].entryHash, rows[j].body.prevHash)]
  {
    hide Binding, Intact, AllSeparatorFree, IdsAscend, RowError, Without;
    var t := Without(rows, i, j);
    RowErrorAtGap(d, rows, i, j);
    forall k | 0 <= k < |t| && k != i ensures RowError(d, t, k) == None {
      RowErrorShift(d, rows, t, k, if k < i then k else k - i + j);
    }
    ReportWithOneError(d, t, i);
  }

  /** The walk alone misses a deleted block exactly when it is a prefix or a suffix. */
  lemma DeletionUnseenIff(d: Digest, rows: seq<HashedRow>, i: nat, j: nat)
    requires Binding(d) && Intact(d, rows) && IdsAscend(rows) && AllSeparatorFree(rows)
    requires i < j <= |rows|
    ensures FullReport(d, Without(rows, i, j)) == [] <==> i == 0 || j == |rows|
  {
    hide Binding, Intact, AllSeparatorFree, IdsAscend, RowError, Without;
    var t := Without(rows, i, j);
    if i == 0 || j == |rows| {
      forall k | 0 <= k < |t| ensures RowError(d, t, k) == None {
        RowErrorShift(d, rows, t, k, if i == 0 then k + j else k);
      }
      ReportSkipsGood(d, t, 0, |t|);
    } else {
      InteriorDeletionReportsOne(d, rows, i, j);
    }
  }

  // ----- the anchor -----

  datatype SinkLine = Blank | Malformed | NoHead | Anchor(head: string, rowCount: nat)

  /** The chain head recorded by the last well-formed anchor line. */
  function LastAnchor(sink: seq<SinkLine>): Option<string> {
    if sink == [] then None
    else match sink[|sink| - 1]
      case Anchor(head, _) => Some(head)
      case _ => LastAnchor(sink[..|sink| - 1])
  }

  method ReadLastAnchor(sink: seq<SinkLine>) returns (last: Option<string>)
    ensures last == LastAnchor(sink)
  {
    last := None;
    for i := 0 to |sink|
      invariant last == LastAnchor(sink[..i])
    {
      assert sink[..i + 1][..i] == sink[..i];
      match sink[i] {
        case Blank => continue;
        case Malformed => continue;
        case NoHead =>
        case Anchor(head, _) => last := Some(head);
      }
    }
    assert sink[..|sink|] == sink;
  }

  /** Some row, at any place, still carries this entry hash. */
  predicate ContainsHead(table: seq<Row>, head: string) {
    exists i :: 0 <= i < |table| && table[i].entryHash == Some(head)
  }

  predicate AnchorOk(table: seq<Row>, sink: seq<SinkLine>) {
    match LastAnchor(sink) case None => true case Some(head) => ContainsHead(table, head)
  }

  /** a and b agree on every hashed column and on the entry hash. */
  ghost predicate SameRows(a: seq<HashedRow>, b: seq<HashedRow>) {
    && |a| == |b|
    && forall i :: 0 <= i < |a| ==> SameHashedFields(a[i].body, b[i].body) && a[i].entryHash == b[i].entryHash
  }

  ghost predicate IsSuffix(a: seq<HashedRow>, b: seq<HashedRow>) {
    |a| <= |b| && SameRows(a, b[|b| - |a|..])
  }

  /** One entry hash, recomputed twice, has one payload behind it. */
  lemma SameHashSameRow(d: Digest, a: HashedRow, b: HashedRow)
    requires Binding(d) && HashOk(d, a) && HashOk(d, b) && a.entryHash == b.entryHash
    requires SeparatorFree(a.body) || SeparatorFree(b.body)
    ensures SameHashedFields(a.body, b.body) && Show(a.body.prevHash) == Show(b.body.prevHash)
  {
  }

  /** Two rows that agree link to the same hash. */
  lemma AgreedStep(d: Digest, a: seq<HashedRow>, b: seq<HashedRow>, i: nat, j: nat)
    requires Intact(d, a) && Intact(d, b) && 0 < i < |a| && 0 < j < |b| && Show(a[i].body.prevHash) == Show(b[j].body.prevHash)
    ensures a[i - 1].entryHash == b[j - 1].entryHash
  {
    assert Linked(a, i) && Linked(b, j);
  }

  lemma RowIntact(d: Digest, rows: seq<HashedRow>, i: nat)
    requires Intact(d, rows) && i < |rows|
    ensures HashOk(d, rows[i])
  {
  }

  lemma OneSideFree(a: seq<HashedRow>, b: seq<HashedRow>, i: nat, j: nat)
    requires (AllSeparatorFree(a) || AllSeparatorFree(b)) && i < |a| && j < |b|
    ensures SeparatorFree(a[i].body) || SeparatorFree(b[j].body)
  {
    hide SeparatorFree;
  }

  /** Two intact chains with one head agree backwards for as long as both have rows. */
  lemma {:induction false} HeadsAgreeBackwards(d: Digest, a: seq<HashedRow>, b: seq<HashedRow>, n: nat)
    requires Binding(d) && Intact(d, a) && Intact(d, b)
    requires AllSeparatorFree(a) || AllSeparatorFree(b)
    requires 0 < n <= |a| && n <= |b|
    requires a[|a| - 1].entryHash == b[|b| - 1].entryHash
    ensures forall i :: |a| - n <= i < |a| ==>
      SameHashedFields(a[i].body, b[i + |b| - |a|].body) && a[i].entryHash == b[i + |b| - |a|].entryHash
  {
    hide Binding, Intact, AllSeparatorFree, SeparatorFree, SameHashedFields, HashOk;
    var i, j := |a| - n, |b| - n;
    if n == 1 {
    } else {
      HeadsAgreeBackwards(d, a, b, n - 1);
      assert j + 1 == (i + 1) + |b| - |a|;
      SameLink(a[i + 1].body, b[j + 1].body);
      AgreedStep(d, a, b, i + 1, j + 1);
    }
    RowIntact(d, a, i);
    RowIntact(d, b, j);
    OneSideFree(a, b, i, j);
    SameHashSameRow(d, a[i], b[j]);
  }

  lemma SameLink(a: Body, b: Body)
    requires SameHashedFields(a, b)
    ensures Show(a.prevHash) == Show(b.prevHash)
  {
  }

  /** No row above another links to the genesis value. */
  lemma InnerRowsAvoidGenesis(d: Digest, a: seq<HashedRow>, i: nat)
    requires AvoidsGenesis(d) && Intact(d, a) && 0 < i < |a|
    ensures Show(a[i].body.prevHash) != GENESIS_HASH
  {
    assert Linked(a, i) && HashOk(d, a[i - 1]);
  }

  /** An intact chain cannot continue below a row that links to the genesis value. */
  lemma RowsBelowGenesis(d: Digest, a: seq<HashedRow>, b: seq<HashedRow>)
    requires Binding(d) && AvoidsGenesis(d) && Intact(d, a) && Intact(d, b)
    requires AllSeparatorFree(a) || AllSeparatorFree(b)
    requires a != [] && b != [] && Rooted(b)
    requires a[|a| - 1].entryHash == b[|b| - 1].entryHash
    ensures |a| <= |b|
  {
    if |a| > |b| {
      var i := |a| - |b|;
      InnerRowsAvoidGenesis(d, a, i);
      HeadsAgreeBackwards(d, a, b, |b|);
    }
  }

  lemma PrefixIntact(d: Digest, rows: seq<HashedRow>, n: nat)
    requires Intact(d, rows) && n <= |rows|
    ensures Intact(d, rows[..n])
  {
    forall i | 0 <= i < n ensures Linked(rows[..n], i) && HashOk(d, rows[..n][i]) {
      assert Linked(rows, i) && HashOk(d, rows[i]);
    }
  }

  /** What a passing walk and a present head say of the live rows up to that head. */
  lemma AnchorTheorem(d: Digest, anchored: seq<HashedRow>, live: seq<HashedRow>, at: nat)
    requires Binding(d) && AvoidsGenesis(d)
    requires Intact(d, anchored) && Rooted(anchored) && AllSeparatorFree(anchored) && anchored != []
    requires Intact(d, live)
    requires at < |live| && live[at].entryHash == anchored[|anchored| - 1].entryHash
    ensures IsSuffix(live[..at + 1], anchored)
    ensures Rooted(live) ==> SameRows(live[..at + 1], anchored)
  {
    hide Binding, SeparatorFree, SameHashedFields, Zeros, Intact, AvoidsGenesis;
    var a := live[..at + 1];
    PrefixIntact(d, live, at + 1);
    RowsBelowGenesis(d, a, anchored);
    HeadsAgreeBackwards(d, a, anchored, |a|);
    var tail := anchored[|anchored| - |a|..];
    forall i | 0 <= i < |a|
      ensures SameHashedFields(a[i].body, tail[i].body) && a[i].entryHash == tail[i].entryHash
    {
      assert tail[i] == anchored[i + |anchored| - |a|];
    }
    if Rooted(live) {
      RowsBelowGenesis(d, anchored, a);
      assert tail == anchored;
    }
  }

  /** Dropping the tail of an anchored chain is always noticed. */
  lemma TruncationNoticed(d: Digest, rows: seq<HashedRow>, keep: nat, sink: seq<SinkLine>)
    requires Binding(d) && Intact(d, rows) && IdsAscend(rows) && AllSeparatorFree(rows)
    requires keep < |rows|
    requires LastAnchor(sink) == Some(rows[|rows| - 1].entryHash.value)
    ensures !AnchorOk(rows[..keep], sink)
  {
    hide Binding, Intact, AllSeparatorFree, IdsAscend, LastAnchor;
    forall i | 0 <= i < keep ensures rows[..keep][i].entryHash != rows[|rows| - 1].entryHash {
      EntryHashesDistinct(d, rows, i, |rows| - 1);
    }
  }

  // ----- the log as the gateway writes it -----

  /** SELECT entry_hash ... WHERE entry_hash IS NOT NULL ORDER BY id DESC LIMIT 1. */
  function ChainHead(table: seq<Row>): Option<string> {
    if table == [] then None
    else if table[|table| - 1].entryHash.Some? then table[|table| - 1].entryHash
    else ChainHead(table[..|table| - 1])
  }

  lemma {:induction false} ChainHeadIsLast(table: seq<Row>)
    ensures var rows := HashedRows(table);
            ChainHead(table) == if rows == [] then None else rows[|rows| - 1].entryHash
  {
    if table == [] {
    } else {
      ChainHeadIsLast(table[..|table| - 1]);
    }
  }

  /** The row an insertion adds. */
  function NextRow(d: Digest, table: seq<Row>, id: int, fields: Fields): (r: HashedRow) {
    var prev := match ChainHead(table) case None => GENESIS_HASH case Some(head) => head;
    var body := Body(id, fields, Some(prev));
    Row(body, Some(d(body)))
  }

  datatype Log = Log(rows: seq<Row>, nextId: int, sink: seq<SinkLine>)

  datatype Event = Insert(fields: Fields) | Verification | TornWrite

  /** One committed change: an audit insertion, a pass of the verification loop, or a torn sink write. */
  ghost function Step(d: Digest, log: Log, e: Event): Log {
    match e
    case Insert(fields) =>
      log.(rows := log.rows + [NextRow(d, log.rows, log.nextId, fields)], nextId := log.nextId + 1)
    case Verification =>
      if Intact(d, HashedRows(log.rows)) && AnchorOk(log.rows, log.sink) && ChainHead(log.rows).Some?
      then log.(sink := log.sink + [Anchor(ChainHead(log.rows).value, |HashedRows(log.rows)|)])
      else log
    case TornWrite => log.(sink := log.sink + [Malformed])
  }

  ghost function RunLog(d: Digest, log: Log, events: seq<Event>): Log
    decreases |events|
  {
    if events == [] then log else RunLog(d, Step(d, log, events[0]), events[1..])
  }

  const EMPTY_LOG := Log([], 1, [])

  /** No false alarm: what honest writers leave behind passes both checks. */
  ghost predicate Honest(d: Digest, log: Log) {
    && Intact(d, HashedRows(log.rows)) && Rooted(HashedRows(log.rows))
    && IdsAscend(log.rows) && (forall i :: 0 <= i < |log.rows| ==> log.rows[i].body.id < log.nextId)
    && AnchorOk(log.rows, log.sink)
  }

  lemma HashedRowsAppend(table: seq<Row>, r: HashedRow)
    ensures HashedRows(table + [r]) == HashedRows(table) + [r]
  {
    assert (table + [r])[..|table|] == table;
  }

  lemma InsertKeepsHonest(d: Digest, log: Log, fields: Fields)
    requires Honest(d, log)
    ensures Honest(d, Step(d, log, Insert(fields)))
  {
    hide Zeros, Payload, Show, SeparatorFree;
    var r := NextRow(d, log.rows, log.nextId, fields);
    var before := HashedRows(log.rows);
    HashedRowsAppend(log.rows, r);
    ChainHeadIsLast(log.rows);
    var after := before + [r];
    hide HashedRows, ChainHead;
    forall i | 0 <= i < |after| ensures Linked(after, i) && HashOk(d, after[i]) {
      assert i < |before| ==> Linked(before, i) && HashOk(d, before[i]);
    }
    if LastAnchor(log.sink).Some? {
      var i :| 0 <= i < |log.rows| && log.rows[i].entryHash == LastAnchor(log.sink);
      assert (log.rows + [r])[i] == log.rows[i];
    }
  }

  lemma {:induction false} HeadIsContained(table: seq<Row>)
    requires ChainHead(table).Some?
    ensures ContainsHead(table, ChainHead(table).value)
  {
    var last := |table| - 1;
    if table[last].entryHash == None {
      HeadIsContained(table[..last]);
      var i :| 0 <= i < last && table[..last][i].entryHash == ChainHead(table);
      assert table[i].entryHash == ChainHead(table);
    }
  }

  lemma {:induction false} HonestRunPasses(d: Digest, log: Log, events: seq<Event>)
    requires Honest(d, log)
    ensures Honest(d, RunLog(d, log, events))
    decreases |events|
  {
    hide Zeros;
    if events == [] {
    } else {
      match events[0] {
        case Insert(fields) => InsertKeepsHonest(d, log, fields);
        case Verification =>
          if ChainHead(log.rows).Some? {
            HeadIsContained(log.rows);
            var a := Anchor(ChainHead(log.rows).value, |HashedRows(log.rows)|);
            assert (log.sink + [a])[..|log.sink|] == log.sink;
          }
        case TornWrite => assert (log.sink + [Malformed])[..|log.sink|] == log.sink;
      }
      HonestRunPasses(d, Step(d, log, events[0]), events[1..]);
    }
  }

  lemma {:induction false} HeadAmongHashed(table: seq<Row>, head: string) returns (at: nat)
    requires ContainsHead(table, head)
    ensures at < |HashedRows(table)| && HashedRows(table)[at].entryHash == Some(head)
  {
    var last := |table| - 1;
    if table[last].entryHash == Some(head) {
      at := |HashedRows(table)| - 1;
    } else {
      var i :| 0 <= i < |table| && table[i].entryHash == Some(head);
      assert table[..last][i] == table[i];
      at := HeadAmongHashed(table[..last], head);
    }
  }

  /**
   * Whatever the table was turned into: when the walk and the anchor both pass, the
   * live rows up to the anchored head are a suffix of what the gateway wrote.
   */
  lemma TamperEvidence(d: Digest, events: seq<Event>, live: seq<Row>, head: string)
    returns (written: nat, kept: nat)
    requires Binding(d) && AvoidsGenesis(d)
    requires var log := RunLog(d, EMPTY_LOG, events);
             LastAnchor(log.sink) == Some(head) && AllSeparatorFree(HashedRows(log.rows)) && AnchorOk(live, log.sink)
    requires Intact(d, HashedRows(live))
    ensures var honest := HashedRows(RunLog(d, EMPTY_LOG, events).rows);
            && 0 < written <= |honest| && honest[written - 1].entryHash == Some(head)
            && 0 < kept <= |HashedRows(live)| && HashedRows(live)[kept - 1].entryHash == Some(head)
            && IsSuffix(HashedRows(live)[..kept], honest[..written])
            && (Rooted(HashedRows(live)) ==> SameRows(HashedRows(live)[..kept], honest[..written]))
  {
    hide Binding, SeparatorFree, SameRows, HashedRows, RunLog, LastAnchor;
    var log := RunLog(d, EMPTY_LOG, events);
    var honest, now := HashedRows(log.rows), HashedRows(live);
    assert Honest(d, log) by {
      EmptyIsHonest(d);
      HonestRunPasses(d, EMPTY_LOG, events);
    }
    var w := HeadAmongHashed(log.rows, head);
    var k := HeadAmongHashed(live, head);
    written, kept := w + 1, k + 1;
    forall i | 0 <= i < written ensures Linked(honest[..written], i) && HashOk(d, honest[..written][i]) {
      assert Linked(honest, i) && HashOk(d, honest[i]);
    }
    AnchorTheorem(d, honest[..written], now, k);
  }

  // ----- without trust in the fields of the live table -----

  /** An injective hash whose values hold no separator. */
  ghost predicate Seals(d: Digest) {
    && (forall a, b :: d(a) == d(b) ==> Payload(a) == Payload(b))
    && (forall r: Body :: Text.Lacks(d(r), SEP))
  }

  lemma InjectiveHashSeals(h: Hash)
    requires forall s, t :: h(s) == h(t) ==> s == t
    requires forall s :: Text.Lacks(h(s), SEP)
    ensures Seals(EntryDigest(h))
  {
    hide Payload;
    forall a, b | EntryDigest(h)(a) == EntryDigest(h)(b) ensures Payload(a) == Payload(b) {
      assert h(Payload(a)) == h(Payload(b));
    }
    forall r: Body ensures Text.Lacks(EntryDigest(h)(r), SEP) {
      assert Text.Lacks(h(Payload(r)), SEP);
    }
  }

  /** A payload starts with the link, up to the first separator. */
  lemma LinkFromPayload(a: Body, b: Body)
    requires Payload(a) == Payload(b) && Text.Lacks(Show(a.prevHash), SEP) && Text.Lacks(Show(b.prevHash), SEP)
    ensures Show(a.prevHash) == Show(b.prevHash)
  {
    hide Text.Join;
    StartsWithLink(a);
    StartsWithLink(b);
  }

  lemma StartsWithLink(a: Body)
    requires Text.Lacks(Show(a.prevHash), SEP)
    ensures Text.IndexOf(Payload(a), SEP) == |Show(a.prevHash)| < |Payload(a)|
    ensures Payload(a)[..|Show(a.prevHash)|] == Show(a.prevHash)
  {
    var link, rest := Show(a.prevHash), Text.Join(Parts(a)[1..], SEP);
    assert Payload(a) == link + [SEP] + rest by { JoinFirst(Parts(a)); }
    Text.IndexOfAt(link, SEP, rest);
  }

  lemma JoinFirst(parts: seq<string>)
    requires |parts| > 1
    ensures Text.Join(parts, SEP) == parts[0] + [SEP] + Text.Join(parts[1..], SEP)
  {
  }

  /** a and b agree in what was hashed and in the entry hash. */
  ghost predicate SamePayloads(a: seq<HashedRow>, b: seq<HashedRow>) {
    && |a| == |b|
    && forall i :: 0 <= i < |a| ==> Payload(a[i].body) == Payload(b[i].body) && a[i].entryHash == b[i].entryHash
  }

  lemma SealedRow(d: Digest, a: HashedRow, b: HashedRow)
    requires Seals(d) && HashOk(d, a) && HashOk(d, b) && a.entryHash == b.entryHash
    ensures Payload(a.body) == Payload(b.body)
  {
    hide Payload;
  }

  /** A link inside an intact chain is a hash. */
  lemma LinkIsHash(d: Digest, a: seq<HashedRow>, i: nat)
    requires Seals(d) && Intact(d, a) && 0 < i < |a|
    ensures Text.Lacks(Show(a[i].body.prevHash), SEP) && Show(a[i].body.prevHash) == d(a[i - 1].body)
  {
    hide Payload;
    assert Linked(a, i) && HashOk(d, a[i - 1]);
  }

  /** Two links with one payload link to the same hash. */
  lemma SealedStep(d: Digest, a: seq<HashedRow>, b: seq<HashedRow>, i: nat, j: nat)
    requires Seals(d) && Intact(d, a) && Intact(d, b) && 0 < i < |a| && 0 < j < |b|
    requires Payload(a[i].body) == Payload(b[j].body)
    ensures a[i - 1].entryHash == b[j - 1].entryHash
  {
    hide Payload, Seals;
    LinkIsHash(d, a, i);
    LinkIsHash(d, b, j);
    LinkFromPayload(a[i].body, b[j].body);
    assert Linked(a, i) && Linked(b, j);
  }

  lemma {:induction false} PayloadsAgreeBackwards(d: Digest, a: seq<HashedRow>, b: seq<HashedRow>, n: nat)
    requires Seals(d) && Intact(d, a) && Intact(d, b) && 0 < n <= |a| && n <= |b|
    requires a[|a| - 1].entryHash == b[|b| - 1].entryHash
    ensures forall i :: |a| - n <= i < |a| ==>
      Payload(a[i].body) == Payload(b[i + |b| - |a|].body) && a[i].entryHash == b[i + |b| - |a|].entryHash
  {
    hide Payload, Seals, Intact, HashOk;
    var i, j := |a| - n, |b| - n;
    if n == 1 {
    } else {
      PayloadsAgreeBackwards(d, a, b, n - 1);
      assert j + 1 == (i + 1) + |b| - |a|;
      SealedStep(d, a, b, i + 1, j + 1);
    }
    RowIntact(d, a, i);
    RowIntact(d, b, j);
    SealedRow(d, a[i], b[j]);
  }

  /** An intact chain cannot continue below a row that links to the genesis value. */
  lemma SealedBelowGenesis(d: Digest, a: seq<HashedRow>, b: seq<HashedRow>)
    requires Seals(d) && AvoidsGenesis(d) && Intact(d, a) && Intact(d, b) && a != [] && b != [] && Rooted(b)
    requires a[|a| - 1].entryHash == b[|b| - 1].entryHash
    ensures |a| <= |b|
  {
    hide Payload, Seals;
    if |a| > |b| {
      var i := |a| - |b|;
      LinkIsHash(d, a, i);
      InnerRowsAvoidGenesis(d, a, i);
      PayloadsAgreeBackwards(d, a, b, |b|);
      LinkFromPayload(a[i].body, b[0].body);
    }
  }

  /** What a passing walk and a present head say, in payloads, of the live rows up to that head. */
  lemma SealedAnchor(d: Digest, anchored: seq<HashedRow>, live: seq<HashedRow>, at: nat)
    requires Seals(d) && AvoidsGenesis(d) && Intact(d, anchored) && Rooted(anchored) && anchored != [] && Intact(d, live)
    requires at < |live| && live[at].entryHash == anchored[|anchored| - 1].entryHash
    ensures at < |anchored| && SamePayloads(live[..at + 1], anchored[|anchored| - at - 1..])
    ensures Rooted(live) ==> at + 1 == |anchored|
  {
    hide Seals, Payload, AvoidsGenesis, Intact;
    var a := live[..at + 1];
    PrefixIntact(d, live, at + 1);
    SealedBelowGenesis(d, a, anchored);
    PayloadsAgreeBackwards(d, a, anchored, |a|);
    var tail := anchored[|anchored| - |a|..];
    forall i | 0 <= i < |a| ensures Payload(a[i].body) == Payload(tail[i].body) && a[i].entryHash == tail[i].entryHash {
      assert tail[i] == anchored[i + |anchored| - |a|];
    }
    if Rooted(live) {
      SealedBelowGenesis(d, anchored, a);
    }
  }

  /**
   * The same from the digest alone, whatever separators the fields of either table hold: the
   * live rows up to the anchored head are, in everything that was hashed, a suffix of what
   * the gateway wrote, and all of it when the first live row links to genesis.
   */
  lemma PayloadEvidence(d: Digest, events: seq<Event>, live: seq<Row>, head: string) returns (written: nat, kept: nat)
    requires Seals(d) && AvoidsGenesis(d)
    requires var log := RunLog(d, EMPTY_LOG, events); LastAnchor(log.sink) == Some(head) && AnchorOk(live, log.sink)
    requires Intact(d, HashedRows(live))
    ensures var honest := HashedRows(RunLog(d, EMPTY_LOG, events).rows);
            && 0 < kept <= written <= |honest| && honest[written - 1].entryHash == Some(head)
            && kept <= |HashedRows(live)| && HashedRows(live)[kept - 1].entryHash == Some(head)
            && SamePayloads(HashedRows(live)[..kept], honest[written - kept..written])
            && (Rooted(HashedRows(live)) ==> kept == written)
  {
    hide Seals, HashedRows, RunLog, LastAnchor, SamePayloads, AvoidsGenesis, Intact, Zeros, Payload;
    var log := RunLog(d, EMPTY_LOG, events);
    assert Honest(d, log) by {
      EmptyIsHonest(d);
      HonestRunPasses(d, EMPTY_LOG, events);
    }
    var w := HeadAmongHashed(log.rows, head);
    var k := HeadAmongHashed(live, head);
    written, kept := w + 1, k + 1;
    var anchored := HashedRows(log.rows)[..written];
    PrefixIntact(d, HashedRows(log.rows), written);
    SealedAnchor(d, anchored, HashedRows(live), k);
    assert anchored[written - kept..] == HashedRows(log.rows)[written - kept..written];
  }

  // ----- the digest the gateway uses -----

  /** What the theorems need of SHA-256 in hexadecimal. */
  ghost predicate Ideal(h: Hash) {
    && (forall s, t :: h(s) == h(t) ==> s == t)
    && (forall s :: h(s) != GENESIS_HASH && Text.Lacks(h(s), SEP))
  }

  lemma IdealDigest(h: Hash)
    requires Ideal(h)
    ensures Binding(EntryDigest(h)) && AvoidsGenesis(EntryDigest(h)) && Seals(EntryDigest(h))
  {
    hide Payload, SeparatorFree, SameHashedFields, Zeros;
    InjectiveHashBinds(h);
    InjectiveHashSeals(h);
  }

  /** The gateway's own insertions hold no separator. */
  predicate CleanInserts(events: seq<Event>) {
    forall i :: 0 <= i < |events| && events[i].Insert? ==> SeparatorFree(Body(0, events[i].fields, None))
  }

  ghost predicate CleanRows(rows: seq<HashedRow>) {
    forall i :: 0 <= i < |rows| ==> SeparatorFree(rows[i].body) && Text.Lacks(rows[i].entryHash.value, SEP)
  }

  lemma {:induction false} CleanRun(d: Digest, log: Log, events: seq<Event>)
    requires Seals(d) && CleanInserts(events) && CleanRows(HashedRows(log.rows))
    ensures CleanRows(HashedRows(RunLog(d, log, events).rows))
    decreases |events|
  {
    hide Seals, CleanRows, SeparatorFree, HashedRows, Step;
    if events == [] {
    } else {
      StepKeepsClean(d, log, events[0]);
      CleanRun(d, Step(d, log, events[0]), events[1..]);
    }
  }

  lemma StepKeepsClean(d: Digest, log: Log, e: Event)
    requires Seals(d) && CleanRows(HashedRows(log.rows)) && (e.Insert? ==> SeparatorFree(Body(0, e.fields, None)))
    ensures CleanRows(HashedRows(Step(d, log, e).rows))
  {
    hide Payload, HashedRows, Zeros, Intact;
    if e.Insert? {
      var r := NextRow(d, log.rows, log.nextId, e.fields);
      HashedRowsAppend(log.rows, r);
      ChainHeadIsLast(log.rows);
      assert Text.Lacks(GENESIS_HASH, SEP) && Text.Lacks(d(r.body), SEP);
    }
  }

  lemma SamePayloadsSameRows(a: seq<HashedRow>, b: seq<HashedRow>)
    requires SamePayloads(a, b) && AllSeparatorFree(b)
    ensures SameRows(a, b)
  {
    hide Payload, SeparatorFree, SameHashedFields;
    forall i | 0 <= i < |a| ensures SameHashedFields(a[i].body, b[i].body) {
      PayloadInjective(b[i].body, a[i].body);
      assert SameHashedFields(a[i].body, b[i].body) by { SameFieldsSymmetric(b[i].body, a[i].body); }
    }
  }

  lemma SameFieldsSymmetric(a: Body, b: Body)
    requires SameHashedFields(a, b)
    ensures SameHashedFields(b, a)
  {
  }

  /**
   * Tamper evidence for the gateway's own digest. Whatever the table was turned into, fields
   * with separators included: when the walk and the anchor both pass, the live rows up to the
   * anchored head are, in everything that was hashed, a suffix of what the gateway wrote, all
   * of it when the first live row links to genesis; and in every hashed column when the
   * gateway's own insertions held no separator.
   */
  lemma GatewayTamperEvidence(h: Hash, events: seq<Event>, live: seq<Row>, head: string) returns (written: nat, kept: nat)
    requires Ideal(h)
    requires var log := RunLog(EntryDigest(h), EMPTY_LOG, events);
             LastAnchor(log.sink) == Some(head) && AnchorOk(live, log.sink)
    requires Intact(EntryDigest(h), HashedRows(live))
    ensures var honest := HashedRows(RunLog(EntryDigest(h), EMPTY_LOG, events).rows);
            && 0 < kept <= written <= |honest| && honest[written - 1].entryHash == Some(head)
            && kept <= |HashedRows(live)| && HashedRows(live)[kept - 1].entryHash == Some(head)
            && SamePayloads(HashedRows(live)[..kept], honest[written - kept..written])
            && (CleanInserts(events) ==> SameRows(HashedRows(live)[..kept], honest[written - kept..written]))
            && (Rooted(HashedRows(live)) ==> kept == written)
  {
    hide Ideal, Seals, Binding, AvoidsGenesis, HashedRows, RunLog, LastAnchor, SamePayloads, SameRows, Intact, CleanInserts, SeparatorFree;
    var d := EntryDigest(h);
    IdealDigest(h);
    written, kept := PayloadEvidence(d, events, live, head);
    var honest := HashedRows(RunLog(d, EMPTY_LOG, events).rows);
    if CleanInserts(events) {
      assert CleanRows(HashedRows(EMPTY_LOG.rows)) by { NothingHashed(); }
      CleanRun(d, EMPTY_LOG, events);
      SamePayloadsSameRows(HashedRows(live)[..kept], honest[written - kept..written]);
    }
  }

  lemma NothingHashed()
    ensures HashedRows(EMPTY_LOG.rows) == []
  {
  }

  /** With the gateway's digest, rewriting one row in place goes unseen exactly when no hashed column and no link changed. */
  lemma GatewayAlterationSeenIff(h: Hash, rows: seq<HashedRow>, i: nat, forged: HashedRow)
    requires Ideal(h) && Intact(EntryDigest(h), rows) && i < |rows|
    requires forged.entryHash == rows[i].entryHash && SeparatorFree(rows[i].body)
    ensures FullReport(EntryDigest(h), rows[i := forged]) == [] <==>
            SameHashedFields(forged.body, rows[i].body) && (i > 0 ==> forged.body.prevHash == rows[i].body.prevHash)
  {
    hide Ideal, Seals, Binding, AvoidsGenesis, Intact, FullReport, SeparatorFree, SameHashedFields;
    IdealDigest(h);
    AlterationSeenIff(EntryDigest(h), rows, i, forged);
  }

  lemma EmptyIsHonest(d: Digest)
    ensures Honest(d, EMPTY_LOG)
  {
  }

  /** The audit_log table with its AUTOINCREMENT counter, and the append-only anchor file. */
  class AuditLog {
    var rows: seq<Row>
    var nextId: int
    var sink: seq<SinkLine>

    constructor ()
      ensures View() == EMPTY_LOG
    {
      rows, nextId, sink := [], 1, [];
    }

    function View(): Log
      reads this
    {
      Log(rows, nextId, sink)
    }

    /** insert_audit_event followed by its caller's commit. */
    method InsertAuditEvent(d: Digest, fields: Fields)
      modifies this`rows, this`nextId
      ensures View() == Step(d, old(View()), Insert(fields))
    {
      var prev := match ChainHead(rows) case None => GENESIS_HASH case Some(head) => head;
      var row := Row(Body(nextId, fields, Some(prev)), None);
      rows := rows + [row];
      nextId := nextId + 1;
      rows := rows[|rows| - 1 := row.(entryHash := Some(d(row.body)))];
    }

    /** Append the current head to the sink, unless the chain is empty. */
    method AnchorChainHead() returns (head: Option<string>)
      modifies this`sink
      ensures head == ChainHead(rows)
      ensures sink == old(sink) + match head case None => [] case Some(v) => [Anchor(v, |HashedRows(rows)|)]
    {
      head := ChainHead(rows);
      if head.Some? {
        sink := sink + [Anchor(head.value, |HashedRows(rows)|)];
      }
    }

    method VerifyAgainstAnchor() returns (ok: bool)
      ensures ok == AnchorOk(rows, sink)
    {
      var last := ReadLastAnchor(sink);
      ok := last.None? || ContainsHead(rows, last.value);
    }

    /** One pass of run_audit_verification_loop: re-anchor only a verified chain. */
    method VerificationPass(d: Digest) returns (broken: nat)
      modifies this`sink
      ensures View() == Step(d, old(View()), Verification)
      ensures broken == 0 <==> Intact(d, HashedRows(rows)) && AnchorOk(rows, old(sink))
    {
      var ok, errors := VerifyAuditChain(d, rows);
      ReportEmptyIff(d, HashedRows(rows), |HashedRows(rows)|);
      var anchorOk := VerifyAgainstAnchor();
      broken := |errors| + if anchorOk then 0 else 1;
      if ok && anchorOk {
        var _ := AnchorChainHead();
      }
    }
  }
}
