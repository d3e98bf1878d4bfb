// UID sets: one meaning (sequence-set, section 9 of RFC 3501) and the gateway's
// implementations of it in state_db.py, undo.py and batch_summary.py. Strings
// are the raw uid_set text the agent sent; digits are ASCII.
module UidSets {
  import opened Wrappers
  import opened Text

  datatype Bound = Num(n: nat) | Star

  datatype Part = One(bound: Bound) | Range(lo: Bound, hi: Bound)

  // ----- meaning -----

  function Value(b: Bound, max: nat): nat {
    match b case Num(n) => n case Star => max
  }

  /** u is named by part p when max is the largest known UID. */
  predicate Covers(p: Part, max: nat, u: nat) {
    match p
    case One(b) => u == Value(b, max)
    case Range(lo, hi) =>
      var l, h := Value(lo, max), Value(hi, max);
      l <= u <= h || h <= u <= l
  }

  predicate Denotes(ps: seq<Part>, max: nat, u: nat) {
    exists i :: 0 <= i < |ps| && Covers(ps[i], max, u)
  }

  /** A set without "*". */
  predicate Closed(ps: seq<Part>) {
    forall i :: 0 <= i < |ps| ==> ClosedPart(ps[i])
  }

  predicate ClosedPart(p: Part) {
    match p case One(b) => b.Num? case Range(lo, hi) => lo.Num? && hi.Num?
  }

  // ----- text -----

  function ShowBound(b: Bound): string {
    match b case Num(n) => ShowNat(n) case Star => "*"
  }

  function ShowPart(p: Part): string {
    match p case One(b) => ShowBound(b) case Range(lo, hi) => ShowBound(lo) + [':'] + ShowBound(hi)
  }

  function ShowParts(ps: seq<Part>): (r: seq<string>)
    ensures |r| == |ps|
    ensures forall i :: 0 <= i < |r| ==> r[i] == ShowPart(ps[i])
  {
    seq(|ps|, i requires 0 <= i < |ps| => ShowPart(ps[i]))
  }

  function ShowSet(ps: seq<Part>): string {
    Join(ShowParts(ps), ',')
  }

  /** int(s): surrounding whitespace is accepted, anything but digits is a ValueError. */
  function ReadInt(s: string): Option<nat> {
    if AllDigits(Trim(s)) then Some(ReadNat(Trim(s))) else None
  }

  function ReadBound(s: string): Option<Bound> {
    if s == "*" then Some(Star)
    else match ReadInt(s) case None => None case Some(n) => Some(Num(n))
  }

  function ReadPart(token: string): Option<Part> {
    var t := Trim(token);
    var i := IndexOf(t, ':');
    if i < |t| then
      match (ReadBound(t[..i]), ReadBound(t[i + 1..]))
      case (Some(lo), Some(hi)) => Some(Range(lo, hi))
      case _ => None
    else match ReadBound(t) case Some(b) => Some(One(b)) case None => None
  }

  function ReadParts(tokens: seq<string>): Option<seq<Part>> {
    if tokens == [] then Some([])
    else match (ReadParts(tokens[..|tokens| - 1]), ReadPart(tokens[|tokens| - 1]))
      case (Some(ps), Some(p)) => Some(ps + [p])
      case _ => None
  }

  function ReadSet(s: string): Option<seq<Part>> {
    ReadParts(Split(s, ','))
  }

  lemma BoundText(b: Bound)
    ensures ShowBound(b) != "" && ReadBound(ShowBound(b)) == Some(b)
    ensures forall i :: 0 <= i < |ShowBound(b)| ==> IsDigit(ShowBound(b)[i]) || ShowBound(b)[i] == '*'
    ensures ',' !in ShowBound(b) && ':' !in ShowBound(b)
  {
    if b.Num? {
      TrimIdentity(ShowNat(b.n));
      ReadShow(b.n);
    }
  }

  lemma PartText(p: Part)
    ensures ShowPart(p) != "" && Trim(ShowPart(p)) == ShowPart(p) && ReadPart(ShowPart(p)) == Some(p)
    ensures Lacks(ShowPart(p), ',')
  {
    match p {
      case One(b) =>
        BoundText(b);
        IndexOfAbsent(ShowBound(b), ':');
        TrimIdentity(ShowPart(p));
      case Range(lo, hi) =>
        BoundText(lo);
        BoundText(hi);
        IndexOfAt(ShowBound(lo), ':', ShowBound(hi));
        TrimIdentity(ShowPart(p));
        assert ShowPart(p)[..|ShowBound(lo)|] == ShowBound(lo);
        assert ShowPart(p)[|ShowBound(lo)| + 1..] == ShowBound(hi);
    }
  }

  lemma {:induction false} ReadShowParts(ps: seq<Part>)
    ensures ReadParts(ShowParts(ps)) == Some(ps)
  {
    hide ReadPart, ShowPart;
    if ps == [] {
    } else {
      var front := ps[..|ps| - 1];
      assert ShowParts(ps)[..|ps| - 1] == ShowParts(front);
      ReadShowParts(front);
      PartText(ps[|ps| - 1]);
      assert front + [ps[|ps| - 1]] == ps;
    }
  }

  lemma ShowPartsLackComma(ps: seq<Part>)
    ensures AllLack(ShowParts(ps), ',')
  {
    forall i | 0 <= i < |ps| ensures Lacks(ShowParts(ps)[i], ',') {
      PartText(ps[i]);
    }
  }

  /** Every set in the grammar is read back as itself. */
  lemma ReadShowSet(ps: seq<Part>)
    requires ps != []
    ensures Split(ShowSet(ps), ',') == ShowParts(ps)
    ensures ReadSet(ShowSet(ps)) == Some(ps)
  {
    ShowPartsLackComma(ps);
    SplitJoin(ShowParts(ps), ',');
    ReadShowParts(ps);
  }

  // ----- expansion (state_db._expand_uid_set) -----

  predicate Ascending(xs: seq<nat>) {
    forall i, j :: 0 <= i < j < |xs| ==> xs[i] < xs[j]
  }

  function MaxOf(xs: seq<nat>): (m: nat)
    requires xs != []
    ensures m in xs && forall x :: x in xs ==> x <= m
  {
    if |xs| == 1 then xs[0]
    else
      var m := MaxOf(xs[1..]);
      assert forall x :: x in xs ==> x == xs[0] || x in xs[1..];
      if xs[0] > m then xs[0] else m
  }

  predicate IsMinimum(m: nat, s: set<nat>) {
    m in s && forall x :: x in s ==> m <= x
  }

  lemma {:induction false} HasMinimum(s: set<nat>)
    requires s != {}
    ensures exists m :: IsMinimum(m, s)
  {
    var a :| a in s;
    var rest := s - {a};
    if rest == {} {
      assert s == {a};
      assert IsMinimum(a, s);
    } else {
      HasMinimum(rest);
      var m :| IsMinimum(m, rest);
      assert IsMinimum(if a < m then a else m, s) by {
        assert forall x :: x in s ==> x == a || x in rest;
      }
    }
  }

  lemma LeastFirst(m: nat, rest: seq<nat>, s: set<nat>)
    requires IsMinimum(m, s) && Ascending(rest) && forall u :: u in rest <==> u in s - {m}
    ensures Ascending([m] + rest) && forall u :: u in [m] + rest <==> u in s
  {
    forall i | 0 <= i < |rest| ensures m < rest[i] {
      assert rest[i] in rest;
    }
    forall u ensures u in [m] + rest <==> u in s {
      assert u in [m] + rest <==> u == m || u in rest;
    }
  }

  /** sorted() of a set. */
  function SortedUids(s: set<nat>): (r: seq<nat>)
    ensures Ascending(r) && |r| == |s|
    ensures forall u :: u in r <==> u in s
  {
    if s == {} then []
    else
      HasMinimum(s);
      var m :| IsMinimum(m, s);
      var rest := SortedUids(s - {m});
      LeastFirst(m, rest, s);
      [m] + rest
  }

  /** The known UIDs a set denotes, ascending; an Err is Python's ValueError. */
  function Expand(uidSet: string, known: seq<nat>): Result<seq<nat>, string> {
    if known == [] then Ok([])
    else match ReadSet(uidSet)
      case None => Err("invalid literal for int()")
      case Some(ps) => Ok(SortedUids(set u | u in known && Denotes(ps, MaxOf(known), u)))
  }

  method ExpandUidSet(uidSet: string, knownUids: seq<nat>) returns (r: Result<seq<nat>, string>)
    ensures r == Expand(uidSet, knownUids)
  {
    hide ReadPart, Split;
    if knownUids == [] {
      return Ok([]);
    }
    var maxUid := MaxOf(knownUids);
    var knownSet := set u | u in knownUids;
    var result: set<nat> := {};
    var tokens := Split(uidSet, ',');
    ghost var ps: seq<Part> := [];
    for i := 0 to |tokens|
      invariant ReadParts(tokens[..i]) == Some(ps)
      invariant result == set u | u in knownUids && Denotes(ps, maxUid, u)
    {
      assert tokens[..i + 1][..i] == tokens[..i];
      var part := ReadPart(tokens[i]);
      if part == None {
        ReadPartsFails(tokens, i);
        return Err("invalid literal for int()");
      }
      match part.value {
        case Range(lo, hi) =>
          var low, high := Value(lo, maxUid), Value(hi, maxUid);
          if low > high {
            low, high := high, low;
          }
          result := result + set u | u in knownSet && low <= u <= high;
        case One(Star) =>
          result := result + {maxUid};
        case One(Num(uid)) =>
          if uid in knownSet {
            result := result + {uid};
          }
      }
      DenotesAppend(ps, part.value, maxUid);
      ps := ps + [part.value];
    }
    assert tokens[..|tokens|] == tokens;
    r := Ok(SortedUids(result));
  }

  lemma DenotesAppend(ps: seq<Part>, p: Part, max: nat)
    ensures forall u :: Denotes(ps + [p], max, u) <==> Denotes(ps, max, u) || Covers(p, max, u)
  {
    forall u ensures Denotes(ps + [p], max, u) <==> Denotes(ps, max, u) || Covers(p, max, u) {
      if Denotes(ps, max, u) {
        var i :| 0 <= i < |ps| && Covers(ps[i], max, u);
        assert (ps + [p])[i] == ps[i];
      }
      if Covers(p, max, u) {
        assert (ps + [p])[|ps|] == p;
      }
    }
  }

  lemma DenotesAppendAll(ps: seq<Part>, p: Part)
    ensures forall max, u :: Denotes(ps + [p], max, u) <==> Denotes(ps, max, u) || Covers(p, max, u)
  {
    forall max, u ensures Denotes(ps + [p], max, u) <==> Denotes(ps, max, u) || Covers(p, max, u) {
      DenotesAppend(ps, p, max);
    }
  }

  lemma {:induction false} ReadPartsFails(tokens: seq<string>, i: nat)
    requires i < |tokens| && ReadPart(tokens[i]) == None
    ensures ReadParts(tokens) == None
  {
    if i < |tokens| - 1 {
      ReadPartsFails(tokens[..|tokens| - 1], i);
    }
  }

  /** For every set in the grammar, the expansion lists exactly the known UIDs it denotes. */
  lemma ExpansionMeaning(ps: seq<Part>, known: seq<nat>)
    requires ps != [] && known != []
    ensures var r := Expand(ShowSet(ps), known);
            && r.Ok? && Ascending(r.value)
            && (forall u :: u in r.value <==> u in known && Denotes(ps, MaxOf(known), u))
  {
    ReadShowSet(ps);
  }

  /** Text that is one number names that UID alone. */
  lemma LoneUid(text: string, known: seq<nat>)
    requires ReadInt(text).Some? && ReadInt(text).value in known
    ensures Expand(text, known) == Ok(SortedUids({ReadInt(text).value}))
  {
    var n := ReadInt(text).value;
    TrimInside(text, ',');
    IndexOfAbsent(text, ',');
    assert Split(text, ',') == [text];
    TrimInside(text, ':');
    IndexOfAbsent(Trim(text), ':');
    assert ReadPart(text) == Some(One(Num(n))) by {
      TrimTwice(text);
    }
    assert ReadParts([]) == Some([]);
    assert ReadSet(text) == Some([One(Num(n))]) by {
      hide ReadPart;
      assert [text][..0] == [];
      assert [] + [One(Num(n))] == [One(Num(n))];
    }
    DenotesOne(One(Num(n)), MaxOf(known));
    assert (set u | u in known && Denotes([One(Num(n))], MaxOf(known), u)) == {n};
  }

  // ----- the two counters -----

  function PartSize(p: Part): nat
    requires ClosedPart(p)
  {
    match p
    case One(_) => 1
    case Range(lo, hi) => (if lo.n <= hi.n then hi.n - lo.n else lo.n - hi.n) + 1
  }

  function SetSize(ps: seq<Part>): nat
    requires Closed(ps)
  {
    if ps == [] then 0 else SetSize(ps[..|ps| - 1]) + PartSize(ps[|ps| - 1])
  }

  function AbsDiff(a: nat, b: nat): nat {
    if a <= b then b - a else a - b
  }

  /** One token of undo.count_uid_set: text after ":" decides whether int() is called at all. */
  function UndoTokenCount(token: string): Option<nat> {
    var i := IndexOf(token, ':');
    if i >= |token| - 1 then Some(1)
    else match (ReadInt(token[..i]), ReadInt(token[i + 1..]))
      case (Some(lo), Some(hi)) => Some(AbsDiff(hi, lo) + 1)
      case _ => None
  }

  function UndoSum(tokens: seq<string>): Option<nat> {
    if tokens == [] then Some(0)
    else match (UndoSum(tokens[..|tokens| - 1]), UndoTokenCount(tokens[|tokens| - 1]))
      case (Some(sum), Some(n)) => Some(sum + n)
      case _ => None
  }

  /** undo.count_uid_set; None is a ValueError. */
  method CountUidSetForUndo(uidSet: string) returns (total: Option<nat>)
    ensures total == UndoSum(Split(uidSet, ','))
  {
    hide UndoTokenCount, Split;
    var sum := 0;
    var tokens := Split(uidSet, ',');
    for i := 0 to |tokens|
      invariant UndoSum(tokens[..i]) == Some(sum)
    {
      assert tokens[..i + 1][..i] == tokens[..i];
      var n := UndoTokenCount(tokens[i]);
      if n == None {
        UndoSumFails(tokens, i);
        return None;
      }
      sum := sum + n.value;
    }
    assert tokens[..|tokens|] == tokens;
    total := Some(sum);
  }

  lemma {:induction false} UndoSumFails(tokens: seq<string>, i: nat)
    requires i < |tokens| && UndoTokenCount(tokens[i]) == None
    ensures UndoSum(tokens) == None
  {
    if i < |tokens| - 1 {
      UndoSumFails(tokens[..|tokens| - 1], i);
    }
  }

  /** One token of batch_summary.count_uid_set: what cannot be parsed counts once. */
  function BatchTokenCount(token: string): nat {
    var t := Trim(token);
    var i := IndexOf(t, ':');
    if t == "" then 0
    else if i < |t| && AllDigits(Trim(t[..i])) && AllDigits(Trim(t[i + 1..])) then
      AbsDiff(ReadNat(Trim(t[i + 1..])), ReadNat(Trim(t[..i]))) + 1
    else 1
  }

  function BatchSum(tokens: seq<string>): nat {
    if tokens == [] then 0 else BatchSum(tokens[..|tokens| - 1]) + BatchTokenCount(tokens[|tokens| - 1])
  }

  /** batch_summary.count_uid_set. */
  method CountUidSetForSummary(uidSet: Option<string>) returns (total: nat)
    ensures total == if uidSet == None || uidSet == Some("") then 0 else BatchSum(Split(uidSet.value, ','))
  {
    if uidSet == None || uidSet == Some("") {
      return 0;
    }
    total := 0;
    var tokens := Split(uidSet.value, ',');
    for i := 0 to |tokens|
      invariant total == BatchSum(tokens[..i])
    {
      assert tokens[..i + 1][..i] == tokens[..i];
      total := total + BatchTokenCount(tokens[i]);
    }
    assert tokens[..|tokens|] == tokens;
  }

  lemma NumText(n: nat)
    ensures ReadInt(ShowNat(n)) == Some(n) && Trim(ShowNat(n)) == ShowNat(n) && ':' !in ShowNat(n)
    ensures ReadNat(ShowNat(n)) == n
  {
    TrimIdentity(ShowNat(n));
    ReadShow(n);
  }

  lemma RangeText(lo: nat, hi: nat)
    ensures var t := ShowPart(Range(Num(lo), Num(hi)));
            var i := IndexOf(t, ':');
            i < |t| - 1 && t[..i] == ShowNat(lo) && t[i + 1..] == ShowNat(hi)
  {
    hide ShowNat, Trim, ReadInt, ReadNat, IndexOf;
    NumText(lo);
    DigitsShown(hi);
    IndexOfAt(ShowNat(lo), ':', ShowNat(hi));
    var t := ShowPart(Range(Num(lo), Num(hi)));
    assert t[..|ShowNat(lo)|] == ShowNat(lo) && t[|ShowNat(lo)| + 1..] == ShowNat(hi);
  }

  lemma DigitsShown(n: nat)
    ensures ShowNat(n) != ""
  {
  }

  lemma UndoTokenMeaning(p: Part)
    requires ClosedPart(p)
    ensures UndoTokenCount(ShowPart(p)) == Some(PartSize(p))
  {
    match p {
      case One(b) =>
        NumText(b.n);
        IndexOfAbsent(ShowNat(b.n), ':');
      case Range(lo, hi) =>
        NumText(lo.n);
        NumText(hi.n);
        RangeText(lo.n, hi.n);
    }
  }

  lemma BatchTokenMeaning(p: Part)
    requires ClosedPart(p)
    ensures BatchTokenCount(ShowPart(p)) == PartSize(p)
  {
    PartText(p);
    match p {
      case One(b) =>
        NumText(b.n);
        IndexOfAbsent(ShowNat(b.n), ':');
      case Range(lo, hi) =>
        NumText(lo.n);
        NumText(hi.n);
        RangeText(lo.n, hi.n);
    }
  }

  lemma {:induction false} CountersOnParts(ps: seq<Part>)
    requires Closed(ps)
    ensures UndoSum(ShowParts(ps)) == Some(SetSize(ps)) && BatchSum(ShowParts(ps)) == SetSize(ps)
  {
    hide UndoTokenCount, BatchTokenCount, ShowPart;
    if ps == [] {
    } else {
      var front, last := ps[..|ps| - 1], ps[|ps| - 1];
      assert ShowParts(ps)[..|ps| - 1] == ShowParts(front);
      CountersOnParts(front);
      UndoTokenMeaning(last);
      BatchTokenMeaning(last);
    }
  }

  /** On closed sets the two counters agree, on the size of the set. */
  lemma CountersAgree(ps: seq<Part>)
    requires ps != [] && Closed(ps)
    ensures UndoSum(Split(ShowSet(ps), ',')) == Some(SetSize(ps))
    ensures BatchSum(Split(ShowSet(ps), ',')) == SetSize(ps)
  {
    ReadShowSet(ps);
    CountersOnParts(ps);
  }

  // ----- expansion against the counters -----

  function Interval(lo: nat, hi: nat): (s: set<nat>)
    requires lo <= hi
    ensures |s| == hi - lo + 1 && forall u :: u in s <==> lo <= u <= hi
    decreases hi - lo
  {
    if lo == hi then {lo} else Interval(lo, hi - 1) + {hi}
  }

  function PartUids(p: Part): (s: set<nat>)
    requires ClosedPart(p)
    ensures |s| == PartSize(p) && forall u, max :: u in s <==> Covers(p, max, u)
  {
    match p
    case One(b) => {b.n}
    case Range(lo, hi) => if lo.n <= hi.n then Interval(lo.n, hi.n) else Interval(hi.n, lo.n)
  }

  /** The UIDs a closed set denotes, whatever is known. */
  lemma UnionDenotes(ps: seq<Part>, front: seq<Part>, last: Part, a: set<nat>, b: set<nat>)
    requires ps == front + [last]
    requires forall u, max :: u in a <==> Denotes(front, max, u)
    requires forall u, max :: u in b <==> Covers(last, max, u)
    ensures |a + b| <= |a| + |b| && forall u, max :: u in a + b <==> Denotes(ps, max, u)
  {
    hide Denotes, Covers;
    DenotesAppendAll(front, last);
  }

  function SetUids(ps: seq<Part>): (s: set<nat>)
    requires Closed(ps)
    ensures |s| <= SetSize(ps)
    ensures forall u, max :: u in s <==> Denotes(ps, max, u)
  {
    if ps == [] then {}
    else
      var front, last := ps[..|ps| - 1], ps[|ps| - 1];
      var a, b := SetUids(front), PartUids(last);
      UnionDenotes(ps, front, last, a, b);
      a + b
  }

  lemma {:induction false} SubsetSize<T>(a: set<T>, b: set<T>)
    requires a <= b
    ensures |a| <= |b| && (|a| == |b| <==> a == b)
  {
    assert b == a + (b - a);
    assert |b| == |a| + |b - a|;
    if |b - a| == 0 {
      assert b - a == {};
    }
  }

  /** On closed sets the expansion is never longer than either count. */
  lemma ExpansionWithinCount(ps: seq<Part>, known: seq<nat>)
    requires ps != [] && Closed(ps)
    ensures Expand(ShowSet(ps), known).Ok? && |Expand(ShowSet(ps), known).value| <= SetSize(ps)
    ensures known != [] && |Expand(ShowSet(ps), known).value| == |SetUids(ps)| <==>
            known != [] && forall u :: u in SetUids(ps) ==> u in known
  {
    ReadShowSet(ps);
    if known != [] {
      var s := set u | u in known && Denotes(ps, MaxOf(known), u);
      SubsetSize(s, SetUids(ps));
    }
  }

  /** "*" breaks the bound: the summary counts an open range once, however much it denotes. */
  lemma OpenRangeUndercounted(lo: nat)
    ensures var text := ShowSet([Range(Num(lo), Star)]);
            BatchSum(Split(text, ',')) == 1 && Expand(text, [lo, lo + 1]) == Ok([lo, lo + 1])
  {
    hide BatchTokenCount, ShowPart, ReadSet, SortedUids, Split;
    var ps := [Range(Num(lo), Star)];
    var known := [lo, lo + 1];
    ReadShowSet(ps);
    OpenTokenCountsOnce(lo);
    assert BatchSum(ShowParts(ps)) == 1 by {
      assert ShowParts(ps)[..0] == [];
    }
    hide ShowSet, BatchSum;
    DenotesOne(ps[0], lo + 1);
    var uids := set u | u in known && Denotes(ps, lo + 1, u);
    assert MaxOf(known) == lo + 1;
    assert uids == {lo, lo + 1};
    PairSorted(lo);
  }

  lemma PairSorted(lo: nat)
    ensures SortedUids({lo, lo + 1}) == [lo, lo + 1]
  {
    var r := SortedUids({lo, lo + 1});
    assert r[0] in {lo, lo + 1} && r[1] in {lo, lo + 1};
  }

  lemma DenotesOne(p: Part, max: nat)
    ensures forall u :: Denotes([p], max, u) <==> Covers(p, max, u)
  {
    forall u ensures Denotes([p], max, u) <==> Covers(p, max, u) {
      assert [p][0] == p;
    }
  }

  lemma OpenTokenCountsOnce(lo: nat)
    ensures BatchTokenCount(ShowPart(Range(Num(lo), Star))) == 1
  {
    var t := ShowPart(Range(Num(lo), Star));
    PartText(Range(Num(lo), Star));
    NumText(lo);
    IndexOfAt(ShowNat(lo), ':', "*");
    assert t[|ShowNat(lo)| + 1..] == "*";
    TrimIdentity("*");
  }

  // ----- the pump's pending UIDs -----

  /** What get_pending_move_uids_for_folder adds for one stored uid_set string. */
  function PendingUids(entry: string): set<nat> {
    var s := Trim(entry);
    if AllDigits(s) then {ReadNat(s)}
    else
      var parts := Split(s, ':');
      if |parts| == 2 && AllDigits(parts[0]) && AllDigits(parts[1])
      then var lo, hi := ReadNat(parts[0]), ReadNat(parts[1]); if lo <= hi then Interval(lo, hi) else {}
      else {}
  }

  /** The membership test of get_pending_flag_changes_for_uid for one stored string. */
  predicate UidInEntry(entry: string, uid: nat) {
    var s := Trim(entry);
    || (AllDigits(s) && ReadNat(s) == uid)
    || (var parts := Split(s, ':');
        |parts| == 2 && AllDigits(parts[0]) && AllDigits(parts[1]) && ReadNat(parts[0]) <= uid <= ReadNat(parts[1]))
  }

  /** The union over all rows' stored lists, as the FETCH, SEARCH and EXISTS filters use it. */
  method PendingMoveUids(rows: seq<seq<string>>) returns (pending: set<nat>)
    ensures forall u :: u in pending <==>
      exists i, j :: 0 <= i < |rows| && 0 <= j < |rows[i]| && u in PendingUids(rows[i][j])
  {
    pending := {};
    for i := 0 to |rows|
      invariant forall u :: u in pending <==>
        exists k, j :: 0 <= k < i && 0 <= j < |rows[k]| && u in PendingUids(rows[k][j])
    {
      ghost var before := pending;
      for j := 0 to |rows[i]|
        invariant forall u :: u in pending <==>
          u in before || exists l :: 0 <= l < j && u in PendingUids(rows[i][l])
      {
        pending := pending + PendingUids(rows[i][j]);
      }
    }
  }

  /** A lone UID or one ascending range: what the pending-UID parsers understand. */
  predicate Plain(ps: seq<Part>) {
    && |ps| == 1 && ClosedPart(ps[0])
    && (ps[0].Range? ==> ps[0].lo.n <= ps[0].hi.n)
  }

  /** White space around a stored set makes no difference. */
  lemma StoredSetTrimmed(entry: string, uid: nat)
    ensures UidInEntry(entry, uid) <==> UidInEntry(Trim(entry), uid)
    ensures PendingUids(entry) == PendingUids(Trim(entry))
  {
    hide Split, AllDigits, ReadNat, Interval, Trim;
    TrimTwice(entry);
  }

  lemma ShowSetOne(p: Part)
    ensures ShowSet([p]) == ShowPart(p) && Trim(ShowPart(p)) == ShowPart(p)
  {
    PartText(p);
  }

  lemma PendingOnOne(n: nat)
    ensures PendingUids(ShowNat(n)) == {n}
    ensures forall u :: UidInEntry(ShowNat(n), u) <==> u == n
  {
    NumText(n);
    IndexOfAbsent(ShowNat(n), ':');
  }

  lemma PendingOnRange(lo: nat, hi: nat)
    ensures var t := ShowPart(Range(Num(lo), Num(hi)));
            && (forall u: nat :: u in PendingUids(t) <==> lo <= u <= hi)
            && (forall u: nat :: UidInEntry(t, u) <==> lo <= u <= hi)
  {
    var t := ShowPart(Range(Num(lo), Num(hi)));
    PartText(Range(Num(lo), Num(hi)));
    NumText(lo);
    NumText(hi);
    assert Join([ShowNat(lo), ShowNat(hi)], ':') == t by {
      assert [ShowNat(lo), ShowNat(hi)][1..] == [ShowNat(hi)];
    }
    SplitJoin([ShowNat(lo), ShowNat(hi)], ':');
    assert ':' in t by { assert t[|ShowNat(lo)|] == ':'; }
  }

  lemma DigitsColonDigits(a: string, b: string, at: nat)
    requires AllDigits(a) && AllDigits(b) && at < |Join([a, b], ':')|
    ensures IsDigit(Join([a, b], ':')[at]) || Join([a, b], ':')[at] == ':'
  {
    assert [a, b][1..] == [b];
  }

  /** Text holding a character that is neither digit nor ":" names no pending UID. */
  lemma PendingOnOther(t: string, at: nat)
    requires at < |t| && Trim(t) == t && !IsDigit(t[at]) && t[at] != ':'
    ensures PendingUids(t) == {} && forall u :: !UidInEntry(t, u)
  {
    var parts := Split(t, ':');
    JoinSplit(t, ':');
    assert |parts| == 2 ==> parts == [parts[0], parts[1]];
    if |parts| == 2 && AllDigits(parts[0]) && AllDigits(parts[1]) {
      DigitsColonDigits(parts[0], parts[1], at);
    }
  }

  lemma PendingOnePart(p: Part)
    ensures forall u :: UidInEntry(ShowPart(p), u) <==> u in PendingUids(ShowPart(p))
    ensures forall u, max :: u in PendingUids(ShowPart(p)) ==> Covers(p, max, u)
    ensures ClosedPart(p) ==> (PendingUids(ShowPart(p)) == PartUids(p) <==> Plain([p]))
  {
    var t := ShowPart(p);
    PartText(p);
    match p {
      case One(Num(n)) => PendingOnOne(n);
      case Range(Num(lo), Num(hi)) =>
        PendingOnRange(lo, hi);
        assert lo in PartUids(p) by { assert Covers(p, 0, lo); }
      case One(Star) => PendingOnOther(t, 0);
      case Range(Star, _) => PendingOnOther(t, 0);
      case Range(Num(_), Star) => PendingOnOther(t, |t| - 1);
    }
  }

  lemma PendingManyParts(ps: seq<Part>)
    requires |ps| > 1
    ensures PendingUids(ShowSet(ps)) == {} && forall u :: !UidInEntry(ShowSet(ps), u)
  {
    var n := |ps| - 1;
    assert ShowParts(ps)[..n] + ShowParts(ps)[n..] == ShowParts(ps);
    JoinAppend(ShowParts(ps)[..n], ShowParts(ps)[n..], ',');
    CommaSetTrimmed(ps);
    PendingOnOther(ShowSet(ps), |Join(ShowParts(ps)[..n], ',')|);
  }

  lemma SetUidsNonEmpty(ps: seq<Part>)
    requires ps != [] && Closed(ps)
    ensures SetUids(ps) != {}
  {
    var u := if ps[0].One? then ps[0].bound.n else ps[0].lo.n;
    assert Covers(ps[0], 0, u);
    assert Denotes(ps, 0, u);
    assert u in SetUids(ps);
  }

  /** Both parsers agree, never invent a UID, and are exact just on plain sets. */
  lemma PendingMeaning(ps: seq<Part>)
    requires ps != []
    ensures forall u :: UidInEntry(ShowSet(ps), u) <==> u in PendingUids(ShowSet(ps))
    ensures forall u, max :: u in PendingUids(ShowSet(ps)) ==> Denotes(ps, max, u)
    ensures Closed(ps) ==> (PendingUids(ShowSet(ps)) == SetUids(ps) <==> Plain(ps))
  {
    hide PendingUids, UidInEntry, ShowPart, Covers;
    if |ps| == 1 {
      assert ps == [ps[0]];
      ShowSetOne(ps[0]);
      PendingOnePart(ps[0]);
      assert forall u, max :: Denotes(ps, max, u) <==> Covers(ps[0], max, u);
      if Closed(ps) {
        assert SetUids(ps) == PartUids(ps[0]) by {
          assert forall u :: u in SetUids(ps) <==> Covers(ps[0], 0, u);
        }
      }
    } else {
      PendingManyParts(ps);
      if Closed(ps) {
        SetUidsNonEmpty(ps);
      }
    }
  }

  lemma ShowPartEdges(p: Part)
    ensures ShowPart(p) != "" && !IsSpace(ShowPart(p)[0]) && !IsSpace(ShowPart(p)[|ShowPart(p)| - 1])
  {
    match p {
      case One(b) => BoundText(b);
      case Range(lo, hi) => BoundText(lo); BoundText(hi);
    }
  }

  lemma CommaSetTrimmed(ps: seq<Part>)
    requires |ps| > 1
    ensures Trim(ShowSet(ps)) == ShowSet(ps)
  {
    var n := |ps| - 1;
    ShowPartEdges(ps[0]);
    ShowPartEdges(ps[n]);
    assert ShowParts(ps)[..n] + [ShowPart(ps[n])] == ShowParts(ps);
    JoinAppend(ShowParts(ps)[..n], [ShowPart(ps[n])], ',');
    TrimIdentity(ShowSet(ps));
  }
}
