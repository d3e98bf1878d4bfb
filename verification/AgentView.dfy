// What the agent reads from the lines the pump rewrites, injects or drops.
module AgentView {
  import opened Wrappers
  import opened Text
  import opened Flags
  import opened ImapParser
  import opened ResponseLine
  import Overlay

  // ----- EXISTS and SEARCH -----

  lemma {:induction false} DigitRunAt(d: string, rest: string)
    requires (forall i :: 0 <= i < |d| ==> IsDigit(d[i])) && (rest == "" || !IsDigit(rest[0]))
    ensures DigitRun(d + rest) == |d|
  {
    if d == "" {
      assert d + rest == rest;
    } else {
      assert (d + rest)[1..] == d[1..] + rest;
      DigitRunAt(d[1..], rest);
    }
  }

  lemma CountedAt(d: string, rest: string)
    requires AllDigits(d)
    ensures Counted("* " + d + " " + rest) == Some((d, rest))
  {
    var line := "* " + d + " " + rest;
    assert line[2..] == d + (" " + rest);
    DigitRunAt(d, " " + rest);
    assert line[2..][..|d|] == d && line[3 + |d|..] == rest;
  }

  /** The agent reads the adjusted count. */
  lemma ExistsShown(line: string, c: Context, n: nat)
    requires ExistsCount(line) == Some(n) && c.folder && c.pending != {}
    ensures ExistsCount(Recounted(line, c)) == Some(Overlay.AdjustedExists(n, c.pending))
  {
    hide Counted;
    var m := Overlay.AdjustedExists(n, c.pending);
    if m != n {
      CountedAt(ShowNat(m), "EXISTS");
      assert "* " + ShowNat(m) + " EXISTS" == "* " + ShowNat(m) + " " + "EXISTS";
      ReadShow(m);
      ExistsWord();
    }
  }

  lemma ExistsWord()
    ensures Upper("EXISTS") == "EXISTS"
  {
  }

  /** The agent reads the search result less the pending UIDs. */
  lemma SearchShown(line: string, c: Context)
    requires IsSearch(line) && ExistsCount(line) == None && c.folder && c.searchUid && c.pending != {} && |Words(line)| >= 2
    ensures Words(Recounted(line, c)) == Words(line)[..2] + Overlay.FilterSearch(Words(line)[2..], c.pending)
  {
    hide Words, IsSearch, ExistsCount, Clean;
    var kept := Words(line)[..2] + Overlay.FilterSearch(Words(line)[2..], c.pending);
    WordsClean(line);
    FilterKeepsWords(Words(line)[2..], c.pending);
    WordsOfJoin(kept);
  }

  lemma {:induction false} FilterKeepsWords(tokens: seq<string>, pending: set<nat>)
    requires forall i :: 0 <= i < |tokens| ==> Clean(tokens[i])
    ensures forall i :: 0 <= i < |Overlay.FilterSearch(tokens, pending)| ==> Clean(Overlay.FilterSearch(tokens, pending)[i])
  {
    hide Clean;
    if tokens == [] {
    } else {
      FilterKeepsWords(tokens[1..], pending);
    }
  }

  // ----- FETCH -----

  lemma UpperAt(s: string, i: nat)
    requires i < |s|
    ensures Upper(s)[i] == UpperChar(s[i])
  {
  }

  predicate OpensFetch(line: string) {
    match Counted(line) case Some((_, rest)) => Begins(rest, "FETCH (") case None => false
  }

  /** Where what stands between the parentheses begins. */
  function Inner(line: string): nat
    requires OpensFetch(line)
  {
    |line| - |Counted(line).value.1| + 7
  }

  /** A line "* n FETCH (" is no other response. */
  lemma FetchIsNothingElse(line: string)
    requires OpensFetch(line)
    ensures !IsCapability(line) && !IsSearch(line) && ExistsCount(line) == None && TaggedOk(line) == None && IsFetch(line)
  {
    hide ReadNat, DigitRun;
    var (n, rest) := Counted(line).value;
    assert IsDigit(line[2]) by { assert line[2] == n[0]; }
    UpperAt(rest[..7], 0);
    UpperAt(rest, 0);
    if |line| >= 8 {
      UpperAt(line[..8], 2);
    }
    if |line| >= 13 {
      UpperAt(line[..13], 2);
    }
    hide Counted, Upper;
    FetchWord(rest);
  }

  lemma FetchWord(rest: string)
    requires Begins(rest, "FETCH (")
    ensures Begins(rest, "FETCH") && BoundaryAt(rest, 5) && UpperChar(rest[0]) == 'F'
  {
    forall i | 0 <= i < 7 ensures UpperChar(rest[i]) == "FETCH ("[i] {
      UpperAt(rest[..7], i);
    }
    assert Upper(rest[..5]) == "FETCH" by {
      forall i | 0 <= i < 5 ensures Upper(rest[..5])[i] == "FETCH"[i] {
        UpperAt(rest[..5], i);
      }
    }
  }

  /** No UID stands in its head. */
  lemma FetchHead(line: string)
    requires OpensFetch(line)
    ensures Inner(line) <= |line| && forall i :: 0 <= i < Inner(line) ==> UidAt(line, i) == None
  {
    hide ReadNat, DigitRun, UidAt;
    var (n, rest) := Counted(line).value;
    var start := Inner(line);
    assert line[|line| - |rest|..] == rest;
    forall i | 0 <= i < 7 ensures UpperChar(rest[i]) == "FETCH ("[i] {
      UpperAt(rest[..7], i);
    }
    forall i | 0 <= i < start ensures UidAt(line, i) == None {
      if 2 <= i < 2 + |n| {
        assert line[i] == n[i - 2];
      } else if i >= start - 7 {
        assert line[i] == rest[i - (start - 7)];
      }
      NoUidHere(line, i);
    }
  }

  lemma NoUidHere(line: string, i: nat)
    requires i < |line| && UpperChar(line[i]) != 'U'
    ensures UidAt(line, i) == None
  {
    if Begins(line[i..], "UID ") {
      UpperAt(line[i..][..4], 0);
    }
  }

  lemma {:induction false} DigitRunStops(d: string, rest: string)
    requires rest == "" || !IsDigit(rest[0])
    ensures DigitRun(d + rest) == DigitRun(d)
  {
    if d == "" {
      assert d + rest == rest;
    } else if IsDigit(d[0]) {
      assert (d + rest)[1..] == d[1..] + rest;
      DigitRunStops(d[1..], rest);
    }
  }

  /** The closing ")" neither makes nor hides a UID. */
  lemma UidAtInside(line: string, start: nat, k: nat)
    requires 0 < start <= start + k < |line| && line[|line| - 1] == ')' && !IsWordChar(line[start - 1])
    ensures UidAt(line, start + k) == UidAt(line[start..|line| - 1], k)
  {
    hide DigitRun, ReadNat;
    var payload := line[start..|line| - 1];
    if k + 4 <= |payload| {
      assert line[start + k..][..4] == payload[k..][..4];
      var digits := payload[k + 4..];
      assert line[start + k..][4..] == digits + ")" && payload[k..][4..] == digits;
      DigitRunStops(digits, ")");
      assert (digits + ")")[..DigitRun(digits)] == digits[..DigitRun(digits)];
    } else if start + k + 4 == |line| {
      UpperAt(line[start + k..][..4], 3);
    }
  }

  lemma {:induction false} UidInside(line: string, start: nat, k: nat)
    requires 0 < start <= start + k < |line| && line[|line| - 1] == ')' && !IsWordChar(line[start - 1])
    ensures FindUid(line, start + k) == FindUid(line[start..|line| - 1], k)
    decreases |line| - k
  {
    hide UidAt;
    var payload := line[start..|line| - 1];
    UidAtInside(line, start, k);
    if k < |payload| {
      UidInside(line, start, k + 1);
    } else {
      assert UidAt(line, |line|) == None by { NoUidAtEnd(line); }
    }
  }

  lemma {:induction false} UidAfter(s: string, from: nat, to: nat)
    requires from <= to <= |s| && forall i :: from <= i < to ==> UidAt(s, i) == None
    ensures FindUid(s, from) == FindUid(s, to)
    decreases |s| - from
  {
    hide UidAt;
    if from < to {
      UidAfter(s, from + 1, to);
    }
  }

  lemma NoUidAtEnd(line: string)
    requires line != ""
    ensures UidAt(line, |line|) == None && FindUid(line, |line|) == None && FindUid(line, |line| - 1) == None
  {
  }

  lemma ClosedPayload(line: string)
    requires OpensFetch(line) && line[|line| - 1] == ')'
    ensures 0 < Inner(line) <= |line| && !IsWordChar(line[Inner(line) - 1])
    ensures Inner(line) < |line| - 1 ==> FetchPayload(line) == Some(line[Inner(line)..|line| - 1])
  {
    hide DigitRun, ReadNat;
    var (n, rest) := Counted(line).value;
    assert line[|line| - |rest|..] == rest;
    UpperAt(rest[..7], 6);
    if Inner(line) < |line| - 1 {
      assert line[Inner(line)..|line| - 1] == rest[7..|rest| - 1];
    }
  }

  /** The UID a closed line names is the one parse_fetch_line finds. */
  lemma ClosedLineUid(line: string)
    requires OpensFetch(line) && FindUid(line, 0).Some? && line[|line| - 1] == ')'
    ensures FetchUid(line) == FindUid(line, 0)
  {
    hide UidAt, FindUid, FetchPayload, OpensFetch, Inner, IsWordChar;
    var start := Inner(line);
    FetchHead(line);
    ClosedPayload(line);
    UidAfter(line, 0, start);
    NoUidAtEnd(line);
    if start < |line| - 1 {
      UidInside(line, start, 0);
    }
  }

  /**
   * Of the FETCH lines that name a message with a pending move, those that close on the line
   * and announce no literal are withheld, and only those: the header line of a fetched body
   * passes, and the literal follows it.
   */
  lemma PendingFetchHiddenIff(tags: Tags, line: string, continues: bool, c: Context, uid: nat)
    requires OpensFetch(line) && FindUid(line, 0) == Some(uid)
    requires c.folder && uid in c.pending
    ensures var h, hidden := Handle(tags, line, continues, c), FetchLiteral(line) == None && line[|line| - 1] == ')';
            && (h.sent == [] <==> hidden) && (h.sent == [line] <==> !hidden)
            && (FetchLiteral(line).Some? ==> h.literal == FetchLiteral(line)) && (hidden ==> h.literal == None)
  {
    hide FetchUid, IsFetch, FetchLiteral, FindUid, OpensFetch, Announces, Filtered, Fires, Recounted, Patched, Suppressed;
    FetchUntouched(tags, line, c);
    if line[|line| - 1] == ')' {
      ClosedLineUid(line);
      ClosedSuppressed(line, c, uid);
    } else {
      OpenLine(line, c);
    }
    assert [] + [line] == [line];
  }

  lemma FetchUntouched(tags: Tags, line: string, c: Context)
    requires OpensFetch(line)
    ensures Recounted(Filtered(tags, line, c), c) == line && !Fires(tags, line, c) && line != ""
  {
    hide IsFetch, IsCapability, IsSearch, ExistsCount, TaggedOk, Counted, Begins;
    FetchIsNothingElse(line);
    assert line != "" by { NotEmpty(line); }
  }

  lemma NotEmpty(line: string)
    requires OpensFetch(line)
    ensures line != ""
  {
  }

  lemma ClosedSuppressed(line: string, c: Context, uid: nat)
    requires OpensFetch(line) && FetchUid(line) == Some(uid) && c.folder && uid in c.pending
    ensures Suppressed(line, c)
  {
    hide FetchUid, IsCapability, IsSearch, ExistsCount, TaggedOk, OpensFetch, IsFetch;
    FetchIsNothingElse(line);
  }

  lemma OpenLine(line: string, c: Context)
    requires line == "" || line[|line| - 1] != ')'
    ensures FetchPayload(line) == None && !Suppressed(line, c) && Patched(line, c) == line
  {
    hide FindUid, FindFlags, Merged, ReplacementText;
  }

  predicate Listable(flag: string) {
    Clean(flag) && ')' !in flag && '\\' !in flag
  }

  lemma NoParen(flags: seq<string>, rest: string)
    requires forall i :: 0 <= i < |flags| ==> Listable(flags[i])
    ensures IndexOf(Join(flags, ' ') + ")" + rest, ')') == |Join(flags, ' ')|
  {
    JoinLacks(flags, ')');
    IndexOfAt(Join(flags, ' '), ')', rest);
    assert Join(flags, ' ') + [')'] + rest == Join(flags, ' ') + ")" + rest;
  }

  predicate FlagsHere(s: string, i: nat)
    requires i <= |s|
  {
    Begins(s[i..], "FLAGS (") && (i == 0 || !IsWordChar(s[i - 1]))
  }

  /** FindFlags stops at the first place where a list opens and is closed somewhere. */
  lemma {:induction false} FoundFirst(s: string, from: nat)
    requires from <= |s| && FindFlags(s, from).Some?
    ensures var (i, j) := FindFlags(s, from).value;
            && FlagsHere(s, i) && j == i + 8 + IndexOf(s[i + 7..], ')')
            && forall k :: from <= k < i ==> !FlagsHere(s, k)
    decreases |s| - from
  {
    hide FlagsHere, IndexOf, FindFlags;
    FindFlagsStep(s, from);
    if FlagsHere(s, from) && IndexOf(s[from + 7..], ')') < |s[from + 7..]| {
    } else {
      FoundFirst(s, from + 1);
      var (i, j) := FindFlags(s, from).value;
      WouldClose(s, from, j);
    }
  }

  /** A list that opens here would be closed where a later one is. */
  lemma WouldClose(s: string, from: nat, j: nat)
    requires from + 8 <= j <= |s| && s[j - 1] == ')'
    ensures IndexOf(s[from + 7..], ')') < |s[from + 7..]|
  {
    hide IndexOf;
    assert s[from + 7..][j - 8 - from] == s[j - 1];
    Found(s[from + 7..], j - 8 - from);
  }

  lemma FindFlagsStep(s: string, from: nat)
    requires from <= |s|
    ensures FlagsHere(s, from) ==> from + 7 <= |s|
    ensures FindFlags(s, from) ==
            if FlagsHere(s, from) && IndexOf(s[from + 7..], ')') < |s[from + 7..]|
            then Some((from, from + 8 + IndexOf(s[from + 7..], ')')))
            else if from == |s| then None else FindFlags(s, from + 1)
  {
  }

  lemma {:induction false} Found(s: string, k: nat)
    requires k < |s| && s[k] == ')'
    ensures IndexOf(s, ')') < |s|
  {
    if s[0] != ')' {
      Found(s[1..], k - 1);
    }
  }

  lemma {:induction false} FindAt(s: string, from: nat, i: nat)
    requires from <= i <= |s| && FlagsHere(s, i) && IndexOf(s[i + 7..], ')') < |s[i + 7..]|
    requires forall k :: from <= k < i ==> !FlagsHere(s, k)
    ensures FindFlags(s, from) == Some((i, i + 8 + IndexOf(s[i + 7..], ')')))
    decreases i - from
  {
    hide FlagsHere, IndexOf, FindFlags;
    FindFlagsStep(s, from);
    if from < i {
      FindAt(s, from + 1, i);
    }
  }

  /** Replacing the list moves no earlier place where a list could open. */
  lemma SamePlaces(line: string, i: nat, j: nat, text: string)
    requires i + 8 <= j <= |line| && FlagsHere(line, i) && |text| >= 8 && text[..7] == "FLAGS ("
    ensures var s := line[..i] + text + line[j..];
            && FlagsHere(s, i) && forall k :: 0 <= k < i ==> (FlagsHere(s, k) <==> FlagsHere(line, k))
  {
    var s := line[..i] + text + line[j..];
    assert s[i..][..7] == text[..7];
    FlagsWord();
    forall k | 0 <= k < i ensures FlagsHere(s, k) <==> FlagsHere(line, k) {
      var a, b := s[k..][..7], line[k..][..7];
      forall m | 0 <= m < 7 ensures Upper(a)[m] == Upper(b)[m] {
        if k + m >= i {
          assert a[m] == text[k + m - i] && Upper(line[i..][..7])[k + m - i] == UpperChar(line[k + m]);
          assert Upper(text[..7])[k + m - i] == UpperChar(text[k + m - i]);
        }
      }
      assert Upper(a) == Upper(b);
    }
  }

  lemma FlagsWord()
    ensures Upper("FLAGS (") == "FLAGS ("
  {
  }

  /**
   * When the patch goes through, the agent reads from the line exactly the upstream flags
   * with the pending additions and without the pending removals.
   */
  lemma PatchedLineReads(line: string, c: Context, payload: string, uid: nat)
    requires FetchPayload(line) == Some(payload) && FindUid(payload, 0) == Some(uid) && FindFlags(line, 0).Some? && c.folder
    requires var (add, remove) := c.changes(uid);
             (add != [] || remove != []) && forall f :: f in Merged(line, payload, add, remove) ==> Listable(f)
    ensures var (add, remove) := c.changes(uid);
            var s := Patched(line, c);
            FindFlags(s, 0).Some? &&
            var (i, j) := FindFlags(s, 0).value;
            AsSet(Words(s[i + 7..j - 1])) == Merged(line, payload, add, remove)
  {
    hide FindUid, FetchPayload, Merged, Words, FindFlags, FlagsHere, IndexOf, FlagsText, ReplacementText, SortedFlags, Join;
    hide Standard, Clean;
    var (add, remove) := c.changes(uid);
    var merged := Merged(line, payload, add, remove);
    var list := SortedFlags(merged);
    var (i, j) := FindFlags(line, 0).value;
    FoundFirst(line, 0);
    var text := FlagsText(merged);
    var s := line[..i] + text + line[j..];
    AllStandard(merged, line[i..j]);
    assert Patched(line, c) == s;
    forall k | 0 <= k < |list| ensures Listable(list[k]) {
      assert list[k] in AsSet(list);
    }
    hide Patched;
    ReadsBack(line, i, j, merged);
    AllClean(list);
    WordsOfJoin(list);
  }

  lemma AllClean(list: seq<string>)
    requires forall k :: 0 <= k < |list| ==> Listable(list[k])
    ensures forall k :: 0 <= k < |list| ==> Clean(list[k])
  {
  }

  lemma AllStandard(flags: set<string>, matched: string)
    requires forall f :: f in flags ==> Listable(f)
    ensures ReplacementText(FlagsText(flags), matched) == Some(FlagsText(flags))
  {
    hide ReplacementText, FlagsText;
    PatchTakesEffectIff(flags, matched);
  }

  lemma ReadsBack(line: string, i: nat, j: nat, flags: set<string>)
    requires i + 8 <= j <= |line| && FlagsHere(line, i) && forall k :: 0 <= k < i ==> !FlagsHere(line, k)
    requires forall k :: 0 <= k < |SortedFlags(flags)| ==> Listable(SortedFlags(flags)[k])
    ensures var s, n := line[..i] + FlagsText(flags) + line[j..], |Join(SortedFlags(flags), ' ')|;
            FindFlags(s, 0) == Some((i, i + 8 + n)) && i + 8 + n <= |s| && s[i + 7..i + 7 + n] == Join(SortedFlags(flags), ' ')
  {
    hide FlagsHere, IndexOf, FlagsText, SortedFlags, Join, Listable;
    TextParts(flags, line[..i], line[j..]);
    SamePlaces(line, i, j, FlagsText(flags));
    FindAt(line[..i] + FlagsText(flags) + line[j..], 0, i);
  }

  lemma TextParts(flags: set<string>, before: string, after: string)
    requires forall k :: 0 <= k < |SortedFlags(flags)| ==> Listable(SortedFlags(flags)[k])
    ensures var list, text := SortedFlags(flags), FlagsText(flags);
            var s, i := before + text + after, |before|;
            && |text| >= 8 && text[..7] == "FLAGS (" && IndexOf(s[i + 7..], ')') == |Join(list, ' ')| < |s[i + 7..]|
            && s[i + 7..i + 7 + |Join(list, ' ')|] == Join(list, ' ')
  {
    var list, text := SortedFlags(flags), FlagsText(flags);
    var s, i := before + text + after, |before|;
    assert s[i + 7..] == Join(list, ' ') + ")" + after;
    NoParen(list, after);
  }
}
