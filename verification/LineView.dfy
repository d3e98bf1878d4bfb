// What one upstream line makes the agent read, on the lines Handle sends:
// reverts told before a tagged OK, capabilities, EXISTS, SEARCH and FETCH
// (gateway/proxy.py, _inject_pending_reverts and _upstream_to_client).
module LineView {
  import opened Wrappers
  import opened Text
  import opened Flags
  import opened ImapParser
  import opened ResponseLine
  import opened AgentView
  import opened UpstreamPump
  import Overlay

  // ----- the tagged OK -----

  /** The tag is line[..n], white space up to m, then the word OK. */
  predicate OkAt(line: string, tag: string, n: nat, m: nat) {
    && 0 < n < m && m + 2 <= |line| && Upper(line[..n]) == tag
    && (forall i :: 0 <= i < n ==> IsLetter(line[i]) || IsDigit(line[i]))
    && (forall i :: n <= i < m ==> IsSpace(line[i]))
    && UpperChar(line[m]) == 'O' && UpperChar(line[m + 1]) == 'K' && (m + 2 < |line| ==> !IsWordChar(line[m + 2]))
  }

  /** The line is the OK that answers the tag, in any case of its letters. */
  ghost predicate Confirms(line: string, tag: string) {
    exists n: nat, m: nat :: OkAt(line, tag, n, m)
  }

  lemma {:induction false} TagRunIs(s: string, n: nat)
    requires n <= |s| && (forall i :: 0 <= i < n ==> IsLetter(s[i]) || IsDigit(s[i]))
    requires n < |s| ==> !IsLetter(s[n]) && !IsDigit(s[n])
    ensures TagRun(s) == n
  {
    if n == 0 {
    } else {
      TagRunIs(s[1..], n - 1);
    }
  }

  lemma {:induction false} TagRunChars(s: string)
    ensures forall i :: 0 <= i < TagRun(s) ==> IsLetter(s[i]) || IsDigit(s[i])
  {
    if s == "" || !(IsLetter(s[0]) || IsDigit(s[0])) {
    } else {
      TagRunChars(s[1..]);
      forall i | 0 <= i < TagRun(s) ensures IsLetter(s[i]) || IsDigit(s[i]) {
        assert i > 0 ==> s[i] == s[1..][i - 1];
      }
    }
  }

  lemma {:induction false} TrimLeftIs(s: string, k: nat)
    requires k < |s| && (forall i :: 0 <= i < k ==> IsSpace(s[i])) && !IsSpace(s[k])
    ensures TrimLeft(s) == s[k..]
  {
    if k == 0 {
    } else {
      TrimLeftIs(s[1..], k - 1);
    }
  }

  lemma {:induction false} TrimLeftAt(s: string) returns (k: nat)
    ensures k <= |s| && TrimLeft(s) == s[k..] && forall i :: 0 <= i < k ==> IsSpace(s[i])
  {
    if s == "" || !IsSpace(s[0]) {
      k := 0;
    } else {
      var j := TrimLeftAt(s[1..]);
      k := j + 1;
      assert forall i :: 0 < i < k ==> s[i] == s[1..][i - 1];
    }
  }

  lemma OkWord(rest: string)
    ensures Begins(rest, "OK") <==> |rest| >= 2 && UpperChar(rest[0]) == 'O' && UpperChar(rest[1]) == 'K'
  {
    if |rest| >= 2 {
      var two := Upper(rest[..2]);
      assert two[0] == UpperChar(rest[0]) && two[1] == UpperChar(rest[1]);
      assert two == [UpperChar(rest[0]), UpperChar(rest[1])];
    }
  }

  lemma OkFound(line: string, tag: string)
    requires TaggedOk(line).Some? && Upper(TaggedOk(line).value) == tag
    ensures Confirms(line, tag)
  {
    hide Upper;
    var n := TagRun(line);
    TagRunChars(line);
    var k := TrimLeftAt(line[n..]);
    OkWord(TrimLeft(line[n..]));
    assert forall i :: n <= i < n + k ==> line[i] == line[n..][i - n];
    assert line[n..][k..] == line[n + k..];
    assert k > 0;
    assert OkAt(line, tag, n, n + k);
  }

  lemma OkRead(line: string, tag: string, n: nat, m: nat)
    requires OkAt(line, tag, n, m)
    ensures TaggedOk(line) == Some(line[..n])
  {
    hide Upper;
    assert IsSpace(line[n]);
    TagRunIs(line, n);
    assert forall i :: 0 <= i < m - n ==> line[n..][i] == line[i + n];
    TrimLeftIs(line[n..], m - n);
    assert line[n..][m - n..] == line[m..];
    OkWord(line[m..]);
  }

  lemma ConfirmsIff(line: string, tag: string)
    ensures Confirms(line, tag) <==> TaggedOk(line).Some? && Upper(TaggedOk(line).value) == tag
  {
    hide TaggedOk;
    if TaggedOk(line).Some? && Upper(TaggedOk(line).value) == tag {
      OkFound(line, tag);
    }
    if Confirms(line, tag) {
      var n: nat, m: nat :| OkAt(line, tag, n, m);
      OkRead(line, tag, n, m);
    }
  }

  // ----- reverts -----

  /** A flag that a list in parentheses can carry. */
  predicate Carried(flag: string) {
    Clean(flag) && ')' !in flag
  }

  /** The agent reads from the line the flags of one message, by sequence number and UID. */
  ghost predicate Tells(line: string, r: Revert) {
    && OpensFetch(line) && ReadNat(Counted(line).value.0) == r.sequence && FetchUid(line) == Some(r.uid)
    && ((forall i :: 0 <= i < |r.flags| ==> Carried(r.flags[i])) ==>
          match FindFlags(line, 0) case Some((i, j)) => Words(line[i + 7..j - 1]) == r.flags case None => false)
  }

  lemma FetchUpper()
    ensures Upper("FETCH (") == "FETCH (" && Upper("UID ") == "UID "
  {
  }

  lemma UidFirst(n: nat, rest: string)
    requires rest != "" && !IsWordChar(rest[0])
    ensures FindUid("UID " + ShowNat(n) + rest, 0) == Some(n)
  {
    var d := ShowNat(n);
    var s := "UID " + d + rest;
    FetchUpper();
    assert s[0..] == s && s[..4] == "UID ";
    var digits := s[4..];
    assert digits == d + rest;
    DigitRunAt(d, rest);
    assert digits[..|d|] == d && digits[|d|] == rest[0];
    ReadShow(n);
    assert UidAt(s, 0) == Some(n);
  }

  /** Where a told revert's list opens, nothing before it does. */
  lemma NoListBefore(s: string, i: nat)
    requires i < |s| && (UpperChar(s[i]) != 'F' || (i + 1 < |s| && UpperChar(s[i + 1]) != 'L'))
    ensures !FlagsHere(s, i)
  {
    if |s[i..]| >= 7 {
      var w := s[i..][..7];
      assert w[0] == s[i] && w[1] == s[i + 1];
      UpperAt(w, 0);
      UpperAt(w, 1);
    }
  }

  predicate NoListUpTo(s: string, n: nat)
    requires n <= |s|
  {
    forall i :: 0 <= i < n ==> !FlagsHere(s, i)
  }

  lemma HeadHasNoList(sequence: nat, uid: nat, rest: string)
    ensures var head := "* " + ShowNat(sequence) + " FETCH (UID " + ShowNat(uid) + " "; NoListUpTo(head + rest, |head|)
  {
    hide ShowNat, FlagsHere;
    var a, b := ShowNat(sequence), ShowNat(uid);
    var head := "* " + a + " FETCH (UID " + b + " ";
    var s := head + rest;
    var mid := " FETCH (UID ";
    forall i | 0 <= i < |head| ensures !FlagsHere(s, i) {
      assert s[i] == head[i];
      if i < 2 {
        assert s[i] == "* "[i];
      } else if i < 2 + |a| {
        assert s[i] == a[i - 2];
        assert IsDigit(s[i]);
      } else if i < 2 + |a| + |mid| {
        assert s[i] == mid[i - 2 - |a|];
        if i == 3 + |a| {
          assert s[i + 1] == head[i + 1] == mid[2];
        }
      } else if i < 2 + |a| + |mid| + |b| {
        assert s[i] == b[i - 2 - |a| - |mid|];
        assert IsDigit(s[i]);
      } else {
        assert s[i] == ' ';
      }
      NoListBefore(s, i);
    }
  }

  lemma ToldList(head: string, list: string)
    requires ')' !in list && head != "" && head[|head| - 1] == ' ' && NoListUpTo(head + ("FLAGS (" + list + "))"), |head|)
    ensures var s, n := head + ("FLAGS (" + list + "))"), |head|;
            FindFlags(s, 0) == Some((n, n + 8 + |list|)) && n + 8 + |list| <= |s| && s[n + 7..n + 7 + |list|] == list
  {
    hide FindFlags;
    var text := "FLAGS (" + list + "))";
    var s, n := head + text, |head|;
    assert s[n..] == text && text[..7] == "FLAGS (";
    FlagsWord();
    assert FlagsHere(s, n) by {
      assert s[n - 1] == ' ';
      assert Begins(s[n..], "FLAGS (");
    }
    assert s[n + 7..] == list + [')'] + ")";
    IndexOfAt(list, ')', ")");
    assert forall k :: 0 <= k < n ==> !FlagsHere(s, k);
    FindAt(s, 0, n);
  }

  lemma RevertNumbers(r: Revert)
    ensures var line := RevertLine(r);
            OpensFetch(line) && ReadNat(Counted(line).value.0) == r.sequence && FetchUid(line) == Some(r.uid)
  {
    hide ShowNat, Join, FindUid, DigitRun, ReadNat, Counted;
    var line, list := RevertLine(r), Join(r.flags, ' ');
    var a, b := ShowNat(r.sequence), ShowNat(r.uid);
    var payload := "UID " + b + (" FLAGS (" + list + ")");
    var rest := "FETCH (" + payload + ")";
    assert line == "* " + a + " " + rest;
    CountedAt(a, rest);
    ReadShow(r.sequence);
    FetchUpper();
    assert rest[..7] == "FETCH (" && rest[7..|rest| - 1] == payload;
    assert FetchPayload(line) == Some(payload);
    UidFirst(r.uid, " FLAGS (" + list + ")");
  }

  lemma RevertFlags(r: Revert)
    requires forall i :: 0 <= i < |r.flags| ==> Carried(r.flags[i])
    ensures match FindFlags(RevertLine(r), 0) case Some((i, j)) => Words(RevertLine(r)[i + 7..j - 1]) == r.flags case None => false
  {
    hide ShowNat, Join, Words, FindFlags, Clean, NoListUpTo;
    var list := Join(r.flags, ' ');
    assert forall i :: 0 <= i < |r.flags| ==> Clean(r.flags[i]) && ')' !in r.flags[i];
    JoinLacks(r.flags, ')');
    var head := "* " + ShowNat(r.sequence) + " FETCH (UID " + ShowNat(r.uid) + " ";
    HeadHasNoList(r.sequence, r.uid, "FLAGS (" + list + "))");
    assert RevertLine(r) == head + ("FLAGS (" + list + "))");
    assert head[|head| - 1] == ' ';
    ToldList(head, list);
    WordsOfJoin(r.flags);
  }

  lemma RevertTells(r: Revert)
    ensures Tells(RevertLine(r), r)
  {
    hide RevertLine, OpensFetch, Counted, FetchUid, FindFlags, Words, Carried, ReadNat;
    RevertNumbers(r);
    if forall i :: 0 <= i < |r.flags| ==> Carried(r.flags[i]) {
      RevertFlags(r);
    }
  }

  lemma CapabilityNotTagged(line: string)
    requires IsCapability(line)
    ensures TaggedOk(line) == None && TaggedOk(FilterCapabilities(line)) == None
  {
    hide Words, Join, KeptAtoms;
    UpperAt(line[..13], 0);
    assert line[0] == '*' && FilterCapabilities(line)[0] == line[0];
  }

  lemma FiresIff(tags: Tags, line: string, c: Context)
    ensures Fires(tags, line, c) <==>
            var due := if c.revertIssued.Some? then c.revertIssued else tags.revert; due.Some? && Confirms(line, due.value)
  {
    hide TaggedOk, FilterCapabilities, IsCapability, Confirms, Upper;
    var due := if c.revertIssued.Some? then c.revertIssued else tags.revert;
    if IsCapability(line) {
      CapabilityNotTagged(line);
    }
    if due.Some? {
      ConfirmsIff(line, due.value);
    }
  }

  /**
   * For every session and line: the lines sent are the pending reverts, each read back by the
   * agent as the message and flags it is for, in order, and after them what the line would have
   * given alone. They are told exactly when the line is the OK of the outstanding command, and
   * that command's tag is then forgotten.
   */
  lemma RevertsTold(tags: Tags, line: string, continues: bool, c: Context)
    ensures var h := Handle(tags, line, continues, c);
            var due := if c.revertIssued.Some? then c.revertIssued else tags.revert;
            var told := due.Some? && Confirms(line, due.value);
            var n := if told then |c.reverts| else 0;
            && n <= |h.sent| && (forall i :: 0 <= i < n ==> Tells(h.sent[i], c.reverts[i]))
            && h.sent[n..] == Handle(tags.(revert := None), line, continues, c.(revertIssued := None)).sent
            && h.tags.revert == (if told then None else due)
            && h.literal == Handle(tags.(revert := None), line, continues, c.(revertIssued := None)).literal
  {
    hide Tells, Fires, Confirms, FetchLiteral, Suppressed, Patched, Announces, Recounted, Filtered, IsCapability, RevertLine;
    FiresIff(tags, line, c);
    FiresIff(tags.(revert := None), line, c.(revertIssued := None));
    SameWithoutReverts(tags, line, c);
    forall i | 0 <= i < |c.reverts| ensures Tells(RevertLines(c.reverts)[i], c.reverts[i]) {
      RevertTells(c.reverts[i]);
    }
  }

  lemma SameWithoutReverts(tags: Tags, line: string, c: Context)
    ensures var d := c.(revertIssued := None);
            var l := Recounted(Filtered(tags, line, c), c);
            && l == Recounted(Filtered(tags.(revert := None), line, d), d) && (Suppressed(l, c) <==> Suppressed(l, d))
            && Patched(l, c) == Patched(l, d)
  {
    hide IsCapability, FilterCapabilities, ExistsCount, IsSearch, IsFetch, FetchUid, FetchPayload, FindUid, FindFlags, Merged,
         ReplacementText;
  }

  // ----- at most one telling for each command -----

  /** A stretch of lines, each with its mark of going on after a literal. */
  type Lines = seq<(string, bool)>

  function TagsAfter(tags: Tags, lines: Lines, k: nat, ctx: Contexts): Tags
    decreases |lines|
  {
    if lines == [] then tags
    else TagsAfter(Handle(tags, lines[0].0, lines[0].1, ctx(k)).tags, lines[1..], k + 1, ctx)
  }

  /** The lines that confirm an outstanding command, and so tell reverts. */
  ghost function Tellings(tags: Tags, lines: Lines, k: nat, ctx: Contexts): nat
    decreases |lines|
  {
    if lines == [] then 0
    else
      var due := if ctx(k).revertIssued.Some? then ctx(k).revertIssued else tags.revert;
      (if due.Some? && Confirms(lines[0].0, due.value) then 1 else 0)
      + Tellings(Handle(tags, lines[0].0, lines[0].1, ctx(k)).tags, lines[1..], k + 1, ctx)
  }

  /** How many commands that let reverts be told were sent meanwhile. */
  function Issued(n: nat, k: nat, ctx: Contexts): nat {
    if n == 0 then 0 else (if ctx(k).revertIssued.Some? then 1 else 0) + Issued(n - 1, k + 1, ctx)
  }

  function Outstanding(tags: Tags): nat {
    if tags.revert.Some? then 1 else 0
  }

  /** Over every stretch of lines, each command has its reverts told at most once. */
  lemma {:induction false} ToldOncePerCommand(tags: Tags, lines: Lines, k: nat, ctx: Contexts)
    ensures Tellings(tags, lines, k, ctx) + Outstanding(TagsAfter(tags, lines, k, ctx)) <= Issued(|lines|, k, ctx) + Outstanding(tags)
    decreases |lines|
  {
    hide Handle, Confirms, Tells;
    if lines == [] {
    } else {
      RevertsTold(tags, lines[0].0, lines[0].1, ctx(k));
      ToldOncePerCommand(Handle(tags, lines[0].0, lines[0].1, ctx(k)).tags, lines[1..], k + 1, ctx);
    }
  }

  // ----- capabilities -----

  predicate CapabilityLine(line: string) {
    |line| >= 13 && Upper(line[..13]) == "* CAPABILITY "
  }

  /** Not a literal or a framing extension, not a protocol the gateway does not speak, not compression. */
  predicate Permitted(atom: string) {
    && Upper(atom) !in {"LITERAL+", "LITERAL-", "REPLACE", "STARTTLS", "IMAP4REV2", "BINARY", "MULTIAPPEND"}
    && !("COMPRESS=" <= Upper(atom))
  }

  /** The line is shown with its permitted atoms and no others. */
  ghost predicate OnlyPermitted(line: string, shown: string) {
    |line| >= 13 && CapabilityLine(shown)
    && forall atom :: atom in Words(shown[13..]) <==> atom in Words(line[13..]) && Permitted(atom)
  }

  /** The line that ends the command, whatever its result. */
  predicate AnswersTag(line: string, tag: string) {
    !CapabilityLine(line) && Upper(line[..IndexOf(line, ' ')]) == tag
  }

  lemma CapabilityIsNothingElse(line: string)
    requires CapabilityLine(line)
    ensures Counted(line) == None && !IsSearch(line) && TaggedOk(line) == None && (line[0] == '*' && line[1] == ' ')
  {
    hide DigitRun, ReadNat;
    UpperAt(line[..13], 0);
    UpperAt(line[..13], 1);
    UpperAt(line[..13], 2);
    assert UpperChar(line[2]) == 'C';
    assert !IsDigit(line[2]);
    if IsSearch(line) {
      UpperAt(line[..8], 2);
    }
  }

  lemma NothingElseChanges(line: string, c: Context)
    requires Counted(line) == None && !IsSearch(line)
    ensures Recounted(line, c) == line && FetchLiteral(line) == None && !Suppressed(line, c) && Patched(line, c) == line
  {
    hide DigitRun, Counted, IsSearch, Words;
  }

  /** While its command is outstanding, a CAPABILITY response is shown with permitted atoms only; otherwise as it is. */
  lemma CapabilityShown(tags: Tags, line: string, continues: bool, c: Context)
    requires CapabilityLine(line)
    ensures var h := Handle(tags, line, continues, c);
            && |h.sent| == 1
            && if c.capabilityIssued.Some? || tags.capability.Some? then OnlyPermitted(line, h.sent[0]) else h.sent == [line]
  {
    hide Counted, Words, TaggedOk, FilterCapabilities, Recounted, Suppressed, Patched, FetchLiteral, Announces, IsSearch, Upper;
    var l := Filtered(tags, line, c);
    CapabilitiesFiltered(line);
    assert CapabilityLine(l) && IsCapability(line) && (l != line ==> l == FilterCapabilities(line));
    CapabilityIsNothingElse(l);
    NothingElseChanges(l, c);
    assert [] + [l] == [l];
    if c.capabilityIssued.Some? || tags.capability.Some? {
      forall atom ensures atom in Words(l[13..]) <==> atom in Words(line[13..]) && Permitted(atom) {
        assert KeepCapability(atom) <==> Permitted(atom);
      }
    }
  }

  /** Over every stretch of lines the CAPABILITY command stays outstanding until its own answer, and no longer. */
  lemma {:induction false} OutstandingUntilAnswered(tags: Tags, lines: Lines, k: nat, ctx: Contexts, tag: string)
    requires tags.capability == Some(tag) && forall i :: k <= i < k + |lines| ==> ctx(i).capabilityIssued == None
    ensures TagsAfter(tags, lines, k, ctx).capability ==
            if exists i :: 0 <= i < |lines| && AnswersTag(lines[i].0, tag) then None else Some(tag)
    decreases |lines|
  {
    hide FetchLiteral, Suppressed, Patched, Announces, Recounted, Filtered, Fires, Upper, AnswersTag;
    if lines == [] {
    } else {
      var next := Handle(tags, lines[0].0, lines[0].1, ctx(k)).tags;
      AnswerEnds(tags, lines[0].0, lines[0].1, ctx(k), tag);
      assert forall i :: 0 <= i < |lines[1..]| ==> lines[1..][i] == lines[i + 1];
      assert forall i :: 0 < i < |lines| ==> lines[i] == lines[1..][i - 1];
      if AnswersTag(lines[0].0, tag) {
        NothingOutstanding(next, lines[1..], k + 1, ctx);
      } else {
        OutstandingUntilAnswered(next, lines[1..], k + 1, ctx, tag);
      }
    }
  }

  lemma AnswerEnds(tags: Tags, line: string, continues: bool, c: Context, tag: string)
    requires tags.capability == Some(tag) && c.capabilityIssued == None
    ensures Handle(tags, line, continues, c).tags.capability == if AnswersTag(line, tag) then None else Some(tag)
  {
    hide FetchLiteral, Suppressed, Patched, Announces, Recounted, Filtered, Fires, Upper;
    assert IsCapability(line) <==> CapabilityLine(line);
  }

  lemma {:induction false} NothingOutstanding(tags: Tags, lines: Lines, k: nat, ctx: Contexts)
    requires tags.capability == None && forall i :: k <= i < k + |lines| ==> ctx(i).capabilityIssued == None
    ensures TagsAfter(tags, lines, k, ctx).capability == None
    decreases |lines|
  {
    hide FetchLiteral, Suppressed, Patched, Announces, Recounted, Filtered, Fires, Upper;
    if lines == [] {
    } else {
      NothingOutstanding(Handle(tags, lines[0].0, lines[0].1, ctx(k)).tags, lines[1..], k + 1, ctx);
    }
  }

  // ----- EXISTS -----

  lemma CountedIsNothingElse(d: string, rest: string)
    requires AllDigits(d)
    ensures var line := "* " + d + " " + rest;
            !CapabilityLine(line) && !IsSearch(line) && TaggedOk(line) == None && Counted(line) == Some((d, rest))
  {
    hide DigitRun, ReadNat;
    var line := "* " + d + " " + rest;
    CountedAt(d, rest);
    assert line[2] == d[0];
    if CapabilityLine(line) {
      UpperAt(line[..13], 2);
    }
    if IsSearch(line) {
      UpperAt(line[..8], 2);
    }
  }

  lemma ExistsIsNoFetch(w: string)
    requires Upper(w) == "EXISTS"
    ensures !Begins(w, "FETCH") && !Begins(w, "FETCH (")
  {
    UpperAt(w, 0);
    assert |w| == 6 && UpperChar(w[0]) == 'E';
    UpperAt(w[..5], 0);
  }

  lemma ExistsPasses(d: string, w: string, c: Context)
    requires AllDigits(d) && Upper(w) == "EXISTS"
    ensures var line := "* " + d + " " + w; FetchLiteral(line) == None && !Suppressed(line, c) && Patched(line, c) == line
  {
    hide DigitRun, ReadNat, Counted, Begins;
    CountedAt(d, w);
    ExistsIsNoFetch(w);
  }

  /** The count the agent is sent is the upstream count less the pending UIDs of the folder, never below zero. */
  lemma CountShown(tags: Tags, d: string, w: string, continues: bool, c: Context)
    requires AllDigits(d) && Upper(w) == "EXISTS"
    ensures var line, n := "* " + d + " " + w, ReadNat(d);
            var hidden := if c.folder then |c.pending| else 0;
            var shown := if n >= hidden then n - hidden else 0;
            Handle(tags, line, continues, c).sent == [if shown == n then line else "* " + ShowNat(shown) + " EXISTS"]
  {
    hide Counted, DigitRun, ReadNat, ShowNat, TaggedOk, FetchLiteral, Suppressed, Patched, Announces, IsSearch, Upper;
    var line := "* " + d + " " + w;
    CountedIsNothingElse(d, w);
    assert !IsCapability(line);
    ExistsPasses(d, w, c);
    var m := Overlay.AdjustedExists(ReadNat(d), c.pending);
    var l := "* " + ShowNat(m) + " " + "EXISTS";
    assert "* " + ShowNat(m) + " EXISTS" == l;
    ExistsWord();
    ExistsPasses(ShowNat(m), "EXISTS", c);
    var sent := Recounted(line, c);
    assert [] + [sent] == [sent];
  }

  // ----- SEARCH -----

  predicate SearchLine(line: string) {
    |line| >= 8 && Upper(line[..8]) == "* SEARCH" && (|line| == 8 || !IsWordChar(line[8]))
  }

  /** A UID of the pending set, in digits. */
  predicate NamesPending(token: string, pending: set<nat>) {
    AllDigits(token) && ReadNat(token) in pending
  }

  /** kept is tokens without those that name a pending UID, the others in their order. */
  ghost predicate WithoutPending(tokens: seq<string>, kept: seq<string>, pending: set<nat>)
    decreases |tokens|
  {
    if tokens == [] then kept == []
    else if NamesPending(tokens[0], pending) then WithoutPending(tokens[1..], kept, pending)
    else kept != [] && kept[0] == tokens[0] && WithoutPending(tokens[1..], kept[1..], pending)
  }

  lemma {:induction false} FilterIsWithoutPending(tokens: seq<string>, pending: set<nat>)
    ensures WithoutPending(tokens, Overlay.FilterSearch(tokens, pending), pending)
  {
    if tokens == [] {
    } else {
      FilterIsWithoutPending(tokens[1..], pending);
      var kept := Overlay.FilterSearch(tokens[1..], pending);
      assert [] + kept == kept && ([tokens[0]] + kept)[1..] == kept;
    }
  }

  lemma SearchIsNothingElse(line: string)
    requires SearchLine(line)
    ensures line[0] == '*' && line[1] == ' ' && UpperChar(line[2]) == 'S'
    ensures Counted(line) == None && IsSearch(line) && !CapabilityLine(line) && TaggedOk(line) == None
  {
    hide DigitRun, ReadNat;
    UpperAt(line[..8], 0);
    UpperAt(line[..8], 1);
    UpperAt(line[..8], 2);
    assert !IsDigit(line[2]);
    if CapabilityLine(line) {
      UpperAt(line[..13], 2);
    }
  }

  lemma SearchWords(line: string)
    requires SearchLine(line)
    ensures |Words(line)| >= 2 && Words(line)[0] == "*" && Words(line)[1] != "" && UpperChar(Words(line)[1][0]) == 'S'
  {
    hide Words;
    SearchIsNothingElse(line);
    var rest := line[2..];
    assert line == "*" + [' '] + rest;
    WordsFirst("*", rest);
    assert Words(rest) != [] && Words(rest)[0] != "" && Words(rest)[0][0] == rest[0] by { FirstWordStarts(rest); }
  }

  lemma FirstWordStarts(s: string)
    requires s != "" && !IsSpace(s[0])
    ensures Words(s) != [] && Words(s)[0] != "" && Words(s)[0][0] == s[0]
  {
    assert TrimLeft(s) == s;
  }

  lemma JoinedSearch(ws: seq<string>)
    requires |ws| >= 2 && ws[0] == "*" && ws[1] != "" && UpperChar(ws[1][0]) == 'S'
    ensures Counted(Join(ws, ' ')) == None
  {
    var l := Join(ws, ' ');
    assert ws[1..] != [] && ws[1..][0] == ws[1];
    assert Join(ws[1..], ' ') != "" && Join(ws[1..], ' ')[0] == ws[1][0];
    assert l == "*" + [' '] + Join(ws[1..], ' ');
    assert l[2] == ws[1][0];
    assert !IsDigit(l[2]);
  }

  lemma UncountedPasses(line: string, c: Context)
    requires Counted(line) == None
    ensures FetchLiteral(line) == None && !Suppressed(line, c) && Patched(line, c) == line
  {
    hide DigitRun, Counted;
  }

  /** The agent is sent the search result without the pending UIDs of the folder, the rest in order. */
  lemma SearchResultShown(tags: Tags, line: string, continues: bool, c: Context)
    requires SearchLine(line)
    ensures var h := Handle(tags, line, continues, c);
            && |h.sent| == 1
            && if c.folder && c.searchUid && c.pending != {}
               then |Words(line)| >= 2 && |Words(h.sent[0])| >= 2 && Words(h.sent[0])[..2] == Words(line)[..2]
                    && WithoutPending(Words(line)[2..], Words(h.sent[0])[2..], c.pending)
               else h.sent == [line]
  {
    hide Counted, Words, TaggedOk, FetchLiteral, Suppressed, Patched, Announces, IsSearch, Upper, Join, Overlay.FilterSearch;
    SearchIsNothingElse(line);
    SearchWords(line);
    assert !IsCapability(line) && ExistsCount(line) == None;
    var l := Recounted(line, c);
    if c.folder && c.searchUid && c.pending != {} {
      var kept := Overlay.FilterSearch(Words(line)[2..], c.pending);
      var all := Words(line)[..2] + kept;
      assert l == Join(all, ' ');
      SearchShown(line, c);
      assert all[0] == "*" && all[1] == Words(line)[1];
      JoinedSearch(all);
      assert Words(l) == all && all[..2] == Words(line)[..2] && all[2..] == kept;
      FilterIsWithoutPending(Words(line)[2..], c.pending);
    }
    UncountedPasses(l, c);
    assert [] + [l] == [l];
  }

  // ----- FETCH -----

  /** The flags parse_fetch_line reads. */
  function UpstreamFlags(payload: string): seq<string> {
    match FindFlags(payload, 0) case Some((i, j)) => Words(payload[i + 7..j - 1]) case None => []
  }

  /**
   * A FETCH line that closes, of a message that stays in view: where the patch applies, the agent
   * reads the upstream flags and the added ones, without the removed ones; else the line is as it was.
   */
  lemma FetchShown(tags: Tags, line: string, continues: bool, c: Context, uid: nat)
    requires OpensFetch(line) && FetchLiteral(line) == None && FetchPayload(line).Some? && FindUid(FetchPayload(line).value, 0) == Some(uid)
    requires c.folder ==> uid !in c.pending
    ensures var h, up, (add, remove) := Handle(tags, line, continues, c), UpstreamFlags(FetchPayload(line).value), c.changes(uid);
            && |h.sent| == 1
            && (!c.folder || (add == [] && remove == []) || FindFlags(line, 0) == None ==> h.sent == [line])
            && (c.folder && (add != [] || remove != []) && FindFlags(line, 0).Some?
                && (forall f :: f in up || f in add ==> Listable(f)) ==>
                  match FindFlags(h.sent[0], 0)
                  case None => false
                  case Some((i, j)) =>
                    forall f :: f in Words(h.sent[0][i + 7..j - 1]) <==> (f in up || f in add) && f !in remove)
  {
    hide Handle, OpensFetch, FetchLiteral, Patched, FetchPayload, FindUid, FindFlags, Words, UpstreamFlags, Listable;
    FetchSent(tags, line, continues, c, uid);
    var (add, remove) := c.changes(uid);
    if !c.folder || (add == [] && remove == []) || FindFlags(line, 0) == None {
      UnpatchedFetch(line, c, uid);
    } else if forall f :: f in UpstreamFlags(FetchPayload(line).value) || f in add ==> Listable(f) {
      PatchedFetchReads(line, c, uid);
    }
  }

  lemma FetchSent(tags: Tags, line: string, continues: bool, c: Context, uid: nat)
    requires OpensFetch(line) && FetchLiteral(line) == None && FetchPayload(line).Some? && FindUid(FetchPayload(line).value, 0) == Some(uid)
    requires c.folder ==> uid !in c.pending
    ensures Handle(tags, line, continues, c).sent == [Patched(line, c)]
  {
    hide Counted, FetchLiteral, FindUid, Announces, Filtered, Recounted, Fires, OpensFetch, FetchPayload, Patched, Suppressed, IsCapability;
    FetchUntouched(tags, line, c);
    InViewNotSuppressed(line, c, uid);
    assert [] + [Patched(line, c)] == [Patched(line, c)];
  }

  lemma UnpatchedFetch(line: string, c: Context, uid: nat)
    requires FetchPayload(line).Some? && FindUid(FetchPayload(line).value, 0) == Some(uid)
    requires !c.folder || c.changes(uid) == ([], []) || FindFlags(line, 0) == None
    ensures Patched(line, c) == line
  {
    hide FetchPayload, FindUid, FindFlags, Merged, ReplacementText, FlagsText;
  }

  lemma PatchedFetchReads(line: string, c: Context, uid: nat)
    requires FetchPayload(line).Some? && FindUid(FetchPayload(line).value, 0) == Some(uid) && c.folder && FindFlags(line, 0).Some?
    requires c.changes(uid) != ([], [])
    requires forall f :: f in UpstreamFlags(FetchPayload(line).value) || f in c.changes(uid).0 ==> Listable(f)
    ensures match FindFlags(Patched(line, c), 0)
            case None => false
            case Some((i, j)) =>
              forall f :: f in Words(Patched(line, c)[i + 7..j - 1]) <==>
                (f in UpstreamFlags(FetchPayload(line).value) || f in c.changes(uid).0) && f !in c.changes(uid).1
  {
    hide Words, FindFlags, FindUid, FetchPayload, Listable, Patched;
    var (add, remove) := c.changes(uid);
    var payload := FetchPayload(line).value;
    var up, merged := UpstreamFlags(payload), Merged(line, payload, add, remove);
    assert forall f :: f in merged <==> (f in up || f in add) && f !in remove;
    PatchedLineReads(line, c, payload, uid);
    var (i, j) := FindFlags(Patched(line, c), 0).value;
    var ws := Words(Patched(line, c)[i + 7..j - 1]);
    forall f ensures f in ws <==> f in merged {
      assert f in ws <==> f in AsSet(ws);
    }
  }

  lemma InViewNotSuppressed(line: string, c: Context, uid: nat)
    requires FetchPayload(line).Some? && FindUid(FetchPayload(line).value, 0) == Some(uid) && (c.folder ==> uid !in c.pending)
    ensures !Suppressed(line, c)
  {
    hide FindUid, FetchPayload, IsFetch;
  }

  /** With the answers the database gives for the rows, the flags read are the overlay's. */
  lemma OverlayShown(tags: Tags, line: string, continues: bool, c: Context, uid: nat, rows: seq<Overlay.OpRow>)
    requires OpensFetch(line) && FetchLiteral(line) == None && FetchPayload(line).Some? && FindUid(FetchPayload(line).value, 0) == Some(uid)
    requires c.folder && uid !in c.pending && FindFlags(line, 0).Some?
    requires c.changes(uid) == (Overlay.AllAdded(rows), Overlay.AllRemoved(rows)) && c.changes(uid) != ([], [])
    requires forall f :: f in UpstreamFlags(FetchPayload(line).value) || f in Overlay.AllAdded(rows) ==> Listable(f)
    ensures var h := Handle(tags, line, continues, c);
            && |h.sent| == 1
            && match FindFlags(h.sent[0], 0)
               case None => false
               case Some((i, j)) =>
                 AsSet(Words(h.sent[0][i + 7..j - 1])) == Overlay.Patched(AsSet(UpstreamFlags(FetchPayload(line).value)), rows)
  {
    hide Handle, OpensFetch, FetchLiteral, FetchPayload, FindUid, FindFlags, Words, Listable, UpstreamFlags, Overlay.AllAdded, Overlay.AllRemoved;
    FetchShown(tags, line, continues, c, uid);
    var l := Handle(tags, line, continues, c).sent[0];
    var (i, j) := FindFlags(l, 0).value;
    var ws, up := Words(l[i + 7..j - 1]), UpstreamFlags(FetchPayload(line).value);
    forall f ensures f in AsSet(ws) <==> f in Overlay.Patched(AsSet(up), rows) {
    }
  }

  // ----- announced literals -----

  /** The line ends in n in braces. */
  ghost predicate EndsBraced(line: string, n: nat) {
    exists i: nat :: BracedFrom(line, i) && ReadNat(line[i + 1..|line| - 1]) == n
  }

  predicate BracedFrom(line: string, i: nat) {
    i + 2 < |line| && line[i] == '{' && line[|line| - 1] == '}' && AllDigits(line[i + 1..|line| - 1])
  }

  /** Free text may follow these words. */
  predicate StatusWord(line: string, word: string) {
    |line| >= 2 + |word| && Upper(line[..2 + |word|]) == "* " + word && (|line| == 2 + |word| || !IsWordChar(line[2 + |word|]))
  }

  /** An untagged response that is not a status response. */
  predicate DataLine(line: string) {
    && |line| >= 2 && line[0] == '*' && line[1] == ' '
    && !StatusWord(line, "OK") && !StatusWord(line, "NO") && !StatusWord(line, "BAD") && !StatusWord(line, "BYE")
    && !StatusWord(line, "PREAUTH")
  }

  lemma StatusIff(line: string)
    ensures IsStatus(line) <==> StatusWord(line, "OK") || StatusWord(line, "NO") || StatusWord(line, "BAD") || StatusWord(line, "BYE")
                                || StatusWord(line, "PREAUTH")
  {
    hide Upper;
    assert "* " + "OK" == "* OK" && "* " + "NO" == "* NO" && "* " + "BAD" == "* BAD" && "* " + "BYE" == "* BYE";
    assert "* " + "PREAUTH" == "* PREAUTH";
  }

  lemma {:induction false} DigitsBackTo(s: string, from: nat, end: nat)
    requires from < end <= |s| && s[from] == '{' && forall k :: from < k < end ==> IsDigit(s[k])
    ensures DigitsBefore(s, end) == end - from - 1
  {
    if end == from + 1 {
    } else {
      DigitsBackTo(s, from, end - 1);
    }
  }

  lemma TailFound(line: string, n: nat)
    requires Tail(line) == Some(n)
    ensures EndsBraced(line, n)
  {
    hide ReadNat;
    var k := DigitsBefore(line, |line| - 1);
    assert BracedFrom(line, |line| - 2 - k);
    assert line[|line| - 2 - k + 1..|line| - 1] == line[|line| - 1 - k..|line| - 1];
  }

  lemma TailRead(line: string, i: nat)
    requires BracedFrom(line, i)
    ensures Tail(line) == Some(ReadNat(line[i + 1..|line| - 1]))
  {
    hide ReadNat;
    var d := line[i + 1..|line| - 1];
    forall k | i < k < |line| - 1 ensures IsDigit(line[k]) {
      assert line[k] == d[k - i - 1];
    }
    DigitsBackTo(line, i, |line| - 1);
  }

  /**
   * A line announces a literal of n bytes exactly when it ends in n in braces and is a data response, or
   * goes on after a literal: neither a tagged line nor the text of a status response ever does.
   */
  lemma AnnouncesIff(line: string, continues: bool, n: nat)
    ensures Announces(line, continues) == Some(n) <==> (continues || DataLine(line)) && EndsBraced(line, n)
  {
    hide Tail, IsStatus, StatusWord, ReadNat;
    StatusIff(line);
    assert "* " <= line <==> |line| >= 2 && line[0] == '*' && line[1] == ' ';
    if Tail(line) == Some(n) {
      TailFound(line, n);
    }
    if EndsBraced(line, n) {
      var i: nat :| BracedFrom(line, i) && ReadNat(line[i + 1..|line| - 1]) == n;
      TailRead(line, i);
    }
  }

  // ----- the UID of a line -----

  /** UID, in any case, a space and the number n stand at i, as words of their own. */
  ghost predicate UidStands(s: string, i: nat, n: nat) {
    exists j: nat :: UidDigits(s, i, j) && ReadNat(s[i + 4..j]) == n
  }

  predicate UidDigits(s: string, i: nat, j: nat) {
    && i + 4 < j <= |s| && Upper(s[i..i + 4]) == "UID " && AllDigits(s[i + 4..j])
    && (j == |s| || !IsWordChar(s[j])) && (i == 0 || !IsWordChar(s[i - 1]))
  }

  lemma UidAtIff(s: string, i: nat, n: nat)
    requires i <= |s|
    ensures UidAt(s, i) == Some(n) <==> UidStands(s, i, n)
  {
    hide ReadNat, Upper;
    if UidAt(s, i) == Some(n) {
      var digits := s[i + 4..];
      var k := DigitRun(digits);
      assert s[i..][..4] == s[i..i + 4];
      assert digits[..k] == s[i + 4..i + 4 + k];
      assert UidDigits(s, i, i + 4 + k);
    }
    if j: nat :| UidDigits(s, i, j) && ReadNat(s[i + 4..j]) == n {
      var digits, d := s[i + 4..], s[i + 4..j];
      assert s[i..][..4] == s[i..i + 4];
      assert digits == d + s[j..];
      assert s[j..] != "" ==> s[j..][0] == s[j] && !IsDigit(s[j]);
      DigitRunAt(d, s[j..]);
      assert digits[..|d|] == d;
    }
  }

  /** The UID read from a text is the first that stands in it. */
  lemma {:induction false} FindUidFirst(s: string, from: nat, n: nat)
    requires from <= |s|
    ensures FindUid(s, from) == Some(n) <==>
            exists i: nat :: from <= i <= |s| && UidStands(s, i, n) && forall k: nat, m: nat :: from <= k < i ==> !UidStands(s, k, m)
    decreases |s| - from
  {
    hide UidAt, UidStands;
    forall m: nat ensures UidAt(s, from) == Some(m) <==> UidStands(s, from, m) {
      UidAtIff(s, from, m);
    }
    if UidAt(s, from) == None && from < |s| {
      FindUidFirst(s, from + 1, n);
      if i: nat :| from + 1 <= i <= |s| && UidStands(s, i, n) && forall k: nat, m: nat :: from + 1 <= k < i ==> !UidStands(s, k, m) {
        assert forall k: nat, m: nat :: from <= k < i ==> !UidStands(s, k, m);
      }
    }
  }

  // ----- the header line of a fetched body -----

  /** At most one closing parenthesis, and white space. */
  predicate Closes(s: string) {
    forall i :: 0 <= i < |s| ==> IsSpace(s[i]) || (i == 0 && s[0] == ')')
  }

  lemma {:induction false} TrimRightIs(s: string, e: nat)
    requires e <= |s| && (forall k :: e <= k < |s| ==> IsSpace(s[k])) && (e > 0 ==> !IsSpace(s[e - 1]))
    ensures TrimRight(s) == s[..e]
  {
    if e == |s| {
      assert s[..e] == s;
    } else {
      TrimRightIs(s[..|s| - 1], e);
      assert s[..|s| - 1][..e] == s[..e];
    }
  }

  lemma {:induction false} TrimRightEnds(s: string)
    ensures |TrimRight(s)| <= |s| && TrimRight(s) == s[..|TrimRight(s)|]
    ensures forall k :: |TrimRight(s)| <= k < |s| ==> IsSpace(s[k])
  {
    if s != "" && IsSpace(s[|s| - 1]) {
      TrimRightEnds(s[..|s| - 1]);
      assert forall k :: 0 <= k < |s| - 1 ==> s[k] == s[..|s| - 1][k];
    }
  }

  lemma LiteralShape(line: string, n: nat)
    requires FetchLiteral(line) == Some(n)
    ensures exists e: nat :: e <= |line| && EndsBraced(line[..e], n) && Closes(line[e..])
  {
    hide Tail, FindUid, Counted, EndsBraced;
    TrimRightEnds(line);
    var t := TrimRight(line);
    var u := if t != "" && t[|t| - 1] == ')' && Tail(t[..|t| - 1]).Some? then t[..|t| - 1] else t;
    TailFound(u, n);
    assert u == line[..|u|];
    forall i | 0 <= i < |line[|u|..]| ensures IsSpace(line[|u|..][i]) || (i == 0 && line[|u|..][0] == ')') {
      assert line[|u|..][i] == line[|u| + i];
    }
  }

  lemma LiteralRead(line: string, e: nat, n: nat)
    requires e <= |line| && EndsBraced(line[..e], n) && Closes(line[e..])
    ensures var t := TrimRight(line);
            var u := if t != "" && t[|t| - 1] == ')' && Tail(t[..|t| - 1]).Some? then t[..|t| - 1] else t;
            Tail(u) == Some(n)
  {
    hide Tail, ReadNat, TrimRight;
    var a, rest := line[..e], line[e..];
    var i: nat :| BracedFrom(a, i) && ReadNat(a[i + 1..|a| - 1]) == n;
    TailRead(a, i);
    assert line[e - 1] == a[|a| - 1] == '}';
    assert forall k :: 0 <= k < |rest| ==> line[e + k] == rest[k];
    assert forall k :: e <= k < |line| ==> line[k] == rest[k - e];
    if rest != "" && rest[0] == ')' {
      TrimRightIs(line, e + 1);
      assert line[..e + 1][..e] == a;
    } else {
      TrimRightIs(line, e);
    }
  }

  /**
   * A FETCH line is the header of a literal of n bytes exactly when it names a UID and ends in n in braces,
   * a closing parenthesis and white space aside.
   */
  lemma FetchLiteralIff(line: string, n: nat)
    ensures FetchLiteral(line) == Some(n) <==>
            OpensFetch(line) && FindUid(line, 0).Some?
            && exists e: nat :: e <= |line| && EndsBraced(line[..e], n) && Closes(line[e..])
  {
    hide Tail, FindUid, Counted, EndsBraced, Closes, TrimRight;
    if FetchLiteral(line) == Some(n) {
      LiteralShape(line, n);
    }
    if e: nat :| e <= |line| && EndsBraced(line[..e], n) && Closes(line[e..]) {
      LiteralRead(line, e, n);
    }
  }
}
