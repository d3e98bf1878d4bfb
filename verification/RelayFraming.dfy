// Relaying commutes with framing: what the agent reads back from the pump is
// what upstream sent, line by line rewritten and literal by literal untouched.
module RelayFraming {
  import opened Wrappers
  import opened Text
  import opened Flags
  import opened ImapParser
  import opened ResponseLine
  import opened FlagPatch
  import opened UpstreamPump
  import Overlay

  // ----- what handling keeps of the framing -----

  lemma TailNeedsBrace(line: string)
    requires '{' !in line || line == "" || line[|line| - 1] != '}'
    ensures Tail(line) == None
  {
  }

  lemma {:induction false} FilterSearchIn(tokens: seq<string>, pending: set<nat>)
    ensures forall i :: 0 <= i < |Overlay.FilterSearch(tokens, pending)| ==> Overlay.FilterSearch(tokens, pending)[i] in tokens
  {
    if tokens == [] {
    } else {
      FilterSearchIn(tokens[1..], pending);
    }
  }

  // ----- the rewrites -----

  lemma NoReturn(s: string)
    requires '\r' !in s
    ensures !HasCrlf(s)
  {
  }

  lemma CapabilityRewriteKeeps(l: string)
    requires IsCapability(l) && '{' !in l
    ensures '\r' !in FilterCapabilities(l) && '{' !in FilterCapabilities(l)
  {
    var atoms := KeptAtoms(Words(l[13..]));
    WordsClean(l[13..]);
    WordsLack(l[13..], '{');
    JoinLacks(atoms, '\r');
    JoinLacks(atoms, '{');
    assert Upper(l[..13]) == "* CAPABILITY ";
    forall i | 0 <= i < 13 ensures l[i] != '\r' {
      assert Upper(l[..13])[i] == UpperChar(l[i]);
    }
  }

  lemma CountKeeps(n: nat)
    ensures var l := "* " + ShowNat(n) + " EXISTS"; '\r' !in l && '{' !in l
  {
  }

  lemma ExistsHasNoMarker(l: string)
    requires ExistsCount(l).Some?
    ensures Tail(l) == None
  {
    var (n, rest) := Counted(l).value;
    assert Upper(rest)[5] == 'S';
    assert l[|l| - 1] == rest[5];
    TailNeedsBrace(l);
  }

  lemma SearchRewriteKeeps(words: seq<string>, pending: set<nat>)
    requires forall i :: 0 <= i < |words| ==> '\r' !in words[i] && '{' !in words[i]
    ensures var l := if |words| < 2 then Join(words, ' ') else Join(words[..2] + Overlay.FilterSearch(words[2..], pending), ' ');
            '\r' !in l && '{' !in l
  {
    var kept := if |words| < 2 then words else words[..2] + Overlay.FilterSearch(words[2..], pending);
    if |words| >= 2 {
      FilterSearchIn(words[2..], pending);
    }
    forall i | 0 <= i < |kept| ensures kept[i] in words {
      if |words| >= 2 && i >= 2 {
        assert kept[i] in words[2..];
      }
    }
    JoinLacks(kept, '\r');
    JoinLacks(kept, '{');
  }

  lemma WordsHaveNoReturn(s: string)
    ensures forall i :: 0 <= i < |Words(s)| ==> '\r' !in Words(s)[i]
  {
    hide Words;
    WordsClean(s);
  }

  /** EXISTS and SEARCH rewrites neither hide nor make a literal marker. */
  lemma RecountKeeps(l: string, c: Context)
    requires IsSearch(l) ==> '{' !in l
    ensures Recounted(l, c) == l || ('\r' !in Recounted(l, c) && '{' !in Recounted(l, c) && Tail(l) == None)
  {
    hide Words, Tail, ExistsCount, IsSearch;
    if ExistsCount(l).Some? {
      ExistsHasNoMarker(l);
      CountKeeps(Overlay.AdjustedExists(ExistsCount(l).value, c.pending));
    } else if IsSearch(l) {
      WordsHaveNoReturn(l);
      WordsLack(l, '{');
      SearchRewriteKeeps(Words(l), c.pending);
      TailNeedsBrace(l);
    }
  }

  /** A text without a line break at its ends, put into a line. */
  lemma Spliced(l: string, i: nat, j: nat, text: string)
    requires i <= j <= |l| && !HasCrlf(l) && |text| >= 2 && text[0] == 'F' && text[|text| - 1] == ')'
    ensures HasCrlf(l[..i] + text + l[j..]) <==> HasCrlf(text)
  {
    var inner := text[1..|text| - 1];
    assert text == ("" + ['F'] + inner) + [')'] + "";
    assert l[..i] + text + l[j..] == (l[..i] + ['F'] + inner) + [')'] + l[j..];
    NoCrlfIn(l, 0, i);
    NoCrlfIn(l, j, |l|);
    assert l[0..i] == l[..i] && l[j..|l|] == l[j..];
    CrlfInParts(l[..i] + ['F'] + inner, ')', l[j..]);
    CrlfInParts(l[..i], 'F', inner);
    CrlfInParts("" + ['F'] + inner, ')', "");
    CrlfInParts("", 'F', inner);
  }

  /** The patched line announces nothing, and holds a line end exactly when a merged flag's text does. */
  lemma PatchKeeps(l: string, c: Context)
    requires !HasCrlf(l)
    ensures Patched(l, c) == l || (Tail(l) == None && Tail(Patched(l, c)) == None)
    ensures HasCrlf(Patched(l, c)) <==> PatchSplits(l, c)
  {
    hide Tail, FindUid, ReplacementText, FlagsText, Merged, HasCrlf, FlagText, FetchPayload, FindFlags;
    if FetchPayload(l).Some? && FindUid(FetchPayload(l).value, 0).Some? && FindFlags(l, 0).Some? {
      var payload := FetchPayload(l).value;
      var (add, remove) := c.changes(FindUid(payload, 0).value);
      var merged := Merged(l, payload, add, remove);
      var (i, j) := FindFlags(l, 0).value;
      ListSplitsIff(merged, l[i..j]);
      var r := ReplacementText(FlagsText(merged), l[i..j]);
      if c.folder && (add != [] || remove != []) && r.Some? {
        Spliced(l, i, j, r.value);
        PatchEnds(l, payload, i, j, r.value);
      }
    }
  }

  lemma PatchEnds(l: string, payload: string, i: nat, j: nat, text: string)
    requires FetchPayload(l) == Some(payload) && i <= j <= |l| && text != "" && text[|text| - 1] == ')'
    ensures Tail(l) == None && Tail(l[..i] + text + l[j..]) == None
  {
    TailNeedsBrace(l);
    TailNeedsBrace(l[..i] + text + l[j..]);
  }

  lemma {:induction false} JoinCrlf(ws: seq<string>)
    ensures HasCrlf(Join(ws, ' ')) <==> exists i :: 0 <= i < |ws| && HasCrlf(ws[i])
  {
    hide HasCrlf;
    if ws == [] {
      assert !HasCrlf("") by { NoReturn(""); }
    } else if |ws| > 1 {
      JoinCrlf(ws[1..]);
      CrlfInParts(ws[0], ' ', Join(ws[1..], ' '));
      assert forall i :: 0 <= i < |ws[1..]| ==> ws[1..][i] == ws[i + 1];
      assert forall i :: 0 < i < |ws| ==> ws[i] == ws[1..][i - 1];
    }
  }

  lemma RevertKeeps(r: Revert)
    ensures Announces(RevertLine(r), false) == None
    ensures HasCrlf(RevertLine(r)) <==> RevertSplits(r)
  {
    hide IsStatus, Tail, ShowNat, HasCrlf;
    var head, list, line := "* " + ShowNat(r.sequence) + " FETCH (UID " + ShowNat(r.uid) + " FLAGS ", Join(r.flags, ' '), RevertLine(r);
    assert line == head + ['('] + (list + [')'] + ")");
    assert '\r' !in head by { DigitsOnly(r.sequence); DigitsOnly(r.uid); }
    NoReturn(head);
    NoReturn(")");
    CrlfInParts(head, '(', list + [')'] + ")");
    CrlfInParts(list, ')', ")");
    JoinCrlf(r.flags);
    assert line[|line| - 1] == ')';
    TailNeedsBrace(line);
  }

  lemma DigitsOnly(n: nat)
    ensures '\r' !in ShowNat(n)
  {
  }

  // ----- one line -----

  /** A run of lines that leaves the given literal due. */
  predicate FramedLines(texts: seq<string>, continues: bool, due: Option<nat>) {
    && (forall i :: 0 <= i < |texts| - 1 ==> Announces(texts[i], continues && i == 0) == None)
    && (texts != [] ==> Announces(texts[|texts| - 1], continues && |texts| == 1) == due)
    && (texts == [] ==> due == None && !continues)
  }

  predicate SomeSplit(texts: seq<string>) {
    exists i :: 0 <= i < |texts| && HasCrlf(texts[i])
  }

  /** A line that goes on after a literal is passed on as it is. */
  lemma ContinuationUntouched(tags: Tags, l: string, c: Context)
    requires !("* " <= l) && TaggedOk(l) == None
    ensures var h := Handle(tags, l, true, c); h.sent == [l] && h.literal == Announces(l, true)
    ensures !Splits(tags, l, c)
  {
    hide Tail, Words, FindUid, FindFlags, ReplacementText, IsStatus, TaggedOk, HasCrlf;
    assert Counted(l) == None;
    CapabilityStarred(l);
    SearchStarred(l);
    assert [] + [l] == [l];
  }

  /** The grammar's continuation lines are such lines. */
  lemma GrammarContinuation(l: string)
    requires l == "" || l[0] == ' ' || l[0] == ')'
    ensures !("* " <= l) && TaggedOk(l) == None
  {
    assert TagRun(l) == 0;
  }

  lemma CapabilityStarred(l: string)
    ensures IsCapability(l) ==> "* " <= l
  {
    if IsCapability(l) {
      assert Upper(l[..13])[0] == UpperChar(l[0]) && Upper(l[..13])[1] == UpperChar(l[1]);
      assert l[..2] == "* ";
    }
  }

  lemma SearchStarred(l: string)
    ensures IsSearch(l) ==> "* " <= l
  {
    if IsSearch(l) {
      assert Upper(l[..8])[0] == UpperChar(l[0]) && Upper(l[..8])[1] == UpperChar(l[1]);
      assert l[..2] == "* ";
    }
  }

  /** The line after the capability, EXISTS and SEARCH rewrites. */
  lemma RewritesKeep(tags: Tags, l: string, c: Context)
    requires LineOk(l, false)
    ensures var l2 := Recounted(Filtered(tags, l, c), c);
            !HasCrlf(l2) && (l2 == l || ('{' !in l2 && Announces(l, false) == None))
  {
    hide Tail, FetchLiteral, IsStatus, Words, HasCrlf, FilterCapabilities;
    var l1 := Filtered(tags, l, c);
    if l1 != l {
      CapabilityRewriteKeeps(l);
      TailNeedsBrace(l);
      NoReturn(l1);
    }
    RecountKeeps(l1, c);
    if Recounted(l1, c) != l1 {
      NoReturn(Recounted(l1, c));
    }
  }

  lemma LiteralNeedsBrace(l: string)
    requires '{' !in l
    ensures FetchLiteral(l) == None && Announces(l, false) == None
  {
    hide FindUid, Counted, IsStatus;
    var t := TrimRight(l);
    TrimRightEdges(l);
    assert '{' !in t;
    TailNeedsBrace(l);
    TailNeedsBrace(t);
    if t != "" {
      TailNeedsBrace(t[..|t| - 1]);
    }
  }

  /** Suppressed lines end in ")", so no literal is left without its line. */
  lemma SuppressedAnnouncesNothing(l: string, c: Context)
    requires Suppressed(l, c)
    ensures Announces(l, false) == None
  {
    TailNeedsBrace(l);
  }

  lemma TaggedAnnouncesNothing(l: string)
    requires TaggedOk(l).Some?
    ensures Announces(l, false) == None
  {
    hide Tail, IsStatus;
    assert !("* " <= l);
  }

  /** What is sent for a line that begins a response announces what the line announced, and nothing else does. */
  lemma FreshLineKeeps(tags: Tags, l: string, c: Context)
    requires LineOk(l, false)
    ensures var h := Handle(tags, l, false, c);
            && h.literal == Announces(l, false) && FramedLines(h.sent, false, h.literal)
            && (SomeSplit(h.sent) <==> Splits(tags, l, c))
  {
    hide Tail, FetchLiteral, IsStatus, Words, Patched, Suppressed, Recounted, TaggedOk, IsCapability, IsSearch, Announces,
         HasCrlf, PatchSplits, RevertSplits, Filtered, Fires, FramedLines, SomeSplit;
    var l2 := Recounted(Filtered(tags, l, c), c);
    RewritesKeep(tags, l, c);
    if '{' !in l2 {
      LiteralNeedsBrace(l2);
    }
    PatchKeeps(l2, c);
    PatchAnnounces(l2, c);
    RevertsKeep(c);
    if Fires(tags, l, c) {
      TaggedAlone(tags, l, c);
    }
    if Suppressed(l2, c) {
      SuppressedAnnouncesNothing(l2, c);
    }
    AnnouncesAgree(l, l2);
    NothingFramed();
    OneMoreLine(RevertLines(c.reverts), l2, Announces(l2, false));
    OneMoreLine([], l2, Announces(l2, false));
    OneMoreLine(RevertLines(c.reverts), Patched(l2, c), Announces(l2, false));
    OneMoreLine([], Patched(l2, c), Announces(l2, false));
  }

  lemma NothingFramed()
    ensures FramedLines([], false, None) && !SomeSplit([])
  {
  }

  lemma AnnouncesAgree(l: string, l2: string)
    requires l2 == l || ('{' !in l2 && Announces(l, false) == None)
    ensures Announces(l2, false) == Announces(l, false)
  {
    hide Announces;
    if l2 != l {
      LiteralNeedsBrace(l2);
    }
  }

  lemma PatchAnnounces(l: string, c: Context)
    requires Patched(l, c) == l || (Tail(l) == None && Tail(Patched(l, c)) == None)
    ensures Announces(Patched(l, c), false) == Announces(l, false)
  {
  }

  lemma RevertsKeep(c: Context)
    ensures FramedLines(RevertLines(c.reverts), false, None)
    ensures SomeSplit(RevertLines(c.reverts)) <==> exists i :: 0 <= i < |c.reverts| && RevertSplits(c.reverts[i])
  {
    hide HasCrlf, RevertSplits, Announces, RevertLine;
    forall i | 0 <= i < |c.reverts|
      ensures Announces(RevertLines(c.reverts)[i], false) == None
      ensures HasCrlf(RevertLines(c.reverts)[i]) <==> RevertSplits(c.reverts[i])
    {
      RevertKeeps(c.reverts[i]);
    }
  }

  lemma OneMoreLine(texts: seq<string>, l: string, due: Option<nat>)
    requires FramedLines(texts, false, None)
    ensures Announces(l, false) == due ==> FramedLines(texts + [l], false, due)
    ensures SomeSplit(texts + [l]) <==> SomeSplit(texts) || HasCrlf(l)
  {
    hide Announces, HasCrlf;
    var all := texts + [l];
    assert all[|texts|] == l;
    if SomeSplit(texts) {
      var i :| 0 <= i < |texts| && HasCrlf(texts[i]);
      assert HasCrlf(all[i]);
    }
  }

  /** A tagged line is never rewritten before its tag is read. */
  lemma TaggedAlone(tags: Tags, l: string, c: Context)
    requires LineOk(l, false) && Fires(tags, l, c)
    ensures Recounted(Filtered(tags, l, c), c) == l && Announces(l, false) == None
  {
    hide Tail, FetchLiteral, IsStatus, Words, HasCrlf;
    var l1 := Filtered(tags, l, c);
    TaggedNotStarred(l1);
    if l1 != l {
      assert l1[..13] == l[..13];
      CapabilityStar(l);
    }
    TaggedAnnouncesNothing(l);
  }

  lemma TaggedNotStarred(l: string)
    requires TaggedOk(l).Some?
    ensures l != "" && l[0] != '*' && ExistsCount(l) == None && !IsSearch(l)
  {
    hide Tail, IsSearch;
    SearchStar(l);
  }

  lemma SearchStar(l: string)
    ensures IsSearch(l) ==> l != "" && l[0] == '*'
  {
    if |l| >= 8 {
      assert Upper(l[..8])[0] == UpperChar(l[0]);
    }
  }

  lemma CapabilityStar(l: string)
    requires IsCapability(l)
    ensures l[0] == '*'
  {
    assert Upper(l[..13])[0] == '*';
  }

  /**
   * For every session and whatever is pending: the lines sent for one upstream line announce
   * a literal exactly when that line did, and no other line among them announces one; they
   * are single lines exactly when no flag written into them holds a line end.
   */
  lemma HandleKeeps(tags: Tags, l: string, continues: bool, c: Context)
    requires LineOk(l, continues)
    ensures var h := Handle(tags, l, continues, c);
            && h.literal == Announces(l, continues) && FramedLines(h.sent, continues, h.literal)
            && (SomeSplit(h.sent) <==> Splits(tags, l, c))
  {
    hide Handle, HasCrlf, Splits;
    if continues {
      ContinuationUntouched(tags, l, c);
    } else {
      FreshLineKeeps(tags, l, c);
    }
  }

  // ----- the whole stream -----

  lemma {:induction false} LinesThen(texts: seq<string>, rest: seq<Item>, continues: bool, due: Option<nat>)
    requires FramedLines(texts, continues, due) && !SomeSplit(texts) && Framed(rest, due, false)
    ensures Framed(Lines(texts) + rest, None, continues)
    decreases |texts|
  {
    hide Announces, HasCrlf;
    if texts == [] {
      assert Lines(texts) + rest == rest;
    } else {
      var more := Lines(texts)[1..] + rest;
      assert Lines(texts) + rest == [Line(texts[0])] + more;
      assert Lines(texts)[1..] == Lines(texts[1..]);
      if |texts| == 1 {
        assert more == rest;
      } else {
        var tail := texts[1..];
        assert forall i :: 0 <= i < |tail| ==> tail[i] == texts[i + 1];
        assert Announces(texts[0], continues) == None;
        LinesThen(tail, rest, false, due);
      }
    }
  }

  /** A well-formed stream is framed, and its relay is framed like it when no flag cuts a line. */
  lemma {:induction false} RelayIsFramed(items: seq<Item>, due: Option<nat>, continues: bool, tags: Tags, k: nat, ctx: Contexts)
    requires WellFormed(items, due, continues)
    ensures Framed(items, due, continues)
    ensures Harmless(items, continues, tags, k, ctx) ==> Framed(Relay(items, continues, tags, k, ctx), due, continues)
    decreases |items|
  {
    hide Handle, LineOk, Announces, FramedLines, SomeSplit, HasCrlf, Splits;
    if items == [] {
    } else {
      match items[0] {
        case Line(l) =>
          LineOkMeans(l, continues);
          HandleKeeps(tags, l, continues, ctx(k));
          var h := Handle(tags, l, continues, ctx(k));
          RelayIsFramed(items[1..], h.literal, false, h.tags, k + 1, ctx);
          if Harmless(items, continues, tags, k, ctx) {
            LinesThen(h.sent, Relay(items[1..], false, h.tags, k + 1, ctx), continues, h.literal);
          }
        case Literal(d) =>
          RelayIsFramed(items[1..], None, true, tags, k, ctx);
          var rest := Relay(items[1..], true, tags, k, ctx);
          assert ([Literal(d)] + rest)[1..] == rest;
      }
    }
  }

  predicate CutItem(items: seq<Item>) {
    exists i :: 0 <= i < |items| && items[i].Line? && HasCrlf(items[i].text)
  }

  lemma CutItemLater(a: seq<Item>, b: seq<Item>)
    ensures CutItem(a) || CutItem(b) ==> CutItem(a + b)
  {
    hide HasCrlf;
    var all := a + b;
    if CutItem(a) {
      var i :| 0 <= i < |a| && a[i].Line? && HasCrlf(a[i].text);
      assert all[i] == a[i];
    } else if CutItem(b) {
      var i :| 0 <= i < |b| && b[i].Line? && HasCrlf(b[i].text);
      var k := |a| + i;
      assert all[k] == b[i];
    }
  }

  /** Otherwise some relayed line holds a line end. */
  lemma {:induction false} RelayIsCut(items: seq<Item>, due: Option<nat>, continues: bool, tags: Tags, k: nat, ctx: Contexts)
    requires WellFormed(items, due, continues) && !Harmless(items, continues, tags, k, ctx)
    ensures CutItem(Relay(items, continues, tags, k, ctx))
    decreases |items|
  {
    hide Handle, LineOk, Announces, FramedLines, HasCrlf, Splits, CutItem;
    match items[0] {
      case Line(l) =>
        HandleKeeps(tags, l, continues, ctx(k));
        var h := Handle(tags, l, continues, ctx(k));
        var rest := Relay(items[1..], false, h.tags, k + 1, ctx);
        CutItemLater(Lines(h.sent), rest);
        if Splits(tags, l, ctx(k)) {
          SplitItem(h.sent);
        } else {
          RelayIsCut(items[1..], h.literal, false, h.tags, k + 1, ctx);
        }
      case Literal(d) =>
        RelayIsCut(items[1..], None, true, tags, k, ctx);
        CutItemLater([Literal(d)], Relay(items[1..], true, tags, k, ctx));
    }
  }

  lemma SplitItem(texts: seq<string>)
    requires SomeSplit(texts)
    ensures CutItem(Lines(texts))
  {
    hide HasCrlf;
    var i :| 0 <= i < |texts| && HasCrlf(texts[i]);
    assert Lines(texts)[i] == Line(texts[i]);
  }

  lemma LineOkMeans(l: string, continues: bool)
    requires LineOk(l, continues)
    ensures !HasCrlf(l)
  {
  }

  // ----- the pump on a whole stream -----

  /** The pump stands where the stream does. */
  predicate Aligned(p: Pump, due: Option<nat>, continues: bool) {
    match due
    case None => p.remaining == 0 && p.after == continues
    case Some(n) => p.remaining == n && p.after == (n == 0)
  }

  lemma {:induction false} RenderAppend(a: seq<Item>, b: seq<Item>)
    ensures Render(a + b) == Render(a) + Render(b)
  {
    if a == [] {
      assert a + b == b;
    } else {
      assert (a + b)[1..] == a[1..] + b;
      RenderAppend(a[1..], b);
    }
  }

  lemma {:induction false} RenderLines(texts: seq<string>)
    ensures Render(Lines(texts)) == Sent(texts)
  {
    if texts == [] {
    } else {
      assert Lines(texts)[1..] == Lines(texts[1..]);
      RenderLines(texts[1..]);
    }
  }

  lemma AdvanceLine(p: Pump, l: string, rest: string, ctx: Contexts)
    requires p.buffer == l + CRLF + rest && !HasCrlf(l) && p.remaining == 0
    ensures !Stuck(p)
    ensures var h := Handle(p.tags, l, p.after, ctx(p.lines));
            Advance(p, ctx) == Pump(rest, if h.literal.Some? then h.literal.value else 0, h.literal == Some(0),
                                    h.tags, p.lines + 1, p.output + Sent(h.sent))
  {
    hide Handle, CrlfAt, Sent, HasCrlf;
    LineAfter(l, rest);
  }

  lemma AdvanceLiteral(p: Pump, d: string, rest: string, ctx: Contexts)
    requires p.buffer == d + rest && d != "" && p.remaining == |d|
    ensures !Stuck(p) && Advance(p, ctx) == p.(buffer := rest, remaining := 0, after := true, output := p.output + d)
  {
    assert (d + rest)[..|d|] == d && (d + rest)[|d|..] == rest;
  }

  lemma LinesRendered(output: string, texts: seq<string>, rest: seq<Item>)
    ensures output + Sent(texts) + Render(rest) == output + Render(Lines(texts) + rest)
  {
    RenderAppend(Lines(texts), rest);
    RenderLines(texts);
    hide Render;
    assert output + Sent(texts) + Render(rest) == output + (Sent(texts) + Render(rest));
  }

  lemma LiteralRendered(output: string, d: string, rest: seq<Item>)
    ensures output + d + Render(rest) == output + Render([Literal(d)] + rest)
    ensures d == "" ==> output + d == output
  {
    assert ([Literal(d)] + rest)[1..] == rest;
    assert output + d + Render(rest) == output + (d + Render(rest));
  }

  /** Draining a whole stream writes its relay. */
  lemma {:induction false} DrainRelays(p: Pump, items: seq<Item>, due: Option<nat>, continues: bool, ctx: Contexts)
    requires WellFormed(items, due, continues) && Aligned(p, due, continues) && p.buffer == Render(items)
    ensures Drain(p, ctx).buffer == ""
    ensures Drain(p, ctx).output == p.output + Render(Relay(items, continues, p.tags, p.lines, ctx))
    decreases |items|
  {
    hide Handle, LineOk, Announces, FramedLines, SomeSplit, Splits, Advance, CrlfAt, Sent, HasCrlf;
    if items == [] {
      NothingStuck(p);
    } else {
      var rest := Render(items[1..]);
      match items[0] {
        case Line(l) =>
          LineOkMeans(l, continues);
          HandleKeeps(p.tags, l, continues, ctx(p.lines));
          AdvanceLine(p, l, rest, ctx);
          var h := Handle(p.tags, l, continues, ctx(p.lines));
          var q := Advance(p, ctx);
          DrainRelays(q, items[1..], h.literal, false, ctx);
          LinesRendered(p.output, h.sent, Relay(items[1..], false, h.tags, p.lines + 1, ctx));
        case Literal(d) =>
          LiteralRendered(p.output, d, Relay(items[1..], true, p.tags, p.lines, ctx));
          if d == "" {
            assert p.buffer == rest;
            DrainRelays(p, items[1..], None, true, ctx);
          } else {
            AdvanceLiteral(p, d, rest, ctx);
            DrainRelays(Advance(p, ctx), items[1..], None, true, ctx);
          }
      }
    }
  }

  lemma NothingStuck(p: Pump)
    requires p.buffer == ""
    ensures Stuck(p)
  {
  }

  // ----- in chunks -----

  lemma {:induction false} CrlfStays(a: string, b: string)
    requires CrlfAt(a) < |a|
    ensures CrlfAt(a + b) == CrlfAt(a)
  {
    if !(a[0] == '\r' && a[1] == '\n') {
      assert (a + b)[1..] == a[1..] + b;
      CrlfStays(a[1..], b);
    }
  }

  function Fed(p: Pump, more: string): Pump {
    p.(buffer := p.buffer + more)
  }

  lemma AdvanceFed(p: Pump, more: string, ctx: Contexts)
    requires !Stuck(p) && (p.remaining == 0 || p.remaining <= |p.buffer|)
    ensures !Stuck(Fed(p, more)) && Advance(Fed(p, more), ctx) == Fed(Advance(p, ctx), more)
  {
    hide Handle, CrlfAt, Sent;
    if p.remaining == 0 {
      CrlfStays(p.buffer, more);
      var i := CrlfAt(p.buffer);
      assert (p.buffer + more)[..i] == p.buffer[..i] && (p.buffer + more)[i + 2..] == p.buffer[i + 2..] + more;
    } else {
      var n := p.remaining;
      assert (p.buffer + more)[..n] == p.buffer[..n] && (p.buffer + more)[n..] == p.buffer[n..] + more;
    }
  }

  /** A literal cut in two is relayed in two pieces. */
  lemma LiteralInTwo(p: Pump, more: string, ctx: Contexts)
    requires 0 < |p.buffer| < p.remaining
    ensures Stuck(Advance(p, ctx)) && Drain(Fed(p, more), ctx) == Drain(Fed(Advance(p, ctx), more), ctx)
  {
    hide Handle, CrlfAt, Drain;
    var q := Advance(p, ctx);
    assert q == p.(buffer := "", remaining := p.remaining - |p.buffer|, output := p.output + p.buffer);
    if more == "" {
      PartDrained(p, ctx);
      assert Fed(p, more) == p && Fed(q, more) == q;
    } else {
      SameAdvance(p, q, more, ctx);
      DrainsOn(Fed(p, more), Fed(q, more), ctx);
    }
  }

  lemma PartDrained(p: Pump, ctx: Contexts)
    requires 0 < |p.buffer| < p.remaining
    ensures Drain(p, ctx) == Drain(Advance(p, ctx), ctx)
  {
    hide Advance;
  }

  lemma DrainsOn(p: Pump, q: Pump, ctx: Contexts)
    requires !Stuck(p) && !Stuck(q) && Advance(p, ctx) == Advance(q, ctx)
    ensures Drain(p, ctx) == Drain(q, ctx)
  {
    hide Advance, Stuck;
  }

  lemma AdvanceInLiteral(p: Pump, ctx: Contexts)
    requires p.remaining > 0 && p.buffer != ""
    ensures var n := Least(|p.buffer|, p.remaining);
            !Stuck(p) && Advance(p, ctx) ==
              Pump(p.buffer[n..], p.remaining - n, p.remaining == n || p.after, p.tags, p.lines, p.output + p.buffer[..n])
  {
    hide Handle, CrlfAt;
  }

  lemma TakeAcross(a: string, b: string, n: nat, output: string)
    requires n <= |b|
    ensures (a + b)[..|a| + n] == a + b[..n] && (a + b)[|a| + n..] == b[n..]
    ensures output + (a + b[..n]) == output + a + b[..n]
  {
  }

  lemma SameAdvance(p: Pump, q: Pump, more: string, ctx: Contexts)
    requires 0 < |p.buffer| < p.remaining && more != ""
    requires q == p.(buffer := "", remaining := p.remaining - |p.buffer|, output := p.output + p.buffer)
    ensures !Stuck(Fed(p, more)) && !Stuck(Fed(q, more)) && Advance(Fed(p, more), ctx) == Advance(Fed(q, more), ctx)
  {
    hide Advance, Stuck;
    assert Fed(q, more).buffer == more;
    TakeAcross(p.buffer, more, Least(|more|, q.remaining), p.output);
    AdvanceInLiteral(Fed(p, more), ctx);
    AdvanceInLiteral(Fed(q, more), ctx);
  }

  lemma {:induction false} DrainFed(p: Pump, more: string, ctx: Contexts)
    ensures Drain(Fed(p, more), ctx) == Drain(Fed(Drain(p, ctx), more), ctx)
    decreases |p.buffer|
  {
    hide Advance, CrlfAt, Fed;
    if !Stuck(p) {
      if 0 < p.remaining && |p.buffer| < p.remaining {
        LiteralInTwo(p, more, ctx);
      } else {
        AdvanceFed(p, more, ctx);
        DrainFed(Advance(p, ctx), more, ctx);
      }
    }
  }

  /** n is not strictly inside a response line. */
  predicate CutOk(items: seq<Item>, n: nat) {
    n == 0 ||
    (items != [] &&
     match items[0]
     case Line(l) => n >= |l| + 2 && CutOk(items[1..], n - |l| - 2)
     case Literal(d) => n <= |d| || CutOk(items[1..], n - |d|))
  }

  lemma {:induction false} CutWithin(items: seq<Item>, n: nat)
    requires CutOk(items, n)
    ensures n <= |Render(items)|
  {
    if n == 0 {
    } else {
      match items[0] {
        case Line(l) => CutWithin(items[1..], n - |l| - 2);
        case Literal(d) => if n > |d| { CutWithin(items[1..], n - |d|); }
      }
    }
  }

  lemma {:induction false} CutLeavesNothing(p: Pump, items: seq<Item>, due: Option<nat>, continues: bool, n: nat, ctx: Contexts)
    requires WellFormed(items, due, continues) && Aligned(p, due, continues) && CutOk(items, n)
    requires n <= |Render(items)| && p.buffer == Render(items)[..n]
    ensures Drain(p, ctx).buffer == ""
    decreases |items|
  {
    hide Handle, LineOk, Announces, FramedLines, SomeSplit, Splits, Advance, CrlfAt, Sent, HasCrlf;
    if n == 0 {
      NothingStuck(p);
    } else {
      var rest := Render(items[1..]);
      match items[0] {
        case Line(l) =>
          var m := n - |l| - 2;
          CutWithin(items[1..], m);
          assert p.buffer == l + CRLF + rest[..m];
          LineOkMeans(l, continues);
          HandleKeeps(p.tags, l, continues, ctx(p.lines));
          AdvanceLine(p, l, rest[..m], ctx);
          CutLeavesNothing(Advance(p, ctx), items[1..], Announces(l, continues), false, m, ctx);
        case Literal(d) =>
          if d == "" {
            assert p.buffer == rest[..n];
            CutLeavesNothing(p, items[1..], None, true, n, ctx);
          } else if n <= |d| {
            assert p.buffer == d[..n];
            PartOfLiteral(p, n, ctx);
          } else {
            CutWithin(items[1..], n - |d|);
            assert p.buffer == d + rest[..n - |d|];
            AdvanceLiteral(p, d, rest[..n - |d|], ctx);
            CutLeavesNothing(Advance(p, ctx), items[1..], None, true, n - |d|, ctx);
          }
      }
    }
  }

  lemma PartOfLiteral(p: Pump, n: nat, ctx: Contexts)
    requires |p.buffer| == n && 0 < n <= p.remaining
    ensures Drain(p, ctx).buffer == ""
  {
    hide Handle;
    var q := Advance(p, ctx);
    assert q.buffer == "";
    NothingStuck(q);
    assert Drain(q, ctx) == q;
  }

  /** Fed in pieces that each leave nothing over, the pump is where it would be fed all at once. */
  lemma {:induction false} ChunksAsOne(p: Pump, chunks: seq<string>, ctx: Contexts)
    requires forall i :: 0 <= i <= |chunks| ==> Drain(Fed(p, Concat(chunks[..i])), ctx).buffer == ""
    requires p.buffer == ""
    ensures ReceivedAll(p, chunks, ctx) == Drain(Fed(p, Concat(chunks)), ctx)
  {
    hide Drain;
    assert chunks[..|chunks|] == chunks;
    if chunks == [] {
      assert chunks[..0] == [];
      AlreadyDrained(p, ctx);
    } else {
      var front, last := chunks[..|chunks| - 1], chunks[|chunks| - 1];
      forall i | 0 <= i <= |front| ensures Drain(Fed(p, Concat(front[..i])), ctx).buffer == "" {
        assert front[..i] == chunks[..i];
      }
      ChunksAsOne(p, front, ctx);
      DrainFed(Fed(p, Concat(front)), last, ctx);
      assert Fed(Fed(p, Concat(front)), last) == Fed(p, Concat(chunks));
      var d := Drain(Fed(p, Concat(chunks)), ctx);
      assert d.output + "" == d.output;
      assert Flush(d) == d;
    }
  }

  lemma AlreadyDrained(p: Pump, ctx: Contexts)
    requires p.buffer == ""
    ensures Drain(Fed(p, Concat([])), ctx) == p
  {
    NothingStuck(p);
    assert Fed(p, "") == p;
  }

  lemma {:induction false} ConcatPrefix(chunks: seq<string>, i: nat)
    requires i <= |chunks|
    ensures Concat(chunks[..i]) <= Concat(chunks)
  {
    if i == |chunks| {
      assert chunks[..i] == chunks;
    } else {
      ConcatPrefix(chunks[..|chunks| - 1], i);
      assert chunks[..|chunks| - 1][..i] == chunks[..i];
    }
  }

  /**
   * Relaying commutes with framing. For every well-formed upstream stream, every session and
   * whatever is pending, in any chunks that cut no response line: the agent reads back the
   * upstream responses with lines rewritten, suppressed or preceded by injected FETCH lines,
   * and every literal unchanged and in its place, exactly when no flag that is written into a
   * line holds a line end.
   */
  lemma RelayCommutesWithFraming(items: seq<Item>, chunks: seq<string>, tags: Tags, ctx: Contexts)
    requires WellFormed(items, None, false) && Concat(chunks) == Render(items)
    requires forall i :: 0 <= i <= |chunks| ==> CutOk(items, |Concat(chunks[..i])|)
    ensures var output := ReceivedAll(Start(tags), chunks, ctx).output;
            && Parse(Concat(chunks), None, false) == items
            && output == Render(Relay(items, false, tags, 0, ctx))
            && (Parse(output, None, false) == Relay(items, false, tags, 0, ctx) <==> Harmless(items, false, tags, 0, ctx))
            && Literals(Relay(items, false, tags, 0, ctx)) == Literals(items)
  {
    hide Drain, WellFormed, Framed, Relay, Parse, ReceivedAll, Harmless, CutItem;
    var p := Start(tags);
    forall i | 0 <= i <= |chunks| ensures Drain(Fed(p, Concat(chunks[..i])), ctx).buffer == "" {
      ConcatPrefix(chunks, i);
      var n := |Concat(chunks[..i])|;
      assert Fed(p, Concat(chunks[..i])).buffer == Render(items)[..n];
      CutLeavesNothing(Fed(p, Concat(chunks[..i])), items, None, false, n, ctx);
    }
    ChunksAsOne(p, chunks, ctx);
    assert Fed(p, Concat(chunks)).buffer == Render(items);
    DrainRelays(Fed(p, Concat(chunks)), items, None, false, ctx);
    RelayIsFramed(items, None, false, tags, 0, ctx);
    var relayed := Relay(items, false, tags, 0, ctx);
    assert "" + Render(relayed) == Render(relayed);
    ParseRender(items, None, false);
    if Harmless(items, false, tags, 0, ctx) {
      ParseRender(relayed, None, false);
    } else {
      RelayIsCut(items, None, false, tags, 0, ctx);
      ReadWhole(Render(relayed));
    }
    LiteralsKept(items, false, tags, 0, ctx);
  }

  lemma ReadWhole(s: string)
    ensures !CutItem(Parse(s, None, false))
  {
    hide HasCrlf;
    LinesReadWhole(s, None, false);
  }

  // ----- why no line may be cut -----

  lemma OneLine(p: Pump, l: string, ctx: Contexts)
    requires p.buffer == l + CRLF && !HasCrlf(l) && p.remaining == 0
    ensures var h := Handle(p.tags, l, p.after, ctx(p.lines));
            h.literal == None ==> Drain(p, ctx).buffer == "" && Drain(p, ctx).output == p.output + Sent(h.sent)
  {
    hide Handle, CrlfAt, Sent, Advance, HasCrlf;
    assert l + CRLF + "" == l + CRLF;
    AdvanceLine(p, l, "", ctx);
    NothingStuck(Advance(p, ctx));
  }

  lemma UnstarredLine(tags: Tags, l: string, c: Context)
    requires QuietContext(c) && !("* " <= l) && tags.revert == None
    ensures Handle(tags, l, false, c).sent == [l] && Handle(tags, l, false, c).literal == None
  {
    hide Tail, Words, IsStatus, FindUid, ReplacementText, FindFlags, ExistsCount;
    assert Counted(l) == None;
    CapabilityStarred(l);
  }

  lemma FilteredLine(tags: Tags, l: string, c: Context)
    requires QuietContext(c) && tags.capability.Some? && tags.revert == None && IsCapability(l) && LineOk(l, false)
    ensures Handle(tags, l, false, c).sent == [FilterCapabilities(l)] && Handle(tags, l, false, c).literal == None
  {
    hide FetchPayload, Words, FindUid, ReplacementText, FindFlags, ExistsCount, IsCapability, FetchLiteral, Announces, HasCrlf;
    hide FilterCapabilities, TaggedOk, IsFetch, IsSearch, IsStatus, FlagsText, Merged;
    CapabilityRewriteKeeps(l);
    LiteralNeedsBrace(FilterCapabilities(l));
  }

  /**
   * A chunk boundary inside a line defeats the rewrite: the two halves of a CAPABILITY
   * response reach the agent as upstream sent them, the whole line is filtered.
   */
  lemma CutLineEscapesFilter(l: string, cut: nat, tags: Tags, ctx: Contexts)
    requires Quiet(ctx) && tags.capability.Some? && tags.revert == None && IsCapability(l) && LineOk(l, false)
    requires cut <= |l| && !("* " <= l[cut..])
    ensures ReceivedAll(Start(tags), [l[..cut], l[cut..] + CRLF], ctx).output == l + CRLF
    ensures ReceivedAll(Start(tags), [l + CRLF], ctx).output == FilterCapabilities(l) + CRLF
  {
    hide Handle, LineOk, QuietContext, FilterCapabilities, IsCapability, Drain, CrlfAt, Sent;
    LineOkMeans(l, false);
    FilteredLine(tags, l, ctx(0));
    var s := Start(tags);
    assert "" + (l + CRLF) == l + CRLF;
    OneLine(s.(buffer := l + CRLF), l, ctx);
    SentOne(FilterCapabilities(l));
    assert ReceivedAll(s, [l + CRLF], ctx).output == FilterCapabilities(l) + CRLF by {
      assert [l + CRLF][..0] == [];
      assert "" + (FilterCapabilities(l) + CRLF) + "" == FilterCapabilities(l) + CRLF;
    }
    HalvesPass(l, cut, tags, ctx);
  }

  lemma HalvesPass(l: string, cut: nat, tags: Tags, ctx: Contexts)
    requires Quiet(ctx) && tags.revert == None && !HasCrlf(l) && cut <= |l| && !("* " <= l[cut..])
    ensures ReceivedAll(Start(tags), [l[..cut], l[cut..] + CRLF], ctx).output == l + CRLF
  {
    hide Handle, CrlfAt, Sent, Drain, ReceivedAll, Quiet, QuietContext, HasCrlf;
    var s := Start(tags);
    var a, b := l[..cut], l[cut..];
    NoCrlfIn(l, 0, cut);
    NoCrlfIn(l, cut, |l|);
    assert l[0..cut] == a && l[cut..|l|] == b;
    TwoChunks(s, a, b + CRLF, ctx);
    var p := s.(output := a);
    FirstHalf(tags, a, ctx);
    assert QuietContext(ctx(0)) by { QuietAt(ctx, 0); }
    UnstarredLine(tags, b, ctx(0));
    OneLine(p.(buffer := b + CRLF), b, ctx);
    SentOne(b);
    assert "" + (b + CRLF) == b + CRLF;
    assert a + (b + CRLF) + "" == a + b + CRLF;
    assert a + b == l;
  }

  lemma QuietAt(ctx: Contexts, k: nat)
    requires Quiet(ctx)
    ensures QuietContext(ctx(k))
  {
  }

  lemma TwoChunks(p: Pump, a: string, b: string, ctx: Contexts)
    ensures ReceivedAll(p, [a, b], ctx) == Received(Received(p, a, ctx), b, ctx)
  {
    hide Received;
    assert [a, b][..1] == [a] && [a][..0] == [];
    assert ReceivedAll(p, [a], ctx) == Received(p, a, ctx);
  }

  lemma FirstHalf(tags: Tags, a: string, ctx: Contexts)
    requires !HasCrlf(a)
    ensures Received(Start(tags), a, ctx) == Start(tags).(output := a)
  {
    hide Advance, CrlfAt, HasCrlf;
    FirstCrlf(a);
    assert "" + a == a;
    assert Stuck(Start(tags).(buffer := a));
  }
}
