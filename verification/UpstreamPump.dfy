// The upstream-to-client pump (_upstream_to_client in gateway/proxy.py): lines
// are handled one by one, announced literals are relayed as they are, and what
// is left of a chunk is passed on at its end.
module UpstreamPump {
  import opened Wrappers
  import opened Text
  import opened Flags
  import opened ImapParser
  import opened ResponseLine
  import opened FlagPatch
  import Overlay

  const CRLF := "\r\n"

  /** Index of the first CRLF, or the length. */
  function CrlfAt(s: string): (i: nat)
    ensures i <= |s| && (i < |s| ==> i + 2 <= |s| && s[i] == '\r' && s[i + 1] == '\n')
  {
    if |s| < 2 then |s|
    else if s[0] == '\r' && s[1] == '\n' then 0
    else 1 + CrlfAt(s[1..])
  }

  function Sent(lines: seq<string>): string {
    if lines == [] then "" else lines[0] + CRLF + Sent(lines[1..])
  }

  /** Each line finds its own context: the other pump and the database go on changing. */
  type Contexts = nat -> Context

  datatype Pump = Pump(buffer: string, remaining: nat, after: bool, tags: Tags, lines: nat, output: string)

  predicate Stuck(p: Pump) {
    if p.remaining > 0 then p.buffer == "" else CrlfAt(p.buffer) == |p.buffer|
  }

  function Least(a: nat, b: nat): nat {
    if a < b then a else b
  }

  /** One turn of the inner loop. */
  function Advance(p: Pump, ctx: Contexts): (q: Pump)
    requires !Stuck(p)
    ensures |q.buffer| < |p.buffer|
  {
    if p.remaining > 0 then
      var n := Least(|p.buffer|, p.remaining);
      p.(buffer := p.buffer[n..], remaining := p.remaining - n, after := p.remaining == n || p.after,
         output := p.output + p.buffer[..n])
    else
      var i := CrlfAt(p.buffer);
      var h := Handle(p.tags, p.buffer[..i], p.after, ctx(p.lines));
      Pump(p.buffer[i + 2..], if h.literal.Some? then h.literal.value else 0, h.literal == Some(0),
           h.tags, p.lines + 1, p.output + Sent(h.sent))
  }

  function Drain(p: Pump, ctx: Contexts): (q: Pump)
    ensures Stuck(q)
    decreases |p.buffer|
  {
    if Stuck(p) then p else Drain(Advance(p, ctx), ctx)
  }

  function Flush(p: Pump): Pump {
    p.(buffer := "", output := p.output + p.buffer)
  }

  function Received(p: Pump, chunk: string, ctx: Contexts): Pump {
    Flush(Drain(p.(buffer := p.buffer + chunk), ctx))
  }

  function ReceivedAll(p: Pump, chunks: seq<string>, ctx: Contexts): Pump {
    if chunks == [] then p
    else Received(ReceivedAll(p, chunks[..|chunks| - 1], ctx), chunks[|chunks| - 1], ctx)
  }

  function Start(tags: Tags): Pump {
    Pump("", 0, false, tags, 0, "")
  }

  class UpstreamToClient {
    var buffer: string
    var literalRemaining: nat
    var afterLiteral: bool
    var tags: Tags
    var lines: nat
    var output: string

    constructor (t: Tags)
      ensures State() == Start(t)
    {
      buffer, literalRemaining, afterLiteral, tags, lines, output := "", 0, false, t, 0, "";
    }

    function State(): Pump
      reads this
    {
      Pump(buffer, literalRemaining, afterLiteral, tags, lines, output)
    }

    method RelayLiteral()
      requires literalRemaining > 0 && buffer != ""
      modifies this
      ensures forall ctx: Contexts :: State() == Advance(old(State()), ctx)
    {
      var n := Least(|buffer|, literalRemaining);
      output := output + buffer[..n];
      buffer := buffer[n..];
      literalRemaining := literalRemaining - n;
      if literalRemaining == 0 {
        afterLiteral := true;
      }
    }

    method HandleLine(ctx: Contexts)
      requires literalRemaining == 0 && CrlfAt(buffer) < |buffer|
      modifies this
      ensures State() == Advance(old(State()), ctx)
    {
      hide Handle, CrlfAt, Sent;
      var i := CrlfAt(buffer);
      var h := Handle(tags, buffer[..i], afterLiteral, ctx(lines));
      buffer := buffer[i + 2..];
      afterLiteral := false;
      output := output + Sent(h.sent);
      if h.literal.Some? {
        literalRemaining := h.literal.value;
        afterLiteral := literalRemaining == 0;
      }
      tags, lines := h.tags, lines + 1;
    }

    /** One chunk read from upstream. */
    method Receive(chunk: string, ctx: Contexts)
      modifies this
      ensures State() == Received(old(State()), chunk, ctx)
    {
      hide Advance;
      buffer := buffer + chunk;
      ghost var start := State();
      while !Stuck(State())
        invariant Drain(State(), ctx) == Drain(start, ctx)
        decreases |buffer|
      {
        ghost var p := State();
        assert |Advance(p, ctx).buffer| < |p.buffer|;
        if literalRemaining > 0 {
          RelayLiteral();
        } else {
          HandleLine(ctx);
        }
        assert State() == Advance(p, ctx);
      }
      output := output + buffer;
      buffer := "";
    }
  }

  // ----- nothing to rewrite -----

  /** No capability or revert tag outstanding, no pending operation in the selected folder. */
  ghost predicate Quiet(ctx: Contexts) {
    forall k :: QuietContext(ctx(k))
  }

  ghost predicate QuietContext(c: Context) {
    && c.capabilityIssued == None && c.revertIssued == None
    && (c.folder ==> c.pending == {} && forall uid :: c.changes(uid) == ([], []))
  }

  lemma QuietLine(line: string, continues: bool, c: Context)
    requires QuietContext(c)
    ensures Handle(Tags(None, None), line, continues, c).sent == [line]
    ensures Handle(Tags(None, None), line, continues, c).tags == Tags(None, None)
  {
    hide FetchLiteral, FetchPayload, FindUid, IsFetch, ExistsCount, Announces, TaggedOk, Words, ReplacementText, FindFlags;
  }

  lemma CrlfSplit(s: string)
    requires CrlfAt(s) < |s|
    ensures s == s[..CrlfAt(s)] + CRLF + s[CrlfAt(s) + 2..]
  {
    var i := CrlfAt(s);
    TwoChars(s, i);
    ThreeParts(s, i, i + 2);
  }

  lemma TwoChars(s: string, i: nat)
    requires i + 2 <= |s| && s[i] == '\r' && s[i + 1] == '\n'
    ensures s[i..i + 2] == CRLF
  {
    assert s[i..i + 2] == [s[i], s[i + 1]];
  }

  lemma ThreeParts(s: string, i: nat, j: nat)
    requires i <= j <= |s|
    ensures s == s[..i] + s[i..j] + s[j..]
  {
  }

  lemma SentOne(line: string)
    ensures Sent([line]) == line + CRLF
  {
    assert [line][1..] == [];
    assert line + CRLF + "" == line + CRLF;
  }

  lemma {:induction false} QuietDrain(p: Pump, ctx: Contexts)
    requires Quiet(ctx) && p.tags == Tags(None, None)
    ensures Drain(p, ctx).tags == Tags(None, None)
    ensures Drain(p, ctx).output + Drain(p, ctx).buffer == p.output + p.buffer
    decreases |p.buffer|
  {
    hide Advance, Quiet, QuietContext;
    if !Stuck(p) {
      QuietAdvance(p, ctx);
      QuietDrain(Advance(p, ctx), ctx);
    }
  }

  lemma QuietAdvance(p: Pump, ctx: Contexts)
    requires Quiet(ctx) && p.tags == Tags(None, None) && !Stuck(p)
    ensures Advance(p, ctx).tags == Tags(None, None)
    ensures Advance(p, ctx).output + Advance(p, ctx).buffer == p.output + p.buffer
  {
    hide Handle, Sent, CrlfAt;
    if p.remaining == 0 {
      var line := p.buffer[..CrlfAt(p.buffer)];
      QuietLine(line, p.after, ctx(p.lines));
      SentOne(line);
      CrlfSplit(p.buffer);
      assert p.output + (line + CRLF) + p.buffer[CrlfAt(p.buffer) + 2..] == p.output + p.buffer;
    } else {
      var n := Least(|p.buffer|, p.remaining);
      assert p.output + p.buffer[..n] + p.buffer[n..] == p.output + p.buffer;
    }
  }

  function Concat(chunks: seq<string>): string {
    if chunks == [] then "" else Concat(chunks[..|chunks| - 1]) + chunks[|chunks| - 1]
  }

  /** With no rewrite trigger active the agent gets the upstream bytes, however they are cut. */
  lemma {:induction false} QuietIsTransparent(chunks: seq<string>, ctx: Contexts)
    requires Quiet(ctx)
    ensures var p := ReceivedAll(Start(Tags(None, None)), chunks, ctx);
            p.output == Concat(chunks) && p.buffer == "" && p.tags == Tags(None, None)
  {
    hide Drain, Quiet;
    if chunks == [] {
    } else {
      var front, last := chunks[..|chunks| - 1], chunks[|chunks| - 1];
      QuietIsTransparent(front, ctx);
      var p := ReceivedAll(Start(Tags(None, None)), front, ctx);
      QuietDrain(p.(buffer := p.buffer + last), ctx);
    }
  }

  // ----- the stream as the server means it -----

  datatype Item = Line(text: string) | Literal(data: string)

  function Render(items: seq<Item>): string {
    if items == [] then ""
    else (match items[0] case Line(l) => l + CRLF case Literal(d) => d) + Render(items[1..])
  }

  /** due: size of the literal just announced; continues: the next line goes on after a literal. */
  predicate Framed(items: seq<Item>, due: Option<nat>, continues: bool) {
    match due
    case Some(n) =>
      if items == [] then n > 0
      else items[0].Literal? && |items[0].data| == n && Framed(items[1..], None, true)
    case None =>
      items == [] ||
      (items[0].Line? && !HasCrlf(items[0].text) && Framed(items[1..], Announces(items[0].text, continues), false))
  }

  /** Reading a byte stream back into lines and literals. */
  function Parse(s: string, due: Option<nat>, continues: bool): seq<Item>
    decreases |s|, if due.Some? then 1 else 0
  {
    match due
    case Some(n) =>
      if n > |s| then if s == "" then [] else [Literal(s)]
      else [Literal(s[..n])] + Parse(s[n..], None, true)
    case None =>
      var i := CrlfAt(s);
      if i == |s| then []
      else [Line(s[..i])] + Parse(s[i + 2..], Announces(s[..i], continues), false)
  }

  lemma {:induction false} CrlfAfter(l: string, rest: string)
    requires !HasCrlf(l)
    ensures CrlfAt(l + CRLF + rest) == |l|
  {
    var s := l + CRLF + rest;
    if l == "" {
    } else {
      assert s[1..] == l[1..] + CRLF + rest;
      NoCrlfIn(l, 1, |l|);
      assert l[1..|l|] == l[1..];
      CrlfAfter(l[1..], rest);
      assert s[0] == l[0] && (|l| > 1 ==> s[1] == l[1]) && (|l| == 1 ==> s[1] == '\r');
    }
  }

  lemma NoCrlfIn(s: string, i: nat, j: nat)
    requires i <= j <= |s| && !HasCrlf(s)
    ensures !HasCrlf(s[i..j])
  {
    var t := s[i..j];
    forall k | 0 <= k < |t| - 1 ensures !(t[k] == '\r' && t[k + 1] == '\n') {
      var m := i + k;
      assert t[k] == s[m] && t[k + 1] == s[m + 1];
    }
  }

  lemma CrlfLater(s: string)
    requires |s| >= 2
    ensures HasCrlf(s) <==> (s[0] == '\r' && s[1] == '\n') || HasCrlf(s[1..])
  {
    var t := s[1..];
    assert forall k :: 0 <= k < |t| ==> t[k] == s[k + 1];
    if HasCrlf(s) {
      var k :| 0 <= k < |s| - 1 && s[k] == '\r' && s[k + 1] == '\n';
      if k > 0 {
        var m := k - 1;
        assert t[m] == '\r' && t[m + 1] == '\n';
      }
    }
    if HasCrlf(t) {
      var k :| 0 <= k < |t| - 1 && t[k] == '\r' && t[k + 1] == '\n';
      var m := k + 1;
      assert s[m] == '\r' && s[m + 1] == '\n';
    }
    if s[0] == '\r' && s[1] == '\n' {
      assert s[0 + 1] == '\n';
    }
  }

  /** A line ends at the first CRLF. */
  lemma {:induction false} FirstCrlf(s: string)
    ensures !HasCrlf(s[..CrlfAt(s)])
    ensures CrlfAt(s) == |s| <==> !HasCrlf(s)
  {
    if CrlfAt(s) > 0 && |s| >= 2 {
      FirstCrlf(s[1..]);
      var t := s[..CrlfAt(s)];
      assert s[1..][..CrlfAt(s[1..])] == t[1..];
      if |t| >= 2 {
        CrlfLater(t);
      }
      CrlfLater(s);
    } else if |s| >= 2 {
      assert s[0] == '\r' && s[0 + 1] == '\n';
    }
  }

  lemma LineAfter(l: string, rest: string)
    requires !HasCrlf(l)
    ensures var s := l + CRLF + rest; CrlfAt(s) == |l| < |s| && s[..|l|] == l && s[|l| + 2..] == rest
  {
    CrlfAfter(l, rest);
  }

  lemma ParseLineStep(l: string, rest: string, continues: bool)
    requires !HasCrlf(l)
    ensures Parse(l + CRLF + rest, None, continues) == [Line(l)] + Parse(rest, Announces(l, continues), false)
  {
    hide Announces, CrlfAt, HasCrlf;
    LineAfter(l, rest);
  }

  lemma ParseLiteralStep(d: string, rest: string, continues: bool)
    ensures Parse(d + rest, Some(|d|), continues) == [Literal(d)] + Parse(rest, None, true)
  {
    assert (d + rest)[..|d|] == d && (d + rest)[|d|..] == rest;
  }

  lemma {:induction false} ParseRender(items: seq<Item>, due: Option<nat>, continues: bool)
    requires Framed(items, due, continues)
    ensures Parse(Render(items), due, continues) == items
    decreases |items|
  {
    if items == [] {
    } else {
      hide Announces, Parse, HasCrlf;
      assert items == [items[0]] + items[1..];
      match items[0] {
        case Line(l) =>
          ParseLineStep(l, Render(items[1..]), continues);
          ParseRender(items[1..], Announces(l, continues), false);
        case Literal(d) =>
          ParseLiteralStep(d, Render(items[1..]), continues);
          ParseRender(items[1..], None, true);
      }
    }
  }

  // ----- what the pump does to it -----

  function Lines(texts: seq<string>): (r: seq<Item>)
    ensures |r| == |texts|
  {
    seq(|texts|, i requires 0 <= i < |texts| => Line(texts[i]))
  }

  /** Each line as handled, each literal as it is. */
  function Relay(items: seq<Item>, continues: bool, tags: Tags, k: nat, ctx: Contexts): seq<Item> {
    if items == [] then []
    else match items[0]
      case Line(l) =>
        var h := Handle(tags, l, continues, ctx(k));
        Lines(h.sent) + Relay(items[1..], false, h.tags, k + 1, ctx)
      case Literal(d) => [Literal(d)] + Relay(items[1..], true, tags, k, ctx)
  }

  function Literals(items: seq<Item>): seq<string> {
    if items == [] then []
    else (if items[0].Literal? then [items[0].data] else []) + Literals(items[1..])
  }

  lemma {:induction false} LiteralsAppend(a: seq<Item>, b: seq<Item>)
    ensures Literals(a + b) == Literals(a) + Literals(b)
  {
    if a == [] {
      assert a + b == b;
    } else {
      assert (a + b)[1..] == a[1..] + b;
      LiteralsAppend(a[1..], b);
    }
  }

  lemma {:induction false} NoLiterals(texts: seq<string>)
    ensures Literals(Lines(texts)) == []
  {
    if texts == [] {
    } else {
      assert Lines(texts)[1..] == Lines(texts[1..]);
      NoLiterals(texts[1..]);
    }
  }

  lemma {:induction false} LiteralsKept(items: seq<Item>, continues: bool, tags: Tags, k: nat, ctx: Contexts)
    ensures Literals(Relay(items, continues, tags, k, ctx)) == Literals(items)
  {
    hide Handle;
    if items == [] {
    } else {
      match items[0] {
        case Line(l) =>
          var h := Handle(tags, l, continues, ctx(k));
          var rest := Relay(items[1..], false, h.tags, k + 1, ctx);
          LiteralsAppend(Lines(h.sent), rest);
          NoLiterals(h.sent);
          LiteralsKept(items[1..], false, h.tags, k + 1, ctx);
        case Literal(d) =>
          var rest := Relay(items[1..], true, tags, k, ctx);
          assert ([Literal(d)] + rest)[1..] == rest;
          LiteralsKept(items[1..], true, tags, k, ctx);
      }
    }
  }

  /** Whatever the bytes, no line read back holds a line end. */
  lemma {:induction false} LinesReadWhole(s: string, due: Option<nat>, continues: bool)
    ensures forall i :: 0 <= i < |Parse(s, due, continues)| && Parse(s, due, continues)[i].Line? ==>
              !HasCrlf(Parse(s, due, continues)[i].text)
    decreases |s|, if due.Some? then 1 else 0
  {
    hide Announces, CrlfAt, HasCrlf;
    match due {
      case Some(n) => if n <= |s| { LinesReadWhole(s[n..], None, true); }
      case None =>
        var i := CrlfAt(s);
        if i < |s| {
          FirstCrlf(s);
          LinesReadWhole(s[i + 2..], Announces(s[..i], continues), false);
        }
    }
  }

  // ----- well-formed streams -----

  /**
   * A response line by itself, and what RFC 3501 makes sure of: a line that goes on after a
   * literal (it is empty or starts with a space or ")") does not read as a response of its
   * own; only the announcing marker ends a FETCH line in "{n}"; SEARCH and CAPABILITY carry
   * no brace.
   */
  predicate LineOk(l: string, continues: bool) {
    && !HasCrlf(l)
    && (continues ==> !("* " <= l) && TaggedOk(l) == None)
    && (FetchLiteral(l).Some? ==> FetchLiteral(l) == Announces(l, continues))
    && (IsSearch(l) || IsCapability(l) ==> '{' !in l)
  }

  predicate WellFormed(items: seq<Item>, due: Option<nat>, continues: bool) {
    match due
    case Some(n) =>
      if items == [] then n > 0
      else items[0].Literal? && |items[0].data| == n && WellFormed(items[1..], None, true)
    case None =>
      items == [] ||
      (items[0].Line? && LineOk(items[0].text, continues) && WellFormed(items[1..], Announces(items[0].text, continues), false))
  }

  // ----- lines cut in two by a flag -----

  /** The FLAGS patch applies to this line, and the text of some merged flag holds a line end. */
  predicate PatchSplits(l: string, c: Context) {
    match FetchPayload(l)
    case None => false
    case Some(payload) =>
      match (FindUid(payload, 0), FindFlags(l, 0))
      case (Some(uid), Some((i, j))) =>
        var (add, remove) := c.changes(uid);
        var merged := Merged(l, payload, add, remove);
        && c.folder && (add != [] || remove != [])
        && (forall f :: f in merged ==> FlagText(f, l[i..j]).Some?)
        && (exists f :: f in merged && HasCrlf(FlagText(f, l[i..j]).value))
      case _ => false
  }

  predicate RevertSplits(r: Revert) {
    exists j :: 0 <= j < |r.flags| && HasCrlf(r.flags[j])
  }

  /** A line sent for l holds a line end: a flag of a revert told now, or one the patch writes. */
  predicate Splits(tags: Tags, l: string, c: Context) {
    var l2 := Recounted(Filtered(tags, l, c), c);
    || (Fires(tags, l, c) && exists i :: 0 <= i < |c.reverts| && RevertSplits(c.reverts[i]))
    || (FetchLiteral(l2) == None && !Suppressed(l2, c) && PatchSplits(l2, c))
  }

  /** No line of the stream meets such a flag. */
  predicate Harmless(items: seq<Item>, continues: bool, tags: Tags, k: nat, ctx: Contexts) {
    items == [] ||
    match items[0]
    case Line(l) =>
      !Splits(tags, l, ctx(k)) && Harmless(items[1..], false, Handle(tags, l, continues, ctx(k)).tags, k + 1, ctx)
    case Literal(_) => Harmless(items[1..], true, tags, k, ctx)
  }
}
