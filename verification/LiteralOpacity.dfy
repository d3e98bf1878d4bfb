// Literals on the client side: refused ones are consumed to the next fresh
// command, and what is inside a literal never matters to the pump.
module LiteralOpacity {
  import opened Wrappers
  import opened Text
  import opened ImapParser
  import opened CommandRouter
  import opened OperationParser
  import opened ClientPump

  // ----- consumed exactly -----

  /** One more non-synchronizing literal of a command, and the line that goes on after it. */
  datatype Piece = Piece(payload: string, line: string)

  function Bytes(pieces: seq<Piece>): string {
    if pieces == [] then "" else pieces[0].payload + pieces[0].line + Bytes(pieces[1..])
  }

  predicate OneLine(line: string) {
    line != "" && line[|line| - 1] == '\n' && '\n' !in line[..|line| - 1]
  }

  /** line announces the first literal, each continuation the next, the last one none. */
  predicate Chained(line: string, pieces: seq<Piece>)
    decreases |pieces|
  {
    if pieces == [] then NonsyncSize(line) == None
    else
      && NonsyncSize(line) == Some(|pieces[0].payload|) && |pieces[0].payload| <= MAX_APPEND_BYTES
      && OneLine(pieces[0].line) && Chained(Chomp(pieces[0].line), pieces[1..])
  }

  lemma ReadsLine(line: string, rest: string)
    requires OneLine(line)
    ensures ReadLine(line + rest) == Taken(line, rest)
  {
    var body := line[..|line| - 1];
    assert line + rest == body + ['\n'] + rest;
    IndexOfAt(body, '\n', rest);
    assert (line + rest)[..|line|] == line && (line + rest)[|line|..] == rest;
  }

  lemma {:induction false} DiscardConsumes(line: string, pieces: seq<Piece>, rest: string)
    requires Chained(line, pieces)
    ensures Discard(line, Bytes(pieces) + rest) == Discarded(rest, true, false)
    decreases |pieces|
  {
    hide NonsyncSize, ReadLine, Chomp, OneLine;
    if pieces == [] {
      assert "" + rest == rest;
    } else {
      var p, more := pieces[0], Bytes(pieces[1..]) + rest;
      var input := Bytes(pieces) + rest;
      assert input == p.payload + (p.line + more);
      assert input[|p.payload|..] == p.line + more;
      LineNotEmpty(p.line);
      ReadsLine(p.line, more);
      DiscardConsumes(Chomp(p.line), pieces[1..], rest);
    }
  }

  lemma LineNotEmpty(line: string)
    requires OneLine(line)
    ensures line != ""
  {
  }

  /**
   * A command refused for its non-synchronizing literals leaves the stream at the next fresh
   * command, however many literals it carried.
   */
  lemma NonsyncConsumed(s: Session, line: string, cmd: ParsedCommand, pieces: seq<Piece>, rest: string, w: World)
    requires Chained(Chomp(line), pieces) && pieces != []
    ensures var t := ParsedTurn(s, line, Chomp(line), cmd, Bytes(pieces) + rest, w);
            t == Turn([Answer(Cannot(cmd.tag, "non-synchronizing literal"))], s, rest, true)
  {
    hide NonsyncSize, Chomp, Discard;
    DiscardConsumes(Chomp(line), pieces, rest);
    ChainedAnnounces(Chomp(line), pieces);
  }

  lemma ChainedAnnounces(line: string, pieces: seq<Piece>)
    requires Chained(line, pieces) && pieces != []
    ensures NonsyncSize(line).Some?
  {
  }

  /** MULTIAPPEND is refused whole: nothing is staged, and the next line read is a fresh command. */
  lemma MultiAppendConsumed(s: Session, raw: string, body: string, line: string, pieces: seq<Piece>, rest: string, w: World)
    requires TakesLiteral(raw) && AppendSize(raw) == |body| && OneLine(line) && AnyLiteralTail(Chomp(line))
    requires Chained(Chomp(line), pieces)
    ensures LiteralTurn(s, raw, body + line + Bytes(pieces) + rest, w) ==
            Turn([Answer(Continue), Answer(Cannot(FirstWord(raw), "MULTIAPPEND"))], s, rest, true)
  {
    hide NonsyncSize, Chomp, Discard, TakesLiteral, AppendSize, AnyLiteralTail, OneLine, ReadLine, FirstWord;
    var input := body + line + Bytes(pieces) + rest;
    assert input[|body|..] == line + (Bytes(pieces) + rest);
    ReadsLine(line, Bytes(pieces) + rest);
    DiscardConsumes(Chomp(line), pieces, rest);
  }

  /** A single APPEND is staged with exactly its literal, its mailbox unquoted, and the stream goes on after its line. */
  lemma AppendConsumed(s: Session, raw: string, body: string, line: string, rest: string, w: World)
    requires TakesLiteral(raw) && AppendSize(raw) == |body| <= MAX_APPEND_BYTES && OneLine(line)
    requires !AnyLiteralTail(Chomp(line)) && !ClientPump.Suppressed(AppendFolder(raw), w.profile) && !w.stageFails
    ensures LiteralTurn(s, raw, body + line + rest, w) ==
            Turn([Answer(Continue), StageAppend(UnquoteMailbox(AppendFolder(raw)), AppendFlags(raw), |body|, body), Answer(Staged(FirstWord(raw)))],
                 s, rest, true)
  {
    hide NonsyncSize, Chomp, Discard, TakesLiteral, AppendSize, AnyLiteralTail, OneLine, ReadLine, FirstWord, AppendFlags,
         AppendFolder, ClientPump.Suppressed;
    var input := body + line + rest;
    assert input[|body|..] == line + rest && input[..|body|] == body;
    ReadsLine(line, rest);
  }

  // ----- opaque -----

  /** Which line the client sends next. */
  datatype Place = Fresh | AfterAppend | Refusing

  datatype Expect = Line(place: Place) | Payload(size: nat, place: Place)

  /** What follows a line, by the literal rules of RFC 3501 and RFC 7888. */
  function Follows(place: Place, line: string): Expect {
    var raw := Chomp(line);
    var refused := match NonsyncSize(raw) case Some(n) => Payload(n, Refusing) case None => Line(Fresh);
    match place
    case Fresh =>
      if HasBareCrOrNul(line) then Line(Fresh)
      else if ParseLine(raw) == None then
        if TakesLiteral(raw) then Payload(AppendSize(raw), AfterAppend) else Line(Fresh)
      else refused
    case AfterAppend => if AnyLiteralTail(raw) then refused else Line(Fresh)
    case Refusing => refused
  }

  /** The same lines, and literals of the same sizes in the same places. */
  predicate OnlyPayloadsDiffer(a: string, b: string, e: Expect)
    decreases |a|, if e.Payload? then 1 else 0
  {
    match e
    case Payload(n, place) =>
      if |a| < n || |b| < n then |a| == |b| else OnlyPayloadsDiffer(a[n..], b[n..], Line(place))
    case Line(place) =>
      if a == "" || b == "" then a == b
      else
        ReadLine(a).data == ReadLine(b).data &&
        OnlyPayloadsDiffer(ReadLine(a).rest, ReadLine(b).rest, Follows(place, ReadLine(a).data))
  }

  /** An event without the message body it stages. */
  function Veiled(e: Event): Event {
    if e.StageAppend? then e.(body := "") else e
  }

  function VeiledAll(es: seq<Event>): (r: seq<Event>)
    ensures |r| == |es| && forall i :: 0 <= i < |r| ==> r[i] == Veiled(es[i])
  {
    seq(|es|, i requires 0 <= i < |es| => Veiled(es[i]))
  }

  predicate Alike(t: Turn, u: Turn) {
    && t.session == u.session && t.open == u.open && VeiledAll(t.events) == VeiledAll(u.events)
    && (t.open ==> OnlyPayloadsDiffer(t.rest, u.rest, Line(Fresh)))
  }

  /** Two empties, or two lines read alike. */
  lemma LinesAlike(a: string, b: string, place: Place)
    requires OnlyPayloadsDiffer(a, b, Line(place))
    ensures ReadLine(a).data == ReadLine(b).data && (a == "" <==> b == "")
    ensures a != "" ==> OnlyPayloadsDiffer(ReadLine(a).rest, ReadLine(b).rest, Follows(place, ReadLine(a).data))
  {
    hide Follows;
  }

  lemma {:induction false} DiscardAlike(line: string, a: string, b: string)
    requires match NonsyncSize(line)
             case Some(n) => OnlyPayloadsDiffer(a, b, Payload(n, Refusing))
             case None => OnlyPayloadsDiffer(a, b, Line(Fresh))
    ensures var x, y := Discard(line, a), Discard(line, b);
            x.alive == y.alive && x.bye == y.bye && (x.alive ==> OnlyPayloadsDiffer(x.rest, y.rest, Line(Fresh)))
    decreases |a|
  {
    hide NonsyncSize, ReadLine, Chomp, Follows;
    match NonsyncSize(line) {
      case None =>
      case Some(n) =>
        if n <= MAX_APPEND_BYTES && |a| >= n && |b| >= n {
          LinesAlike(a[n..], b[n..], Refusing);
          if a[n..] != "" {
            var x, y := ReadLine(a[n..]), ReadLine(b[n..]);
            assert Follows(Refusing, x.data) ==
              match NonsyncSize(Chomp(x.data)) case Some(m) => Payload(m, Refusing) case None => Line(Fresh) by { FollowsRefusing(x.data); }
            DiscardAlike(Chomp(x.data), x.rest, y.rest);
          }
        }
    }
  }

  lemma FollowsRefusing(line: string)
    ensures Follows(Refusing, line) ==
            match NonsyncSize(Chomp(line)) case Some(m) => Payload(m, Refusing) case None => Line(Fresh)
  {
    hide NonsyncSize, Chomp;
  }

  lemma FollowsAppend(line: string)
    ensures Follows(AfterAppend, line) == if AnyLiteralTail(Chomp(line)) then Follows(Refusing, line) else Line(Fresh)
  {
    hide NonsyncSize, Chomp, AnyLiteralTail;
  }

  lemma NothingTails()
    ensures Chomp("") == "" && !AnyLiteralTail("")
  {
  }

  lemma LiteralAlike(s: Session, raw: string, a: string, b: string, w: World)
    requires OnlyPayloadsDiffer(a, b, if TakesLiteral(raw) then Payload(AppendSize(raw), AfterAppend) else Line(Fresh))
    ensures Alike(LiteralTurn(s, raw, a, w), LiteralTurn(s, raw, b, w))
  {
    hide NonsyncSize, ReadLine, Chomp, Follows, Discard, TakesLiteral, AppendSize, AnyLiteralTail, AppendFlags, AppendFolder,
         ClientPump.Suppressed, FirstWord;
    if TakesLiteral(raw) {
      var n := AppendSize(raw);
      if |a| >= n && |b| >= n {
        assert OnlyPayloadsDiffer(a[n..], b[n..], Line(AfterAppend));
        AppendTailAlike(s, raw, a, b, w);
      }
    }
  }

  lemma AppendTailAlike(s: Session, raw: string, a: string, b: string, w: World)
    requires TakesLiteral(raw) && |a| >= AppendSize(raw) && |b| >= AppendSize(raw)
    requires OnlyPayloadsDiffer(a[AppendSize(raw)..], b[AppendSize(raw)..], Line(AfterAppend))
    ensures Alike(LiteralTurn(s, raw, a, w), LiteralTurn(s, raw, b, w))
  {
    hide NonsyncSize, ReadLine, Chomp, Follows, Discard, TakesLiteral, AppendSize, AnyLiteralTail, AppendFlags, AppendFolder,
         ClientPump.Suppressed, FirstWord, OnlyPayloadsDiffer;
    var n := AppendSize(raw);
    LinesAlike(a[n..], b[n..], AfterAppend);
    var x, y := ReadLine(a[n..]), ReadLine(b[n..]);
    var tail := Chomp(x.data);
    if a[n..] == "" {
      NothingTails();
      EmptyAlike();
    } else {
      FollowsAppend(x.data);
      if AnyLiteralTail(tail) {
        FollowsRefusing(x.data);
        DiscardAlike(tail, x.rest, y.rest);
      }
    }
    assert x == ReadLine(a[n..]) && y == ReadLine(b[n..]);
  }

  lemma EmptyAlike()
    ensures ReadLine("") == Taken("", "") && OnlyPayloadsDiffer("", "", Line(Fresh))
  {
  }

  lemma ParsedAlike(s: Session, line: string, raw: string, cmd: ParsedCommand, a: string, b: string, w: World)
    requires match NonsyncSize(raw)
             case Some(n) => OnlyPayloadsDiffer(a, b, Payload(n, Refusing))
             case None => OnlyPayloadsDiffer(a, b, Line(Fresh))
    ensures Alike(ParsedTurn(s, line, raw, cmd, a, w), ParsedTurn(s, line, raw, cmd, b, w))
  {
    hide NonsyncSize, Discard, OnlyPayloadsDiffer, Classify, FlushEvents, StageTurn, ReadEvents, Selected;
    if NonsyncSize(raw).Some? {
      DiscardAlike(raw, a, b);
    }
  }

  lemma ServeAlike(s: Session, a: string, b: string, w: World)
    requires OnlyPayloadsDiffer(a, b, Line(Fresh)) && a != "" && b != ""
    ensures Alike(Serve(s, a, w), Serve(s, b, w))
  {
    hide NonsyncSize, ReadLine, Chomp, OnlyPayloadsDiffer, HasBareCrOrNul, ParseLine, LiteralTurn, ParsedTurn, TakesLiteral,
         AppendSize, Alike, AnyLiteralTail, RawTag;
    LinesAlike(a, b, Fresh);
    var x, y := ReadLine(a), ReadLine(b);
    var raw := Chomp(x.data);
    if HasBareCrOrNul(x.data) {
      SameTurn([Answer(BadLine(RawTag(raw)))], s, x.rest, y.rest);
    } else if ParseLine(raw) == None {
      LiteralAlike(s, raw, x.rest, y.rest, w);
    } else {
      ParsedAlike(s, x.data, raw, ParseLine(raw).value, x.rest, y.rest, w);
    }
  }

  lemma SameTurn(es: seq<Event>, s: Session, a: string, b: string)
    requires OnlyPayloadsDiffer(a, b, Line(Fresh))
    ensures Alike(Turn(es, s, a, true), Turn(es, s, b, true))
  {
  }

  /**
   * Literal payloads are opaque: two client streams that differ only inside literals of
   * equal length have the same commands forwarded, the same replies and the same staged
   * operations, except for the bodies of staged messages.
   */
  lemma {:induction false} PayloadsAreOpaque(s: Session, a: string, b: string, k: nat, worlds: Worlds)
    requires OnlyPayloadsDiffer(a, b, Line(Fresh))
    ensures VeiledAll(ServeAll(s, a, k, worlds).0) == VeiledAll(ServeAll(s, b, k, worlds).0)
    ensures ServeAll(s, a, k, worlds).1 == ServeAll(s, b, k, worlds).1
    decreases |a|
  {
    hide Serve, ServeAll, OnlyPayloadsDiffer;
    LinesAlike(a, b, Fresh);
    if a == "" {
      ServeNothing(s, k, worlds);
    } else {
      ServeAllStep(s, a, k, worlds);
      ServeAllStep(s, b, k, worlds);
      ServeAlike(s, a, b, worlds(k));
      var t, u := Serve(s, a, worlds(k)), Serve(s, b, worlds(k));
      if t.open {
        PayloadsAreOpaque(t.session, t.rest, u.rest, k + 1, worlds);
        VeiledAppend(t.events, ServeAll(t.session, t.rest, k + 1, worlds).0);
        VeiledAppend(u.events, ServeAll(u.session, u.rest, k + 1, worlds).0);
      }
    }
  }

  lemma VeiledAppend(a: seq<Event>, b: seq<Event>)
    ensures VeiledAll(a + b) == VeiledAll(a) + VeiledAll(b)
  {
  }
}
