// What the client-to-upstream pump lets through, and that literal payloads are
// opaque to it.
module ForwardingSafety {
  import opened Wrappers
  import opened Text
  import opened ImapParser
  import opened CommandRouter
  import opened OperationParser
  import opened ClientPump

  /** A line that may go upstream: one complete command of a listed class, ENABLE only as allowed. */
  predicate MayForward(line: string) {
    var raw := Chomp(line);
    && !HasBareCrOrNul(line) && NonsyncSize(raw) == None
    && match ParseLine(raw)
       case None => false
       case Some(cmd) =>
         Classify(cmd) == Class.Read &&
         (cmd.command == "ENABLE" ==> forall i :: 0 <= i < |cmd.args| ==> Upper(cmd.args[i]) == "CONDSTORE")
  }

  /** One line: no line end inside, and one at the end unless these are the last bytes the client sent. */
  predicate Whole(line: string, input: string) {
    && line != "" && '\n' !in line[..|line| - 1]
    && (line[|line| - 1] == '\n' || EndsWith(input, line))
  }

  // ----- plain command lines -----

  /** tag VERB args, or tag UID VERB args with the prefix as the client spells it. */
  function Command(tag: string, uid: string, verb: string, args: string): string {
    tag + [' '] + ((if uid == "" then "" else uid + [' ']) + (verb + [' '] + args))
  }

  predicate Prefix(uid: string) {
    uid == "" || Upper(uid) == "UID"
  }

  lemma PrefixIsWord(uid: string)
    requires uid != "" && Prefix(uid)
    ensures Clean(uid) && |uid| == 3
  {
    assert Upper(uid)[0] == UpperChar(uid[0]) && Upper(uid)[1] == UpperChar(uid[1]) && Upper(uid)[2] == UpperChar(uid[2]);
  }

  lemma CommandParses(tag: string, uid: string, verb: string, args: string)
    requires Clean(tag) && Prefix(uid) && Clean(verb) && (uid == "" ==> Upper(verb) != "UID") && args != "" && args[0] != ' '
    ensures ParseLine(Command(tag, uid, verb, args)) ==
            (var tokens := Tokenize(args);
             if tokens != [] && SyncLiteral(tokens[|tokens| - 1]) then None
             else Some(ParsedCommand(tag, Upper(verb), uid != "", tokens)))
    ensures Words(Command(tag, uid, verb, args)) == [tag] + (if uid == "" then [] else [uid]) + [verb] + Words(args)
  {
    hide Tokenize, Words, AfterTokens, Upper, SyncLiteral;
    var two := verb + [' '] + args;
    WordsFirst(verb, args);
    AfterTokensFirst(verb, args, 0);
    NoLeadingSpace(args);
    if uid == "" {
      assert "" + two == two;
      WordsFirst(tag, two);
      AfterTokensFirst(tag, two, 1);
    } else {
      PrefixIsWord(uid);
      var three := uid + [' '] + two;
      assert uid + [' '] + two == three;
      WordsFirst(tag, three);
      WordsFirst(uid, two);
      AfterTokensFirst(tag, three, 2);
      AfterTokensFirst(uid, two, 1);
    }
  }

  // ----- the rewritten ENABLE line -----

  lemma CondstoreWord(w: string)
    requires Upper(w) == "CONDSTORE"
    ensures AtomWord(w) && '}' !in w && '\r' !in w && '\n' !in w && '\0' !in w && !SyncLiteral(w) && w != ""
  {
    forall i | 0 <= i < |w| ensures 'A' <= w[i] <= 'Z' || 'a' <= w[i] <= 'z' {
      assert Upper(w)[i] == UpperChar(w[i]);
      assert 'A' <= Upper(w)[i] <= 'Z';
    }
  }

  lemma ChompLine(s: string)
    requires s != "" && s[|s| - 1] != '\r' && s[|s| - 1] != '\n'
    ensures Chomp(s + "\r\n") == s && Chomp(s) == s
  {
    var t := s + "\r\n";
    assert t[..|t| - 1] == s + "\r";
    assert (s + "\r")[..|s|] == s;
    assert Chomp(t) == Chomp(s + "\r");
    assert Chomp(s + "\r") == Chomp(s);
  }

  lemma CleanLine(s: string)
    requires '\r' !in s && '\0' !in s
    ensures !HasBareCrOrNul(s + "\r\n")
  {
    var t := s + "\r\n";
    assert t[..|t| - 1] == s + "\r";
    assert (s + "\r")[..|s|] == s;
  }

  lemma JoinEnds(ws: seq<string>)
    requires ws != [] && forall i :: 0 <= i < |ws| ==> ws[i] != ""
    ensures Join(ws, ' ') != ""
    ensures var last := ws[|ws| - 1]; Join(ws, ' ')[|Join(ws, ' ')| - 1] == last[|last| - 1]
  {
    if |ws| > 1 {
      JoinEnds(ws[1..]);
    }
  }

  lemma EnableParses(tag: string, kept: seq<string>)
    requires Clean(tag) && kept != [] && forall i :: 0 <= i < |kept| ==> Upper(kept[i]) == "CONDSTORE"
    ensures ParseLine(tag + " ENABLE " + Join(kept, ' ')) == Some(ParsedCommand(tag, "ENABLE", false, kept))
  {
    hide Tokenize, Words, Upper, SyncLiteral, AtomWord, ParseLine, Join, Clean, Command;
    var args := Join(kept, ' ');
    AllCondstore(kept);
    EnableWord();
    JoinStarts(kept);
    CommandParses(tag, "", "ENABLE", args);
    TokenizeAtoms(kept);
    EnableCommand(tag, args);
  }

  lemma AllCondstore(kept: seq<string>)
    requires forall i :: 0 <= i < |kept| ==> Upper(kept[i]) == "CONDSTORE"
    ensures forall i :: 0 <= i < |kept| ==> AtomWord(kept[i]) && !SyncLiteral(kept[i])
  {
    forall i | 0 <= i < |kept| ensures AtomWord(kept[i]) && !SyncLiteral(kept[i]) {
      CondstoreWord(kept[i]);
    }
  }

  lemma EnableCommand(tag: string, args: string)
    ensures tag + " ENABLE " + args == Command(tag, "", "ENABLE", args)
  {
    assert " ENABLE " == [' '] + "ENABLE" + [' '];
    assert tag + ([' '] + "ENABLE" + [' ']) + args == tag + [' '] + ("" + ("ENABLE" + [' '] + args));
  }

  lemma EnableWord()
    ensures Clean("ENABLE") && Upper("ENABLE") == "ENABLE" && "ENABLE" != "UID"
  {
  }

  lemma JoinStarts(ws: seq<string>)
    requires ws != [] && AtomWord(ws[0])
    ensures Join(ws, ' ') != "" && Join(ws, ' ')[0] != ' '
  {
  }

  lemma EnableMayForward(tag: string, kept: seq<string>)
    requires Clean(tag) && '\0' !in tag && kept != [] && forall i :: 0 <= i < |kept| ==> Upper(kept[i]) == "CONDSTORE"
    ensures MayForward(EnableLine(tag, kept))
  {
    hide HasBareCrOrNul, NonsyncSize, ParseLine, Classify;
    var s := tag + " ENABLE " + Join(kept, ' ');
    forall i | 0 <= i < |kept| ensures '\r' !in kept[i] && '\0' !in kept[i] && kept[i] != "" {
      CondstoreWord(kept[i]);
    }
    JoinLacks(kept, '\r');
    JoinLacks(kept, '\0');
    JoinEnds(kept);
    var last := kept[|kept| - 1];
    CondstoreWord(last);
    assert s[|s| - 1] == last[|last| - 1];
    assert last[|last| - 1] in last;
    ChompLine(s);
    assert '\r' !in tag by { TagHasNoReturn(tag); }
    CleanLine(s);
    EnableParses(tag, kept);
    NoMarkerEnd(s);
    assert Classify(ParsedCommand(tag, "ENABLE", false, kept)) == Class.Read by { EnableIsRead(tag, kept); }
  }

  lemma TagHasNoReturn(tag: string)
    requires Clean(tag)
    ensures '\r' !in tag
  {
    assert IsSpace('\r');
  }

  lemma EnableIsRead(tag: string, kept: seq<string>)
    ensures Classify(ParsedCommand(tag, "ENABLE", false, kept)) == Class.Read
  {
  }

  lemma NoMarkerEnd(s: string)
    requires s != "" && !IsSpace(s[|s| - 1]) && s[|s| - 1] != '}'
    ensures NonsyncSize(s) == None
  {
  }

  // ----- every forwarded line -----

  lemma {:induction false} ChompPart(s: string)
    ensures Chomp(s) <= s
    ensures Chomp(s) != "" ==> Chomp(s)[|Chomp(s)| - 1] != '\r' && Chomp(s)[|Chomp(s)| - 1] != '\n'
    ensures s != "" && s[|s| - 1] == '\n' ==> |Chomp(s)| < |s|
  {
    if s != "" && (s[|s| - 1] == '\r' || s[|s| - 1] == '\n') {
      ChompPart(s[..|s| - 1]);
    }
  }

  lemma RawHasNoNul(line: string)
    requires !HasBareCrOrNul(line)
    ensures '\0' !in Chomp(line)
  {
    hide Chomp;
    ChompPart(line);
    var raw := Chomp(line);
    forall i | 0 <= i < |raw| ensures raw[i] != '\0' {
      assert raw[i] == line[i];
    }
  }

  lemma TagIsWord(raw: string, cmd: ParsedCommand)
    requires ParseLine(raw) == Some(cmd) && cmd.command != "" && '\0' !in raw
    ensures Clean(cmd.tag) && '\0' !in cmd.tag
  {
    hide Tokenize, AfterTokens, SyncLiteral;
    WordsClean(raw);
    WordsLack(raw, '\0');
  }

  lemma ReadLineWhole(input: string)
    requires input != ""
    ensures Whole(ReadLine(input).data, input)
  {
    var i := IndexOf(input, '\n');
    if i == |input| {
      assert input[..|input|] == input;
    } else {
      assert input[..i + 1][..i] == input[..i];
    }
  }

  /** The lines written upstream, in order. */
  function Forwards(es: seq<Event>): seq<string> {
    if es == [] then [] else (if es[0].Forward? then [es[0].line] else []) + Forwards(es[1..])
  }

  lemma {:induction false} ForwardsAppend(a: seq<Event>, b: seq<Event>)
    ensures Forwards(a + b) == Forwards(a) + Forwards(b)
  {
    if a == [] {
      assert a + b == b;
    } else {
      assert (a + b)[1..] == a[1..] + b;
      ForwardsAppend(a[1..], b);
    }
  }

  lemma {:induction false} ForwardsNothing(es: seq<Event>)
    requires forall i :: 0 <= i < |es| ==> !es[i].Forward?
    ensures Forwards(es) == []
  {
    if es == [] {
    } else {
      ForwardsNothing(es[1..]);
    }
  }

  lemma {:induction false} ForwardsIn(es: seq<Event>, line: string)
    ensures Forward(line) in es <==> line in Forwards(es)
  {
    if es == [] {
    } else {
      assert es == [es[0]] + es[1..];
      ForwardsIn(es[1..], line);
    }
  }

  /** The command lines of a stream: what is read at the start of each turn. */
  function CommandLines(s: Session, input: string, k: nat, worlds: Worlds): seq<string>
    decreases |input|
  {
    if input == "" then []
    else
      var t := Serve(s, input, worlds(k));
      [ReadLine(input).data] + if t.open then CommandLines(t.session, t.rest, k + 1, worlds) else []
  }

  /** What goes upstream for one command line, whatever surrounds it. */
  function Passed(command: string): seq<string> {
    var raw := Chomp(command);
    if HasBareCrOrNul(command) || NonsyncSize(raw).Some? then []
    else match ParseLine(raw)
      case Some(cmd) => if Classify(cmd) == Class.Read then Forwards(ReadEvents(command, cmd)) else []
      case None => []
  }

  function PassedAll(commands: seq<string>): seq<string> {
    if commands == [] then [] else Passed(commands[0]) + PassedAll(commands[1..])
  }

  lemma {:induction false} PassedIn(commands: seq<string>, line: string)
    requires line in PassedAll(commands)
    ensures exists i :: 0 <= i < |commands| && line in Passed(commands[i])
  {
    hide Passed;
    if line in Passed(commands[0]) {
    } else {
      PassedIn(commands[1..], line);
      var i :| 0 <= i < |commands[1..]| && line in Passed(commands[1..][i]);
      assert line in Passed(commands[i + 1]);
    }
  }

  lemma LiteralForwardsNothing(s: Session, raw: string, input: string, w: World)
    ensures Forwards(LiteralTurn(s, raw, input, w).events) == []
  {
    hide Discard, Words, Chomp, AppendFlags, TakesLiteral, AnyLiteralTail, ClientPump.Suppressed, ReadLine, AppendSize;
    ForwardsNothing(LiteralTurn(s, raw, input, w).events);
  }

  lemma WriteForwardsNothing(s: Session, cmd: ParsedCommand, w: World)
    ensures Forwards(FlushEvents(s, cmd, w) + StageTurn(Flushed(s, cmd), cmd, w).0) == []
  {
    hide IsStoreDeleted, IsArchiveCopy, BuildParsedOp, Merges;
    ForwardsNothing(FlushEvents(s, cmd, w) + StageTurn(Flushed(s, cmd), cmd, w).0);
  }

  lemma ParsedForwards(s: Session, data: string, raw: string, cmd: ParsedCommand, input: string, w: World)
    ensures Forwards(ParsedTurn(s, data, raw, cmd, input, w).events) ==
            if NonsyncSize(raw) == None && Classify(cmd) == Class.Read then Forwards(ReadEvents(data, cmd)) else []
  {
    hide Discard, NonsyncSize, Classify, FlushEvents, StageTurn, ReadEvents, Selected, Trim;
    WriteForwardsNothing(s, cmd, w);
    var es := ParsedTurn(s, data, raw, cmd, input, w).events;
    if NonsyncSize(raw).Some? || (Classify(cmd) != Class.Read && Classify(cmd) != Class.Write) {
      ForwardsNothing(es);
    }
  }

  lemma TurnForwards(s: Session, input: string, w: World)
    requires input != ""
    ensures Forwards(Serve(s, input, w).events) == Passed(ReadLine(input).data)
  {
    hide HasBareCrOrNul, NonsyncSize, ParseLine, Classify, Chomp, LiteralTurn, ParsedTurn, ReadLine, Forwards, RawTag;
    var r := ReadLine(input);
    var raw := Chomp(r.data);
    LiteralForwardsNothing(s, raw, r.rest, w);
    if HasBareCrOrNul(r.data) {
      ForwardsNothing([Answer(BadLine(RawTag(raw)))]);
    } else if ParseLine(raw).Some? {
      ParsedForwards(s, r.data, raw, ParseLine(raw).value, r.rest, w);
    }
  }

  /**
   * What goes upstream is, in order, what each command line passes by itself: neither the
   * session, nor staging, nor any literal or command before it adds, drops or moves a line.
   */
  lemma {:induction false} ForwardedInOrder(s: Session, input: string, k: nat, worlds: Worlds)
    ensures Forwards(ServeAll(s, input, k, worlds).0) == PassedAll(CommandLines(s, input, k, worlds))
    decreases |input|
  {
    hide Serve, ServeAll, Passed;
    if input == "" {
      ServeNothing(s, k, worlds);
    } else {
      ServeAllStep(s, input, k, worlds);
      TurnForwards(s, input, worlds(k));
      var t := Serve(s, input, worlds(k));
      if t.open {
        ForwardedInOrder(t.session, t.rest, k + 1, worlds);
        ForwardsAppend(t.events, ServeAll(t.session, t.rest, k + 1, worlds).0);
      }
    }
  }

  /** An ENABLE with its arguments cut to the allowed ones. */
  predicate CutEnable(line: string, command: string) {
    match ParseLine(Chomp(command))
    case Some(cmd) => cmd.command == "ENABLE" && line == EnableLine(cmd.tag, FilterEnable(cmd.args))
    case None => false
  }

  predicate EnablesNothing(command: string) {
    match ParseLine(Chomp(command))
    case Some(cmd) => cmd.command == "ENABLE" && FilterEnable(cmd.args) == []
    case None => false
  }

  /** A line goes upstream as it came exactly when it may, an ENABLE of nothing apart; anything else passed is a cut ENABLE that may. */
  lemma PassedIff(command: string)
    ensures Passed(command) == [command] <==> MayForward(command) && !EnablesNothing(command)
    ensures forall line :: line in Passed(command) ==> MayForward(line) && (line == command || CutEnable(line, command))
  {
    hide ParseLine, HasBareCrOrNul, NonsyncSize, Classify, Chomp, EnableLine;
    var raw := Chomp(command);
    if !HasBareCrOrNul(command) && NonsyncSize(raw) == None && ParseLine(raw).Some? && Classify(ParseLine(raw).value) == Class.Read {
      var cmd := ParseLine(raw).value;
      OneEvent(command, cmd);
      if cmd.command == "ENABLE" {
        EnablePassedIff(command, raw, cmd);
      }
    }
  }

  lemma OneEvent(command: string, cmd: ParsedCommand)
    ensures Forwards(ReadEvents(command, cmd)) ==
            if cmd.command != "ENABLE" then [command]
            else
              var kept := FilterEnable(cmd.args);
              if kept == [] then [] else if kept != cmd.args then [EnableLine(cmd.tag, kept)] else [command]
  {
    hide EnableLine;
    assert forall e: Event :: [e][1..] == [];
  }

  lemma EnablePassedIff(command: string, raw: string, cmd: ParsedCommand)
    requires !HasBareCrOrNul(command) && raw == Chomp(command) && ParseLine(raw) == Some(cmd) && cmd.command == "ENABLE"
    requires Classify(cmd) == Class.Read && NonsyncSize(raw) == None
    ensures MayForward(command) <==> FilterEnable(cmd.args) == cmd.args
    ensures FilterEnable(cmd.args) != [] ==> MayForward(EnableLine(cmd.tag, FilterEnable(cmd.args)))
  {
    hide ParseLine, HasBareCrOrNul, NonsyncSize, Classify, EnableLine, Chomp;
    var kept := FilterEnable(cmd.args);
    FilterAllAllowed(cmd.args);
    if kept != [] {
      RawHasNoNul(command);
      TagIsWord(raw, cmd);
      EnableMayForward(cmd.tag, kept);
    }
  }

  lemma {:induction false} FilterAllAllowed(args: seq<string>)
    ensures FilterEnable(args) == args <==> forall i :: 0 <= i < |args| ==> Upper(args[i]) == "CONDSTORE"
  {
    if args == [] {
    } else {
      FilterAllAllowed(args[1..]);
    }
  }

  lemma SuffixOfSuffix(a: string, b: string, c: string)
    requires EndsWith(c, b)
    ensures EndsWith(b, a) ==> EndsWith(c, a)
  {
    if EndsWith(b, a) {
      assert c[|c| - |a|..] == b[|b| - |a|..];
    }
  }

  lemma SuffixSelf(s: string)
    ensures EndsWith(s, s) && EndsWith(s, "")
  {
  }

  lemma DropIsSuffix(s: string, n: nat)
    requires n <= |s|
    ensures EndsWith(s, s[n..])
  {
    assert s[n..] == s[|s| - |s[n..]|..];
  }

  lemma {:induction false} DiscardIsSuffix(line: string, input: string)
    ensures EndsWith(input, Discard(line, input).rest)
    decreases |input|
  {
    hide NonsyncSize, EndsWith, Chomp, ReadLine;
    SuffixSelf(input);
    match NonsyncSize(line) {
      case None =>
      case Some(n) =>
        if n <= MAX_APPEND_BYTES && |input| >= n && input[n..] != "" {
          var next := ReadLine(input[n..]);
          DiscardIsSuffix(Chomp(next.data), next.rest);
          TailIsSuffix(next.data, next.rest);
          DropIsSuffix(input, n);
          SuffixOfSuffix(next.rest, input[n..], input);
          SuffixOfSuffix(Discard(line, input).rest, next.rest, input);
        }
    }
  }

  lemma RestIsSuffix(s: Session, input: string, w: World)
    requires input != ""
    ensures EndsWith(input, Serve(s, input, w).rest)
  {
    hide HasBareCrOrNul, NonsyncSize, ParseLine, Classify, Discard, Words, Chomp, BuildParsedOp, AppendFlags;
    hide TakesLiteral, AnyLiteralTail, ClientPump.Suppressed, StageTurn, FlushEvents, ReadEvents, Selected, ReadLine;
    var r := ReadLine(input);
    var raw := Chomp(r.data);
    TailIsSuffix(r.data, r.rest);
    var after := Serve(s, input, w).rest;
    assert EndsWith(r.rest, after) by {
      DiscardIsSuffix(raw, r.rest);
      if !HasBareCrOrNul(r.data) && ParseLine(raw) == None {
        LiteralIsSuffix(s, raw, r.rest, w);
      }
    }
    SuffixOfSuffix(after, r.rest, input);
  }

  lemma TailIsSuffix(a: string, b: string)
    ensures EndsWith(a + b, b)
  {
  }

  /** What follows an APPEND's literal: the line after it, and what its own literals leave. */
  lemma AfterLiteral(input: string, size: nat)
    requires size <= |input|
    ensures var next := ReadLine(input[size..]);
            EndsWith(input, next.rest) && EndsWith(input, Discard(Chomp(next.data), next.rest).rest)
  {
    hide Discard, Chomp, ReadLine, EndsWith;
    var next := ReadLine(input[size..]);
    assert next.data + next.rest == input[size..];
    TailIsSuffix(next.data, next.rest);
    DropIsSuffix(input, size);
    SuffixOfSuffix(next.rest, input[size..], input);
    DiscardIsSuffix(Chomp(next.data), next.rest);
    SuffixOfSuffix(Discard(Chomp(next.data), next.rest).rest, next.rest, input);
  }

  /** A literal turn leaves the stream where it was, at its end, or at one of those two places. */
  lemma LiteralRest(s: Session, raw: string, input: string, w: World)
    ensures var size, rest := AppendSize(raw), LiteralTurn(s, raw, input, w).rest;
            || rest == input || rest == ""
            || (size <= |input| && var next := ReadLine(input[size..]);
                (rest == next.rest || rest == Discard(Chomp(next.data), next.rest).rest))
  {
    hide Discard, Words, Chomp, AppendFlags, TakesLiteral, AnyLiteralTail, ClientPump.Suppressed, ReadLine, AppendSize, AppendFolder,
         FirstWord, UnquoteMailbox;
  }

  lemma LiteralIsSuffix(s: Session, raw: string, input: string, w: World)
    ensures EndsWith(input, LiteralTurn(s, raw, input, w).rest)
  {
    hide Discard, Chomp, ReadLine, AppendSize, EndsWith, LiteralTurn;
    SuffixSelf(input);
    LiteralRest(s, raw, input, w);
    if AppendSize(raw) <= |input| {
      AfterLiteral(input, AppendSize(raw));
    }
  }

  lemma {:induction false} CommandsWhole(s: Session, input: string, k: nat, worlds: Worlds)
    ensures forall i :: 0 <= i < |CommandLines(s, input, k, worlds)| ==> Whole(CommandLines(s, input, k, worlds)[i], input)
    decreases |input|
  {
    hide Serve, Whole, ReadLine;
    if input == "" {
    } else {
      ReadLineWhole(input);
      var t := Serve(s, input, worlds(k));
      if t.open {
        var rest := CommandLines(t.session, t.rest, k + 1, worlds);
        CommandsWhole(t.session, t.rest, k + 1, worlds);
        RestIsSuffix(s, input, worlds(k));
        forall i | 0 <= i < |rest| ensures Whole(rest[i], input) {
          WholeInLonger(rest[i], t.rest, input);
        }
      }
    }
  }

  lemma WholeInLonger(line: string, b: string, c: string)
    requires Whole(line, b) && EndsWith(c, b)
    ensures Whole(line, c)
  {
    SuffixOfSuffix(line, b, c);
  }

  lemma CutEnableWhole(line: string, command: string, input: string)
    requires CutEnable(line, command) && line in Passed(command)
    ensures Whole(line, input)
  {
    hide ParseLine, HasBareCrOrNul, NonsyncSize, Classify, Chomp, Clean;
    var cmd := ParseLine(Chomp(command)).value;
    var kept := FilterEnable(cmd.args);
    RawHasNoNul(command);
    TagIsWord(Chomp(command), cmd);
    TagChars(cmd.tag);
    forall i | 0 <= i < |kept| ensures '\n' !in kept[i] {
      CondstoreWord(kept[i]);
    }
    JoinLacks(kept, '\n');
    var body := cmd.tag + " ENABLE " + Join(kept, ' ') + "\r";
    assert line == body + ['\n'];
    assert line[..|line| - 1] == body;
  }

  /**
   * Forwarding safety. For every client byte stream, every session and every outcome of
   * staging: each line written upstream is one line, a whole command of a listed read class,
   * without bare CR or NUL and with no non-synchronizing literal; and it is, byte for byte,
   * a line read where a command begins, unless it is an ENABLE cut to the allowed extensions.
   */
  lemma ForwardedIsSafe(s: Session, input: string, k: nat, worlds: Worlds, line: string)
    requires Forward(line) in ServeAll(s, input, k, worlds).0
    ensures MayForward(line) && Whole(line, input)
    ensures exists i :: 0 <= i < |CommandLines(s, input, k, worlds)| &&
              (line == CommandLines(s, input, k, worlds)[i] || CutEnable(line, CommandLines(s, input, k, worlds)[i]))
  {
    hide ServeAll, MayForward, Whole, CommandLines, Passed, CutEnable;
    var commands := CommandLines(s, input, k, worlds);
    ForwardsIn(ServeAll(s, input, k, worlds).0, line);
    ForwardedInOrder(s, input, k, worlds);
    PassedIn(commands, line);
    var i :| 0 <= i < |commands| && line in Passed(commands[i]);
    PassedIff(commands[i]);
    CommandsWhole(s, input, k, worlds);
    if line != commands[i] {
      CutEnableWhole(line, commands[i], input);
    }
  }

  // ----- literal markers that are not seen -----

  /**
   * A read command, with or without UID, that ends in a synchronizing literal marker is
   * refused exactly when the marker begins a token of its own (or the command is ENABLE,
   * which is rebuilt); inside an open list, quoted string, bracket or atom the pump takes
   * the line as complete and forwards it, marker and all.
   */
  lemma MarkerForwardedIff(s: Session, tag: string, uid: string, verb: string, pre: string, m: string, rest: string, w: World)
    requires Clean(tag) && Prefix(uid) && Clean(verb) && Marker(m) && (pre == "" || pre[0] != ' ') && Upper(verb) in READ_COMMANDS
    requires var line := Command(tag, uid, verb, pre + m); '\r' !in line && '\n' !in line && '\0' !in line
    ensures var line := Command(tag, uid, verb, pre + m) + "\r\n";
            Forward(line) in Serve(s, line + rest, w).events <==>
            Upper(verb) != "ENABLE" && !(Unfinished(pre) == "" || Unfinished(pre) == "~")
  {
    hide Tokenize, Words, SyncLiteral, Unfinished, ParseLine, Marker, Serve, Upper, Clean, AllDigits, ReadLine, Chomp;
    hide HasBareCrOrNul, NonsyncSize, Passed, Forwards, Command, EndsWith, Prefix;
    var raw := Command(tag, uid, verb, pre + m);
    var line := raw + "\r\n";
    MarkerSeenIff(pre, m);
    MarkerStarts(m);
    assert (pre + m)[0] != ' ' by { assert (pre + m)[0] == if pre == "" then m[0] else pre[0]; }
    CommandParses(tag, uid, verb, pre + m);
    assert EndsWith(raw, m) by { CommandEnds(tag, uid, verb, pre, m); }
    MarkerLineRead(raw, m, rest);
    assert line + rest != "";
    ForwardsIn(Serve(s, line + rest, w).events, line);
    TurnForwards(s, line + rest, w);
    MarkerPassedIff(line, raw, ParsedCommand(tag, Upper(verb), uid != "", Tokenize(pre + m)), m);
  }

  lemma CommandEnds(tag: string, uid: string, verb: string, pre: string, m: string)
    ensures EndsWith(Command(tag, uid, verb, pre + m), m)
  {
    var head := tag + [' '] + ((if uid == "" then "" else uid + [' ']) + (verb + [' '] + pre));
    assert Command(tag, uid, verb, pre + m) == head + m;
  }

  lemma MarkerStarts(m: string)
    requires Marker(m)
    ensures m != "" && m[0] == '{'
  {
  }

  /** A line that ends in a marker is passed exactly when it parses, ENABLE apart. */
  lemma MarkerPassedIff(line: string, raw: string, cmd: ParsedCommand, m: string)
    requires Chomp(line) == raw && line == raw + "\r\n" && !HasBareCrOrNul(line) && NonsyncSize(raw) == None
    requires EndsWith(raw, m) && Marker(m) && cmd.command in READ_COMMANDS
    requires cmd.args != [] && EndsWith(cmd.args[|cmd.args| - 1], m)
    requires ParseLine(raw) == None || ParseLine(raw) == Some(cmd)
    ensures line in Passed(line) <==> ParseLine(raw).Some? && cmd.command != "ENABLE"
  {
    hide ParseLine, HasBareCrOrNul, NonsyncSize, Chomp, EnableLine, FilterEnable, Forwards, ReadEvents, EndsWith, Marker;
    ReadVerb(cmd);
    OneEvent(line, cmd);
    EnableWithMarker(line, raw, cmd, m);
  }

  /** An ENABLE with a marker is cut, and what is left is another line. */
  lemma EnableWithMarker(line: string, raw: string, cmd: ParsedCommand, m: string)
    requires line == raw + "\r\n" && EndsWith(raw, m) && Marker(m) && cmd.args != [] && EndsWith(cmd.args[|cmd.args| - 1], m)
    ensures var kept := FilterEnable(cmd.args); kept != cmd.args && (kept != [] ==> EnableLine(cmd.tag, kept) != line)
  {
    hide EnableLine, FilterEnable, Upper, AllDigits;
    var last := cmd.args[|cmd.args| - 1];
    assert last[|last| - 1] == m[|m| - 1] == '}' && raw[|raw| - 1] == m[|m| - 1];
    assert Upper(last) != "CONDSTORE" by { BraceIsNotCondstore(last); }
    FilterAllAllowed(cmd.args);
    NotRebuilt(line, raw, cmd.tag, FilterEnable(cmd.args));
  }

  lemma BraceIsNotCondstore(w: string)
    requires w != "" && w[|w| - 1] == '}'
    ensures Upper(w) != "CONDSTORE"
  {
    assert Upper(w)[|w| - 1] == '}';
    assert '}' !in "CONDSTORE";
  }

  /** A rebuilt ENABLE ends in a letter. */
  lemma NotRebuilt(line: string, raw: string, tag: string, kept: seq<string>)
    requires line == raw + "\r\n" && raw != "" && raw[|raw| - 1] == '}'
    requires forall i :: 0 <= i < |kept| ==> Upper(kept[i]) == "CONDSTORE"
    ensures kept != [] ==> EnableLine(tag, kept) != line
  {
    if kept != [] {
      forall i | 0 <= i < |kept| ensures kept[i] != "" {
        CondstoreWord(kept[i]);
      }
      JoinEnds(kept);
      var last := kept[|kept| - 1];
      CondstoreWord(last);
      var rebuilt := tag + " ENABLE " + Join(kept, ' ');
      assert rebuilt[|rebuilt| - 1] == last[|last| - 1];
      assert EnableLine(tag, kept)[|EnableLine(tag, kept)| - 3] == rebuilt[|rebuilt| - 1];
      assert line[|line| - 3] == '}';
    }
  }

  lemma ReadVerb(cmd: ParsedCommand)
    requires cmd.command in READ_COMMANDS
    ensures Classify(cmd) == Class.Read
  {
  }

  lemma LineReads(raw: string, rest: string)
    requires '\n' !in raw
    ensures ReadLine(raw + "\r\n" + rest) == Taken(raw + "\r\n", rest)
  {
    var line := raw + "\r\n";
    assert raw + "\r\n" + rest == (raw + "\r") + ['\n'] + rest;
    IndexOfAt(raw + "\r", '\n', rest);
    assert (line + rest)[..|line|] == line && (line + rest)[|line|..] == rest;
  }

  lemma MarkerNotNonsync(raw: string, m: string)
    requires Marker(m) && EndsWith(raw, m)
    ensures raw != "" && raw[|raw| - 1] == '}' && NonsyncSize(raw) == None
  {
    assert IsDigit(m[1..|m| - 1][|m| - 3]);
    assert m[1..|m| - 1][|m| - 3] == m[|m| - 2] && m[|m| - 1] == '}';
    assert raw[|raw| - |m|..][|m| - 1] == raw[|raw| - 1] && raw[|raw| - |m|..][|m| - 2] == raw[|raw| - 2];
    assert TrimRight(raw) == raw;
  }

  lemma MarkerLineRead(raw: string, m: string, rest: string)
    requires Marker(m) && EndsWith(raw, m) && '\r' !in raw && '\n' !in raw && '\0' !in raw
    ensures ReadLine(raw + "\r\n" + rest) == Taken(raw + "\r\n", rest) && Chomp(raw + "\r\n") == raw
    ensures !HasBareCrOrNul(raw + "\r\n") && NonsyncSize(raw) == None
  {
    hide NonsyncSize, HasBareCrOrNul, Chomp, ReadLine, Marker;
    MarkerNotNonsync(raw, m);
    LineReads(raw, rest);
    ChompLine(raw);
    CleanLine(raw);
  }

  /** For instance a UID SEARCH whose list is still open. */
  lemma OpenListForwarded(s: Session, tag: string, m: string, rest: string, w: World)
    requires Clean(tag) && Marker(m) && '\0' !in tag
    ensures var line := Command(tag, "UID", "SEARCH", "(" + m) + "\r\n"; Forward(line) in Serve(s, line + rest, w).events
  {
    hide Serve, Unfinished, Marker, Clean, Upper;
    OpenList();
    MarkerChars(m);
    TagChars(tag);
    SearchWord();
    UpperUid();
    var line := Command(tag, "UID", "SEARCH", "(" + m);
    MarkerForwardedIff(s, tag, "UID", "SEARCH", "(", m, rest, w);
  }

  lemma OpenList()
    ensures Unfinished("(") == "("
  {
    assert "("[1..] == "";
    assert ScanFrom(Scan([], Between, ""), "(") == ScanStep(Scan([], Between, ""), '(');
  }

  lemma SearchWord()
    ensures Clean("SEARCH") && Upper("SEARCH") == "SEARCH" && Upper("SEARCH") in READ_COMMANDS
  {
  }

  lemma MarkerChars(m: string)
    requires Marker(m)
    ensures '\r' !in m && '\n' !in m && '\0' !in m
  {
    var d := m[1..|m| - 1];
    assert m == ['{'] + d + ['}'];
  }

  lemma TagChars(tag: string)
    requires Clean(tag)
    ensures '\r' !in tag && '\n' !in tag
  {
    assert IsSpace('\r') && IsSpace('\n');
  }
}
