// What a turn of the client-to-upstream pump does with the commands it does not
// forward, on their names and arguments: refusals, held copies and the STORE that
// completes them, suppressed appends (gateway/proxy.py, gateway/provider_profiles.py).
module WriteTurns {
  import opened Wrappers
  import opened Text
  import opened ImapParser
  import opened CommandRouter
  import opened OperationParser
  import opened ClientPump
  import opened Gate

  /** A line that is neither refused for its characters nor for a literal, as it parses. */
  predicate Read(input: string, cmd: ParsedCommand)
    requires input != ""
  {
    var line := ReadLine(input).data;
    NoStray(line) && NonsyncSize(line) == None && ParseLine(Chomp(line)) == Some(cmd)
  }

  lemma ReadTurn(s: Session, input: string, cmd: ParsedCommand, w: World)
    requires input != "" && Read(input, cmd)
    ensures var r := ReadLine(input);
            Serve(s, input, w) == ParsedTurn(s, r.data, Chomp(r.data), cmd, r.rest, w) && NonsyncSize(Chomp(r.data)) == None
  {
    hide NoStray, NonsyncSize, ParseLine, ParsedTurn, Chomp, HasBareCrOrNul, ReadLine;
    StrayIff(ReadLine(input).data);
    ChompedNonsync(ReadLine(input).data);
  }

  // ----- refused and noted -----

  predicate Writes(name: string) {
    name in {"STORE", "COPY", "MOVE", "APPEND", "CREATE", "RENAME"}
  }

  predicate Noted(name: string) {
    name in {"EXPUNGE", "DELETE", "CLOSE"}
  }

  /**
   * EXPUNGE, DELETE and CLOSE are answered and do nothing; any other command that is neither a
   * listed read nor a listed write is refused by name. Nothing is staged or forwarded, and the
   * session is as before.
   */
  lemma OthersAreRefused(s: Session, input: string, cmd: ParsedCommand, w: World)
    requires input != "" && Read(input, cmd) && cmd.command != "" && !Reads(cmd.command) && !Writes(cmd.command)
    ensures Serve(s, input, w) ==
            Turn([Answer(if Noted(cmd.command) then Reply.Noted(cmd.tag) else Cannot(cmd.tag, cmd.command))], s, ReadLine(input).rest, true)
  {
    hide NonsyncSize, ParseLine, Chomp, ReadLine, Serve, Read, Trim, Discard, FlushEvents, StageTurn, ReadEvents, Selected;
    ReadTurn(s, input, cmd, w);
    var raw := Chomp(ReadLine(input).data);
    assert Trim(raw) != "" by { CommandNotBlank(input, cmd); }
  }

  lemma CommandNotBlank(input: string, cmd: ParsedCommand)
    requires input != "" && Read(input, cmd) && cmd.command != ""
    ensures Trim(Chomp(ReadLine(input).data)) != ""
  {
    hide NoStray, NonsyncSize, Tokenize, AfterTokens, SyncLiteral, Chomp, ReadLine;
    NoBlankWords(Chomp(ReadLine(input).data));
  }

  lemma NoBlankWords(raw: string)
    ensures Trim(raw) == "" ==> Words(raw) == []
  {
    TrimLeftShorter(raw);
    TrimRightBlank(TrimLeft(raw));
  }

  lemma {:induction false} TrimRightBlank(s: string)
    ensures TrimRight(s) == "" && s != "" ==> IsSpace(s[0])
  {
    if s != "" && IsSpace(s[|s| - 1]) {
      TrimRightBlank(s[..|s| - 1]);
    }
  }

  // ----- held copies -----

  /** The destination is one of the provider's own archive, trash and junk folders. */
  predicate OwnFolder(p: Profile, destination: string) {
    Same(p.archive, destination) || Same(p.trash, destination) || Same(p.junk, destination)
  }

  predicate Same(folder: Option<string>, name: string) {
    folder.Some? && folder.value != "" && Lower(folder.value) == Lower(name)
  }

  lemma ArchiveCopyIff(cmd: ParsedCommand, p: Profile)
    ensures IsArchiveCopy(cmd, p) <==>
            cmd.command == "COPY" && cmd.uid && CopyFolder(cmd) != "" && OwnFolder(p, CopyFolder(cmd))
  {
    hide CopyFolder, Lower;
  }

  /**
   * A UID COPY is answered as done and held exactly when its destination is one of the provider's
   * special folders, in any case; any other is staged at once. A copy held before is staged first.
   */
  lemma CopyHeldIff(s: Session, input: string, cmd: ParsedCommand, w: World)
    requires input != "" && Read(input, cmd) && cmd.command == "COPY" && cmd.uid && |cmd.args| >= 2 && !w.stageFails && !w.flushFails
    ensures var t, to := Serve(s, input, w), Join(cmd.args[1..], ' ');
            var held := to != "" && OwnFolder(w.profile, to);
            var first := match s.held
                         case None => []
                         case Some(h) => [Stage(ParseCopy(h.uidSet, h.destination), s.folder, FromHeld(h.uidSet, h.destination))];
            && t.open && t.rest == ReadLine(input).rest && t.session.folder == s.folder
            && t.session.held == (if held then Some(Held(cmd.tag, cmd.args[0], to)) else None)
            && t.events == first + if held then [Answer(CopyCompleted(cmd.tag, cmd.args[0], to))]
                                   else [Stage(ParseCopy(cmd.args[0], to), s.folder, Direct), Answer(Staged(cmd.tag))]
  {
    hide NonsyncSize, ParseLine, Chomp, ReadLine, Serve, Read, UnquoteMailbox, OwnFolder, IsArchiveCopy;
    ReadTurn(s, input, cmd, w);
    ArchiveCopyIff(cmd, w.profile);
    CopyStages(s, cmd, w);
  }

  lemma CopyStages(s: Session, cmd: ParsedCommand, w: World)
    requires cmd.command == "COPY" && cmd.uid && |cmd.args| >= 2 && !w.stageFails && !w.flushFails
    ensures !IsStoreDeleted(cmd)
    ensures StageTurn(Flushed(s, cmd), cmd, w).0 ==
            if IsArchiveCopy(cmd, w.profile) then [Answer(CopyCompleted(cmd.tag, cmd.args[0], Join(cmd.args[1..], ' ')))]
            else [Stage(ParseCopy(cmd.args[0], Join(cmd.args[1..], ' ')), s.folder, Direct), Answer(Staged(cmd.tag))]
  {
    hide IsArchiveCopy, UnquoteMailbox, Join;
  }

  /** A STORE that adds a flag with "deleted" in its text. */
  predicate Marks(cmd: ParsedCommand) {
    |cmd.args| >= 3 && Contains(Lower(cmd.args[2]), "deleted") && FlagsOp(cmd.args[1]) == "+FLAGS"
  }

  /**
   * With a copy held: a UID STORE that marks the very UID set of the copy becomes one MOVE of it; one that
   * marks another set is staged by itself and the copy stays held; one that marks nothing has the copy staged
   * first, as a COPY.
   */
  lemma StoreMeetsHeld(s: Session, input: string, cmd: ParsedCommand, w: World, h: Held)
    requires input != "" && Read(input, cmd) && cmd.command == "STORE" && cmd.uid && cmd.args != [] && s.held == Some(h)
    requires !w.stageFails && !w.flushFails
    ensures var t := Serve(s, input, w);
            var origin, own := FromHeld(h.uidSet, h.destination), BuildParsedOp(cmd);
            && own.Some? && t.open && t.rest == ReadLine(input).rest && t.session.folder == s.folder
            && var mine := Stage(WithTrash(own.value, w.trash), s.folder, Direct);
               if Marks(cmd) && cmd.args[0] == h.uidSet then
                 t.session.held == None && t.events == [Stage(ParseMove(h.uidSet, h.destination), s.folder, origin), Answer(Staged(cmd.tag))]
               else if Marks(cmd) then
                 t.session.held == Some(h) && t.events == [mine, Answer(Staged(cmd.tag))]
               else
                 t.session.held == None
                 && t.events == [Stage(ParseCopy(h.uidSet, h.destination), s.folder, origin), mine, Answer(Staged(cmd.tag))]
  {
    hide NonsyncSize, ParseLine, Chomp, ReadLine, Serve, Read, UnquoteMailbox, FlagsOp, Contains, WithTrash, ParseStore, ParseMove, ParseCopy,
         FlagList, IsArchiveCopy;
    ReadTurn(s, input, cmd, w);
    assert !IsArchiveCopy(cmd, w.profile) by { ArchiveCopyIff(cmd, w.profile); }
    assert IsStoreDeleted(cmd) <==> Marks(cmd);
    var events := StageTurn(Flushed(s, cmd), cmd, w).0;
    assert FlushEvents(s, cmd, w) + events == if Marks(cmd) then events else FlushEvents(s, cmd, w) + events;
  }

  /** STORE, COPY and MOVE without UID stage nothing of their own. */
  lemma SequenceNumbersRefused(s: Session, input: string, cmd: ParsedCommand, w: World)
    requires input != "" && Read(input, cmd) && cmd.command in {"STORE", "COPY", "MOVE"} && !cmd.uid
    ensures var t := Serve(s, input, w);
            && t.events != [] && t.events[|t.events| - 1] == Answer(UseUid(cmd.tag, cmd.command))
            && forall e :: e in t.events ==> !(e.Stage? && e.origin.Direct?) && !e.StageGeneric?
  {
    hide NonsyncSize, ParseLine, Chomp, ReadLine, Serve, Read, UnquoteMailbox, FlagsOp, Contains, IsArchiveCopy, ParseCopy;
    ReadTurn(s, input, cmd, w);
    assert !IsArchiveCopy(cmd, w.profile) by { ArchiveCopyIff(cmd, w.profile); }
  }

  // ----- appends -----

  /**
   * A line that waits for a literal is asked for it exactly when it is an APPEND, without UID, whose marker is no
   * literal8; any other is refused at once, so nothing of the stream is taken for a literal.
   */
  lemma OnlyAppendWaits(s: Session, raw: string, input: string, w: World)
    ensures var ws, t := Words(raw), LiteralTurn(s, raw, input, w);
            var waits := |ws| >= 2 && Upper(ws[1]) == "APPEND" && !("~" <= ws[|ws| - 1]);
            && (waits <==> Answer(Continue) in t.events)
            && (!waits ==> t == Turn([Answer(Cannot(if ws == [] then "?" else ws[0], "literal"))], s, input, true))
  {
    hide Words, AppendSize, AnyLiteralTail, Chomp, ReadLine, AppendFolder, AppendFlags, UnquoteMailbox, ClientPump.Suppressed, Discard,
         TakesLiteral;
    TakesLiteralIff(raw);
    if TakesLiteral(raw) {
      assert LiteralTurn(s, raw, input, w).events[0] == Answer(Continue);
    }
  }

  lemma TakesLiteralIff(raw: string)
    ensures var ws := Words(raw);
            TakesLiteral(raw) <==> |ws| >= 2 && Upper(ws[1]) == "APPEND" && !("~" <= ws[|ws| - 1])
  {
    hide Words;
    var ws := Words(raw);
    if |ws| >= 3 && Upper(ws[1]) == "UID" {
      assert ("UID " + Upper(ws[2]))[0] == 'U' && "APPEND"[0] == 'A';
    }
  }

  /** An APPEND that arrived whole is dropped, and answered as done, exactly when its folder is one the provider fills itself. */
  lemma AppendSuppressedIff(s: Session, raw: string, input: string, w: World)
    requires TakesLiteral(raw) && AppendSize(raw) <= |input| && !w.stageFails
    requires !AnyLiteralTail(Chomp(ReadLine(input[AppendSize(raw)..]).data))
    ensures var t := LiteralTurn(s, raw, input, w);
            var dropped := exists f :: f in w.profile.sentSuppress && Lower(f) == Lower(AppendFolder(raw));
            && t.session == s && t.open
            && (dropped <==> t.events == [Answer(Continue), Answer(AppendCompleted(FirstWord(raw)))])
            && (!dropped <==> exists e :: e in t.events && e.StageAppend?)
  {
    hide TakesLiteral, AppendSize, AnyLiteralTail, Chomp, ReadLine, AppendFolder, AppendFlags, FirstWord, UnquoteMailbox, Lower;
    var p := w.profile.sentSuppress;
    assert ClientPump.Suppressed(AppendFolder(raw), w.profile) <==> exists f :: f in p && Lower(f) == Lower(AppendFolder(raw)) by {
      if f :| f in p && Lower(f) == Lower(AppendFolder(raw)) {
        var i :| 0 <= i < |p| && p[i] == f;
        assert Lower(p[i]) == Lower(AppendFolder(raw));
      }
    }
    var t := LiteralTurn(s, raw, input, w);
    if !ClientPump.Suppressed(AppendFolder(raw), w.profile) {
      assert t.events[1].StageAppend? && t.events[1] in t.events;
    }
  }

  /** Replacing adds no white space that the replacement has not. */
  lemma {:induction false} ReplaceKeepsClean(s: string, pat: string, sub: string)
    requires pat != "" && NoSpaces(s) && NoSpaces(sub)
    ensures NoSpaces(Replace(s, pat, sub))
    decreases |s|
  {
    if s == "" {
    } else if pat <= s {
      ReplaceKeepsClean(s[|pat|..], pat, sub);
    } else {
      ReplaceKeepsClean(s[1..], pat, sub);
    }
  }

  lemma UnquotedClean(w: string)
    requires Clean(w)
    ensures NoSpaces(UnquoteMailbox(w))
  {
    if Surrounded(w) {
      hide Replace;
      ReplaceKeepsClean(w[1..|w| - 1], ESCAPED_QUOTE, "\"");
      ReplaceKeepsClean(Replace(w[1..|w| - 1], ESCAPED_QUOTE, "\""), ESCAPED_BACKSLASH, "\\");
    }
  }

  predicate NoSpaces(s: string) {
    forall i :: 0 <= i < |s| ==> !IsSpace(s[i])
  }

  lemma {:induction false} EscapeKeepsClean(name: string)
    requires NoSpaces(name)
    ensures NoSpaces(Escape(name))
  {
    if name == "" {
    } else {
      EscapeKeepsClean(name[1..]);
      EscapeOne(name);
    }
  }

  /**
   * The mailbox of an APPEND is the third word of its line: a quoted name is staged as that name exactly
   * when it has no white space, and is cut at its first space otherwise.
   */
  lemma AppendFolderKeptIff(tag: string, verb: string, name: string, rest: string)
    requires Clean(tag) && Clean(verb)
    ensures UnquoteMailbox(AppendFolder(tag + [' '] + (verb + [' '] + (Quote(name) + [' '] + rest)))) == name <==> NoSpaces(name)
  {
    hide Words, UnquoteMailbox, Escape;
    var tail := Quote(name) + [' '] + rest;
    WordsFirst(verb, tail);
    WordsFirst(tag, verb + [' '] + tail);
    var ws := Words(tail);
    WordsClean(tail);
    assert tail[0] == '"';
    FirstWordThere(tail);
    var raw := tag + [' '] + (verb + [' '] + tail);
    assert Words(raw) == [tag] + ([verb] + ws);
    assert AppendFolder(raw) == ws[0];
    if NoSpaces(name) {
      EscapeKeepsClean(name);
      assert Clean(Quote(name));
      WordsFirst(Quote(name), rest);
      UnquoteInvertsQuote(name);
    } else {
      UnquotedClean(ws[0]);
    }
  }

  lemma FirstWordThere(s: string)
    requires s != "" && !IsSpace(s[0])
    ensures Words(s) != []
  {
    assert TrimLeft(s) == s;
  }

  /** Its flags are the first list in parentheses on the line. */
  lemma AppendFlagsRead(before: string, flags: seq<string>, after: string)
    requires '(' !in before && forall i :: 0 <= i < |flags| ==> Clean(flags[i]) && ')' !in flags[i]
    ensures AppendFlags(before + ['('] + (Join(flags, ' ') + [')'] + after)) == flags
  {
    hide Words, Join, Clean;
    var inner := Join(flags, ' ') + [')'] + after;
    IndexOfAt(before, '(', inner);
    JoinLacks(flags, ')');
    IndexOfAt(Join(flags, ' '), ')', after);
    var raw := before + ['('] + inner;
    assert raw[|before| + 1..] == inner && inner[..|Join(flags, ' ')|] == Join(flags, ' ');
    WordsOfJoin(flags);
  }

  /** A literal past the limit is read off the wire and staged without its body; one cut short ends the connection. */
  lemma AppendOversize(s: Session, raw: string, input: string, w: World)
    requires TakesLiteral(raw)
    ensures |input| < AppendSize(raw) ==> LiteralTurn(s, raw, input, w) == Turn([Answer(Continue)], s, "", false)
    ensures forall e :: e in LiteralTurn(s, raw, input, w).events && e.StageAppend? ==>
              e.size == AppendSize(raw) <= |input| && e.body == if e.size <= 10485760 then input[..e.size] else ""
  {
    hide AppendSize, AnyLiteralTail, Chomp, ReadLine, AppendFolder, AppendFlags, FirstWord, UnquoteMailbox, ClientPump.Suppressed,
         TakesLiteral, Discard;
  }

  /** A non-synchronizing literal past the limit ends the connection with a BYE; one cut short ends it without a word. */
  lemma NonsyncOversize(s: Session, input: string, cmd: ParsedCommand, w: World, n: nat)
    requires input != "" && NoStray(ReadLine(input).data)
    requires ParseLine(Chomp(ReadLine(input).data)) == Some(cmd) && NonsyncSize(ReadLine(input).data) == Some(n)
    ensures var t := Serve(s, input, w);
            && (n > 10485760 ==> !t.open && t.events == [Answer(Bye)])
            && (n <= 10485760 && |ReadLine(input).rest| < n ==> !t.open && t.events == [])
  {
    hide NoStray, NonsyncSize, ParseLine, Chomp, HasBareCrOrNul, ReadLine;
    StrayIff(ReadLine(input).data);
    ChompedNonsync(ReadLine(input).data);
  }

  // ----- sizes -----

  lemma {:induction false} DigitsEnd(pre: string, d: string, post: string)
    requires AllDigits(d) && (pre == "" || !IsDigit(pre[|pre| - 1]))
    ensures DigitsBefore(pre + d + post, |pre| + |d|) == |d|
  {
    var s := pre + d + post;
    DigitsAtEnd(s, |pre|, |pre| + |d|);
  }

  lemma {:induction false} DigitsAtEnd(s: string, from: nat, end: nat)
    requires from <= end <= |s| && (from == 0 || !IsDigit(s[from - 1])) && forall k :: from <= k < end ==> IsDigit(s[k])
    ensures DigitsBefore(s, end) == end - from
  {
    if from == end {
    } else {
      DigitsAtEnd(s, from, end - 1);
    }
  }

  lemma SizeRead(pre: string, n: nat, post: string)
    ensures var s := pre + "{" + ShowNat(n) + post; SizeBefore(s, |s| - |post|) == Some(n)
  {
    hide ShowNat, ReadNat, DigitsBefore;
    var d := ShowNat(n);
    var s := pre + "{" + d + post;
    assert s == (pre + "{") + d + post;
    DigitsEnd(pre + "{", d, post);
    assert s[|pre| + 1..|s| - |post|] == d;
    ReadShow(n);
  }

  /** The literal sizes the pump reads are the decimal numbers written in the markers. */
  lemma MarkerSizes(pre: string, n: nat, sign: char)
    requires Sign(sign)
    ensures AppendSize(pre + "{" + ShowNat(n) + "}") == n && AnyLiteralTail(pre + "{" + ShowNat(n) + "}")
    ensures NonsyncSize(pre + "{" + ShowNat(n) + [sign] + "}") == Some(n) && AnyLiteralTail(pre + "{" + ShowNat(n) + [sign] + "}")
  {
    hide SizeBefore, ShowNat;
    var a, b := pre + "{" + ShowNat(n) + "}", pre + "{" + ShowNat(n) + [sign] + "}";
    SizeRead(pre, n, "}");
    SizeRead(pre, n, [sign] + "}");
    assert b == pre + "{" + ShowNat(n) + ([sign] + "}");
    assert TrimRight(b) == b;
    assert |a| - |"}"| == |a| - 1 && |b| - |[sign] + "}"| == |b| - 2;
  }
}
