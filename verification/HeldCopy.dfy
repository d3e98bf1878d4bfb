// The held COPY: a UID COPY to a special folder is answered at once and kept
// until it becomes half of a MOVE or an operation of its own.
module HeldCopy {
  import opened Wrappers
  import opened Text
  import opened ImapParser
  import opened CommandRouter
  import opened OperationParser
  import opened ClientPump
  import Execution
  import ImapServer

  /** A copy as the agent asked for it: UID set and destination. */
  type Wanted = (string, string)

  function One(b: bool): nat {
    if b then 1 else 0
  }

  /** The agent is told "OK COPY completed". */
  predicate Completes(e: Event, x: Wanted) {
    e.Answer? && e.reply.CopyCompleted? && (e.reply.uidSet, e.reply.destination) == x
  }

  /** A held copy becomes a copy operation. */
  predicate Flushes(e: Event, x: Wanted) {
    e.Stage? && e.origin == FromHeld(x.0, x.1) && e.op == ParseCopy(x.0, x.1)
  }

  /** A held copy becomes a move operation. */
  predicate MergesInto(e: Event, x: Wanted) {
    e.Stage? && e.origin == FromHeld(x.0, x.1) && e.op == ParseMove(x.0, x.1)
  }

  function Completed(es: seq<Event>, x: Wanted): nat {
    if es == [] then 0 else One(Completes(es[0], x)) + Completed(es[1..], x)
  }

  function FlushedCopies(es: seq<Event>, x: Wanted): nat {
    if es == [] then 0 else One(Flushes(es[0], x)) + FlushedCopies(es[1..], x)
  }

  function MergedCopies(es: seq<Event>, x: Wanted): nat {
    if es == [] then 0 else One(MergesInto(es[0], x)) + MergedCopies(es[1..], x)
  }

  function LostCopies(es: seq<Event>, x: Wanted): nat {
    if es == [] then 0 else One(es[0] == LostCopy(x.0, x.1)) + LostCopies(es[1..], x)
  }

  function HeldNow(s: Session, x: Wanted): nat {
    One(s.held.Some? && (s.held.value.uidSet, s.held.value.destination) == x)
  }

  /** What was held and what was answered went somewhere or is still held. */
  predicate Balanced(before: Session, es: seq<Event>, after: Session, x: Wanted) {
    HeldNow(before, x) + Completed(es, x) ==
    FlushedCopies(es, x) + MergedCopies(es, x) + LostCopies(es, x) + HeldNow(after, x)
  }

  lemma {:induction false} SumsAppend(a: seq<Event>, b: seq<Event>, x: Wanted)
    ensures Completed(a + b, x) == Completed(a, x) + Completed(b, x)
    ensures FlushedCopies(a + b, x) == FlushedCopies(a, x) + FlushedCopies(b, x)
    ensures MergedCopies(a + b, x) == MergedCopies(a, x) + MergedCopies(b, x)
    ensures LostCopies(a + b, x) == LostCopies(a, x) + LostCopies(b, x)
  {
    hide Completes, Flushes, MergesInto;
    if a == [] {
      assert a + b == b;
    } else {
      assert (a + b)[1..] == a[1..] + b;
      SumsAppend(a[1..], b, x);
    }
  }

  lemma BalancedAppend(s: Session, a: seq<Event>, t: Session, b: seq<Event>, u: Session, x: Wanted)
    requires Balanced(s, a, t, x) && Balanced(t, b, u, x)
    ensures Balanced(s, a + b, u, x)
  {
    SumsAppend(a, b, x);
    hide Completed, FlushedCopies, MergedCopies, LostCopies, HeldNow;
  }

  // ----- one turn -----

  /** Events that neither answer nor use a copy. */
  predicate Neutral(es: seq<Event>) {
    forall i :: 0 <= i < |es| ==>
      !es[i].LostCopy? && !(es[i].Stage? && es[i].origin.FromHeld?) && !(es[i].Answer? && es[i].reply.CopyCompleted?)
  }

  lemma {:induction false} NeutralSums(es: seq<Event>, x: Wanted)
    requires Neutral(es)
    ensures Completed(es, x) == FlushedCopies(es, x) == MergedCopies(es, x) == LostCopies(es, x) == 0
  {
    if es == [] {
    } else {
      assert forall i :: 0 <= i < |es[1..]| ==> es[1..][i] == es[i + 1];
      NeutralSums(es[1..], x);
    }
  }

  lemma OneSum(e: Event, x: Wanted)
    ensures Completed([e], x) == One(Completes(e, x)) && FlushedCopies([e], x) == One(Flushes(e, x))
    ensures MergedCopies([e], x) == One(MergesInto(e, x)) && LostCopies([e], x) == One(e == LostCopy(x.0, x.1))
  {
    hide Completes, Flushes, MergesInto;
    assert [e][1..] == [];
  }

  lemma CopyIsNotMove(u: string, d: string)
    ensures ParseCopy(u, d) != ParseMove(u, d)
  {
  }

  lemma FlushBalanced(s: Session, cmd: ParsedCommand, w: World, x: Wanted)
    ensures Balanced(s, FlushEvents(s, cmd, w), Flushed(s, cmd), x)
  {
    hide IsStoreDeleted, ParseCopy, ParseMove, Completed, FlushedCopies, MergedCopies, LostCopies;
    NeutralSums([], x);
    if s.held.Some? && !IsStoreDeleted(cmd) {
      var h := s.held.value;
      CopyIsNotMove(h.uidSet, h.destination);
      OneSum(LostCopy(h.uidSet, h.destination), x);
      OneSum(Stage(ParseCopy(h.uidSet, h.destination), s.folder, FromHeld(h.uidSet, h.destination)), x);
    }
  }

  lemma StoreIsNoCopy(cmd: ParsedCommand, p: Profile)
    ensures IsStoreDeleted(cmd) ==> !IsArchiveCopy(cmd, p)
  {
    hide FlagsOp, Contains, Special, CopyFolder;
  }

  lemma StageBalanced(s: Session, cmd: ParsedCommand, w: World, x: Wanted)
    requires s.held.Some? ==> IsStoreDeleted(cmd)
    ensures Balanced(s, StageTurn(s, cmd, w).0, StageTurn(s, cmd, w).1, x)
  {
    hide IsStoreDeleted, IsArchiveCopy, ParseCopy, ParseMove, BuildParsedOp, WithTrash, CopyFolder;
    hide Completed, FlushedCopies, MergedCopies, LostCopies;
    var (es, t) := StageTurn(s, cmd, w);
    StoreIsNoCopy(cmd, w.profile);
    if IsArchiveCopy(cmd, w.profile) {
      OneSum(es[0], x);
    } else if !(!cmd.uid && cmd.command in {"STORE", "COPY", "MOVE"}) && Merges(s, cmd) {
      MergeBalanced(s, s.held.value, cmd.tag, w, x);
    } else {
      assert Neutral(es);
      NeutralSums(es, x);
      assert t == s;
    }
  }

  lemma MergeBalanced(s: Session, h: Held, tag: string, w: World, x: Wanted)
    requires s.held == Some(h)
    ensures Balanced(s,
              [if w.stageFails then LostCopy(h.uidSet, h.destination)
               else Stage(ParseMove(h.uidSet, h.destination), s.folder, FromHeld(h.uidSet, h.destination)),
               Answer(Staged(tag))],
              s.(held := None), x)
  {
    hide ParseCopy, ParseMove, Completed, FlushedCopies, MergedCopies, LostCopies;
    var e := if w.stageFails then LostCopy(h.uidSet, h.destination)
             else Stage(ParseMove(h.uidSet, h.destination), s.folder, FromHeld(h.uidSet, h.destination));
    CopyIsNotMove(h.uidSet, h.destination);
    assert [e, Answer(Staged(tag))] == [e] + [Answer(Staged(tag))];
    SumsAppend([e], [Answer(Staged(tag))], x);
    OneSum(e, x);
    OneSum(Answer(Staged(tag)), x);
  }

  lemma LiteralNeutral(s: Session, raw: string, input: string, w: World)
    ensures Neutral(LiteralTurn(s, raw, input, w).events) && LiteralTurn(s, raw, input, w).session == s
  {
    hide Discard, Words, Chomp, AppendFlags, TakesLiteral, AnyLiteralTail, Suppressed, ReadLine, AppendSize;
  }

  lemma ReadNeutral(s: Session, line: string, cmd: ParsedCommand)
    ensures Neutral(ReadEvents(line, cmd)) && Selected(s, cmd).held == s.held
  {
    hide FilterEnable, StripQuotes, EnableLine;
  }

  lemma ParsedBalanced(s: Session, line: string, raw: string, cmd: ParsedCommand, input: string, w: World, x: Wanted)
    ensures var t := ParsedTurn(s, line, raw, cmd, input, w); Balanced(s, t.events, t.session, x)
  {
    hide NonsyncSize, Discard, Classify, FlushEvents, StageTurn, ReadEvents, Selected, Completed, FlushedCopies, MergedCopies, LostCopies;
    var t := ParsedTurn(s, line, raw, cmd, input, w);
    ReadNeutral(s, line, cmd);
    FlushBalanced(s, cmd, w, x);
    if NonsyncSize(raw) == None && Classify(cmd) == Write {
      HeldOnlyForStore(s, cmd);
      StageBalanced(Flushed(s, cmd), cmd, w, x);
      var (es, after) := StageTurn(Flushed(s, cmd), cmd, w);
      BalancedAppend(s, FlushEvents(s, cmd, w), Flushed(s, cmd), es, after, x);
    } else {
      assert Neutral(t.events);
      NeutralSums(t.events, x);
      assert t.session.held == s.held;
    }
  }

  lemma HeldOnlyForStore(s: Session, cmd: ParsedCommand)
    ensures Flushed(s, cmd).held.Some? ==> IsStoreDeleted(cmd)
  {
  }

  lemma TurnBalanced(s: Session, input: string, w: World, x: Wanted)
    requires input != ""
    ensures var t := Serve(s, input, w); Balanced(s, t.events, t.session, x)
  {
    hide NonsyncSize, ReadLine, Chomp, HasBareCrOrNul, ParseLine, LiteralTurn, ParsedTurn, RawTag;
    hide Completed, FlushedCopies, MergedCopies, LostCopies;
    var r := ReadLine(input);
    var raw := Chomp(r.data);
    LiteralNeutral(s, raw, r.rest, w);
    if HasBareCrOrNul(r.data) {
      NeutralSums([Answer(BadLine(RawTag(raw)))], x);
    } else if ParseLine(raw) == None {
      NeutralSums(LiteralTurn(s, raw, r.rest, w).events, x);
    } else {
      ParsedBalanced(s, r.data, raw, ParseLine(raw).value, r.rest, w, x);
    }
  }

  // ----- every run -----

  lemma {:induction false} RunBalanced(s: Session, input: string, k: nat, worlds: Worlds, x: Wanted)
    ensures Balanced(s, ServeAll(s, input, k, worlds).0, ServeAll(s, input, k, worlds).1, x)
    decreases |input|
  {
    hide Serve, ServeAll, Balanced;
    if input == "" {
      ServeNothing(s, k, worlds);
      NothingBalanced(s, x);
    } else {
      ServeAllStep(s, input, k, worlds);
      TurnBalanced(s, input, worlds(k), x);
      var t := Serve(s, input, worlds(k));
      if t.open {
        RunBalanced(t.session, t.rest, k + 1, worlds, x);
        BalancedAppend(s, t.events, t.session, ServeAll(t.session, t.rest, k + 1, worlds).0, ServeAll(t.session, t.rest, k + 1, worlds).1, x);
      }
    }
  }

  lemma NothingBalanced(s: Session, x: Wanted)
    ensures Balanced(s, [], s, x)
  {
  }

  ghost predicate NeverFails(worlds: Worlds) {
    forall k :: !worlds(k).flushFails && !worlds(k).stageFails
  }

  lemma TurnLosesNothing(s: Session, input: string, w: World)
    requires input != "" && !w.flushFails && !w.stageFails
    ensures forall i :: 0 <= i < |Serve(s, input, w).events| ==> !Serve(s, input, w).events[i].LostCopy?
  {
    hide NonsyncSize, ReadLine, Chomp, HasBareCrOrNul, ParseLine, LiteralTurn, Classify, Discard, BuildParsedOp, IsStoreDeleted,
         IsArchiveCopy, ReadEvents, Selected;
    var r := ReadLine(input);
    LiteralNeutral(s, Chomp(r.data), r.rest, w);
    if ParseLine(Chomp(r.data)).Some? {
      ReadNeutral(s, r.data, ParseLine(Chomp(r.data)).value);
    }
  }

  lemma {:induction false} RunLosesNothing(s: Session, input: string, k: nat, worlds: Worlds, x: Wanted)
    requires NeverFails(worlds)
    ensures LostCopies(ServeAll(s, input, k, worlds).0, x) == 0
    decreases |input|
  {
    hide Serve, ServeAll;
    if input == "" {
      ServeNothing(s, k, worlds);
    } else {
      ServeAllStep(s, input, k, worlds);
      TurnLosesNothing(s, input, worlds(k));
      var t := Serve(s, input, worlds(k));
      NoLoss(t.events, x);
      if t.open {
        RunLosesNothing(t.session, t.rest, k + 1, worlds, x);
        SumsAppend(t.events, ServeAll(t.session, t.rest, k + 1, worlds).0, x);
      }
    }
  }

  lemma {:induction false} NoLoss(es: seq<Event>, x: Wanted)
    requires forall i :: 0 <= i < |es| ==> !es[i].LostCopy?
    ensures LostCopies(es, x) == 0
  {
    if es == [] {
    } else {
      assert forall i :: 0 <= i < |es[1..]| ==> es[1..][i] == es[i + 1];
      NoLoss(es[1..], x);
    }
  }

  /**
   * Held-COPY conservation. In every run in which staging succeeds, for each UID set and
   * destination: the copies answered "OK COPY completed" are as many as the flushed copy
   * operations, the copies merged into a MOVE, and the one still held if any.
   */
  lemma CopiesConserved(folder: Option<string>, input: string, worlds: Worlds, x: Wanted)
    requires NeverFails(worlds)
    ensures var (es, end) := ServeAll(Session(folder, None), input, 0, worlds);
            Completed(es, x) == FlushedCopies(es, x) + MergedCopies(es, x) + HeldNow(end, x)
  {
    hide ServeAll, Completed, FlushedCopies, MergedCopies, LostCopies;
    var s := Session(folder, None);
    RunBalanced(s, input, 0, worlds, x);
    RunLosesNothing(s, input, 0, worlds, x);
  }

  /** The command of a complete line that may be staged. */
  predicate WriteLine(line: string, cmd: ParsedCommand) {
    var raw := Chomp(line);
    !HasBareCrOrNul(line) && ParseLine(raw) == Some(cmd) && NonsyncSize(raw) == None && Classify(cmd) == Write
  }

  /** The held copy x comes up for staging with this command, and the attempt fails. */
  predicate StagingFails(s: Session, cmd: ParsedCommand, w: World, x: Wanted) {
    && HeldNow(s, x) == 1
    && if IsStoreDeleted(cmd) then cmd.uid && Merges(s, cmd) && w.stageFails else w.flushFails
  }

  ghost predicate TurnFails(s: Session, input: string, w: World, x: Wanted)
    requires input != ""
  {
    exists cmd :: WriteLine(ReadLine(input).data, cmd) && StagingFails(s, cmd, w, x)
  }

  /** At some turn of the run the held copy x comes up for staging and the attempt fails. */
  ghost predicate RunFails(s: Session, input: string, k: nat, worlds: Worlds, x: Wanted)
    decreases |input|
  {
    input != "" &&
    (TurnFails(s, input, worlds(k), x) ||
     (Serve(s, input, worlds(k)).open && RunFails(Serve(s, input, worlds(k)).session, Serve(s, input, worlds(k)).rest, k + 1, worlds, x)))
  }

  lemma FlushLosesIff(s: Session, cmd: ParsedCommand, w: World, x: Wanted)
    ensures LostCopy(x.0, x.1) in FlushEvents(s, cmd, w) <==> HeldNow(s, x) == 1 && !IsStoreDeleted(cmd) && w.flushFails
  {
    hide IsStoreDeleted, ParseCopy;
  }

  lemma StageLosesIff(s: Session, cmd: ParsedCommand, w: World, x: Wanted)
    ensures LostCopy(x.0, x.1) in StageTurn(Flushed(s, cmd), cmd, w).0 <==>
            HeldNow(s, x) == 1 && IsStoreDeleted(cmd) && cmd.uid && Merges(s, cmd) && w.stageFails
  {
    hide IsStoreDeleted, IsArchiveCopy, BuildParsedOp, ParseMove, WithTrash, CopyFolder;
    StoreIsNoCopy(cmd, w.profile);
    if IsStoreDeleted(cmd) {
      assert cmd.command == "STORE" by { StoreIsStore(cmd); }
    }
  }

  lemma StoreIsStore(cmd: ParsedCommand)
    requires IsStoreDeleted(cmd)
    ensures cmd.command == "STORE"
  {
  }

  lemma TurnLosesIff(s: Session, input: string, w: World, x: Wanted)
    requires input != ""
    ensures LostCopy(x.0, x.1) in Serve(s, input, w).events <==> TurnFails(s, input, w, x)
  {
    hide NonsyncSize, ReadLine, Chomp, HasBareCrOrNul, ParseLine, LiteralTurn, Classify, Discard, IsStoreDeleted, Merges,
         ReadEvents, Selected, FlushEvents, StageTurn, RawTag, Trim, HeldNow;
    var r := ReadLine(input);
    LiteralNeutral(s, Chomp(r.data), r.rest, w);
    if ParseLine(Chomp(r.data)).Some? {
      var cmd := ParseLine(Chomp(r.data)).value;
      ReadNeutral(s, r.data, cmd);
      FlushLosesIff(s, cmd, w, x);
      StageLosesIff(s, cmd, w, x);
      assert forall c :: WriteLine(r.data, c) ==> c == cmd;
      assert TurnFails(s, input, w, x) <==> WriteLine(r.data, cmd) && StagingFails(s, cmd, w, x);
    }
  }

  lemma {:induction false} RunLosesIff(s: Session, input: string, k: nat, worlds: Worlds, x: Wanted)
    ensures LostCopy(x.0, x.1) in ServeAll(s, input, k, worlds).0 <==> RunFails(s, input, k, worlds, x)
    decreases |input|
  {
    hide Serve, ServeAll, TurnFails;
    if input == "" {
      ServeNothing(s, k, worlds);
    } else {
      ServeAllStep(s, input, k, worlds);
      TurnLosesIff(s, input, worlds(k), x);
      var t := Serve(s, input, worlds(k));
      if t.open {
        RunLosesIff(t.session, t.rest, k + 1, worlds, x);
      }
    }
  }

  /**
   * In every run, whatever fails: the balance holds for a UID set and destination exactly
   * when at no turn a held copy of them comes up for staging, by a flush or by a merge, and
   * that attempt fails.
   */
  lemma CopiesConservedIff(folder: Option<string>, input: string, worlds: Worlds, x: Wanted)
    ensures var (es, end) := ServeAll(Session(folder, None), input, 0, worlds);
            Completed(es, x) == FlushedCopies(es, x) + MergedCopies(es, x) + HeldNow(end, x) <==>
            !RunFails(Session(folder, None), input, 0, worlds, x)
  {
    hide ServeAll, Completed, FlushedCopies, MergedCopies, LostCopies, RunFails;
    RunBalanced(Session(folder, None), input, 0, worlds, x);
    LostIff(ServeAll(Session(folder, None), input, 0, worlds).0, x);
    RunLosesIff(Session(folder, None), input, 0, worlds, x);
  }

  lemma {:induction false} LostIff(es: seq<Event>, x: Wanted)
    ensures LostCopies(es, x) == 0 <==> LostCopy(x.0, x.1) !in es
  {
    if es == [] {
    } else {
      assert es == [es[0]] + es[1..];
      LostIff(es[1..], x);
    }
  }

  // ----- where the held copy takes its messages from -----

  predicate Selects(cmd: ParsedCommand) {
    (cmd.command == "SELECT" || cmd.command == "EXAMINE") && cmd.args != [] && StripQuotes(cmd.args[0]) != ""
  }

  /** The session after a run of reads. */
  function AfterReads(s: Session, between: seq<ParsedCommand>): Session {
    if between == [] then s else Selected(AfterReads(s, between[..|between| - 1]), between[|between| - 1])
  }

  /** The last of the reads to select a folder, if any does. */
  predicate LastToSelect(between: seq<ParsedCommand>, i: int) {
    0 <= i < |between| && Selects(between[i]) && forall j :: i < j < |between| ==> !Selects(between[j])
  }

  lemma SelectStep(s: Session, cmd: ParsedCommand)
    ensures Selected(s, cmd).held == s.held
    ensures Selected(s, cmd).folder == if Selects(cmd) then Some(StripQuotes(cmd.args[0])) else s.folder
  {
    hide StripQuotes;
  }

  lemma LastOfMore(between: seq<ParsedCommand>, i: int)
    requires LastToSelect(between, i)
    ensures var n := |between| - 1;
            if Selects(between[n]) then i == n else i < n && LastToSelect(between[..n], i) && between[..n][i] == between[i]
  {
    hide Selects;
  }

  lemma LastHasName(between: seq<ParsedCommand>)
    ensures forall i :: LastToSelect(between, i) ==> 0 <= i < |between| && between[i].args != []
  {
  }

  lemma {:induction false} FolderAfterReads(s: Session, between: seq<ParsedCommand>)
    ensures var t := AfterReads(s, between);
            && t.held == s.held
            && (forall i :: LastToSelect(between, i) ==> t.folder == Some(StripQuotes(between[i].args[0])))
            && ((forall i :: 0 <= i < |between| ==> !Selects(between[i])) ==> t.folder == s.folder)
  {
    hide StripQuotes, Selected, Selects, LastToSelect;
    if between == [] {
      NoneLast(between);
    } else {
      var n := |between| - 1;
      var front := between[..n];
      FolderAfterReads(s, front);
      SelectStep(AfterReads(s, front), between[n]);
      LastHasName(between);
      LastHasName(front);
      forall i | LastToSelect(between, i)
        ensures 0 <= i < |between| && between[i].args != []
        ensures AfterReads(s, between).folder == Some(StripQuotes(between[i].args[0]))
      {
        LastOfMore(between, i);
      }
    }
  }

  lemma {:induction false} SomeLast(between: seq<ParsedCommand>) returns (i: int)
    requires exists j :: 0 <= j < |between| && Selects(between[j])
    ensures LastToSelect(between, i)
  {
    hide Selects;
    i := |between| - 1;
    if !Selects(between[i]) {
      var j :| 0 <= j < |between| && Selects(between[j]);
      assert between[..i][j] == between[j];
      i := SomeLast(between[..i]);
    }
  }

  /**
   * The folder is read when the copy is flushed or merged, not when it was given. After any
   * number of reads in between, the staged operation takes its messages from the folder the
   * copy was given in exactly when the last of them to SELECT or EXAMINE a folder, if one
   * does, names that same folder.
   */
  lemma LaterFolderIff(folder: string, copy: ParsedCommand, p: World, between: seq<ParsedCommand>, next: ParsedCommand, w: World, e: Event)
    requires IsArchiveCopy(copy, p.profile)
    requires var held := StageTurn(Session(Some(folder), None), copy, p).1;
             var later := AfterReads(held, between);
             e in FlushEvents(later, next, w) + StageTurn(Flushed(later, next), next, w).0 && e.Stage? && e.origin.FromHeld?
    ensures e.folder == Some(folder) <==> forall i :: LastToSelect(between, i) ==> StripQuotes(between[i].args[0]) == folder
  {
    hide IsStoreDeleted, BuildParsedOp, StripQuotes, ParseCopy, ParseMove, WithTrash, Selects, AfterReads, IsArchiveCopy, StageTurn,
         FlushEvents, LastToSelect;
    var held := StageTurn(Session(Some(folder), None), copy, p).1;
    HeldKeepsFolder(folder, copy, p);
    FolderAfterReads(held, between);
    StagedInFolder(AfterReads(held, between), next, w, e);
    if exists j :: 0 <= j < |between| && Selects(between[j]) {
      var i := SomeLast(between);
    } else {
      NoneLast(between);
    }
  }

  lemma NoneLast(between: seq<ParsedCommand>)
    requires forall j :: 0 <= j < |between| ==> !Selects(between[j])
    ensures forall i :: !LastToSelect(between, i)
  {
    hide Selects;
  }

  lemma HeldKeepsFolder(folder: string, copy: ParsedCommand, p: World)
    requires IsArchiveCopy(copy, p.profile)
    ensures StageTurn(Session(Some(folder), None), copy, p).1.folder == Some(folder)
  {
    hide IsArchiveCopy, BuildParsedOp;
  }

  lemma StagedInFolder(s: Session, next: ParsedCommand, w: World, e: Event)
    requires e in FlushEvents(s, next, w) + StageTurn(Flushed(s, next), next, w).0 && e.Stage? && e.origin.FromHeld?
    ensures e.folder == s.folder
  {
    hide IsStoreDeleted, BuildParsedOp, ParseCopy, ParseMove, WithTrash, IsArchiveCopy;
  }

  // ----- what triggers the merge -----

  lemma {:induction false} ContainsInside(a: string, s: string, b: string, word: string)
    requires Contains(s, word)
    ensures Contains(a + s + b, word)
    decreases |a| + |s|
  {
    if a != "" {
      assert (a + s + b)[1..] == a[1..] + s + b;
      ContainsInside(a[1..], s, b, word);
    } else if !(word <= s) {
      assert (a + s + b)[1..] == "" + s[1..] + b;
      ContainsInside("", s[1..], b, word);
    } else {
      assert a + s + b == s + b;
    }
  }

  /**
   * Any flag with "deleted" in its name merges the pair into a MOVE: with a keyword other
   * than \Deleted the messages leave the folder although the agent never marked them.
   */
  lemma KeywordMovesMessages(s: Session, cmd: ParsedCommand, keyword: string)
    requires s.held.Some? && cmd.command == "STORE" && |cmd.args| == 3 && cmd.args[0] == s.held.value.uidSet
    requires FlagsOp(cmd.args[1]) == "+FLAGS" && cmd.args[2] == "(" + keyword + ")"
    requires Clean(keyword) && Contains(Lower(keyword), "deleted") && keyword[0] != '\\'
    ensures Merges(s, cmd) && ImapServer.DELETED !in ImapServer.Canonical(Execution.ServerFlags([cmd.args[2]]))
  {
    hide FlagsOp, Words, Contains;
    LowerParens(keyword);
    ContainsInside("(", Lower(keyword), ")", "deleted");
    WordsOfJoin([keyword]);
    assert cmd.args[2][1..|cmd.args[2]| - 1] == keyword;
    assert Execution.ServerFlags([cmd.args[2]]) == [keyword];
    assert Lower(keyword)[0] == LowerChar(keyword[0]);
  }

  lemma LowerParens(w: string)
    ensures Lower("(" + w + ")") == "(" + Lower(w) + ")"
  {
  }
}
