// The client-to-upstream pump (_client_to_upstream in gateway/proxy.py): one
// command line after the other is refused, answered, staged or forwarded. The
// client's stream is a string; what the socket has not delivered yet is its tail.
module ClientPump {
  import opened Wrappers
  import opened Text
  import opened ImapParser
  import opened CommandRouter
  import opened OperationParser

  const MAX_APPEND_BYTES := 10485760

  // ----- reading -----

  datatype Taken = Taken(data: string, rest: string)

  /** readline(): up to and with the first LF, or all there is. */
  function ReadLine(input: string): (r: Taken)
    ensures r.data + r.rest == input && |r.rest| <= |input| && (input != "" ==> |r.rest| < |input|)
  {
    var i := IndexOf(input, '\n');
    if i == |input| then Taken(input, "") else Taken(input[..i + 1], input[i + 1..])
  }

  /** rstrip("\r\n") */
  function Chomp(s: string): (r: string)
    ensures r <= s
  {
    if s != "" && (s[|s| - 1] == '\r' || s[|s| - 1] == '\n') then Chomp(s[..|s| - 1]) else s
  }

  // ----- what the pump does -----

  datatype Reply =
    | BadLine(tag: string)
    | Cannot(tag: string, what: string)
    | MissingCommand(tag: string)
    | Continue
    | Bye
    | Staged(tag: string)
    | AppendCompleted(tag: string)
    | CopyCompleted(tag: string, uidSet: string, destination: string)
    | UseUid(tag: string, command: string)
    | NothingEnabled(tag: string)
    | Noted(tag: string)

  /** Whether a staged operation is the command itself or comes from a held COPY. */
  datatype Origin = Direct | FromHeld(uidSet: string, destination: string)

  datatype Event =
    | Forward(line: string)
    | Answer(reply: Reply)
    | Stage(op: ParsedOperation, folder: Option<string>, origin: Origin)
    | StageGeneric(command: string, args: seq<string>)
    | StageAppend(mailbox: string, flags: seq<string>, size: nat, body: string)
    | LostCopy(uidSet: string, destination: string)

  datatype Held = Held(tag: string, uidSet: string, destination: string)

  datatype Session = Session(folder: Option<string>, held: Option<Held>)

  datatype Profile = Profile(
    archive: Option<string>, trash: Option<string>, junk: Option<string>, sentSuppress: seq<string>)

  /** Everything outside: the provider profile, the known Trash folder, and which staging attempts fail. */
  datatype World = World(profile: Profile, trash: Option<string>, flushFails: bool, stageFails: bool)

  datatype Turn = Turn(events: seq<Event>, session: Session, rest: string, open: bool)

  // ----- literals -----

  datatype Discarded = Discarded(rest: string, alive: bool, bye: bool)

  /** _discard_nonsync_literals. */
  function Discard(line: string, input: string): (d: Discarded)
    ensures |d.rest| <= |input|
    decreases |input|
  {
    match NonsyncSize(line)
    case None => Discarded(input, true, false)
    case Some(n) =>
      if n > MAX_APPEND_BYTES then Discarded(input, false, true)
      else if |input| < n || input[n..] == "" then Discarded("", false, false)
      else
        var next := ReadLine(input[n..]);
        Discard(Chomp(next.data), next.rest)
  }

  /** The tag a line without a parse is answered with. */
  function RawTag(raw: string): string {
    var t := Without(raw[..IndexOf(raw, ' ')]);
    if t == "" then "*" else t
  }

  /** The text without CR and NUL. */
  function Without(s: string): string {
    if s == "" then "" else (if s[0] == '\r' || s[0] == '\0' then "" else [s[0]]) + Without(s[1..])
  }

  function SyncVerb(raw: string): string {
    var parts := Words(raw);
    if |parts| >= 3 && Upper(parts[1]) == "UID" then "UID " + Upper(parts[2])
    else if |parts| >= 2 then Upper(parts[1]) else ""
  }

  predicate Literal8(raw: string) {
    var parts := Words(raw);
    parts != [] && StartsWith(parts[|parts| - 1], "~")
  }

  /** Only a plain APPEND {N} gets its continuation. */
  predicate TakesLiteral(raw: string) {
    SyncVerb(raw) == "APPEND" && !Literal8(raw)
  }

  /** The flags of an APPEND line: the first parenthesised text. */
  function AppendFlags(raw: string): seq<string> {
    var i := IndexOf(raw, '(');
    if i == |raw| then []
    else
      var inner := raw[i + 1..];
      var j := IndexOf(inner, ')');
      if j == |inner| then [] else Words(inner[..j])
  }

  function AppendFolder(raw: string): string {
    var parts := Words(raw);
    if |parts| > 2 then parts[2] else "INBOX"
  }

  predicate Suppressed(folder: string, p: Profile) {
    exists i :: 0 <= i < |p.sentSuppress| && Lower(p.sentSuppress[i]) == Lower(folder)
  }

  function FirstWord(raw: string): string {
    var parts := Words(raw);
    if parts == [] then "?" else parts[0]
  }

  /** A line that waits for a literal. */
  function LiteralTurn(s: Session, raw: string, input: string, w: World): (t: Turn)
    ensures |t.rest| <= |input|
  {
    var tag := FirstWord(raw);
    if !TakesLiteral(raw) then Turn([Answer(Cannot(tag, "literal"))], s, input, true)
    else
      var size := AppendSize(raw);
      if |input| < size then Turn([Answer(Continue)], s, "", false)
      else
        var next := ReadLine(input[size..]);
        var tail := Chomp(next.data);
        if AnyLiteralTail(tail) then
          var d := Discard(tail, next.rest);
          if d.alive then Turn([Answer(Continue), Answer(Cannot(tag, "MULTIAPPEND"))], s, d.rest, true)
          else Turn([Answer(Continue)] + (if d.bye then [Answer(Bye)] else []), s, d.rest, false)
        else
          var folder := AppendFolder(raw);
          if Suppressed(folder, w.profile) then
            Turn([Answer(Continue), Answer(AppendCompleted(tag))], s, next.rest, true)
          else
            var body := if size <= MAX_APPEND_BYTES then input[..size] else "";
            var staged := if w.stageFails then [] else [StageAppend(UnquoteMailbox(folder), AppendFlags(raw), size, body)];
            Turn([Answer(Continue)] + staged + [Answer(Staged(tag))], s, next.rest, true)
  }

  // ----- reads -----

  /** strip('"') */
  function StripQuotes(s: string): string {
    if s != "" && s[0] == '"' then StripQuotes(s[1..])
    else if s != "" && s[|s| - 1] == '"' then StripQuotes(s[..|s| - 1])
    else s
  }

  /** SELECT and EXAMINE set the session's folder before upstream has answered. */
  function Selected(s: Session, cmd: ParsedCommand): Session {
    if (cmd.command == "SELECT" || cmd.command == "EXAMINE") && cmd.args != [] && StripQuotes(cmd.args[0]) != ""
    then s.(folder := Some(StripQuotes(cmd.args[0]))) else s
  }

  function EnableLine(tag: string, kept: seq<string>): string {
    tag + " ENABLE " + Join(kept, ' ') + "\r\n"
  }

  function ReadEvents(line: string, cmd: ParsedCommand): seq<Event> {
    if cmd.command != "ENABLE" then [Forward(line)]
    else
      var kept := FilterEnable(cmd.args);
      if kept == [] then [Answer(NothingEnabled(cmd.tag))]
      else if kept != cmd.args then [Forward(EnableLine(cmd.tag, kept))]
      else [Forward(line)]
  }

  // ----- writes -----

  predicate Contains(s: string, word: string) {
    word <= s || (s != "" && Contains(s[1..], word))
  }

  predicate IsStoreDeleted(cmd: ParsedCommand) {
    cmd.command == "STORE" && |cmd.args| >= 3 && Contains(Lower(cmd.args[2]), "deleted") && FlagsOp(cmd.args[1]) == "+FLAGS"
  }

  predicate Special(folder: Option<string>, name: string) {
    folder.Some? && folder.value != "" && Lower(folder.value) == Lower(name)
  }

  function CopyFolder(cmd: ParsedCommand): string {
    if |cmd.args| > 1 then Join(cmd.args[1..], ' ') else ""
  }

  /** A COPY that may be the first half of a move. */
  predicate IsArchiveCopy(cmd: ParsedCommand, p: Profile) {
    var folder := CopyFolder(cmd);
    cmd.command == "COPY" && cmd.uid && folder != "" &&
    (Special(p.archive, folder) || Special(p.trash, folder) || Special(p.junk, folder))
  }

  /** The held COPY becomes an operation of its own before any other write. */
  function FlushEvents(s: Session, cmd: ParsedCommand, w: World): seq<Event> {
    match s.held
    case Some(h) =>
      if IsStoreDeleted(cmd) then []
      else if w.flushFails then [LostCopy(h.uidSet, h.destination)]
      else [Stage(ParseCopy(h.uidSet, h.destination), s.folder, FromHeld(h.uidSet, h.destination))]
    case None => []
  }

  function Flushed(s: Session, cmd: ParsedCommand): Session {
    if IsStoreDeleted(cmd) then s else s.(held := None)
  }

  predicate Merges(s: Session, cmd: ParsedCommand) {
    s.held.Some? && IsStoreDeleted(cmd) && cmd.args != [] && cmd.args[0] == s.held.value.uidSet
  }

  function WithTrash(op: ParsedOperation, trash: Option<string>): ParsedOperation {
    if op.opType == "trash" && (op.folderTo == None || op.folderTo == Some("")) then op.(folderTo := trash) else op
  }

  /** The part of a write turn after the flush. */
  function StageTurn(s: Session, cmd: ParsedCommand, w: World): (seq<Event>, Session) {
    if IsArchiveCopy(cmd, w.profile) then
      ([Answer(CopyCompleted(cmd.tag, cmd.args[0], CopyFolder(cmd)))],
       s.(held := Some(Held(cmd.tag, cmd.args[0], CopyFolder(cmd)))))
    else if !cmd.uid && cmd.command in {"STORE", "COPY", "MOVE"} then ([Answer(UseUid(cmd.tag, cmd.command))], s)
    else if Merges(s, cmd) then
      var h := s.held.value;
      ([if w.stageFails then LostCopy(h.uidSet, h.destination)
        else Stage(ParseMove(h.uidSet, h.destination), s.folder, FromHeld(h.uidSet, h.destination)),
        Answer(Staged(cmd.tag))],
       s.(held := None))
    else
      var staged := if w.stageFails then []
                    else match BuildParsedOp(cmd)
                      case Some(op) => [Stage(WithTrash(op, w.trash), s.folder, Direct)]
                      case None => [StageGeneric(cmd.command, cmd.args)];
      (staged + [Answer(Staged(cmd.tag))], s)
  }

  // ----- one turn -----

  function ParsedTurn(s: Session, line: string, raw: string, cmd: ParsedCommand, input: string, w: World): (t: Turn)
    ensures |t.rest| <= |input|
  {
    if NonsyncSize(raw).Some? then
      var d := Discard(raw, input);
      if d.alive then Turn([Answer(Cannot(cmd.tag, "non-synchronizing literal"))], s, d.rest, true)
      else Turn(if d.bye then [Answer(Bye)] else [], s, d.rest, false)
    else match Classify(cmd)
      case Rejected =>
        if Trim(raw) == "" then Turn([], s, input, true)
        else if cmd.command != "" then Turn([Answer(Cannot(cmd.tag, cmd.command))], s, input, true)
        else Turn([Answer(MissingCommand(cmd.tag))], s, input, true)
      case Read => Turn(ReadEvents(line, cmd), Selected(s, cmd), input, true)
      case Write =>
        var (events, after) := StageTurn(Flushed(s, cmd), cmd, w);
        Turn(FlushEvents(s, cmd, w) + events, after, input, true)
      case Blocked => Turn([Answer(Noted(cmd.tag))], s, input, true)
  }

  function Serve(s: Session, input: string, w: World): (t: Turn)
    requires input != ""
    ensures |t.rest| < |input|
  {
    var r := ReadLine(input);
    var raw := Chomp(r.data);
    if HasBareCrOrNul(r.data) then Turn([Answer(BadLine(RawTag(raw)))], s, r.rest, true)
    else match ParseLine(raw)
      case None => LiteralTurn(s, raw, r.rest, w)
      case Some(cmd) => ParsedTurn(s, r.data, raw, cmd, r.rest, w)
  }

  type Worlds = nat -> World

  /** The whole connection: turns until the stream ends or the connection does. */
  function ServeAll(s: Session, input: string, k: nat, worlds: Worlds): (seq<Event>, Session)
    decreases |input|
  {
    if input == "" then ([], s)
    else
      var t := Serve(s, input, worlds(k));
      if !t.open then (t.events, t.session)
      else
        var (events, end) := ServeAll(t.session, t.rest, k + 1, worlds);
        (t.events + events, end)
  }

  // ----- the loops -----

  class ClientToUpstream {
    var input: string
    var session: Session
    var trace: seq<Event>
    var turns: nat

    constructor (stream: string, s: Session)
      ensures input == stream && session == s && trace == [] && turns == 0
    {
      input, session, trace, turns := stream, s, [], 0;
    }

    method NextLine() returns (line: string)
      modifies this`input
      ensures Taken(line, input) == ReadLine(old(input))
    {
      var r := ReadLine(input);
      line, input := r.data, r.rest;
    }

    /** _discard_nonsync_literals. */
    method DiscardNonsyncLiterals(raw: string) returns (alive: bool, bye: bool)
      modifies this`input
      ensures Discarded(input, alive, bye) == Discard(raw, old(input))
    {
      var line := raw;
      while NonsyncSize(line).Some?
        invariant Discard(line, input) == Discard(raw, old(input))
        decreases |input|
      {
        hide NonsyncSize;
        var size := NonsyncSize(line).value;
        if size > MAX_APPEND_BYTES {
          return false, true;
        }
        if |input| < size || input[size..] == "" {
          input := "";
          return false, false;
        }
        input := input[size..];
        var next := NextLine();
        line := Chomp(next);
      }
      return true, false;
    }

    method ServeLiteral(raw: string, w: World) returns (events: seq<Event>, open: bool)
      modifies this`input
      ensures Turn(events, session, input, open) == LiteralTurn(session, raw, old(input), w)
    {
      hide Discard, AnyLiteralTail, AppendFlags, Suppressed, TakesLiteral;
      var tag := FirstWord(raw);
      if !TakesLiteral(raw) {
        return [Answer(Cannot(tag, "literal"))], true;
      }
      var size := AppendSize(raw);
      if |input| < size {
        input := "";
        return [Answer(Continue)], false;
      }
      var body := if size <= MAX_APPEND_BYTES then input[..size] else "";
      input := input[size..];
      var next := NextLine();
      var tail := Chomp(next);
      if AnyLiteralTail(tail) {
        var alive, bye := DiscardNonsyncLiterals(tail);
        if alive {
          return [Answer(Continue), Answer(Cannot(tag, "MULTIAPPEND"))], true;
        }
        return [Answer(Continue)] + (if bye then [Answer(Bye)] else []), false;
      }
      var folder := AppendFolder(raw);
      if Suppressed(folder, w.profile) {
        return [Answer(Continue), Answer(AppendCompleted(tag))], true;
      }
      var staged := if w.stageFails then [] else [StageAppend(UnquoteMailbox(folder), AppendFlags(raw), size, body)];
      return [Answer(Continue)] + staged + [Answer(Staged(tag))], true;
    }

    method ServeParsed(line: string, raw: string, cmd: ParsedCommand, w: World) returns (events: seq<Event>, open: bool)
      modifies this`input, this`session
      ensures Turn(events, session, input, open) == ParsedTurn(old(session), line, raw, cmd, old(input), w)
    {
      hide Discard, NonsyncSize, FlushEvents, StageTurn, ReadEvents, Selected;
      if NonsyncSize(raw).Some? {
        var alive, bye := DiscardNonsyncLiterals(raw);
        if alive {
          return [Answer(Cannot(cmd.tag, "non-synchronizing literal"))], true;
        }
        return if bye then [Answer(Bye)] else [], false;
      }
      match Classify(cmd) {
        case Rejected =>
          if Trim(raw) == "" {
            return [], true;
          }
          return [Answer(if cmd.command != "" then Cannot(cmd.tag, cmd.command) else MissingCommand(cmd.tag))], true;
        case Read =>
          session := Selected(session, cmd);
          return ReadEvents(line, cmd), true;
        case Write =>
          var flushed := FlushEvents(session, cmd, w);
          session := Flushed(session, cmd);
          var (staged, after) := StageTurn(session, cmd, w);
          session := after;
          return flushed + staged, true;
        case Blocked =>
          return [Answer(Noted(cmd.tag))], true;
      }
    }

    method ServeOne(w: World) returns (events: seq<Event>, open: bool)
      requires input != ""
      modifies this`input, this`session
      ensures Turn(events, session, input, open) == Serve(old(session), old(input), w)
    {
      hide ParseLine, HasBareCrOrNul, LiteralTurn, ParsedTurn, RawTag;
      var line := NextLine();
      var raw := Chomp(line);
      if HasBareCrOrNul(line) {
        return [Answer(BadLine(RawTag(raw)))], true;
      }
      var cmd := ParseCommandLine(raw);
      if cmd == None {
        events, open := ServeLiteral(raw, w);
      } else {
        events, open := ServeParsed(line, raw, cmd.value, w);
      }
    }

    /** The read loop. */
    method Run(worlds: Worlds)
      modifies this
      ensures trace == old(trace) + ServeAll(old(session), old(input), old(turns), worlds).0
      ensures session == ServeAll(old(session), old(input), old(turns), worlds).1
    {
      hide Serve, ServeAll;
      ghost var start := trace;
      ghost var all := ServeAll(session, input, turns, worlds);
      var open := true;
      while open && input != ""
        invariant open ==> start + all.0 == trace + ServeAll(session, input, turns, worlds).0
        invariant open ==> all.1 == ServeAll(session, input, turns, worlds).1
        invariant !open ==> start + all.0 == trace && all.1 == session
        decreases open, |input|
      {
        ghost var before, s, i, k := trace, session, input, turns;
        ServeAllStep(s, i, k, worlds);
        var events;
        events, open := ServeOne(worlds(turns));
        trace := trace + events;
        turns := turns + 1;
        assert Serve(s, i, worlds(k)) == Turn(events, session, input, open);
        if open {
          assert before + (events + ServeAll(session, input, turns, worlds).0) == trace + ServeAll(session, input, turns, worlds).0;
        }
      }
      if open {
        ServeNothing(session, turns, worlds);
        assert trace + [] == trace;
      }
    }
  }

  lemma ServeAllStep(s: Session, input: string, k: nat, worlds: Worlds)
    requires input != ""
    ensures var t := Serve(s, input, worlds(k));
            ServeAll(s, input, k, worlds) ==
            if t.open then (t.events + ServeAll(t.session, t.rest, k + 1, worlds).0, ServeAll(t.session, t.rest, k + 1, worlds).1)
            else (t.events, t.session)
  {
    hide Serve;
  }

  lemma ServeNothing(s: Session, k: nat, worlds: Worlds)
    ensures ServeAll(s, "", k, worlds) == ([], s)
  {
  }
}
