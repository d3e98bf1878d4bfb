// Which client commands may go upstream (gateway/command_router.py,
// has_bare_cr_or_nul in gateway/security_controls.py).
module CommandRouter {
  import opened Wrappers
  import opened Text
  import opened ImapParser

  const READ_COMMANDS: set<string> := {
    "SELECT", "EXAMINE", "FETCH", "SEARCH", "LIST", "LSUB", "STATUS", "NOOP", "CAPABILITY", "ID", "LOGOUT", "CHECK",
    "SUBSCRIBE", "UNSUBSCRIBE", "NAMESPACE", "IDLE", "UNSELECT", "ENABLE", "SORT", "THREAD", "ESEARCH", "GETQUOTA",
    "GETQUOTAROOT", "GETACL", "MYRIGHTS", "LISTRIGHTS", "GETMETADATA", "XLIST"}

  const WRITE_COMMANDS: set<string> := {"STORE", "COPY", "MOVE", "APPEND", "CREATE", "RENAME"}

  const BLOCKED_COMMANDS: set<string> := {"EXPUNGE", "DELETE", "CLOSE"}

  datatype Class = Read | Write | Blocked | Rejected

  function Classify(cmd: ParsedCommand): Class {
    if cmd.command in BLOCKED_COMMANDS then Blocked
    else if cmd.command in WRITE_COMMANDS then Write
    else if cmd.command in READ_COMMANDS then Read
    else if cmd.command == "" && Upper(cmd.tag) == "DONE" then Read
    else Rejected
  }

  /** The ENABLE arguments that may be forwarded, in order. */
  function FilterEnable(args: seq<string>): (kept: seq<string>)
    ensures forall i :: 0 <= i < |kept| ==> Upper(kept[i]) == "CONDSTORE"
    ensures |kept| <= |args|
  {
    if args == [] then []
    else (if Upper(args[0]) == "CONDSTORE" then [args[0]] else []) + FilterEnable(args[1..])
  }

  /** \{(\d+)\} at the end, where the closing brace follows position end. */
  function SizeBefore(s: string, end: nat): Option<nat>
    requires end <= |s|
  {
    var n := DigitsBefore(s, end);
    if n > 0 && end - n > 0 && s[end - n - 1] == '{' then Some(ReadNat(s[end - n..end])) else None
  }

  predicate Sign(c: char) {
    c == '+' || c == '-'
  }

  /** nonsync_literal_size: {N+} or {N-} at the end, trailing whitespace aside. */
  function NonsyncSize(line: string): Option<nat> {
    var t := TrimRight(line);
    if |t| >= 2 && t[|t| - 1] == '}' && Sign(t[|t| - 2]) then SizeBefore(t, |t| - 2) else None
  }

  /** _LITERAL_TAIL_RE: any literal marker at the very end. */
  predicate AnyLiteralTail(line: string) {
    |line| >= 1 && line[|line| - 1] == '}' &&
    (SizeBefore(line, |line| - 1).Some? || (|line| >= 2 && Sign(line[|line| - 2]) && SizeBefore(line, |line| - 2).Some?))
  }

  /** _LITERAL_RE on an APPEND line; 0 when something follows the marker. */
  function AppendSize(line: string): nat {
    if |line| >= 1 && line[|line| - 1] == '}' then
      match SizeBefore(line, |line| - 1)
      case Some(n) => n
      case None =>
        if |line| >= 2 && line[|line| - 2] == '+' && SizeBefore(line, |line| - 2).Some?
        then SizeBefore(line, |line| - 2).value else 0
    else 0
  }

  /** A CR outside the line ending, or a NUL. */
  predicate HasBareCrOrNul(line: string) {
    var body := if line != "" && line[|line| - 1] == '\n' then line[..|line| - 1] else line;
    var text := if body != "" && body[|body| - 1] == '\r' then body[..|body| - 1] else body;
    '\r' in text || '\0' in text
  }

  // ----- what the classes promise -----

  lemma {:induction false} EnableKeepsAllowed(args: seq<string>, a: string)
    ensures a in FilterEnable(args) <==> a in args && Upper(a) == "CONDSTORE"
  {
    if args == [] {
    } else {
      EnableKeepsAllowed(args[1..], a);
      assert a in args <==> a == args[0] || a in args[1..];
    }
  }
}
