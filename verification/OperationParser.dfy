// From a parsed write command to the operation that is staged
// (gateway/operation_parser.py and _build_parsed_op in gateway/proxy.py).
module OperationParser {
  import opened Wrappers
  import opened Text
  import opened ImapParser

  // ----- mailbox names -----

  /** str.replace: left to right, without overlap. */
  function Replace(s: string, pat: string, sub: string): (r: string)
    requires pat != ""
    ensures |sub| <= |pat| ==> |r| <= |s|
    decreases |s|
  {
    if s == "" then ""
    else if pat <= s then sub + Replace(s[|pat|..], pat, sub)
    else [s[0]] + Replace(s[1..], pat, sub)
  }

  predicate Surrounded(name: string) {
    |name| >= 2 && name[0] == '"' && name[|name| - 1] == '"'
  }

  function UnquoteMailbox(name: string): (r: string)
    ensures r == name <==> !Surrounded(name)
  {
    if Surrounded(name) then Replace(Replace(name[1..|name| - 1], ESCAPED_QUOTE, "\""), ESCAPED_BACKSLASH, "\\") else name
  }

  function DoubleBackslashes(name: string): string {
    if name == "" then "" else (if name[0] == '\\' then "\\\\" else [name[0]]) + DoubleBackslashes(name[1..])
  }

  lemma ReplaceHit(pat: string, rest: string, sub: string)
    requires pat != ""
    ensures Replace(pat + rest, pat, sub) == sub + Replace(rest, pat, sub)
  {
    assert (pat + rest)[|pat|..] == rest;
  }

  lemma ReplaceMiss(c: char, rest: string, pat: string, sub: string)
    requires pat != "" && (pat[0] != c || (|pat| == 2 && (rest == "" || rest[0] != pat[1])))
    ensures Replace([c] + rest, pat, sub) == [c] + Replace(rest, pat, sub)
  {
    var s := [c] + rest;
    assert s[1..] == rest;
    assert s[0] == c && (rest != "" ==> s[1] == rest[0]);
  }

  const ESCAPED_QUOTE := "\\\""
  const ESCAPED_BACKSLASH := "\\\\"

  lemma EscapedStart(name: string)
    ensures Escape(name) == "" || Escape(name)[0] != '"'
  {
  }

  lemma NothingReplaced(pat: string, sub: string)
    requires pat != ""
    ensures Replace("", pat, sub) == "" && Escape("") == "" && DoubleBackslashes("") == ""
  {
  }

  lemma DoubleOne(name: string)
    requires name != ""
    ensures DoubleBackslashes(name) ==
            (if name[0] == '\\' then ['\\'] + (['\\'] + DoubleBackslashes(name[1..])) else [name[0]] + DoubleBackslashes(name[1..]))
  {
  }

  lemma {:induction false} QuotesRestored(name: string)
    ensures Replace(Escape(name), ESCAPED_QUOTE, "\"") == DoubleBackslashes(name)
  {
    hide Replace, Escape, DoubleBackslashes;
    if name == "" {
      NothingReplaced(ESCAPED_QUOTE, "\"");
    } else {
      QuotesRestored(name[1..]);
      EscapedStart(name[1..]);
      EscapeOne(name);
      DoubleOne(name);
      var tail := Escape(name[1..]);
      if name[0] == '"' {
        assert Escape(name) == ESCAPED_QUOTE + tail;
        ReplaceHit(ESCAPED_QUOTE, tail, "\"");
      } else if name[0] == '\\' {
        assert Escape(name) == ['\\'] + (['\\'] + tail);
        ReplaceMiss('\\', ['\\'] + tail, ESCAPED_QUOTE, "\"");
        ReplaceMiss('\\', tail, ESCAPED_QUOTE, "\"");
      } else {
        assert Escape(name) == [name[0]] + tail;
        ReplaceMiss(name[0], tail, ESCAPED_QUOTE, "\"");
      }
    }
  }

  lemma {:induction false} BackslashesRestored(name: string)
    ensures Replace(DoubleBackslashes(name), ESCAPED_BACKSLASH, "\\") == name
  {
    if name == "" {
    } else {
      BackslashesRestored(name[1..]);
      var tail := DoubleBackslashes(name[1..]);
      hide Replace;
      if name[0] == '\\' {
        assert DoubleBackslashes(name) == ESCAPED_BACKSLASH + tail;
        ReplaceHit(ESCAPED_BACKSLASH, tail, "\\");
      } else {
        assert DoubleBackslashes(name) == [name[0]] + tail;
        ReplaceMiss(name[0], tail, ESCAPED_BACKSLASH, "\\");
      }
    }
  }

  /** The two replacements, one after the other, undo quoting for every name. */
  lemma UnquoteInvertsQuote(name: string)
    ensures UnquoteMailbox(Quote(name)) == name
  {
    var q := Quote(name);
    assert q[1..|q| - 1] == Escape(name);
    QuotesRestored(name);
    BackslashesRestored(name);
  }

  // ----- parsed operations -----

  datatype ParsedOperation = ParsedOperation(
    opType: string, messageIds: seq<string>, folderTo: Option<string>, flagsAdd: seq<string>, flagsRemove: seq<string>)

  function StripBackslashes(flag: string): string {
    if flag != "" && flag[0] == '\\' then StripBackslashes(flag[1..]) else flag
  }

  /** A flag as the parser compares it. */
  function Normalised(flag: string): string {
    Lower(StripBackslashes(flag))
  }

  predicate Names(flags: seq<string>, name: string) {
    exists i :: 0 <= i < |flags| && Normalised(flags[i]) == name
  }

  function FlagsOp(text: string): string {
    Replace(Upper(text), ".SILENT", "")
  }

  /** The first recognised flag decides; \Deleted dominates when adding. */
  function ParseStore(uidSet: string, flagsOp: string, flags: seq<string>): ParsedOperation {
    var op := FlagsOp(flagsOp);
    var adding := op == "+FLAGS";
    var opType :=
      if adding && Names(flags, "deleted") then "trash"
      else if op != "+FLAGS" && op != "-FLAGS" then "store"
      else if Names(flags, "seen") then if adding then "mark_read" else "mark_unread"
      else if Names(flags, "flagged") then if adding then "flag" else "unflag"
      else "store";
    ParsedOperation(opType, [uidSet], None, if adding then flags else [], if op == "-FLAGS" then flags else [])
  }

  function ParseMove(uidSet: string, destination: string): ParsedOperation {
    ParsedOperation("move", [uidSet], Some(UnquoteMailbox(destination)), [], [])
  }

  function ParseCopy(uidSet: string, destination: string): ParsedOperation {
    ParsedOperation("copy", [uidSet], Some(UnquoteMailbox(destination)), [], [])
  }

  /** A flag list in parentheses, or one bare flag. */
  function FlagList(raw: string): seq<string> {
    if raw != "" && raw[0] == '(' && raw[|raw| - 1] == ')' then Words(raw[1..|raw| - 1]) else [raw]
  }

  /** _build_parsed_op; None leaves the command to generic staging. */
  function BuildParsedOp(cmd: ParsedCommand): Option<ParsedOperation> {
    var uidSet := if cmd.args != [] then cmd.args[0] else "?";
    var destination := if |cmd.args| > 1 then Join(cmd.args[1..], ' ') else "?";
    if cmd.command == "STORE" then
      Some(ParseStore(uidSet, if |cmd.args| > 1 then cmd.args[1] else "+FLAGS",
                      FlagList(if |cmd.args| > 2 then cmd.args[2] else "()")))
    else if cmd.command == "MOVE" then Some(ParseMove(uidSet, destination))
    else if cmd.command == "COPY" then Some(ParseCopy(uidSet, destination))
    else None
  }

  /**
   * A MOVE or COPY with a quoted destination is staged with exactly that name, except for
   * names that read as a literal marker (the line is then held to be incomplete) and names
   * that themselves start and end with a quote (which loses them).
   */
  lemma QuotedDestinationStagedIff(tag: string, verb: string, uidSet: string, name: string)
    requires AtomWord(tag) && AtomWord(verb) && AtomWord(uidSet) && (Upper(verb) == "MOVE" || Upper(verb) == "COPY")
    ensures var cmd := ParseLine(UidCommand(tag, verb, uidSet, name));
            (cmd.Some? && BuildParsedOp(cmd.value).Some? &&
             BuildParsedOp(cmd.value).value.folderTo == Some(name) &&
             BuildParsedOp(cmd.value).value.messageIds == [uidSet])
            <==> !SyncLiteral(name) && !Surrounded(name)
  {
    hide ParseLine, UidCommand, SyncLiteral, Surrounded;
    ParseUidCommand(tag, verb, uidSet, name);
    assert [uidSet, name][1..] == [name];
  }
}
