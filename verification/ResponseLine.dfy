// One upstream response line on its way to the agent (the line part of
// _upstream_to_client in gateway/proxy.py, with filter_capabilities and
// parse_fetch_line). Lines carry no CRLF; bytes are characters.
module ResponseLine {
  import opened Wrappers
  import opened Text
  import opened Flags
  import opened ImapParser
  import Overlay

  // ----- what the pump recognises -----

  predicate IsLetter(c: char) {
    'a' <= c <= 'z' || 'A' <= c <= 'Z'
  }

  predicate IsWordChar(c: char) {
    IsLetter(c) || IsDigit(c) || c == '_'
  }

  /** \b after a word that ends at i. */
  predicate BoundaryAt(s: string, i: nat) {
    i >= |s| || !IsWordChar(s[i])
  }

  function DigitRun(s: string): (n: nat)
    ensures n <= |s| && (n > 0 ==> AllDigits(s[..n])) && (n < |s| ==> !IsDigit(s[n]))
  {
    if s == "" || !IsDigit(s[0]) then 0
    else
      var n := DigitRun(s[1..]);
      assert s[..n + 1] == [s[0]] + s[1..][..n];
      n + 1
  }

  /** "* <number> <rest>" */
  function Counted(line: string): (r: Option<(string, string)>)
    ensures r.Some? ==> AllDigits(r.value.0) && line == "* " + r.value.0 + " " + r.value.1
  {
    if !("* " <= line) then None
    else
      var n := DigitRun(line[2..]);
      if n == 0 || 2 + n >= |line| || line[2 + n] != ' ' then None
      else
        assert line == "* " + line[2..][..n] + " " + line[3 + n..];
        Some((line[2..][..n], line[3 + n..]))
  }

  predicate Begins(s: string, word: string) {
    |s| >= |word| && Upper(s[..|word|]) == word
  }

  function ExistsCount(line: string): Option<nat> {
    match Counted(line)
    case Some((n, rest)) => if Upper(rest) == "EXISTS" then Some(ReadNat(n)) else None
    case None => None
  }

  predicate IsFetch(line: string) {
    match Counted(line) case Some((_, rest)) => Begins(rest, "FETCH") && BoundaryAt(rest, 5) case None => false
  }

  predicate IsSearch(line: string) {
    Begins(line, "* SEARCH") && BoundaryAt(line, 8)
  }

  predicate IsCapability(line: string) {
    Begins(line, "* CAPABILITY ")
  }

  /** ^([A-Za-z0-9]+)\s+OK\b */
  function TaggedOk(line: string): Option<string> {
    var n := TagRun(line);
    var rest := TrimLeft(line[n..]);
    if n > 0 && n < |line| && IsSpace(line[n]) && Begins(rest, "OK") && BoundaryAt(rest, 2) then Some(line[..n]) else None
  }

  function TagRun(s: string): (n: nat)
    ensures n <= |s| && (s != "" && !IsLetter(s[0]) && !IsDigit(s[0]) ==> n == 0)
  {
    if s == "" || !(IsLetter(s[0]) || IsDigit(s[0])) then 0 else 1 + TagRun(s[1..])
  }

  /** The number in \bUID (\d+)\b at position i. */
  function UidAt(s: string, i: nat): Option<nat>
    requires i <= |s|
  {
    if !Begins(s[i..], "UID ") || (i > 0 && IsWordChar(s[i - 1])) then None
    else
      var digits := s[i + 4..];
      var n := DigitRun(digits);
      if n > 0 && BoundaryAt(digits, n) then Some(ReadNat(digits[..n])) else None
  }

  function FindUid(s: string, i: nat): Option<nat>
    requires i <= |s|
    decreases |s| - i
  {
    if UidAt(s, i).Some? then UidAt(s, i) else if i == |s| then None else FindUid(s, i + 1)
  }

  /** Where \bFLAGS \([^)]*\) first matches: start, end, and the list between. */
  function FindFlags(s: string, i: nat): (r: Option<(nat, nat)>)
    requires i <= |s|
    ensures r.Some? ==> i <= r.value.0 && r.value.0 + 8 <= r.value.1 <= |s| && s[r.value.1 - 1] == ')'
    decreases |s| - i
  {
    var here := Begins(s[i..], "FLAGS (") && (i == 0 || !IsWordChar(s[i - 1]));
    if here && IndexOf(s[i + 7..], ')') < |s[i + 7..]| then Some((i, i + 8 + IndexOf(s[i + 7..], ')')))
    else if i == |s| then None
    else FindFlags(s, i + 1)
  }

  /** parse_fetch_line's payload: the line must end in ")". */
  function FetchPayload(line: string): (r: Option<string>)
    ensures r.Some? ==> line != "" && line[|line| - 1] == ')'
  {
    match Counted(line)
    case Some((_, rest)) =>
      if Begins(rest, "FETCH (") && |rest| >= 9 && rest[|rest| - 1] == ')' then Some(rest[7..|rest| - 1]) else None
    case None => None
  }

  function FetchUid(line: string): Option<nat> {
    match FetchPayload(line) case Some(p) => FindUid(p, 0) case None => None
  }

  /** {N} at the end of a line, ~ before it or not. */
  function Tail(line: string): Option<nat> {
    if line == "" || line[|line| - 1] != '}' then None
    else
      var n := DigitsBefore(line, |line| - 1);
      var from := |line| - 1 - n;
      if n > 0 && from > 0 && line[from - 1] == '{' then Some(ReadNat(line[from..|line| - 1])) else None
  }

  /** Status responses carry free text. */
  predicate IsStatus(line: string) {
    || (Begins(line, "* OK") && BoundaryAt(line, 4)) || (Begins(line, "* NO") && BoundaryAt(line, 4))
    || (Begins(line, "* BAD") && BoundaryAt(line, 5)) || (Begins(line, "* BYE") && BoundaryAt(line, 5))
    || (Begins(line, "* PREAUTH") && BoundaryAt(line, 9))
  }

  /** The literal a line announces: only data responses and continuation lines do. */
  function Announces(line: string, continues: bool): Option<nat> {
    if continues || ("* " <= line && !IsStatus(line)) then Tail(line) else None
  }

  /** _RE_FETCH_LITERAL: "* n FETCH (... UID m ... {size}", a closing ")" and spaces allowed. */
  function FetchLiteral(line: string): Option<nat> {
    var t := TrimRight(line);
    var u := if t != "" && t[|t| - 1] == ')' && Tail(t[..|t| - 1]).Some? then t[..|t| - 1] else t;
    match Counted(line)
    case Some((_, rest)) => if Begins(rest, "FETCH (") && FindUid(line, 0).Some? then Tail(u) else None
    case None => None
  }

  // ----- what the pump changes -----

  const HIDDEN: set<string> :=
    {"LITERAL+", "LITERAL-", "REPLACE", "STARTTLS", "IMAP4REV2", "BINARY", "MULTIAPPEND"}

  predicate KeepCapability(atom: string) {
    Upper(atom) !in HIDDEN && !StartsWith(Upper(atom), "COMPRESS=")
  }

  function KeptAtoms(atoms: seq<string>): (r: seq<string>)
    ensures forall i :: 0 <= i < |r| ==> r[i] in atoms && KeepCapability(r[i])
  {
    if atoms == [] then []
    else (if KeepCapability(atoms[0]) then [atoms[0]] else []) + KeptAtoms(atoms[1..])
  }

  function FilterCapabilities(line: string): string
    requires IsCapability(line)
  {
    line[..13] + Join(KeptAtoms(Words(line[13..])), ' ')
  }

  /** Everything the line meets on its way: what the other pump set before it, and the database's answers. */
  datatype Context = Context(
    capabilityIssued: Option<string>, revertIssued: Option<string>, folder: bool, searchUid: bool,
    pending: set<nat>, changes: nat -> (seq<string>, seq<string>), reverts: seq<Revert>)

  datatype Revert = Revert(uid: nat, sequence: nat, flags: seq<string>)

  datatype Tags = Tags(capability: Option<string>, revert: Option<string>)

  function Either(new_: Option<string>, was: Option<string>): Option<string> {
    if new_.Some? then new_ else was
  }

  function RevertLine(r: Revert): string {
    "* " + ShowNat(r.sequence) + " FETCH (UID " + ShowNat(r.uid) + " FLAGS (" + Join(r.flags, ' ') + "))"
  }

  function RevertLines(rs: seq<Revert>): (r: seq<string>)
    ensures |r| == |rs| && forall i :: 0 <= i < |r| ==> r[i] == RevertLine(rs[i])
  {
    seq(|rs|, i requires 0 <= i < |rs| => RevertLine(rs[i]))
  }

  /** The EXISTS and SEARCH rewrites. */
  function Recounted(line: string, c: Context): string {
    if !c.folder || c.pending == {} then line
    else match ExistsCount(line)
      case Some(n) =>
        var adjusted := Overlay.AdjustedExists(n, c.pending);
        if adjusted != n then "* " + ShowNat(adjusted) + " EXISTS" else line
      case None =>
        if IsSearch(line) && c.searchUid then
          var words := Words(line);
          if |words| < 2 then Join(words, ' ') else Join(words[..2] + Overlay.FilterSearch(words[2..], c.pending), ' ')
        else line
  }

  predicate IsOctal(c: char) {
    '0' <= c <= '7'
  }

  datatype Unescaped = Unescaped(text: string, length: nat)

  /**
   * What a backslash stands for in a re.sub replacement when t follows it, and how much of t
   * belongs to it; None is the error that is raised. matched is the text being replaced.
   */
  function Unescape(t: string, matched: string): (r: Option<Unescaped>)
    ensures r.Some? ==> 0 < r.value.length <= |t|
  {
    if t == "" then None
    else if t[0] == 'g' then GroupText(t, matched)
    else if IsDigit(t[0]) then OctalText(t)
    else match t[0]
      case 'a' => Some(Unescaped(['\U{7}'], 1))
      case 'b' => Some(Unescaped(['\U{8}'], 1))
      case 'f' => Some(Unescaped(['\U{C}'], 1))
      case 'n' => Some(Unescaped(['\n'], 1))
      case 'r' => Some(Unescaped(['\r'], 1))
      case 't' => Some(Unescaped(['\t'], 1))
      case 'v' => Some(Unescaped(['\U{B}'], 1))
      case '\\' => Some(Unescaped(['\\'], 1))
      case _ => if IsLetter(t[0]) then None else Some(Unescaped(['\\', t[0]], 1))
  }

  /** \g<0> is the whole match; the pattern has no other group. */
  function GroupText(t: string, matched: string): (r: Option<Unescaped>)
    requires t != ""
    ensures r.Some? ==> 0 < r.value.length <= |t|
  {
    if |t| < 2 || t[1] != '<' then None
    else
      var n := IndexOf(t[2..], '>');
      var name := t[2..][..n];
      if n < |t[2..]| && AllDigits(name) && ReadNat(name) == 0 then Some(Unescaped(matched, n + 3)) else None
  }

  /** \0 with up to two octal digits, or three octal digits up to 377; other numbers name groups there are not. */
  function OctalText(t: string): (r: Option<Unescaped>)
    requires t != "" && IsDigit(t[0])
    ensures r.Some? ==> 0 < r.value.length <= |t|
  {
    var one, two := |t| >= 2 && IsOctal(t[1]), |t| >= 3 && IsOctal(t[2]);
    if t[0] == '0' then
      if one && two then Some(Unescaped([(8 * DigitValue(t[1]) + DigitValue(t[2])) as char], 3))
      else if one then Some(Unescaped([DigitValue(t[1]) as char], 2))
      else Some(Unescaped(['\0'], 1))
    else if IsOctal(t[0]) && one && two && 64 * DigitValue(t[0]) + 8 * DigitValue(t[1]) + DigitValue(t[2]) <= 255
    then Some(Unescaped([(64 * DigitValue(t[0]) + 8 * DigitValue(t[1]) + DigitValue(t[2])) as char], 3))
    else None
  }

  function ReplacementText(s: string, matched: string): Option<string>
    decreases |s|
  {
    if s == "" then Some("")
    else if s[0] != '\\' then Prepend([s[0]], ReplacementText(s[1..], matched))
    else match Unescape(s[1..], matched)
      case Some(u) => Prepend(u.text, ReplacementText(s[1 + u.length..], matched))
      case None => None
  }

  function Prepend(a: string, o: Option<string>): Option<string> {
    match o case Some(s) => Some(a + s) case None => None
  }

  /** Upstream flags with the pending changes applied, removals last. */
  function Merged(line: string, payload: string, add: seq<string>, remove: seq<string>): set<string> {
    var flags := match FindFlags(payload, 0) case Some((i, j)) => Words(payload[i + 7..j - 1]) case None => [];
    AsSet(flags) + AsSet(add) - AsSet(remove)
  }

  function FlagsText(flags: set<string>): string {
    "FLAGS (" + Join(SortedFlags(flags), ' ') + ")"
  }

  /** The FLAGS patch; a replacement text that re.sub refuses leaves the line as it was. */
  function Patched(line: string, c: Context): string {
    match FetchPayload(line)
    case None => line
    case Some(payload) =>
      match FindUid(payload, 0)
      case None => line
      case Some(uid) =>
        var (add, remove) := c.changes(uid);
        if !c.folder || (add == [] && remove == []) then line
        else match FindFlags(line, 0)
          case None => line
          case Some((i, j)) =>
            match ReplacementText(FlagsText(Merged(line, payload, add, remove)), line[i..j])
            case Some(text) => line[..i] + text + line[j..]
            case None => line
  }

  predicate Suppressed(line: string, c: Context) {
    c.folder && IsFetch(line) && FetchUid(line).Some? && FetchUid(line).value in c.pending
  }

  /** The lines written for one upstream line, the tags left, and the literal that follows. */
  datatype Handled = Handled(sent: seq<string>, tags: Tags, literal: Option<nat>)

  /** The line after the capability filter. */
  function Filtered(tags: Tags, line: string, c: Context): string {
    if Either(c.capabilityIssued, tags.capability).Some? && IsCapability(line) then FilterCapabilities(line) else line
  }

  /** A tagged OK for the command that lets reverts be told. */
  predicate Fires(tags: Tags, line: string, c: Context) {
    var rev, tag := Either(c.revertIssued, tags.revert), TaggedOk(Filtered(tags, line, c));
    rev.Some? && tag.Some? && Upper(tag.value) == rev.value
  }

  function Handle(tags: Tags, line: string, continues: bool, c: Context): Handled {
    var cap := Either(c.capabilityIssued, tags.capability);
    var rev := Either(c.revertIssued, tags.revert);
    var cap' := if cap.Some? && !IsCapability(line) && Upper(line[..IndexOf(line, ' ')]) == cap.value then None else cap;
    var fires := Fires(tags, line, c);
    var injected := if fires then RevertLines(c.reverts) else [];
    var tags' := Tags(cap', if fires then None else rev);
    var l2 := Recounted(Filtered(tags, line, c), c);
    if FetchLiteral(l2).Some? then Handled(injected + [l2], tags', FetchLiteral(l2))
    else if Suppressed(l2, c) then Handled(injected, tags', None)
    else var l3 := Patched(l2, c); Handled(injected + [l3], tags', Announces(l3, continues))
  }

  // ----- the capability filter -----

  lemma {:induction false} KeptAtomsKeeps(atoms: seq<string>, atom: string)
    requires KeepCapability(atom) && atom in atoms
    ensures atom in KeptAtoms(atoms)
  {
    if atoms[0] != atom {
      KeptAtomsKeeps(atoms[1..], atom);
    }
  }

  /** The agent reads exactly the capabilities upstream offered, less the hidden ones. */
  lemma CapabilitiesFiltered(line: string)
    requires IsCapability(line)
    ensures IsCapability(FilterCapabilities(line))
    ensures forall atom :: atom in Words(FilterCapabilities(line)[13..]) <==>
              atom in Words(line[13..]) && KeepCapability(atom)
  {
    var atoms := Words(line[13..]);
    var out := FilterCapabilities(line);
    assert out[13..] == Join(KeptAtoms(atoms), ' ') && out[..13] == line[..13];
    WordsClean(line[13..]);
    WordsOfJoin(KeptAtoms(atoms));
    forall atom | atom in atoms && KeepCapability(atom) ensures atom in KeptAtoms(atoms) {
      KeptAtomsKeeps(atoms, atom);
    }
  }

  // ----- when the FLAGS patch takes effect -----

  /** A system flag as servers write it, or a keyword. */
  predicate Standard(flag: string) {
    || '\\' !in flag
    || (|flag| >= 2 && flag[0] == '\\' && 'A' <= flag[1] <= 'Z' && '\\' !in flag[1..])
  }

  lemma {:induction false} PlainReplacement(a: string, s: string, matched: string)
    requires '\\' !in a
    ensures ReplacementText(a + s, matched) == Prepend(a, ReplacementText(s, matched))
    decreases |a|
  {
    if a == "" {
      assert a + s == s;
      NothingPrepended(ReplacementText(s, matched));
    } else {
      assert (a + s)[1..] == a[1..] + s;
      PlainReplacement(a[1..], s, matched);
      hide ReplacementText;
      PrependTwice([a[0]], a[1..], ReplacementText(s, matched));
      assert [a[0]] + a[1..] == a;
    }
  }

  lemma NothingPrepended(o: Option<string>)
    ensures Prepend("", o) == o
  {
    if o.Some? {
      assert "" + o.value == o.value;
    }
  }

  lemma PrependTwice(a: string, b: string, o: Option<string>)
    ensures Prepend(a, Prepend(b, o)) == Prepend(a + b, o)
  {
    if o.Some? {
      assert a + (b + o.value) == a + b + o.value;
    }
  }

  /** A capital letter after a backslash is refused, wherever it stands after plain text. */
  lemma CapitalEscapeFails(before: string, c: char, after: string, matched: string)
    requires '\\' !in before && 'A' <= c <= 'Z'
    ensures ReplacementText(before + (['\\', c] + after), matched) == None
  {
    var s := ['\\', c] + after;
    assert s[0] == '\\' && s[1..][0] == c;
    PlainReplacement(before, s, matched);
  }

  lemma {:induction false} FirstSystemFlag(flags: seq<string>) returns (before: string, c: char, after: string)
    requires forall i :: 0 <= i < |flags| ==> Standard(flags[i])
    requires exists i :: 0 <= i < |flags| && '\\' in flags[i]
    ensures Join(flags, ' ') == before + ['\\', c] + after && '\\' !in before && 'A' <= c <= 'Z'
  {
    var f := flags[0];
    var tail := if |flags| == 1 then "" else [' '] + Join(flags[1..], ' ');
    assert Join(flags, ' ') == f + tail;
    if '\\' in f {
      before, c, after := "", f[1], f[2..] + tail;
      assert f == ['\\', c] + f[2..];
    } else {
      assert exists i :: 0 <= i < |flags[1..]| && '\\' in flags[1..][i] by {
        var i :| 0 <= i < |flags| && '\\' in flags[i];
        assert flags[1..][i - 1] == flags[i];
      }
      before, c, after := FirstSystemFlag(flags[1..]);
      before := f + [' '] + before;
    }
  }

  /**
   * The rewrite of the FLAGS list goes through exactly when the merged list holds no system
   * flag: \Seen, \Flagged, \Deleted and the rest make re.sub refuse the replacement text.
   */
  lemma PatchTakesEffectIff(flags: set<string>, matched: string)
    requires forall f :: f in flags ==> Standard(f)
    ensures ReplacementText(FlagsText(flags), matched) ==
            if forall f :: f in flags ==> '\\' !in f then Some(FlagsText(flags)) else None
  {
    hide ReplacementText, SortedFlags, Standard, Join;
    var list := SortedFlags(flags);
    assert forall i :: 0 <= i < |list| ==> list[i] in AsSet(list);
    if forall f :: f in flags ==> '\\' !in f {
      JoinLacks(list, '\\');
      PlainText(FlagsText(flags), matched);
    } else {
      var f :| f in flags && '\\' in f;
      assert f in AsSet(list);
      var before, c, after := FirstSystemFlag(list);
      assert FlagsText(flags) == ("FLAGS (" + before) + (['\\', c] + (after + ")"));
      CapitalEscapeFails("FLAGS (" + before, c, after + ")", matched);
    }
  }

  lemma PlainText(text: string, matched: string)
    requires '\\' !in text
    ensures ReplacementText(text, matched) == Some(text)
  {
    assert text + "" == text;
    PlainReplacement(text, "", matched);
    assert ReplacementText("", matched) == Some("") by { NothingReplaced(matched); }
  }

  lemma NothingReplaced(matched: string)
    ensures ReplacementText("", matched) == Some("")
  {
  }

  /** So a pending change on a message that keeps or gains a system flag is not shown to the agent. */
  lemma SystemFlagHidesPatch(line: string, c: Context, payload: string, uid: nat, flag: string)
    requires FetchPayload(line) == Some(payload) && FindUid(payload, 0) == Some(uid)
    requires var (add, remove) := c.changes(uid);
             flag in Merged(line, payload, add, remove) && '\\' in flag
             && forall f :: f in Merged(line, payload, add, remove) ==> Standard(f)
    ensures Patched(line, c) == line
  {
    hide FindFlags, FindUid, FetchPayload, ReplacementText, Merged, FlagsText;
    var (add, remove) := c.changes(uid);
    match FindFlags(line, 0) {
      case Some((i, j)) => PatchTakesEffectIff(Merged(line, payload, add, remove), line[i..j]);
      case None =>
    }
  }
}
