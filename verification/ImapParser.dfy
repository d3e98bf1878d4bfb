// The IMAP command line parser (gateway/imap_parser.py). Lines are strings
// already stripped of CRLF; the index loops are methods proved against
// functions on the unread suffix.
module ImapParser {
  import opened Wrappers
  import opened Text

  datatype ParsedCommand = ParsedCommand(tag: string, command: string, uid: bool, args: seq<string>)

  /** A token read from the front of a text, and what follows it. */
  datatype Lexed = Lexed(token: string, rest: string)

  function Consed(c: char, l: Lexed): Lexed {
    Lexed([c] + l.token, l.rest)
  }

  function Prefixed(buf: string, l: Lexed): Lexed {
    Lexed(buf + l.token, l.rest)
  }

  lemma PrefixedConsed(buf: string, c: char, l: Lexed)
    ensures Prefixed(buf, Consed(c, l)) == Prefixed(buf + [c], l)
  {
  }

  /** After the opening quote: backslash takes the next character as it is. */
  function LexQuoted(s: string): (l: Lexed)
    ensures |l.rest| <= |s|
  {
    if s == "" then Lexed("", "")
    else if s[0] == '\\' && |s| > 1 then Consed(s[1], LexQuoted(s[2..]))
    else if s[0] == '"' then Lexed("", s[1..])
    else Consed(s[0], LexQuoted(s[1..]))
  }

  /** A parenthesised list, from inside depth lists. */
  function LexParen(s: string, depth: int): (l: Lexed)
    ensures |l.rest| <= |s| && (s != "" ==> |l.rest| < |s|)
  {
    if s == "" then Lexed("", "")
    else
      var d := if s[0] == '(' then depth + 1 else if s[0] == ')' then depth - 1 else depth;
      if s[0] == ')' && d == 0 then Lexed([s[0]], s[1..]) else Consed(s[0], LexParen(s[1..], d))
  }

  /** After the opening brace of a literal marker. */
  function LexBrace(s: string): (l: Lexed)
    ensures |l.rest| <= |s|
  {
    if s == "" then Lexed("", "")
    else if s[0] == '}' then Lexed("}", s[1..])
    else Consed(s[0], LexBrace(s[1..]))
  }

  /** After an opening bracket, from inside depth brackets. */
  function LexBracket(s: string, depth: nat): (l: Lexed)
    ensures |l.rest| <= |s|
  {
    if s == "" || depth == 0 then Lexed("", s)
    else Consed(s[0], LexBracket(s[1..], if s[0] == '[' then depth + 1 else if s[0] == ']' then depth - 1 else depth))
  }

  /** An atom ends at a space outside brackets. */
  function LexAtom(s: string): (l: Lexed)
    ensures |l.rest| <= |s| && (s != "" && s[0] != ' ' ==> |l.rest| < |s|)
    decreases |s|
  {
    if s == "" || s[0] == ' ' then Lexed("", s)
    else if s[0] == '[' then
      var b := LexBracket(s[1..], 1);
      var l := LexAtom(b.rest);
      Lexed(['['] + b.token + l.token, l.rest)
    else Consed(s[0], LexAtom(s[1..]))
  }

  /** One token, chosen by its first character. */
  function LexToken(s: string): (l: Lexed)
    requires s != "" && s[0] != ' '
    ensures |l.rest| < |s|
  {
    if s[0] == '"' then LexQuoted(s[1..])
    else if s[0] == '(' then LexParen(s, 0)
    else if s[0] == '{' then Consed('{', LexBrace(s[1..]))
    else LexAtom(s)
  }

  function Tokenize(s: string): seq<string>
    decreases |s|
  {
    if s == "" then []
    else if s[0] == ' ' then Tokenize(s[1..])
    else var l := LexToken(s); [l.token] + Tokenize(l.rest)
  }

  // ----- the index loops -----

  lemma QuotedStep(s: string, i: nat)
    requires i < |s|
    ensures LexQuoted(s[i..]) ==
            if s[i] == '\\' && i + 1 < |s| then Consed(s[i + 1], LexQuoted(s[i + 2..]))
            else if s[i] == '"' then Lexed("", s[i + 1..])
            else Consed(s[i], LexQuoted(s[i + 1..]))
  {
    assert s[i..][1..] == s[i + 1..];
    if i + 1 < |s| {
      assert s[i..][2..] == s[i + 2..];
    }
  }

  method ReadQuoted(s: string, start: nat) returns (buf: string, i: nat)
    requires start <= |s|
    ensures i <= |s| && Lexed(buf, s[i..]) == LexQuoted(s[start..])
  {
    hide LexQuoted, Prefixed, Consed;
    PrefixedNone(LexQuoted(s[start..]));
    buf, i := "", start;
    while i < |s|
      invariant start <= i <= |s|
      invariant LexQuoted(s[start..]) == Prefixed(buf, LexQuoted(s[i..]))
      decreases |s| - i
    {
      QuotedStep(s, i);
      if s[i] == '\\' && i + 1 < |s| {
        PrefixedConsed(buf, s[i + 1], LexQuoted(s[i + 2..]));
        buf := buf + [s[i + 1]];
        i := i + 2;
      } else if s[i] == '"' {
        PrefixedEmpty(buf, s[i + 1..]);
        i := i + 1;
        return;
      } else {
        PrefixedConsed(buf, s[i], LexQuoted(s[i + 1..]));
        buf := buf + [s[i]];
        i := i + 1;
      }
    }
    QuotedEnd(s);
    PrefixedEmpty(buf, s[i..]);
  }

  lemma QuotedEnd(s: string)
    ensures LexQuoted(s[|s|..]) == Lexed("", s[|s|..])
  {
  }

  lemma PrefixedNone(l: Lexed)
    ensures Prefixed("", l) == l
  {
  }

  lemma PrefixedEmpty(buf: string, rest: string)
    ensures Prefixed(buf, Lexed("", rest)) == Lexed(buf, rest)
  {
  }

  function Deeper(c: char, depth: int): int {
    if c == '(' then depth + 1 else if c == ')' then depth - 1 else depth
  }

  lemma ParenStep(s: string, i: nat, depth: int)
    requires i < |s|
    ensures LexParen(s[i..], depth) ==
            if s[i] == ')' && depth == 1 then Consed(s[i], Lexed("", s[i + 1..]))
            else Consed(s[i], LexParen(s[i + 1..], Deeper(s[i], depth)))
  {
    assert s[i..][1..] == s[i + 1..];
  }

  lemma ParenEnd(s: string, depth: int)
    ensures LexParen(s[|s|..], depth) == Lexed("", s[|s|..])
  {
  }

  method ReadParen(s: string, start: nat) returns (buf: string, i: nat)
    requires start < |s|
    ensures i <= |s| && Lexed(buf, s[i..]) == LexParen(s[start..], 0)
  {
    hide LexParen, Prefixed, Consed;
    var depth := 0;
    buf, i := "", start;
    PrefixedNone(LexParen(s[start..], 0));
    while i < |s|
      invariant start <= i <= |s|
      invariant LexParen(s[start..], 0) == Prefixed(buf, LexParen(s[i..], depth))
    {
      ParenStep(s, i, depth);
      var ch := s[i];
      PrefixedConsed(buf, ch, LexParen(s[i + 1..], Deeper(ch, depth)));
      PrefixedConsed(buf, ch, Lexed("", s[i + 1..]));
      buf := buf + [ch];
      if ch == '(' {
        depth := depth + 1;
      } else if ch == ')' {
        depth := depth - 1;
        if depth == 0 {
          PrefixedEmpty(buf, s[i + 1..]);
          i := i + 1;
          return;
        }
      }
      i := i + 1;
    }
    ParenEnd(s, depth);
    PrefixedEmpty(buf, s[i..]);
  }

  method ReadBrace(s: string, start: nat) returns (buf: string, i: nat)
    requires start < |s| && s[start] == '{'
    ensures i <= |s| && Lexed(buf, s[i..]) == Consed('{', LexBrace(s[start + 1..]))
  {
    buf, i := "{", start + 1;
    while i < |s| && s[i] != '}'
      invariant start < i <= |s|
      invariant Consed('{', LexBrace(s[start + 1..])) == Lexed(buf + LexBrace(s[i..]).token, LexBrace(s[i..]).rest)
    {
      assert s[i..][1..] == s[i + 1..];
      buf := buf + [s[i]];
      i := i + 1;
    }
    if i < |s| {
      assert s[i..][1..] == s[i + 1..];
      buf := buf + "}";
      i := i + 1;
    }
  }

  lemma AtomStep(s: string, i: nat)
    requires i < |s| && s[i] != ' '
    ensures LexAtom(s[i..]) ==
            if s[i] == '[' then
              Consed('[', Prefixed(LexBracket(s[i + 1..], 1).token, LexAtom(LexBracket(s[i + 1..], 1).rest)))
            else Consed(s[i], LexAtom(s[i + 1..]))
  {
    hide LexBracket;
    assert s[i..][1..] == s[i + 1..];
    if s[i] == '[' {
      var b := LexBracket(s[i + 1..], 1);
      var l := LexAtom(b.rest);
      assert ['['] + b.token + l.token == ['['] + (b.token + l.token);
    }
  }

  lemma BracketStep(s: string, i: nat, depth: nat)
    requires i < |s| && depth > 0
    ensures LexBracket(s[i..], depth) ==
            Consed(s[i], LexBracket(s[i + 1..], if s[i] == '[' then depth + 1 else if s[i] == ']' then depth - 1 else depth))
  {
    assert s[i..][1..] == s[i + 1..];
  }

  /** The inner loop of an atom: everything up to the matching bracket. */
  method ReadBracket(s: string, start: nat) returns (buf: string, i: nat)
    requires start <= |s|
    ensures i <= |s| && Lexed(buf, s[i..]) == LexBracket(s[start..], 1)
  {
    var depth := 1;
    buf, i := "", start;
    while i < |s| && depth > 0
      invariant start <= i <= |s| && depth >= 0
      invariant LexBracket(s[start..], 1) == Prefixed(buf, LexBracket(s[i..], depth))
      decreases |s| - i
    {
      hide LexBracket, Prefixed, Consed;
      BracketStep(s, i, depth);
      ghost var d := if s[i] == '[' then depth + 1 else if s[i] == ']' then depth - 1 else depth;
      PrefixedConsed(buf, s[i], LexBracket(s[i + 1..], d));
      buf := buf + [s[i]];
      if s[i] == '[' {
        depth := depth + 1;
      } else if s[i] == ']' {
        depth := depth - 1;
      }
      i := i + 1;
    }
  }

  lemma PrefixedPrefixed(a: string, c: char, b: string, l: Lexed)
    ensures Prefixed(a, Consed(c, Prefixed(b, l))) == Prefixed(a + [c] + b, l)
  {
    assert a + ([c] + (b + l.token)) == (a + [c] + b) + l.token;
  }

  method ReadAtom(s: string, start: nat) returns (buf: string, i: nat)
    requires start <= |s|
    ensures i <= |s| && Lexed(buf, s[i..]) == LexAtom(s[start..])
  {
    hide LexAtom, LexBracket, Prefixed, Consed;
    buf, i := "", start;
    PrefixedNone(LexAtom(s[start..]));
    while i < |s| && s[i] != ' '
      invariant start <= i <= |s|
      invariant LexAtom(s[start..]) == Prefixed(buf, LexAtom(s[i..]))
      decreases |s| - i
    {
      AtomStep(s, i);
      if s[i] == '[' {
        ghost var from := i + 1;
        var inner: string;
        inner, i := ReadBracket(s, i + 1);
        LexRestShorter(s, from, i, inner);
        PrefixedPrefixed(buf, '[', inner, LexAtom(s[i..]));
        buf := buf + "[" + inner;
      } else {
        PrefixedConsed(buf, s[i], LexAtom(s[i + 1..]));
        buf := buf + [s[i]];
        i := i + 1;
      }
    }
    AtomEnd(s, i);
    PrefixedEmpty(buf, s[i..]);
  }

  lemma AtomEnd(s: string, i: nat)
    requires i <= |s| && (i < |s| ==> s[i] == ' ')
    ensures LexAtom(s[i..]) == Lexed("", s[i..])
  {
  }

  lemma LexRestShorter(s: string, start: nat, i: nat, buf: string)
    requires start <= |s| && i <= |s| && Lexed(buf, s[i..]) == LexBracket(s[start..], 1)
    ensures start <= i
  {
    hide LexBracket;
    assert |s[i..]| <= |s[start..]|;
  }

  /** Dispatch on the first character of a token. */
  method ReadToken(s: string, start: nat) returns (buf: string, i: nat)
    requires start < |s| && s[start] != ' '
    ensures start < i <= |s| && Lexed(buf, s[i..]) == LexToken(s[start..])
  {
    hide LexQuoted, LexParen, LexBrace, LexAtom, Consed;
    assert s[start..][1..] == s[start + 1..];
    if s[start] == '"' {
      buf, i := ReadQuoted(s, start + 1);
    } else if s[start] == '(' {
      buf, i := ReadParen(s, start);
    } else if s[start] == '{' {
      buf, i := ReadBrace(s, start);
    } else {
      buf, i := ReadAtom(s, start);
    }
    assert Lexed(buf, s[i..]) == LexToken(s[start..]);
    assert |s[i..]| < |s[start..]|;
  }

  lemma TokenizeStep(s: string, i: nat)
    requires i < |s|
    ensures Tokenize(s[i..]) ==
            if s[i] == ' ' then Tokenize(s[i + 1..])
            else [LexToken(s[i..]).token] + Tokenize(LexToken(s[i..]).rest)
  {
    hide LexToken;
    assert s[i..][1..] == s[i + 1..];
  }

  /** _tokenize_args: terminates on every input. */
  method TokenizeArgs(s: string) returns (tokens: seq<string>)
    ensures tokens == Tokenize(s)
  {
    tokens := [];
    var i := 0;
    while i < |s|
      invariant 0 <= i <= |s|
      invariant Tokenize(s) == tokens + Tokenize(s[i..])
      decreases |s| - i
    {
      hide Tokenize, LexToken;
      TokenizeStep(s, i);
      if s[i] == ' ' {
        i := i + 1;
      } else {
        var buf: string;
        ghost var tail := Tokenize(LexToken(s[i..]).rest);
        ghost var before := tokens;
        buf, i := ReadToken(s, i);
        tokens := tokens + [buf];
        assert before + ([buf] + tail) == tokens + tail;
      }
    }
  }

  // ----- the line -----

  function DropSpaces(s: string): string {
    if s != "" && s[0] == ' ' then DropSpaces(s[1..]) else s
  }

  function DropToken(s: string): string {
    if s != "" && s[0] != ' ' then DropToken(s[1..]) else s
  }

  /** What follows the first n space-delimited tokens. */
  function AfterTokens(line: string, n: nat): string
    decreases n
  {
    if n == 0 || line == "" then DropSpaces(line) else AfterTokens(DropToken(DropSpaces(line)), n - 1)
  }

  method SkipNTokens(line: string, n: nat) returns (rest: string)
    ensures rest == AfterTokens(line, n)
  {
    var i, count := 0, 0;
    while count < n && i < |line|
      invariant 0 <= i <= |line| && 0 <= count <= n
      invariant AfterTokens(line[i..], n - count) == AfterTokens(line, n)
    {
      ghost var from := i;
      while i < |line| && line[i] == ' '
        invariant from <= i <= |line|
        invariant DropSpaces(line[i..]) == DropSpaces(line[from..])
      {
        assert line[i..][1..] == line[i + 1..];
        i := i + 1;
      }
      ghost var token := i;
      while i < |line| && line[i] != ' '
        invariant token <= i <= |line|
        invariant DropToken(line[i..]) == DropToken(line[token..])
      {
        assert line[i..][1..] == line[i + 1..];
        i := i + 1;
      }
      count := count + 1;
    }
    ghost var from := i;
    while i < |line| && line[i] == ' '
      invariant from <= i <= |line|
      invariant DropSpaces(line[i..]) == DropSpaces(line[from..])
    {
      assert line[i..][1..] == line[i + 1..];
      i := i + 1;
    }
    rest := line[i..];
  }

  function WordLength(s: string): (n: nat)
    ensures n <= |s| && (s != "" && !IsSpace(s[0]) ==> n > 0)
  {
    if s == "" || IsSpace(s[0]) then 0 else 1 + WordLength(s[1..])
  }

  lemma {:induction false} TrimLeftShorter(s: string)
    ensures |TrimLeft(s)| <= |s|
    ensures TrimLeft(s) != "" ==> !IsSpace(TrimLeft(s)[0])
  {
    if s != "" && IsSpace(s[0]) {
      TrimLeftShorter(s[1..]);
    }
  }

  /** str.split(). */
  function Words(s: string): seq<string>
    decreases |s|
  {
    TrimLeftShorter(s);
    var t := TrimLeft(s);
    if t == "" then [] else var n := WordLength(t); [t[..n]] + Words(t[n..])
  }

  /** {N} or ~{N}. */
  predicate SyncLiteral(token: string) {
    var t := if token != "" && token[0] == '~' then token[1..] else token;
    |t| >= 3 && t[0] == '{' && t[|t| - 1] == '}' && AllDigits(t[1..|t| - 1])
  }

  /** parse_line; None when the line waits for a literal. */
  function ParseLine(line: string): Option<ParsedCommand> {
    var tokens := Words(line);
    if |tokens| < 2 then Some(ParsedCommand(Trim(line), "", false, []))
    else
      var uid := |tokens| >= 3 && Upper(tokens[1]) == "UID";
      var args := Tokenize(AfterTokens(line, if uid then 3 else 2));
      if args != [] && SyncLiteral(args[|args| - 1]) then None
      else Some(ParsedCommand(tokens[0], Upper(tokens[if uid then 2 else 1]), uid, args))
  }

  method ParseCommandLine(line: string) returns (r: Option<ParsedCommand>)
    ensures r == ParseLine(line)
  {
    var tokens := Words(line);
    if |tokens| < 2 {
      return Some(ParsedCommand(Trim(line), "", false, []));
    }
    var uid, command, rest := false, Upper(tokens[1]), "";
    if |tokens| >= 3 && Upper(tokens[1]) == "UID" {
      uid, command := true, Upper(tokens[2]);
      rest := SkipNTokens(line, 3);
    } else {
      rest := SkipNTokens(line, 2);
    }
    var args := TokenizeArgs(rest);
    if args != [] && SyncLiteral(args[|args| - 1]) {
      return None;
    }
    r := Some(ParsedCommand(tokens[0], command, uid, args));
  }

  // ----- quoting -----

  /** The quoted-string escapes of section 4.3 of RFC 3501. */
  function Escape(name: string): string {
    if name == "" then ""
    else (if name[0] == '"' || name[0] == '\\' then ['\\', name[0]] else [name[0]]) + Escape(name[1..])
  }

  function Quote(name: string): string {
    ['"'] + Escape(name) + ['"']
  }

  function QuoteAll(names: seq<string>): (r: seq<string>)
    ensures |r| == |names| && forall i :: 0 <= i < |r| ==> r[i] == Quote(names[i])
  {
    seq(|names|, i requires 0 <= i < |names| => Quote(names[i]))
  }

  lemma EscapeOne(name: string)
    requires name != ""
    ensures Escape(name) == (if name[0] == '"' || name[0] == '\\' then ['\\', name[0]] else [name[0]]) + Escape(name[1..])
  {
  }

  lemma EscapedStep(name: string, after: string)
    requires name != ""
    ensures LexQuoted(Escape(name) + ['"'] + after) == Consed(name[0], LexQuoted(Escape(name[1..]) + ['"'] + after))
  {
    hide LexQuoted, Escape;
    var s := Escape(name) + ['"'] + after;
    EscapeOne(name);
    assert s[0..] == s;
    QuotedStep(s, 0);
    if name[0] == '"' || name[0] == '\\' {
      assert s[2..] == Escape(name[1..]) + ['"'] + after;
    } else {
      assert s[1..] == Escape(name[1..]) + ['"'] + after;
    }
  }

  lemma {:induction false} LexEscaped(name: string, after: string)
    ensures LexQuoted(Escape(name) + ['"'] + after) == Lexed(name, after)
  {
    var s := Escape(name) + ['"'] + after;
    if name == "" {
      assert s[0] == '"' && s[1..] == after;
    } else {
      var tail := Escape(name[1..]) + ['"'] + after;
      LexEscaped(name[1..], after);
      EscapedStep(name, after);
      assert [name[0]] + name[1..] == name;
    }
  }

  /** Reading back any quoted list gives the list. */
  lemma {:induction false} TokenizeQuoted(names: seq<string>)
    ensures Tokenize(Join(QuoteAll(names), ' ')) == names
  {
    hide LexQuoted, LexParen, LexBrace, LexAtom;
    if names == [] {
    } else {
      var s := Join(QuoteAll(names), ' ');
      if |names| == 1 {
        assert s[1..] == Escape(names[0]) + ['"'] + "";
        LexEscaped(names[0], "");
      } else {
        var rest := Join(QuoteAll(names[1..]), ' ');
        assert QuoteAll(names)[1..] == QuoteAll(names[1..]);
        assert s[1..] == Escape(names[0]) + ['"'] + ([' '] + rest);
        LexEscaped(names[0], [' '] + rest);
        assert ([' '] + rest)[1..] == rest;
        TokenizeQuoted(names[1..]);
      }
    }
  }

  // ----- a whole quoted command -----

  /** A word: no whitespace in it. */
  predicate Clean(w: string) {
    w != "" && forall j :: 0 <= j < |w| ==> !IsSpace(w[j])
  }

  /** A word that is one atom: what a tag or a uid_set looks like. */
  predicate AtomWord(w: string) {
    w != "" && forall i :: 0 <= i < |w| ==> !IsSpace(w[i]) && w[i] !in {'"', '(', '{', '['}
  }

  lemma {:induction false} WordLengthAt(w: string, rest: string)
    requires forall i :: 0 <= i < |w| ==> !IsSpace(w[i])
    ensures WordLength(w + [' '] + rest) == |w|
  {
    if w == "" {
    } else {
      assert (w + [' '] + rest)[1..] == w[1..] + [' '] + rest;
      WordLengthAt(w[1..], rest);
    }
  }

  lemma WordsFirst(w: string, rest: string)
    requires Clean(w)
    ensures Words(w + [' '] + rest) == [w] + Words(rest)
  {
    var s := w + [' '] + rest;
    WordLengthAt(w, rest);
    assert s[..|w|] == w && s[|w|..] == [' '] + rest;
    assert ([' '] + rest)[1..] == rest;
    assert TrimLeft(s) == s;
    assert TrimLeft([' '] + rest) == TrimLeft(rest);
  }

  lemma {:induction false} DropTokenAt(w: string, rest: string)
    requires forall i :: 0 <= i < |w| ==> !IsSpace(w[i])
    ensures DropToken(w + [' '] + rest) == [' '] + rest
  {
    if w == "" {
      assert w + [' '] + rest == [' '] + rest;
    } else {
      assert (w + [' '] + rest)[1..] == w[1..] + [' '] + rest;
      DropTokenAt(w[1..], rest);
    }
  }

  lemma AfterTokensFirst(w: string, rest: string, n: nat)
    requires Clean(w)
    ensures AfterTokens(w + [' '] + rest, n + 1) == AfterTokens(rest, n)
  {
    DropTokenAt(w, rest);
    assert DropSpaces(w + [' '] + rest) == w + [' '] + rest;
    LeadingSpace(rest, n);
  }

  lemma LeadingSpace(rest: string, n: nat)
    ensures AfterTokens([' '] + rest, n) == AfterTokens(rest, n)
  {
    assert ([' '] + rest)[1..] == rest;
    assert DropSpaces([' '] + rest) == DropSpaces(rest);
    if n > 0 && rest == "" {
      assert DropToken(DropSpaces([' '] + rest)) == "";
      assert AfterTokens("", n - 1) == "";
    }
  }

  lemma {:induction false} LexAtomAt(w: string, rest: string)
    requires forall i :: 0 <= i < |w| ==> !IsSpace(w[i]) && w[i] != '['
    ensures LexAtom(w + [' '] + rest) == Lexed(w, [' '] + rest)
  {
    if w == "" {
      assert w + [' '] + rest == [' '] + rest;
    } else {
      assert (w + [' '] + rest)[1..] == w[1..] + [' '] + rest;
      LexAtomAt(w[1..], rest);
    }
  }

  lemma AtomThenQuoted(w: string, name: string)
    requires AtomWord(w)
    ensures Tokenize(w + [' '] + Quote(name)) == [w, name]
  {
    hide LexQuoted, LexParen, LexBrace, LexAtom;
    LexAtomAt(w, Quote(name));
    assert ([' '] + Quote(name))[1..] == Quote(name);
    TokenizeQuoted([name]);
    assert QuoteAll([name]) == [Quote(name)];
  }

  /** tag UID VERB set "name" */
  function UidCommand(tag: string, verb: string, uidSet: string, name: string): string {
    tag + [' '] + ("UID" + [' '] + (verb + [' '] + (uidSet + [' '] + Quote(name))))
  }

  /** A quoted destination reaches the parser whole, unless it looks like a literal marker. */
  lemma ParseUidCommand(tag: string, verb: string, uidSet: string, name: string)
    requires AtomWord(tag) && AtomWord(verb) && AtomWord(uidSet)
    ensures ParseLine(UidCommand(tag, verb, uidSet, name)) ==
            if SyncLiteral(name) then None else Some(ParsedCommand(tag, Upper(verb), true, [uidSet, name]))
  {
    hide Tokenize, Words, AfterTokens, Quote, Upper;
    var args := uidSet + [' '] + Quote(name);
    var three := verb + [' '] + args;
    var two := "UID" + [' '] + three;
    WordsFirst(tag, two);
    WordsFirst("UID", three);
    WordsFirst(verb, args);
    AfterTokensFirst(tag, two, 2);
    AfterTokensFirst("UID", three, 1);
    AfterTokensFirst(verb, args, 0);
    UpperUid();
    NoLeadingSpace(args);
    AtomThenQuoted(uidSet, name);
    assert Words(UidCommand(tag, verb, uidSet, name)) == [tag] + ["UID"] + [verb] + Words(args);
  }

  lemma UpperUid()
    ensures Upper("UID") == "UID"
  {
  }

  lemma NoLeadingSpace(s: string)
    requires s != "" && s[0] != ' '
    ensures AfterTokens(s, 0) == s
  {
  }

  // ----- splitting at whitespace -----

  /** What str.split() yields: words without whitespace. */
  lemma {:induction false} WordsClean(s: string)
    ensures forall i :: 0 <= i < |Words(s)| ==> Clean(Words(s)[i])
    decreases |s|
  {
    TrimLeftShorter(s);
    var t := TrimLeft(s);
    if t == "" {
    } else {
      WordClean(t);
      WordsClean(t[WordLength(t)..]);
    }
  }

  lemma {:induction false} WordClean(s: string)
    ensures forall j :: 0 <= j < WordLength(s) ==> !IsSpace(s[j])
  {
    if s != "" && !IsSpace(s[0]) {
      WordClean(s[1..]);
      assert forall j :: 1 <= j < WordLength(s) ==> s[j] == s[1..][j - 1];
    }
  }

  lemma {:induction false} WordLengthAll(w: string)
    requires forall j :: 0 <= j < |w| ==> !IsSpace(w[j])
    ensures WordLength(w) == |w|
  {
    if w == "" {
    } else {
      WordLengthAll(w[1..]);
    }
  }

  /** Splitting a joined flag list gives the list. */
  lemma {:induction false} WordsOfJoin(ws: seq<string>)
    requires forall i :: 0 <= i < |ws| ==> Clean(ws[i])
    ensures Words(Join(ws, ' ')) == ws
  {
    if ws == [] {
    } else {
      var w := ws[0];
      assert Clean(w);
      if |ws| == 1 {
        WordLengthAll(w);
        assert TrimLeft(w) == w && w[..|w|] == w && w[|w|..] == "";
      } else {
        var rest := Join(ws[1..], ' ');
        var s := w + [' '] + rest;
        WordLengthAt(w, rest);
        assert TrimLeft(s) == s && s[..|w|] == w && s[|w|..] == [' '] + rest;
        assert ([' '] + rest)[1..] == rest;
        assert TrimLeft([' '] + rest) == TrimLeft(rest);
        assert Words([' '] + rest) == Words(rest);
        WordsOfJoin(ws[1..]);
      }
    }
  }

  lemma {:induction false} WordsLack(s: string, c: char)
    requires c !in s
    ensures forall i :: 0 <= i < |Words(s)| ==> c !in Words(s)[i]
    decreases |s|
  {
    TrimLeftShorter(s);
    TrimLeftPart(s);
    var t := TrimLeft(s);
    if t == "" {
    } else {
      WordsLack(t[WordLength(t)..], c);
    }
  }

  lemma {:induction false} TrimLeftPart(s: string)
    ensures forall c :: c in TrimLeft(s) ==> c in s
  {
    if s != "" && IsSpace(s[0]) {
      TrimLeftPart(s[1..]);
    }
  }

  /** A list of plain words reads back as itself. */
  lemma {:induction false} TokenizeAtoms(ws: seq<string>)
    requires forall i :: 0 <= i < |ws| ==> AtomWord(ws[i])
    ensures Tokenize(Join(ws, ' ')) == ws
  {
    hide LexQuoted, LexParen, LexBrace, LexAtom;
    if ws == [] {
    } else {
      var w := ws[0];
      assert AtomWord(w);
      if |ws| == 1 {
        LexAtomWhole(w);
        assert Tokenize("") == [];
        assert ws == [w];
      } else {
        var rest := Join(ws[1..], ' ');
        LexAtomAt(w, rest);
        assert ([' '] + rest)[1..] == rest;
        TokenizeAtoms(ws[1..]);
        assert ws == [w] + ws[1..];
      }
    }
  }

  lemma {:induction false} LexAtomWhole(w: string)
    requires forall i :: 0 <= i < |w| ==> !IsSpace(w[i]) && w[i] != '['
    ensures LexAtom(w) == Lexed(w, "")
  {
    if w == "" {
    } else {
      LexAtomWhole(w[1..]);
      assert [w[0]] + w[1..] == w;
    }
  }

  // ----- where a literal marker is seen -----

  datatype Mode = Between | InQuote | Escaped | InParen(depth: int) | InBrace | InAtom | InBracket(level: nat)

  /** The tokenizer one character at a time: finished tokens, and the one being read. */
  datatype Scan = Scan(done: seq<string>, mode: Mode, partial: string)

  function ScanStep(sc: Scan, c: char): Scan {
    match sc.mode
    case Between =>
      if c == ' ' then sc
      else if c == '"' then sc.(mode := InQuote)
      else if c == '(' then sc.(mode := InParen(1), partial := [c])
      else if c == '{' then sc.(mode := InBrace, partial := [c])
      else if c == '[' then sc.(mode := InBracket(1), partial := [c])
      else sc.(mode := InAtom, partial := [c])
    case InQuote =>
      if c == '\\' then sc.(mode := Escaped)
      else if c == '"' then Scan(sc.done + [sc.partial], Between, "")
      else sc.(partial := sc.partial + [c])
    case Escaped => sc.(mode := InQuote, partial := sc.partial + [c])
    case InParen(d) =>
      if c == ')' && d == 1 then Scan(sc.done + [sc.partial + [c]], Between, "")
      else sc.(mode := InParen(Deeper(c, d)), partial := sc.partial + [c])
    case InBrace =>
      if c == '}' then Scan(sc.done + [sc.partial + [c]], Between, "") else sc.(partial := sc.partial + [c])
    case InAtom =>
      if c == ' ' then Scan(sc.done + [sc.partial], Between, "")
      else sc.(mode := if c == '[' then InBracket(1) else InAtom, partial := sc.partial + [c])
    case InBracket(d) =>
      var e := if c == '[' then d + 1 else if c == ']' && d > 0 then d - 1 else d;
      sc.(mode := if e == 0 then InAtom else InBracket(e), partial := sc.partial + [c])
  }

  function ScanFrom(sc: Scan, s: string): Scan
    decreases |s|
  {
    if s == "" then sc else ScanFrom(ScanStep(sc, s[0]), s[1..])
  }

  predicate WellScanned(sc: Scan) {
    && (sc.mode == Between ==> sc.partial == "")
    && (sc.mode.InBracket? ==> sc.mode.level > 0)
    && (sc.mode.InParen? || sc.mode.InBrace? || sc.mode.InAtom? || sc.mode.InBracket? ==> sc.partial != "")
  }

  function Then(token: string, rest: string): seq<string> {
    [token] + Tokenize(rest)
  }

  /** The tokens still to come, from the middle of a token. */
  function Finish(mode: Mode, p: string, s: string): seq<string> {
    match mode
    case Between => Tokenize(s)
    case InQuote => Then(p + LexQuoted(s).token, LexQuoted(s).rest)
    case Escaped =>
      if s == "" then [p + ['\\']] else Then(p + [s[0]] + LexQuoted(s[1..]).token, LexQuoted(s[1..]).rest)
    case InParen(d) => Then(p + LexParen(s, d).token, LexParen(s, d).rest)
    case InBrace => Then(p + LexBrace(s).token, LexBrace(s).rest)
    case InAtom => Then(p + LexAtom(s).token, LexAtom(s).rest)
    case InBracket(d) =>
      var b := LexBracket(s, d);
      Then(p + b.token + LexAtom(b.rest).token, LexAtom(b.rest).rest)
  }

  lemma FinishStep(sc: Scan, s: string)
    requires WellScanned(sc) && s != ""
    ensures var next := ScanStep(sc, s[0]);
            WellScanned(next) && sc.done + Finish(sc.mode, sc.partial, s) == next.done + Finish(next.mode, next.partial, s[1..])
  {
    hide Tokenize, LexParen, LexQuoted, LexBrace, LexAtom, LexBracket, LexToken;
    var p, c := sc.partial, s[0];
    assert s[0..] == s;
    match sc.mode {
      case Between =>
        TokenizeStep(s, 0);
        if c != ' ' {
          BetweenStep(s);
          NothingBefore(s[1..]);
        }
      case InQuote => QuoteFinishStep(p, s);
      case Escaped =>
      case InParen(d) => ParenStep(s, 0, d); Regroup(p, c, LexParen(s[1..], Deeper(c, d)).token); Regroup(p, c, "");
      case InBrace => BraceStep(s); Regroup(p, c, LexBrace(s[1..]).token);
      case InAtom =>
        AtomFinishStep(p, s);
      case InBracket(d) => BracketFinishStep(d, p, s);
    }
  }

  lemma Regroup(p: string, c: char, t: string)
    ensures p + ([c] + t) == p + [c] + t && p + [c] + "" == p + [c]
  {
  }

  lemma NothingBefore(s: string)
    ensures Finish(InQuote, "", s) == Then(LexQuoted(s).token, LexQuoted(s).rest)
    ensures var b := LexBracket(s, 1);
            Finish(InBracket(1), "[", s) == Then(['['] + (b.token + LexAtom(b.rest).token), LexAtom(b.rest).rest)
  {
    hide LexQuoted, LexBracket, LexAtom, Tokenize;
    assert "" + LexQuoted(s).token == LexQuoted(s).token;
    var b := LexBracket(s, 1);
    assert ['['] + (b.token + LexAtom(b.rest).token) == "[" + b.token + LexAtom(b.rest).token;
  }

  lemma AtomFinishStep(p: string, s: string)
    requires s != ""
    ensures Finish(InAtom, p, s) ==
            if s[0] == ' ' then [p] + Tokenize(s[1..])
            else Finish(if s[0] == '[' then InBracket(1) else InAtom, p + [s[0]], s[1..])
  {
    hide LexBracket, LexAtom, Tokenize;
    assert s[0..] == s;
    if s[0] == ' ' {
      AtomEnd(s, 0);
      TokenizeStep(s, 0);
      assert p + "" == p;
    } else {
      AtomStep(s, 0);
      if s[0] == '[' {
        var b := LexBracket(s[1..], 1);
        Regroup(p, '[', b.token + LexAtom(b.rest).token);
        assert p + ['['] + (b.token + LexAtom(b.rest).token) == p + ['['] + b.token + LexAtom(b.rest).token;
      } else {
        Regroup(p, s[0], LexAtom(s[1..]).token);
      }
    }
  }

  lemma BracketFinishStep(d: nat, p: string, s: string)
    requires s != "" && d > 0
    ensures var e := if s[0] == '[' then d + 1 else if s[0] == ']' then d - 1 else d;
            Finish(InBracket(d), p, s) == Finish(if e == 0 then InAtom else InBracket(e), p + [s[0]], s[1..])
  {
    hide LexBracket, LexAtom, Tokenize;
    var e := if s[0] == '[' then d + 1 else if s[0] == ']' then d - 1 else d;
    assert s[0..] == s;
    BracketStep(s, 0, d);
    BracketClosed(s[1..]);
    Regroup(p, s[0], LexBracket(s[1..], e).token);
  }

  lemma QuoteFinishStep(p: string, s: string)
    requires s != ""
    ensures Finish(InQuote, p, s) ==
            if s[0] == '\\' then Finish(Escaped, p, s[1..])
            else if s[0] == '"' then Then(p, s[1..])
            else Finish(InQuote, p + [s[0]], s[1..])
  {
    hide Tokenize, LexQuoted;
    assert s[0..] == s;
    QuotedStep(s, 0);
    if s[0] == '\\' {
      if |s| == 1 {
        QuotedEnd(s[1..]);
        assert LexQuoted(s[1..]) == Lexed("", "");
        TokenizeNothing();
        Regroup(p, s[0], "");
      } else {
        assert s[1..][1..] == s[2..] && s[1..][0] == s[1];
        var t := LexQuoted(s[2..]).token;
        assert p + ([s[1]] + t) == p + [s[1]] + t;
      }
    } else if s[0] == '"' {
      assert p + "" == p;
    } else {
      var t := LexQuoted(s[1..]).token;
      assert p + ([s[0]] + t) == p + [s[0]] + t;
    }
  }

  lemma TokenizeNothing()
    ensures Tokenize("") == []
  {
  }

  lemma BracketClosed(s: string)
    ensures LexBracket(s, 0) == Lexed("", s)
  {
  }

  lemma BraceStep(s: string)
    requires s != ""
    ensures LexBrace(s) == if s[0] == '}' then Lexed("}", s[1..]) else Consed(s[0], LexBrace(s[1..]))
  {
  }

  lemma BetweenStep(s: string)
    requires s != "" && s[0] != ' '
    ensures s[0] == '"' ==> LexToken(s) == LexQuoted(s[1..])
    ensures s[0] == '(' ==> LexToken(s) == Consed('(', LexParen(s[1..], 1))
    ensures s[0] == '{' ==> LexToken(s) == Consed('{', LexBrace(s[1..]))
    ensures s[0] == '[' ==>
      LexToken(s) == Consed('[', Prefixed(LexBracket(s[1..], 1).token, LexAtom(LexBracket(s[1..], 1).rest)))
    ensures s[0] !in {'"', '(', '{', '['} ==> LexToken(s) == Consed(s[0], LexAtom(s[1..]))
  {
    hide LexQuoted, LexBrace, LexAtom, LexBracket, LexParen;
    assert s[0..] == s;
    ParenStep(s, 0, 0);
    AtomStep(s, 0);
  }

  /** Scanning forward leaves exactly the tokens that the tokenizer still has to read. */
  lemma {:induction false} ScanFinishes(sc: Scan, s: string, rest: string)
    requires WellScanned(sc)
    ensures var end := ScanFrom(sc, s);
            WellScanned(end) && sc.done + Finish(sc.mode, sc.partial, s + rest) == end.done + Finish(end.mode, end.partial, rest)
    decreases |s|
  {
    hide Finish, ScanStep, WellScanned;
    if s == "" {
      assert s + rest == rest;
    } else {
      FinishStep(sc, s + rest);
      assert (s + rest)[1..] == s[1..] + rest;
      ScanFinishes(ScanStep(sc, s[0]), s[1..], rest);
    }
  }

  /** The unfinished token at the end of a text; empty between tokens. */
  function Unfinished(s: string): string {
    ScanFrom(Scan([], Between, ""), s).partial
  }

  predicate Marker(m: string) {
    |m| >= 3 && m[0] == '{' && m[|m| - 1] == '}' && AllDigits(m[1..|m| - 1])
  }

  predicate Inert(s: string) {
    forall i :: 0 <= i < |s| ==> s[i] !in {'"', '\\', '(', ')', '[', ']', ' '}
  }

  lemma {:induction false} InertQuoted(s: string)
    requires Inert(s)
    ensures LexQuoted(s) == Lexed(s, "")
  {
    if s == "" {
    } else {
      InertQuoted(s[1..]);
      assert [s[0]] + s[1..] == s;
    }
  }

  lemma {:induction false} InertAtom(s: string)
    requires Inert(s)
    ensures LexAtom(s) == Lexed(s, "")
  {
    if s == "" {
    } else {
      InertAtom(s[1..]);
      assert [s[0]] + s[1..] == s;
    }
  }

  lemma {:induction false} InertParen(s: string, depth: int)
    requires Inert(s)
    ensures LexParen(s, depth) == Lexed(s, "")
  {
    if s == "" {
    } else {
      InertParen(s[1..], depth);
      assert [s[0]] + s[1..] == s;
    }
  }

  lemma {:induction false} InertBracket(s: string, depth: nat)
    requires Inert(s) && depth > 0
    ensures LexBracket(s, depth) == Lexed(s, "")
  {
    if s == "" {
    } else {
      InertBracket(s[1..], depth);
      assert [s[0]] + s[1..] == s;
    }
  }

  lemma {:induction false} BraceUntil(s: string)
    requires '}' !in s
    ensures LexBrace(s + ['}']) == Lexed(s + ['}'], "")
  {
    var t := s + ['}'];
    if s == "" {
    } else {
      BraceUntil(s[1..]);
      assert t[1..] == s[1..] + ['}'];
      assert [t[0]] + t[1..] == t;
    }
  }

  lemma MarkerInert(m: string)
    requires Marker(m)
    ensures m != "" && Inert(m)
    ensures |m| >= 3 && m == ['{'] + m[1..|m| - 1] + ['}'] && '}' !in m[1..|m| - 1] && '{' !in m[1..|m| - 1]
  {
    var d := m[1..|m| - 1];
    assert forall i :: 0 < i < |m| - 1 ==> m[i] == d[i - 1];
  }

  lemma MarkerAlone(m: string)
    requires Marker(m)
    ensures Tokenize(m) == [m]
  {
    hide LexBrace, LexQuoted, LexAtom, LexBracket, LexParen, Tokenize;
    MarkerInert(m);
    var d := m[1..|m| - 1];
    assert m[0..] == m && m[1..] == d + ['}'];
    TokenizeStep(m, 0);
    BetweenStep(m);
    BraceUntil(d);
    TokenizeNothing();
    assert ['{'] + m[1..] == m;
  }

  lemma FinishMarker(sc: Scan, m: string)
    requires WellScanned(sc) && Marker(m)
    ensures Finish(sc.mode, sc.partial, m) == [sc.partial + m]
  {
    hide LexQuoted, LexBrace, LexAtom, LexBracket, LexParen, Tokenize, Inert, Marker, LexToken;
    var p := sc.partial;
    MarkerInert(m);
    TokenizeNothing();
    match sc.mode {
      case Between => MarkerAlone(m); assert p + m == m;
      case InQuote => InertQuoted(m);
      case Escaped =>
        InertTail(m);
        InertQuoted(m[1..]);
        assert p + [m[0]] + m[1..] == p + m;
      case InParen(depth) => InertParen(m, depth);
      case InBrace => MarkerBrace(m);
      case InAtom => InertAtom(m);
      case InBracket(level) =>
        InertBracket(m, level);
        AtomEnd("", 0);
        assert ""[0..] == "";
        assert p + m + "" == p + m;
    }
  }

  lemma MarkerBrace(m: string)
    requires Marker(m)
    ensures LexBrace(m) == Lexed(m, "")
  {
    MarkerInert(m);
    var d := m[1..|m| - 1];
    assert m == (['{'] + d) + ['}'];
    BraceUntil(['{'] + d);
  }

  lemma InertTail(m: string)
    requires Inert(m) && m != ""
    ensures Inert(m[1..])
  {
  }

  lemma SyncLiteralSuffix(p: string, m: string)
    requires Marker(m)
    ensures SyncLiteral(p + m) <==> p == "" || p == "~"
  {
    MarkerInert(m);
    if p == "" {
      assert p + m == m;
    } else if p == "~" {
      assert (p + m)[1..] == m;
    } else {
      OtherSuffix(p, m);
    }
  }

  lemma OtherSuffix(p: string, m: string)
    requires p != "" && p != "~" && |m| >= 3 && m[0] == '{'
    ensures !SyncLiteral(p + m)
  {
    var token := p + m;
    var skip := if token[0] == '~' then 1 else 0;
    var t := token[skip..];
    var at := |p| - skip;
    assert t[at] == token[|p|] == '{';
    var inner := t[1..|t| - 1];
    assert inner[at - 1] == '{';
    assert !AllDigits(inner);
  }

  /**
   * A literal marker at the end of the arguments makes the parser wait for the literal
   * exactly when it begins a token of its own, "~" apart: inside an open list, quoted
   * string, bracket or atom the line is taken as complete.
   */
  lemma MarkerSeenIff(pre: string, m: string)
    requires Marker(m)
    ensures var args := Tokenize(pre + m);
            && args != [] && EndsWith(args[|args| - 1], m)
            && (SyncLiteral(args[|args| - 1]) <==> Unfinished(pre) == "" || Unfinished(pre) == "~")
  {
    hide Finish, SyncLiteral;
    var start := Scan([], Between, "");
    ScanFinishes(start, pre, m);
    var end := ScanFrom(start, pre);
    FinishMarker(end, m);
    assert Finish(Between, "", pre + m) == Tokenize(pre + m) by { FinishBetween(pre + m); }
    assert Tokenize(pre + m) == end.done + [end.partial + m];
    SyncLiteralSuffix(end.partial, m);
  }

  lemma FinishBetween(s: string)
    ensures Finish(Between, "", s) == Tokenize(s)
  {
  }
}
