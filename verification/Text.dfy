// Strings as the gateway handles them: joining and splitting on one
// character, and decimal numbers. Digits are ASCII digits.
module Text {
  import opened Wrappers

  predicate Lacks(s: string, c: char) {
    c !in s
  }

  /** First index of c in s, or |s| when c does not occur. */
  function IndexOf(s: string, c: char): (i: nat)
    ensures i <= |s|
    ensures i < |s| ==> s[i] == c
    ensures Lacks(s[..i], c)
  {
    if s == [] then 0 else if s[0] == c then 0 else 1 + IndexOf(s[1..], c)
  }

  lemma {:induction false} IndexOfAt(a: string, c: char, b: string)
    requires Lacks(a, c)
    ensures IndexOf(a + [c] + b, c) == |a|
  {
    if a == [] {
    } else {
      assert (a + [c] + b)[1..] == a[1..] + [c] + b;
      IndexOfAt(a[1..], c, b);
    }
  }

  function Join(parts: seq<string>, sep: char): string {
    if parts == [] then ""
    else if |parts| == 1 then parts[0]
    else parts[0] + [sep] + Join(parts[1..], sep)
  }

  /** Split on every separator; the result is never empty. */
  function Split(s: string, sep: char): (parts: seq<string>)
    ensures parts != []
    decreases |s|
  {
    var i := IndexOf(s, sep);
    if i == |s| then [s] else [s[..i]] + Split(s[i + 1..], sep)
  }

  predicate AllLack(parts: seq<string>, sep: char) {
    forall i :: 0 <= i < |parts| ==> Lacks(parts[i], sep)
  }

  lemma {:induction false} IndexOfAbsent(s: string, c: char)
    requires Lacks(s, c)
    ensures IndexOf(s, c) == |s|
  {
  }

  /** Splitting undoes joining when no part contains the separator. */
  lemma {:induction false} SplitJoin(parts: seq<string>, sep: char)
    requires parts != [] && AllLack(parts, sep)
    ensures Split(Join(parts, sep), sep) == parts
  {
    if |parts| == 1 {
      IndexOfAbsent(parts[0], sep);
    } else {
      var rest := Join(parts[1..], sep);
      IndexOfAt(parts[0], sep, rest);
      var s := parts[0] + [sep] + rest;
      assert s[..|parts[0]|] == parts[0];
      assert s[|parts[0]| + 1..] == rest;
      SplitJoin(parts[1..], sep);
    }
  }

  lemma {:induction false} JoinInjective(a: seq<string>, b: seq<string>, sep: char)
    requires a != [] && b != [] && AllLack(a, sep) && AllLack(b, sep)
    requires Join(a, sep) == Join(b, sep)
    ensures a == b
  {
    SplitJoin(a, sep);
    SplitJoin(b, sep);
  }

  /** How often a character occurs. */
  function Count(s: string, c: char): nat {
    if s == "" then 0 else (if s[0] == c then 1 else 0) + Count(s[1..], c)
  }

  lemma {:induction false} CountAppend(a: string, b: string, c: char)
    ensures Count(a + b, c) == Count(a, c) + Count(b, c)
  {
    if a == "" {
      assert a + b == b;
    } else {
      assert (a + b)[1..] == a[1..] + b;
      CountAppend(a[1..], b, c);
    }
  }

  lemma {:induction false} CountZero(s: string, c: char)
    ensures Count(s, c) == 0 <==> Lacks(s, c)
  {
    if s == "" {
    } else {
      CountZero(s[1..], c);
      assert s == [s[0]] + s[1..];
    }
  }

  /** A joined text has a separator between any two parts, and no more exactly when no part has one. */
  lemma {:induction false} CountJoin(parts: seq<string>, sep: char)
    requires parts != []
    ensures Count(Join(parts, sep), sep) >= |parts| - 1
    ensures Count(Join(parts, sep), sep) == |parts| - 1 <==> AllLack(parts, sep)
  {
    hide Count, Lacks;
    CountZero(parts[0], sep);
    if |parts| == 1 {
      assert parts == [parts[0]];
    } else {
      var rest := parts[1..];
      CountJoin(rest, sep);
      CountAppend(parts[0] + [sep], Join(rest, sep), sep);
      CountAppend(parts[0], [sep], sep);
      assert Count([sep], sep) == 1 by { CountOne(sep); }
      assert AllLack(parts, sep) <==> Lacks(parts[0], sep) && AllLack(rest, sep) by {
        assert forall i :: 0 < i < |parts| ==> parts[i] == rest[i - 1];
        assert forall i :: 0 <= i < |rest| ==> rest[i] == parts[i + 1];
      }
    }
  }

  lemma CountOne(c: char)
    ensures Count([c], c) == 1
  {
    assert [c][1..] == "";
  }

  lemma {:induction false} JoinAppend(a: seq<string>, b: seq<string>, sep: char)
    requires a != [] && b != []
    ensures Join(a + b, sep) == Join(a, sep) + [sep] + Join(b, sep)
  {
    if |a| == 1 {
      assert (a + b)[1..] == b;
    } else {
      assert (a + b)[1..] == a[1..] + b;
      JoinAppend(a[1..], b, sep);
    }
  }

  /** Words joined by spaces hold no other character than theirs. */
  lemma {:induction false} JoinLacks(ws: seq<string>, c: char)
    requires c != ' ' && forall i :: 0 <= i < |ws| ==> c !in ws[i]
    ensures c !in Join(ws, ' ')
  {
    if |ws| <= 1 {
    } else {
      JoinLacks(ws[1..], c);
    }
  }

  // ----- decimal numbers -----

  predicate IsDigit(c: char) {
    '0' <= c <= '9'
  }

  predicate AllDigits(s: string) {
    s != "" && forall i :: 0 <= i < |s| ==> IsDigit(s[i])
  }

  function DigitChar(d: nat): (c: char)
    requires d < 10
    ensures IsDigit(c)
  {
    ('0' as int + d) as char
  }

  function DigitValue(c: char): (d: nat)
    requires IsDigit(c)
    ensures d < 10
  {
    c as int - '0' as int
  }

  function ShowNat(n: nat): (s: string)
    ensures AllDigits(s)
  {
    if n < 10 then [DigitChar(n)] else ShowNat(n / 10) + [DigitChar(n % 10)]
  }

  function ReadNat(s: string): nat
    requires AllDigits(s)
  {
    var last := |s| - 1;
    if last == 0 then DigitValue(s[0]) else 10 * ReadNat(s[..last]) + DigitValue(s[last])
  }

  lemma {:induction false} ReadShow(n: nat)
    ensures ReadNat(ShowNat(n)) == n
  {
    if n >= 10 {
      var s := ShowNat(n);
      assert s[..|s| - 1] == ShowNat(n / 10);
      ReadShow(n / 10);
    }
  }

  /** Python's str(int). */
  function ShowInt(n: int): string {
    if n < 0 then "-" + ShowNat(-n) else ShowNat(n)
  }

  lemma {:induction false} ShowIntInjective(a: int, b: int)
    requires ShowInt(a) == ShowInt(b)
    ensures a == b
  {
    hide ShowNat, ReadNat;
    if a < 0 {
      assert ShowInt(a)[0] == '-';
      assert b < 0;
      assert ShowInt(a)[1..] == ShowNat(-a) && ShowInt(b)[1..] == ShowNat(-b);
      ReadShow(-a);
      ReadShow(-b);
    } else {
      assert IsDigit(ShowInt(a)[0]);
      assert b >= 0;
      ReadShow(a);
      ReadShow(b);
    }
  }

  /** How many digits end just before position end. */
  function DigitsBefore(s: string, end: nat): (n: nat)
    requires end <= |s|
    ensures n <= end && (n > 0 ==> AllDigits(s[end - n..end]))
  {
    if end == 0 || !IsDigit(s[end - 1]) then 0
    else
      var n := DigitsBefore(s, end - 1);
      assert s[end - 1 - n..end] == s[end - 1 - n..end - 1] + [s[end - 1]];
      n + 1
  }

  /** ASCII lower-casing and upper-casing of one character. */
  function LowerChar(c: char): char {
    if 'A' <= c <= 'Z' then (c as int + 32) as char else c
  }

  function UpperChar(c: char): char {
    if 'a' <= c <= 'z' then (c as int - 32) as char else c
  }

  function Lower(s: string): (r: string)
    ensures |r| == |s|
  {
    seq(|s|, i requires 0 <= i < |s| => LowerChar(s[i]))
  }

  function Upper(s: string): (r: string)
    ensures |r| == |s|
  {
    seq(|s|, i requires 0 <= i < |s| => UpperChar(s[i]))
  }

  predicate StartsWith(s: string, p: string) {
    p <= s
  }

  predicate EndsWith(s: string, p: string) {
    |p| <= |s| && s[|s| - |p|..] == p
  }

  /** Whitespace that Python's str.split() and str.strip() recognise, in ASCII. */
  predicate IsSpace(c: char) {
    c == ' ' || '\t' <= c <= '\r' || ('\U{1c}' <= c <= '\U{1f}')
  }

  function TrimLeft(s: string): string {
    if s != "" && IsSpace(s[0]) then TrimLeft(s[1..]) else s
  }

  function TrimRight(s: string): string {
    if s != "" && IsSpace(s[|s| - 1]) then TrimRight(s[..|s| - 1]) else s
  }

  function Trim(s: string): string {
    TrimRight(TrimLeft(s))
  }

  /** Text with no whitespace at either end is its own strip(). */
  lemma TrimIdentity(s: string)
    requires s == "" || (!IsSpace(s[0]) && !IsSpace(s[|s| - 1]))
    ensures Trim(s) == s
  {
  }

  /** Joining undoes splitting, for every string. */
  lemma {:induction false} JoinSplit(s: string, sep: char)
    ensures Join(Split(s, sep), sep) == s
    decreases |s|
  {
    var i := IndexOf(s, sep);
    if i < |s| {
      JoinSplit(s[i + 1..], sep);
      assert ([s[..i]] + Split(s[i + 1..], sep))[1..] == Split(s[i + 1..], sep);
    }
  }

  lemma {:induction false} SplitLacks(s: string, sep: char)
    ensures AllLack(Split(s, sep), sep)
    decreases |s|
  {
    var i := IndexOf(s, sep);
    if i < |s| {
      SplitLacks(s[i + 1..], sep);
    } else {
      assert s[..i] == s;
    }
  }

  lemma {:induction false} TrimLeftInside(s: string, c: char)
    requires c in s && !IsSpace(c)
    ensures c in TrimLeft(s)
  {
    if s != "" && IsSpace(s[0]) {
      assert s == [s[0]] + s[1..];
      TrimLeftInside(s[1..], c);
    }
  }

  lemma {:induction false} TrimRightInside(s: string, c: char)
    requires c in s && !IsSpace(c)
    ensures c in TrimRight(s)
  {
    if s != "" && IsSpace(s[|s| - 1]) {
      assert s == s[..|s| - 1] + [s[|s| - 1]];
      TrimRightInside(s[..|s| - 1], c);
    }
  }

  /** strip() removes no character other than whitespace. */
  lemma TrimInside(s: string, c: char)
    requires !IsSpace(c)
    ensures c in s ==> c in Trim(s)
  {
    if c in s {
      TrimLeftInside(s, c);
      TrimRightInside(TrimLeft(s), c);
    }
  }

  lemma {:induction false} TrimRightEdges(s: string)
    ensures TrimRight(s) <= s
    ensures TrimRight(s) != "" ==> !IsSpace(TrimRight(s)[|TrimRight(s)| - 1])
  {
    if s != "" && IsSpace(s[|s| - 1]) {
      TrimRightEdges(s[..|s| - 1]);
    }
  }

  lemma {:induction false} TrimLeftEdges(s: string)
    ensures TrimLeft(s) != "" ==> !IsSpace(TrimLeft(s)[0])
  {
    if s != "" && IsSpace(s[0]) {
      TrimLeftEdges(s[1..]);
    }
  }

  lemma TrimTwice(s: string)
    ensures Trim(Trim(s)) == Trim(s)
  {
    TrimLeftEdges(s);
    TrimRightEdges(TrimLeft(s));
    TrimIdentity(Trim(s));
  }
}
