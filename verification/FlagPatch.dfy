// The FLAGS list the pump writes, as re.sub makes it from the merged flags
// (gateway/proxy.py, the FETCH rewrite): when the text is accepted, and when
// it would cut the response line in two.
module FlagPatch {
  import opened Wrappers
  import opened Text
  import opened Flags
  import opened ResponseLine

  /** A line end inside. */
  predicate HasCrlf(s: string) {
    exists i :: 0 <= i < |s| - 1 && s[i] == '\r' && s[i + 1] == '\n'
  }

  /** What one flag of the list becomes; a lone backslash at its end meets the separator and stays. */
  function FlagText(flag: string, matched: string): Option<string>
    decreases |flag|
  {
    if flag == "" then Some("")
    else if flag[0] != '\\' then Prepend([flag[0]], FlagText(flag[1..], matched))
    else if |flag| == 1 then Some(flag)
    else match Unescape(flag[1..], matched)
      case Some(u) => Prepend(u.text, FlagText(flag[1 + u.length..], matched))
      case None => None
  }

  lemma LaterClose(t: string, c: char, rest: string)
    requires c == ' ' || c == ')'
    ensures var n, m := IndexOf(t, '>'), IndexOf(t + [c] + rest, '>');
            if n < |t| then m == n && (t + [c] + rest)[..m] == t[..n]
            else m == |t + [c] + rest| || !AllDigits((t + [c] + rest)[..m])
  {
    var s := t + [c] + rest;
    var n, m := IndexOf(t, '>'), IndexOf(s, '>');
    if n < |t| {
      assert s == t[..n] + ['>'] + (t[n + 1..] + [c] + rest);
      IndexOfAt(t[..n], '>', t[n + 1..] + [c] + rest);
    } else if m < |s| {
      assert s[..m][|t|] == c;
    }
  }

  /** No escape reaches past the flag it stands in. */
  lemma UnescapeLocal(t: string, c: char, rest: string, matched: string)
    requires t != "" && (c == ' ' || c == ')')
    ensures Unescape(t + [c] + rest, matched) == Unescape(t, matched)
  {
    hide IndexOf, ReadNat, AllDigits;
    var s := t + [c] + rest;
    assert s[0] == t[0];
    if t[0] == 'g' && |t| >= 2 {
      assert s[2..] == t[2..] + [c] + rest && s[1] == t[1];
      LaterClose(t[2..], c, rest);
    }
  }

  lemma {:induction false} ReplacedInParts(a: string, c: char, b: string, matched: string)
    requires c == ' ' || c == ')'
    ensures ReplacementText(a + [c] + b, matched) ==
            match FlagText(a, matched) case Some(x) => Prepend(x + [c], ReplacementText(b, matched)) case None => None
    decreases |a|
  {
    hide Unescape;
    var s, r := a + [c] + b, ReplacementText(b, matched);
    if a == "" {
      assert s[1..] == b && "" + [c] == [c];
    } else if a[0] != '\\' {
      assert s[1..] == a[1..] + [c] + b;
      ReplacedInParts(a[1..], c, b, matched);
      if FlagText(a[1..], matched).Some? {
        PrependLonger([a[0]], FlagText(a[1..], matched).value, c, r);
      }
    } else if |a| == 1 {
      LoneBackslash(a, c, b, matched);
    } else {
      assert s[1..] == a[1..] + [c] + b;
      UnescapeLocal(a[1..], c, b, matched);
      match Unescape(a[1..], matched) {
        case Some(u) =>
          var more := a[1 + u.length..];
          assert s[1 + u.length..] == more + [c] + b;
          ReplacedInParts(more, c, b, matched);
          if FlagText(more, matched).Some? {
            PrependLonger(u.text, FlagText(more, matched).value, c, r);
          }
        case None =>
      }
    }
  }

  lemma PrependLonger(a: string, x: string, c: char, r: Option<string>)
    ensures Prepend(a, Prepend(x + [c], r)) == Prepend((a + x) + [c], r)
  {
    PrependTwice(a, x + [c], r);
    assert a + (x + [c]) == (a + x) + [c];
  }

  lemma LoneBackslash(a: string, c: char, b: string, matched: string)
    requires a == ['\\'] && (c == ' ' || c == ')')
    ensures ReplacementText(a + [c] + b, matched) == Prepend(a + [c], ReplacementText(b, matched))
  {
    var s := a + [c] + b;
    assert s[1..] == [c] + b && s[2..] == b;
    assert Unescape([c] + b, matched) == Some(Unescaped(['\\', c], 1));
    assert ['\\', c] == a + [c];
  }

  lemma CrlfInParts(x: string, c: char, y: string)
    requires c != '\r' && c != '\n'
    ensures HasCrlf(x + [c] + y) <==> HasCrlf(x) || HasCrlf(y)
  {
    var s := x + [c] + y;
    if HasCrlf(x) {
      var i :| 0 <= i < |x| - 1 && x[i] == '\r' && x[i + 1] == '\n';
      assert s[i] == '\r' && s[i + 1] == '\n';
    }
    if HasCrlf(y) {
      var i :| 0 <= i < |y| - 1 && y[i] == '\r' && y[i + 1] == '\n';
      var k := |x| + 1 + i;
      assert s[k] == y[i] && s[k + 1] == y[i + 1];
    }
    if HasCrlf(s) {
      var i :| 0 <= i < |s| - 1 && s[i] == '\r' && s[i + 1] == '\n';
      if i < |x| {
        assert x[i] == s[i] && (i + 1 < |x| ==> x[i + 1] == s[i + 1]);
      } else {
        var k := i - |x| - 1;
        assert s[i] != c && y[k] == s[i] && y[k + 1] == s[i + 1];
      }
    }
  }

  /** The joined list is accepted when every flag is, and holds a line end when some flag's text does. */
  lemma {:induction false} JoinReplaced(list: seq<string>, matched: string)
    ensures var r := ReplacementText(Join(list, ' ') + ")", matched);
            && (r.Some? <==> forall i :: 0 <= i < |list| ==> FlagText(list[i], matched).Some?)
            && (r.Some? ==>
                  && r.value != "" && r.value[|r.value| - 1] == ')'
                  && (HasCrlf(r.value) <==> exists i :: 0 <= i < |list| && HasCrlf(FlagText(list[i], matched).value)))
    decreases |list|
  {
    hide FlagText, HasCrlf;
    if |list| == 0 {
      assert Join(list, ' ') + ")" == ")";
      NothingListed(matched);
    } else {
      var tail := if |list| == 1 then "" else Join(list[1..], ' ') + ")";
      var c := if |list| == 1 then ')' else ' ';
      assert Join(list, ' ') + ")" == list[0] + [c] + tail;
      ReplacedInParts(list[0], c, tail, matched);
      if |list| > 1 {
        JoinReplaced(list[1..], matched);
      } else {
        NothingListed(matched);
      }
      var r := ReplacementText(tail, matched);
      if FlagText(list[0], matched).Some? && r.Some? {
        CrlfInParts(FlagText(list[0], matched).value, c, r.value);
      }
      assert forall i :: 0 <= i < |list[1..]| ==> list[1..][i] == list[i + 1];
      assert forall i :: 0 < i < |list| ==> list[i] == list[1..][i - 1];
    }
  }

  lemma NothingListed(matched: string)
    ensures ReplacementText("", matched) == Some("") && ReplacementText(")", matched) == Some(")")
    ensures !HasCrlf("") && !HasCrlf(")")
  {
    assert ")"[1..] == "";
    assert ReplacementText(")", matched) == Prepend([')'], ReplacementText("", matched));
    assert [')'] + "" == ")";
  }

  /**
   * For every merged list: re.sub accepts the replacement exactly when it accepts each flag,
   * and the text it writes holds a line end exactly when some flag's text does.
   */
  lemma ListSplitsIff(flags: set<string>, matched: string)
    ensures var r := ReplacementText(FlagsText(flags), matched);
            && (r.Some? <==> forall f :: f in flags ==> FlagText(f, matched).Some?)
            && (r.Some? ==>
                  && |r.value| >= 8 && r.value[0] == 'F' && r.value[|r.value| - 1] == ')'
                  && (HasCrlf(r.value) <==> exists f :: f in flags && HasCrlf(FlagText(f, matched).value)))
  {
    hide FlagText, HasCrlf, ReplacementText, SortedFlags;
    var list := SortedFlags(flags);
    var head, body := "FLAGS (", Join(list, ' ') + ")";
    assert FlagsText(flags) == head + body;
    PlainReplacement(head, body, matched);
    JoinReplaced(list, matched);
    forall f ensures f in flags <==> exists i :: 0 <= i < |list| && list[i] == f {
      assert f in AsSet(list) <==> f in flags;
    }
    var r := ReplacementText(body, matched);
    if r.Some? {
      assert head + r.value == "FLAGS " + ['('] + r.value;
      CrlfInParts("FLAGS ", '(', r.value);
      assert !HasCrlf("FLAGS ") by { PlainHead(); }
    }
  }

  lemma PlainHead()
    ensures !HasCrlf("FLAGS ")
  {
  }

  /** Three octal digits stand for the character they number, up to 377; larger ones name a group there is not. */
  lemma OctalReads(a: char, b: char, c: char, rest: string)
    requires IsOctal(a) && IsOctal(b) && IsOctal(c)
    ensures var n := 64 * (a as int - 48) + 8 * (b as int - 48) + (c as int - 48);
            n < 256 ==> OctalText([a, b, c] + rest) == Some(Unescaped([n as char], 3))
    ensures 64 * (a as int - 48) + 8 * (b as int - 48) + (c as int - 48) >= 256 ==> OctalText([a, b, c] + rest) == None
  {
    var t := [a, b, c] + rest;
    assert t[0] == a && t[1] == b && t[2] == c;
  }
}
