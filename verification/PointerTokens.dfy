/**
 Reference tokens of RFC 6901: how a key is escaped, and what json_pointer.c's two passes of
 unescaping make of a token.
 */
module PointerTokens {

  /** RFC 6901, section 3: '~' is written "~0" and '/' is written "~1". */
  function Escaped(key: string): string {
    if key == "" then ""
    else (if key[0] == '~' then "~0" else if key[0] == '/' then "~1" else [key[0]]) + Escaped(key[1..])
  }

  /** What a token stands for, read once from left to right; a stray '~' stands for itself. */
  function Decoded(t: string): string {
    if |t| < 2 then t
    else if t[0] == '~' && t[1] == '1' then "/" + Decoded(t[2..])
    else if t[0] == '~' && t[1] == '0' then "~" + Decoded(t[2..])
    else [t[0]] + Decoded(t[1..])
  }

  /** Every "~x" replaced, leftmost first and without overlap. */
  function Replaced(s: string, x: char, repl: char): (r: string)
    ensures |r| <= |s|
  {
    if |s| < 2 then s
    else if s[0] == '~' && s[1] == x then [repl] + Replaced(s[2..], x, repl)
    else [s[0]] + Replaced(s[1..], x, repl)
  }

  /** First all "~1", then all "~0". */
  function Unescaped(t: string): string {
    Replaced(Replaced(t, '1', '/'), '0', '~')
  }

  /** The order the RFC warns about. */
  function UnescapedWrongly(t: string): string {
    Replaced(Replaced(t, '0', '~'), '1', '/')
  }

  predicate Holds(s: string, x: char) {
    exists i :: 0 <= i < |s| - 1 && s[i] == '~' && s[i + 1] == x
  }

  /** A text that begins with something else than the occurrence keeps its first character. */
  lemma ReplacedStep(c: char, s: string, x: char, repl: char)
    requires c != '~' || s == "" || s[0] != x
    ensures Replaced([c] + s, x, repl) == [c] + Replaced(s, x, repl)
  {
    assert ([c] + s)[1..] == s;
  }

  lemma ReplacedOccurrence(s: string, x: char, repl: char)
    ensures Replaced(['~', x] + s, x, repl) == [repl] + Replaced(s, x, repl)
  {
    assert (['~', x] + s)[2..] == s;
  }

  /** The first pass does not make a first character that the second pass could mistake. */
  lemma ReplacedHead(s: string)
    ensures var r := Replaced(s, '1', '/');
            s == "" <==> r == ""
    ensures s != "" ==> Replaced(s, '1', '/')[0] == if |s| > 1 && s[0] == '~' && s[1] == '1' then '/' else s[0]
  {
  }

  /** The two passes read a token as one pass does. */
  lemma {:induction false} UnescapedIsDecoded(t: string)
    ensures Unescaped(t) == Decoded(t)
  {
    if |t| >= 2 {
      if t[0] == '~' && t[1] == '1' {
        UnescapedIsDecoded(t[2..]);
        assert t == ['~', '1'] + t[2..];
        ReplacedOccurrence(t[2..], '1', '/');
        ReplacedStep('/', Replaced(t[2..], '1', '/'), '0', '~');
      } else if t[0] == '~' && t[1] == '0' {
        UnescapedIsDecoded(t[2..]);
        assert t == ['~'] + (['0'] + t[2..]) && t == ['~', '0'] + t[2..];
        ReplacedStep('~', ['0'] + t[2..], '1', '/');
        ReplacedStep('0', t[2..], '1', '/');
        assert Replaced(t, '1', '/') == ['~', '0'] + Replaced(t[2..], '1', '/');
        ReplacedOccurrence(Replaced(t[2..], '1', '/'), '0', '~');
      } else {
        UnescapedIsDecoded(t[1..]);
        assert t == [t[0]] + t[1..];
        ReplacedStep(t[0], t[1..], '1', '/');
        ReplacedHead(t[1..]);
        ReplacedStep(t[0], Replaced(t[1..], '1', '/'), '0', '~');
      }
    }
  }

  lemma {:induction false} EscapedDecodes(key: string)
    ensures Decoded(Escaped(key)) == key
  {
    if key != "" {
      EscapedDecodes(key[1..]);
      var rest := Escaped(key[1..]);
      if key[0] == '~' {
        assert Escaped(key)[2..] == rest;
      } else if key[0] == '/' {
        assert Escaped(key)[2..] == rest;
      } else {
        assert Escaped(key)[1..] == rest;
      }
    }
  }

  /** Unescaping undoes escaping. */
  lemma UnescapeEscape(key: string)
    ensures Unescaped(Escaped(key)) == key
  {
    UnescapedIsDecoded(Escaped(key));
    EscapedDecodes(key);
  }

  // ------------------------------------------------------------ the wrong order

  /** Only '/' escaped: what the wrong first pass makes of an escaped key. */
  function HalfEscaped(key: string): string {
    if key == "" then "" else (if key[0] == '/' then "~1" else [key[0]]) + HalfEscaped(key[1..])
  }

  lemma {:induction false} WrongFirstPass(key: string)
    ensures Replaced(Escaped(key), '0', '~') == HalfEscaped(key)
  {
    if key == "" {
      assert Replaced("", '0', '~') == "";
    } else {
      hide Replaced;
      WrongFirstPass(key[1..]);
      var rest := Escaped(key[1..]);
      if key[0] == '~' {
        assert Escaped(key) == ['~', '0'] + rest;
        ReplacedOccurrence(rest, '0', '~');
      } else if key[0] == '/' {
        assert Escaped(key) == ['~'] + (['1'] + rest);
        ReplacedStep('~', ['1'] + rest, '0', '~');
        ReplacedStep('1', rest, '0', '~');
      } else {
        assert Escaped(key) == [key[0]] + rest;
        ReplacedStep(key[0], rest, '0', '~');
      }
    }
  }

  lemma {:induction false} WrongSecondPass(key: string)
    ensures Replaced(HalfEscaped(key), '1', '/') == key <==> !Holds(key, '1')
  {
    if key != "" {
      hide Replaced, Holds;
      var rest := HalfEscaped(key[1..]);
      assert key == [key[0]] + key[1..];
      if |key| > 1 && key[0] == '~' && key[1] == '1' {
        var rest2 := HalfEscaped(key[1..][1..]);
        assert HalfEscaped(key) == ['~', '1'] + rest2;
        ReplacedOccurrence(rest2, '1', '/');
        HoldsHere(key, '1');
      } else {
        WrongSecondPass(key[1..]);
        HoldsTail(key, '1');
        if key[0] == '/' {
          assert HalfEscaped(key) == ['~', '1'] + rest;
          ReplacedOccurrence(rest, '1', '/');
        } else {
          assert HalfEscaped(key) == [key[0]] + rest;
          ReplacedStep(key[0], rest, '1', '/');
        }
      }
    } else {
      assert Replaced("", '1', '/') == "";
    }
  }

  lemma HoldsHere(t: string, x: char)
    requires |t| >= 2 && t[0] == '~' && t[1] == x
    ensures Holds(t, x)
  {
  }

  /** The opposite order gives back exactly the keys without "~1". */
  lemma WrongOrderExactly(key: string)
    ensures UnescapedWrongly(Escaped(key)) == key <==> !Holds(key, '1')
  {
    WrongFirstPass(key);
    WrongSecondPass(key);
  }

  /** Unescaping leaves a token alone exactly when there is nothing to unescape in it. */
  lemma {:induction false} UnescapedSame(t: string)
    ensures Unescaped(t) == t <==> !Holds(t, '0') && !Holds(t, '1')
    ensures |Decoded(t)| <= |t|
  {
    UnescapedIsDecoded(t);
    if |t| >= 2 {
      if t[0] == '~' && (t[1] == '0' || t[1] == '1') {
        UnescapedSame(t[2..]);
        assert Holds(t, t[1]);
      } else {
        UnescapedSame(t[1..]);
        UnescapedIsDecoded(t[1..]);
        assert t == [t[0]] + t[1..];
        HoldsTail(t, '0');
        HoldsTail(t, '1');
      }
    }
  }

  lemma HoldsTail(t: string, x: char)
    requires t != "" && !(|t| >= 2 && t[0] == '~' && t[1] == x)
    ensures Holds(t, x) <==> Holds(t[1..], x)
  {
    if Holds(t, x) {
      var i :| 0 <= i < |t| - 1 && t[i] == '~' && t[i + 1] == x;
      assert t[1..][i - 1] == '~' && t[1..][i - 1 + 1] == x;
    }
    if Holds(t[1..], x) {
      var i :| 0 <= i < |t[1..]| - 1 && t[1..][i] == '~' && t[1..][i + 1] == x;
      assert t[i + 1] == '~' && t[i + 1 + 1] == x;
    }
  }
}
