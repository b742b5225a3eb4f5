/**
 Concrete texts that are accepted although RFC 8259 does not have them.
 */
module GrammarExamples {
  import opened Basics
  import opened OrderedMap
  import opened JsonValue
  import opened Decimal
  import opened TokenerMachine
  import opened StringLiteral
  import RfcNumbers
  import opened JsonGrammar
  import opened GrammarScalars
  import opened GrammarTexts

  /** The parse takes `t` for `v`, and RFC 8259 does not have it. */
  predicate Beyond(k: Config, t: string, v: Json) {
    SuccessOf(ParseText(k, t)) == Some(Success(v, [NUL])) && ReadText(Rfc, t, k.maxDepth, false) == Nope
  }

  lemma BeyondIf(k: Config, t: string, v: Json)
    requires NulFree(t) && ReadText(Rfc, t, k.maxDepth, false) == Nope
    requires ReadText(ModeOf(k), t, k.maxDepth, TrailingAllowed(k)) == Got(v, "")
    ensures Beyond(k, t, v)
  {
    hide ParseText, ReadText;
    ParseIsGrammar(k, t);
    assert "" + [NUL] == [NUL];
  }

  /** A text that is one number token and nothing else. */
  lemma BeyondNumber(k: Config, t: string, v: Json)
    requires StartsNumber(t) && Token("", t) == t && !Named(ModeOf(k), "-Infinity", t) && NulFree(t)
    requires NumberOf(ModeOf(k), t) == Some(v) && !RfcNumbers.Complete(t)
    ensures Beyond(k, t, v)
  {
    hide NumberOf, Token, Named, RfcNumbers.Complete;
    assert Skip(ModeOf(k), t) == Skip(Rfc, t) == Past(t) && t[|t|..] == "";
    BeyondIf(k, t, v);
  }

  lemma TwoTaken(t: string)
    requires |t| == 2 && Takes("", t[0]) && Takes([t[0]], t[1])
    ensures Token("", t) == t
  {
    hide Takes;
    assert "" + [t[0]] == [t[0]] && t[1..][0] == t[1] && [t[0]] + [t[1]] == t && t[1..][1..] == "";
  }

  lemma ZerosBeyond()
    ensures Token("", "00") == "00" && NumberOf(Strict, "00") == Some(Int(0)) && !RfcNumbers.Complete("00")
  {
    hide NumberOf, RfcNumbers.Complete, Token;
    TwoTaken("00");
    ZerosValue();
    ZerosRefused();
  }

  lemma ZerosValue()
    ensures NumberOf(Strict, "00") == Some(Int(0))
  {
    assert "00"[..1] == "0" && "0"[..0] == "";
  }

  lemma ZerosRefused()
    ensures !RfcNumbers.Complete("00")
  {
    assert "00"[..1] == "0" && "0"[..0] == "";
  }

  lemma SignedZeroBeyond()
    ensures Token("", "-01") == "-01" && NumberOf(Strict, "-01") == Some(Int(-1)) && !RfcNumbers.Complete("-01")
  {
    hide NumberOf, RfcNumbers.Complete;
    assert "-01"[1..] == "01" && "01"[1..] == "1" && "1"[1..] == "";
    assert "" + ['-'] == "-" && "-" + ['0'] == "-0" && "-0" + ['1'] == "-01";
    SignedZeroValue();
    SignedZeroRefused();
  }

  lemma SignedZeroValue()
    ensures NumberOf(Strict, "-01") == Some(Int(-1))
  {
    assert "-01"[..2] == "-0" && "-0"[..1] == "-" && "-"[..0] == "" && "-01"[1..] == "01" && "01"[..1] == "0";
    assert WideReach("-0") == RfcNumbers.Whole && Value("0") == 0 && Value("01") == 1;
  }

  lemma SignedZeroRefused()
    ensures !RfcNumbers.Complete("-01")
  {
    assert "-01"[..2] == "-0" && "-0"[..1] == "-" && "-"[..0] == "";
    assert RfcNumbers.Reach("-0") == RfcNumbers.Zero && RfcNumbers.Reach("-01") == RfcNumbers.Bad;
  }

  lemma PointBeyond()
    ensures Token("", "1.") == "1." && NumberOf(Strict, "1.") == Some(Double("1.")) && !RfcNumbers.Complete("1.")
  {
    hide Token;
    TwoTaken("1.");
    assert "1."[..1] == "1" && "1"[..0] == "";
  }

  lemma NaNBeyond(mode: Mode, depth: nat, trailing: bool)
    requires mode != Rfc
    ensures ReadText(mode, "NaN", depth, trailing) == Got(Double("NaN"), "")
    ensures ReadText(Rfc, "NaN", depth, false) == Nope
  {
    assert "NaN"[3..] == "";
  }

  lemma InfinityBeyond(mode: Mode, depth: nat, trailing: bool)
    requires mode != Rfc
    ensures ReadText(mode, "-Infinity", depth, trailing) == Got(Double("-Infinity"), "")
    ensures ReadText(Rfc, "-Infinity", depth, false) == Nope
  {
    hide ReadLiteral, ReadQuoted, ReadElements, ReadMembers, Token;
    assert Named(mode, "-Infinity", "-Infinity");
    LoneMinus(mode, "-Infinity");
    assert "-Infinity"[9..] == "";
  }

  lemma LetterInside(mode: Mode, s: string, c: char, q: char)
    requires |s| >= 2 && s[0] == c && s[1] == q && c != q && c != '\\' && mode != Rfc
    ensures ReadString(mode, q, s) == Got([Raw(c)], s[2..])
  {
    assert s[1..][1..] == s[2..];
    assert ItemText(Raw(c)) == [c] && [Raw(c)] + [] == [Raw(c)];
  }

  lemma TabBeyond(mode: Mode, depth: nat, trailing: bool)
    requires mode != Rfc
    ensures ReadText(mode, "\"\t\"", depth, trailing) == Got(Str("\t"), "")
    ensures ReadText(Rfc, "\"\t\"", depth, false) == Nope
  {
    hide UnitEffect, SimpleEscape, ReadLiteral, ReadNumber, ReadElements, ReadMembers, ReadString;
    var s, t := "\"\t\"", "\t\"";
    assert s[1..] == t && t[2..] == "";
    LetterInside(mode, t, '\t', '"');
    TabRefused(t);
    assert Meaning('"', 0, [Raw('\t')]) == "\t";
  }

  lemma TabRefused(t: string)
    requires t != "" && t[0] == '\t'
    ensures ReadString(Rfc, '"', t) == Nope
  {
  }

  lemma NameRead(mode: Mode)
    requires mode != Rfc
    ensures ReadKey(mode, "'a':0}") == Got("a", "0}") && ReadKey(Rfc, "'a':0}") == Nope
  {
    hide ReadName;
    assert ":0}"[1..] == "0}";
    NameOnly(mode);
  }

  lemma NameOnly(mode: Mode)
    requires mode != Rfc
    ensures ReadName(mode, "'a':0}") == Got("a", ":0}") && ReadName(Rfc, "'a':0}") == Nope
  {
    hide ReadString, UnitEffect, SimpleEscape;
    var u := "'a':0}";
    assert u[1..] == "a':0}" && u[1..][2..] == ":0}";
    LetterInside(mode, u[1..], 'a', '\'');
    assert Meaning('\'', 0, [Raw('a')]) == "a";
  }

  lemma ZeroRead(mode: Mode, t: string, room: int)
    requires mode != Rfc && t != "" && t[0] == '0' && (|t| > 1 ==> !Takes("0", t[1])) && NulFree(t)
    ensures ReadValue(mode, t, room) == Got(Int(0), t[1..])
  {
    hide NumberOf;
    ZeroOf(mode);
    assert "" + ['0'] == "0" && (|t| > 1 ==> t[1..][0] == t[1]);
    assert Token("", t) == "0";
    assert !Named(mode, "-Infinity", t) by {
      FirstLetter(mode, "-Infinity", t);
    }
  }

  lemma ZeroOf(mode: Mode)
    ensures NumberOf(mode, "0") == Some(Int(0))
  {
    assert "0"[..0] == "";
  }

  lemma MembersRead(mode: Mode, room: int)
    requires mode != Rfc && room >= 1
    ensures ReadMembers(mode, "'a':0}", room, []) == Got(Obj([Pair("a", Int(0))]), "")
    ensures ReadMembers(Rfc, "'a':0}", room, []) == Nope
  {
    hide ReadKey, ReadValue;
    NameRead(mode);
    ZeroRead(mode, "0}", room - 1);
    assert Put([], "a", Int(0)) == [Pair("a", Int(0))] && "0}"[1..] == "}" && "}"[1..] == "";
  }

  lemma NameBeyond(mode: Mode, depth: nat, trailing: bool)
    requires mode != Rfc && depth >= 2
    ensures ReadText(mode, "{'a':0}", depth, trailing) == Got(Obj([Pair("a", Int(0))]), "")
    ensures ReadText(Rfc, "{'a':0}", depth, false) == Nope
  {
    hide ReadNumber, ReadQuoted, ReadLiteral, ReadElements, ReadMembers;
    var s := "{'a':0}";
    assert s[1..] == "'a':0}";
    MembersRead(mode, depth - 1);
  }

  /** What even strict parsing accepts: zeros, points without digits, no numbers, raw tabs, quoted names. */
  lemma StrictIsWider(k: Config)
    requires k.strict && k.maxDepth >= 2
    ensures Beyond(k, "00", Int(0)) && Beyond(k, "-01", Int(-1)) && Beyond(k, "1.", Double("1."))
    ensures Beyond(k, "NaN", Double("NaN")) && Beyond(k, "-Infinity", Double("-Infinity"))
    ensures Beyond(k, "\"\t\"", Str("\t")) && Beyond(k, "{'a':0}", Obj([Pair("a", Int(0))]))
  {
    hide ParseText, ReadText, NumberOf, Token, RfcNumbers.Complete;
    ZerosBeyond();
    SignedZeroBeyond();
    PointBeyond();
    BeyondNumber(k, "00", Int(0));
    BeyondNumber(k, "-01", Int(-1));
    BeyondNumber(k, "1.", Double("1."));
    NaNBeyond(Strict, k.maxDepth, TrailingAllowed(k));
    InfinityBeyond(Strict, k.maxDepth, TrailingAllowed(k));
    TabBeyond(Strict, k.maxDepth, TrailingAllowed(k));
    NameBeyond(Strict, k.maxDepth, TrailingAllowed(k));
    BeyondIf(k, "NaN", Double("NaN"));
    BeyondIf(k, "-Infinity", Double("-Infinity"));
    BeyondIf(k, "\"\t\"", Str("\t"));
    BeyondIf(k, "{'a':0}", Obj([Pair("a", Int(0))]));
  }

  // ------------------------------------------------------------ the default mode

  lemma CapitalsBeyond(depth: nat)
    ensures ReadText(Lenient, "TRUE", depth, true) == Got(Bool(true), "")
    ensures ReadText(Rfc, "TRUE", depth, false) == Nope
  {
    hide ReadString, ReadElements, ReadMembers, ReadNumber;
    assert "TRUE"[4..] == "";
  }

  lemma CommaRead(mode: Mode, room: int)
    requires mode != Rfc && room >= 1
    ensures ReadElements(mode, "0,]", room, []) == if mode == Lenient then Got(Arr([Int(0)]), "") else Nope
  {
    hide ReadValue;
    ZeroRead(mode, "0,]", room - 1);
    BracketIsNoValue(mode, "]", room - 1);
    assert "0,]"[1..] == ",]" && ",]"[1..] == "]" && "]"[1..] == "" && [] + [Int(0)] == [Int(0)];
  }

  lemma CommaBeyond(depth: nat)
    requires depth >= 2
    ensures ReadText(Lenient, "[0,]", depth, true) == Got(Arr([Int(0)]), "")
    ensures ReadText(Rfc, "[0,]", depth, false) == Nope
  {
    hide ReadString, ReadMembers, ReadNumber, ReadLiteral, ReadElements;
    assert "[0,]"[1..] == "0,]";
    CommaRead(Lenient, depth - 1);
    CommaRead(Strict, depth - 1);
    if ReadText(Rfc, "[0,]", depth, false).Got? {
      RfcIsRead(Strict, "[0,]", depth, true);
    }
  }

  lemma ExponentBeyond()
    ensures Token("", "1e") == "1e" && NumberOf(Lenient, "1e") == Some(Double("1")) && !RfcNumbers.Complete("1e")
  {
    hide Token;
    TwoTaken("1e");
    assert "1e"[..1] == "1" && "1"[..0] == "";
  }

  /** A comment of three stars is not closed: behind "**" the next star is not looked at. */
  lemma StarsStayOpen(depth: nat)
    ensures ReadText(Lenient, "/***/0", depth, true) == Nope
  {
    assert "/***/0"[2..] == "**/0" && "**/0"[2..] == "/0" && "/0"[1..] == "0";
  }

  /** What the default mode accepts beyond that, and a comment that it does not. */
  lemma DefaultIsWider(k: Config)
    requires !k.strict && k.maxDepth >= 2
    ensures Beyond(k, "TRUE", Bool(true)) && Beyond(k, "[0,]", Arr([Int(0)])) && Beyond(k, "1e", Double("1"))
    ensures !ParseText(k, "/***/0").Ok?
  {
    hide ParseText, ReadText, NumberOf, Token, RfcNumbers.Complete;
    CapitalsBeyond(k.maxDepth);
    BeyondIf(k, "TRUE", Bool(true));
    CommaBeyond(k.maxDepth);
    BeyondIf(k, "[0,]", Arr([Int(0)]));
    ExponentBeyond();
    BeyondNumber(k, "1e", Double("1"));
    StarsStayOpen(k.maxDepth);
    ParseIsGrammar(k, "/***/0");
  }
}
