/**
 Parsing a whole text against the grammar: white space and comments, strings and literals. What the
 grammar reads the machine reads, and what it refuses is an error.
 */
module GrammarScalars {
  import opened Basics
  import opened OrderedMap
  import opened JsonValue
  import opened TokenerMachine
  import opened StringLiteral
  import opened TokenerRun
  import opened RoundTripScalars
  import opened JsonGrammar

  function ModeOf(k: Config): Mode {
    if k.strict then Strict else Lenient
  }

  /** A success: the value, and the text that was not read. */
  datatype Success = Success(value: Json, rest: string)

  function SuccessOf(o: Outcome): Option<Success> {
    if o.Ok? then Some(Success(o.value, o.rest)) else None
  }

  /** What comes of the rest of a text and the NUL behind it. */
  function Result(k: Config, m: Mach, s: string): Option<Success> {
    SuccessOf(Call(k, m, s + [NUL]))
  }

  function Peek(s: string): char {
    if s == "" then NUL else s[0]
  }

  /** A character that ends white space and begins no comment. */
  predicate Bare(k: Config, c: char) {
    !IsWs(c) && (c != '/' || k.strict)
  }

  lemma RunRedo(k: Config, m: Mach, s: string, m': Mach)
    requires Step(k, m, Peek(s)) == Redo(m')
    ensures Result(k, m, s) == Result(k, m', s)
  {
    hide Step;
    assert (s + [NUL])[0] == Peek(s);
  }

  lemma RunAdvance(k: Config, m: Mach, s: string, m': Mach)
    requires s != "" && s[0] != NUL && Step(k, m, s[0]) == Advance(m')
    ensures Result(k, m, s) == Result(k, m', s[1..])
  {
    hide Step;
    assert (s + [NUL])[0] == s[0] && (s + [NUL])[1..] == s[1..] + [NUL];
  }

  /** An error is an error, whatever follows. */
  lemma RunHalt(k: Config, m: Mach, s: string, m': Mach, e: Error)
    requires Step(k, m, Peek(s)) == Halt(m', Some(e))
    ensures Result(k, m, s) == None
  {
    hide Step;
    assert (s + [NUL])[0] == Peek(s);
  }

  lemma RunEat(k: Config, m: Mach, s: string, t: string)
    requires Eat(k, m, s).Some?
    ensures Result(k, m, s + t) == Result(k, Eat(k, m, s).value, t)
  {
    hide Eat, Call;
    EatThenCall(k, m, s, t + [NUL]);
    assert s + (t + [NUL]) == s + t + [NUL];
  }

  // ------------------------------------------------------------ white space and comments

  /** What a text that ends inside a comment comes to. */
  function OpenValue(m: Mach): Option<Success> {
    if m.top.saved == Finish then Some(Success(m.top.current, "")) else None
  }

  predicate InComment(m: Mach) {
    m.top.state == Comment || m.top.state == CommentEnd || m.top.state == CommentEol
  }

  lemma CommentEnds(k: Config, m: Mach)
    requires InComment(m)
    ensures Result(k, m, "") == OpenValue(m)
  {
    hide Step, Call;
    LiteralTurn(k, m, NUL);
    assert "" + [NUL] == [NUL] && [NUL][1..] == "";
    NulEnds(k, m, Step(k, m, NUL).m);
  }

  lemma NulEnds(k: Config, m: Mach, m': Mach)
    requires Step(k, m, NUL) == Advance(m') && InComment(m')
    ensures SuccessOf(Call(k, m, [NUL])) == OpenValue(m')
  {
    hide Step;
    assert [NUL][1..] == "";
  }

  /** The machine behind a comment. */
  predicate Resumes(m: Mach, q: Mach) {
    q == m.(pb := q.pb, top := m.top.(state := EatWs))
  }

  lemma {:induction false} BlockRun(k: Config, m: Mach, s: string) returns (q: Mach)
    requires m.top.state == Comment && NulFree(s)
    ensures var t := BlockEnd(s);
            if t.Some? then Resumes(m, q) && Result(k, m, s) == Result(k, q, t.value)
            else Result(k, m, s) == OpenValue(m)
    decreases |s|
  {
    hide Step, Call, Result;
    q := m;
    if s == "" {
      CommentEnds(k, m);
    } else {
      LiteralTurn(k, m, s[0]);
      var a := Goto(m.(pb := m.pb + [s[0]]), if s[0] == '*' then CommentEnd else Comment);
      RunAdvance(k, m, s, a);
      if s[0] != '*' {
        q := BlockRun(k, a, s[1..]);
      } else if |s| == 1 {
        CommentEnds(k, a);
      } else {
        LiteralTurn(k, a, s[1]);
        var b := Goto(a.(pb := a.pb + [s[1]]), if s[1] == '/' then EatWs else Comment);
        RunAdvance(k, a, s[1..], b);
        assert s[1..][1..] == s[2..];
        q := b;
        if s[1] != '/' {
          q := BlockRun(k, b, s[2..]);
        }
      }
    }
  }

  lemma {:induction false} LineRun(k: Config, m: Mach, s: string) returns (q: Mach)
    requires m.top.state == CommentEol && NulFree(s)
    ensures var t := LineEnd(s);
            if t.Some? then Resumes(m, q) && Result(k, m, s) == Result(k, q, t.value)
            else Result(k, m, s) == OpenValue(m)
    decreases |s|
  {
    hide Step, Call, Result;
    q := m;
    if s == "" {
      CommentEnds(k, m);
    } else {
      LiteralTurn(k, m, s[0]);
      var a := if s[0] == '\n' then Goto(m, EatWs) else m.(pb := m.pb + [s[0]]);
      RunAdvance(k, m, s, a);
      q := a;
      if s[0] != '\n' {
        q := LineRun(k, a, s[1..]);
      }
    }
  }

  /** The slash of a comment and the character behind it. */
  lemma CommentOpens(k: Config, m: Mach, s: string) returns (q: Mach)
    requires m.top.state == EatWs && !k.strict && NulFree(s) && s != "" && s[0] == '/'
    ensures if |s| >= 2 && (s[1] == '*' || s[1] == '/') then
              && q == m.(pb := q.pb, top := m.top.(state := if s[1] == '*' then Comment else CommentEol))
              && Result(k, m, s) == Result(k, q, s[2..])
            else Result(k, m, s) == None
  {
    hide Step, Call, Result;
    var c := Peek(s[1..]);
    SlashTurn(k, m);
    var a := Goto(m, CommentStart).(pb := ['/']);
    RunAdvance(k, m, s, a);
    LiteralTurn(k, a, c);
    q := a;
    if c == '*' || c == '/' {
      q := Step(k, a, c).m;
      RunAdvance(k, a, s[1..], q);
      assert s[1..][1..] == s[2..];
    } else {
      RunHalt(k, a, s[1..], a, ParseComment);
    }
  }

  lemma SlashTurn(k: Config, m: Mach)
    requires m.top.state == EatWs && !k.strict
    ensures Step(k, m, '/') == Advance(Goto(m, CommentStart).(pb := ['/']))
  {
  }

  /** White space and comments in front of anything. */
  lemma {:induction false} GapRun(k: Config, m: Mach, s: string) returns (q: Mach)
    requires m.top.state == EatWs && NulFree(s)
    ensures match Skip(ModeOf(k), s)
            case Past(u) => q == m.(pb := q.pb) && Result(k, m, s) == Result(k, q, u) && Bare(k, Peek(u))
            case Unclosed => Result(k, m, s) == OpenValue(m)
            case NoComment => Result(k, m, s) == None
    decreases |s|
  {
    hide Step, Call, Result;
    q := m;
    if s != "" && Blank(s[0]) {
      WsTurn(k, m, s[0]);
      RunAdvance(k, m, s, m);
      q := GapRun(k, m, s[1..]);
    } else if s != "" && !k.strict && s[0] == '/' {
      var a := CommentOpens(k, m, s);
      if |s| >= 2 && (s[1] == '*' || s[1] == '/') {
        q := CommentRun(k, m, a, s);
        var t := if s[1] == '*' then BlockEnd(s[2..]) else LineEnd(s[2..]);
        if t.Some? {
          q := GapRun(k, q, t.value);
        }
      }
    }
  }

  lemma CommentRun(k: Config, m: Mach, a: Mach, s: string) returns (q: Mach)
    requires m.top.state == EatWs && NulFree(s) && |s| >= 2
    requires a == m.(pb := a.pb, top := m.top.(state := if s[1] == '*' then Comment else CommentEol))
    ensures var t := if s[1] == '*' then BlockEnd(s[2..]) else LineEnd(s[2..]);
            if t.Some? then q == m.(pb := q.pb) && Result(k, a, s[2..]) == Result(k, q, t.value)
            else Result(k, a, s[2..]) == OpenValue(m)
  {
    hide Step, Call, Result;
    if s[1] == '*' {
      q := BlockRun(k, a, s[2..]);
    } else {
      q := LineRun(k, a, s[2..]);
    }
  }

  // ------------------------------------------------------------ strings

  /** The NUL inside a string. */
  lemma NulInString(k: Config, m: Mach, body: State, q: char, high: nat, pb: string)
    requires AtItem(m, body, q, high, pb) && q != NUL
    ensures Result(k, m, "") == None
  {
    hide Step, Call;
    if high == 0 {
      NulAddsToText(k, m, body, q);
    } else {
      TextTurn(k, m, NUL);
      var m' := Step(k, m, NUL).m;
      RunRedo(k, m, "", m');
      NulAddsToText(k, m', body, q);
    }
  }

  lemma NulAddsToText(k: Config, m: Mach, body: State, q: char)
    requires (body == StringS || body == ObjectField) && m.top.state == body && m.top.saved != Finish
    requires m.quote == q && q != NUL
    ensures Result(k, m, "") == None
  {
    hide Step;
    TextTurn(k, m, NUL);
    assert ("" + [NUL])[0] == NUL;
  }

  /** Fewer than four hexadecimal digits. */
  lemma {:induction false} DigitsFail(k: Config, m: Mach, s: string, n: nat)
    requires m.top.state == EscapeUnicode && m.stPos + n == 4 && n > 0 && NulFree(s)
    requires !(|s| >= n && forall i :: 0 <= i < n ==> IsHex(s[i]))
    ensures Result(k, m, s) == None
    decreases n
  {
    hide Step, Call, EscapeDone, Pow16, HexValue;
    TextTurn(k, m, Peek(s));
    if !IsHex(Peek(s)) {
      RunHalt(k, m, s, m, ParseString);
    } else {
      assert n > 1;
      var m' := m.(ucs := m.ucs + HexValue(s[0]) * Pow16(3 - m.stPos), stPos := m.stPos + 1);
      RunAdvance(k, m, s, m');
      DigitsFail(k, m', s[1..], n - 1);
    }
  }

  /** Behind the backslash: no u with four digits, and no other escape. */
  lemma NoEscape(k: Config, m: Mach, t: string)
    requires NulFree(t) && m.top.state == StringEscape && SimpleEscape(Peek(t)).None?
    requires !(|t| >= 5 && t[0] == 'u' && IsHex(t[1]) && IsHex(t[2]) && IsHex(t[3]) && IsHex(t[4]))
    ensures Result(k, m, t) == None
  {
    hide Step, Call, Result, SimpleEscape;
    TextTurn(k, m, Peek(t));
    if Peek(t) == 'u' {
      var u := Goto(m, EscapeUnicode).(ucs := 0, stPos := 0);
      RunAdvance(k, m, t, u);
      DigitsFail(k, u, t[1..], 4);
    } else {
      RunHalt(k, m, t, m, ParseString);
    }
  }

  /** The same with a surrogate waiting. */
  lemma NoPair(k: Config, m: Mach, t: string)
    requires NulFree(t) && m.top.state == NeedU && m.stPos == 0 && SimpleEscape(Peek(t)).None?
    requires !(|t| >= 5 && t[0] == 'u' && IsHex(t[1]) && IsHex(t[2]) && IsHex(t[3]) && IsHex(t[4]))
    ensures Result(k, m, t) == None
  {
    hide Step, Call, Result, SimpleEscape;
    TextTurn(k, m, Peek(t));
    if Peek(t) == 'u' {
      var u := Goto(m, EscapeUnicode);
      RunAdvance(k, m, t, u);
      DigitsFail(k, u, t[1..], 4);
    } else {
      var b := Step(k, m, Peek(t)).m;
      RunRedo(k, m, t, b);
      NoEscape(k, b, t);
    }
  }

  /** A backslash that begins no escape. */
  lemma EscapeFails(k: Config, m: Mach, body: State, q: char, high: nat, pb: string, s: string)
    requires AtItem(m, body, q, high, pb) && q != '\\' && NulFree(s)
    requires s != "" && s[0] == '\\' && FirstItem(ModeOf(k), s).None?
    ensures Result(k, m, s) == None
  {
    hide Call, Eat, Result, SimpleEscape;
    var t := s[1..];
    var a := EatBackslash(k, m, body, q, high, pb);
    RunEat(k, m, ['\\'], t);
    assert s == ['\\'] + t;
    EscapesOfRfc(Peek(t));
    if high == 0 {
      NoEscape(k, a, t);
    } else {
      NoPair(k, a, t);
    }
  }

  /** What the grammar refuses inside a string is an error. */
  lemma {:induction false} StringFails(k: Config, m: Mach, body: State, q: char, high: nat, pb: string, s: string)
    requires AtItem(m, body, q, high, pb) && (q == '"' || q == '\'') && NulFree(s)
    requires ReadString(ModeOf(k), q, s).Nope?
    ensures Result(k, m, s) == None
    decreases |s|
  {
    hide Step, Call, Eat, FirstItem, ItemOk, ItemText, ItemEffect, AtItem, SamePlace;
    if s == "" {
      NulInString(k, m, body, q, high, pb);
    } else if FirstItem(ModeOf(k), s).None? {
      OnlyEscapesFail(ModeOf(k), s);
      EscapeFails(k, m, body, q, high, pb, s);
    } else {
      var i := FirstItem(ModeOf(k), s).value;
      var t := s[|ItemText(i)|..];
      FirstItemOk(ModeOf(k), q, s);
      var a := EatItem(k, m, body, q, high, pb, i);
      RunEat(k, m, ItemText(i), t);
      assert s == ItemText(i) + t;
      var e := ItemEffect(q, high, i);
      StringFails(k, a, body, q, e.high, pb + e.out, t);
    }
  }

  lemma OnlyEscapesFail(mode: Mode, s: string)
    requires s != "" && mode != Rfc && FirstItem(mode, s).None?
    ensures s[0] == '\\'
  {
  }

  /** What it reads, the machine reads too. */
  lemma StringReads(k: Config, m: Mach, body: State, q: char, s: string) returns (r: Mach)
    requires AtItem(m, body, q, 0, "") && (q == '"' || q == '\'') && NulFree(s)
    requires ReadString(ModeOf(k), q, s).Got?
    ensures var t := ReadString(ModeOf(k), q, s);
            ItemsOk(q, t.val) && Closed(m, r, body, Meaning(q, 0, t.val)) && Result(k, m, s) == Result(k, r, t.rest)
  {
    hide Step, Call, Eat, ReadString, ItemsOk, Meaning, AtItem, Closed, Text;
    var t := ReadString(ModeOf(k), q, s);
    ReadItemsOk(ModeOf(k), q, s);
    r := EatItems(k, m, body, q, 0, "", t.val);
    assert "" + Meaning(q, 0, t.val) == Meaning(q, 0, t.val);
    RunEat(k, m, Text(t.val) + [q], t.rest);
  }

  // ------------------------------------------------------------ literals

  /** On a level of its own, reading a value that is no container. */
  predicate Reading(m: Mach, below: seq<Srec>) {
    m.below == below && m.top.field == None && Clean(m)
  }

  lemma LowerIsSame(k: Config, w: char, c: char)
    ensures SameLetter(ModeOf(k), w, c) <==> w == c || (!k.strict && ToLower(w) == ToLower(c))
  {
  }

  /** The comparison in the code is letter by letter. */
  lemma MatchIsFit(k: Config, word: string, pb: string, n: nat)
    ensures LiteralMatches(k, word, pb, n) <==> Begins(ModeOf(k), word, pb, n)
  {
    hide SameLetter, ToLower;
    if n <= |word| && n <= |pb| {
      forall i | 0 <= i < n
        ensures word[..n][i] == word[i] && pb[..n][i] == pb[i]
        ensures ToLowerAll(word[..n])[i] == ToLower(word[i]) && ToLowerAll(pb[..n])[i] == ToLower(pb[i])
        ensures SameLetter(ModeOf(k), word[i], pb[i]) <==>
                  word[i] == pb[i] || (!k.strict && ToLower(word[i]) == ToLower(pb[i]))
      {
        LowerIsSame(k, word[i], pb[i]);
      }
    }
  }

  /** The two words that a state reads. */
  predicate Choice(s: State, a: string, b: string) {
    (s == NullLit && a == "null" && b == "NaN") || (s == Boolean && a == "true" && b == "false")
  }

  function WordValue(word: string): Json {
    if word == "null" then Null
    else if word == "true" then Bool(true)
    else if word == "false" then Bool(false)
    else Double(word)
  }

  /** The letters read so far, with one more: a word that is full ends, and one that is not goes on. */
  predicate WordNext(m: Mach, below: seq<Srec>, word: string, c: char, t: Turn) {
    if |m.pb| == |word| then t.Redo? && DoneWith(below, t.m, WordValue(word))
    else t == Advance(m.(pb := m.pb + [c], stPos := m.stPos + 1))
  }

  lemma WordTurn(k: Config, m: Mach, below: seq<Srec>, a: string, b: string, c: char)
    requires Choice(m.top.state, a, b) && Reading(m, below) && |m.pb| == m.stPos
    ensures var t, pb, i := Step(k, m, c), m.pb + [c], |m.pb| + 1;
            if Begins(ModeOf(k), a, pb, Min(i, |a|)) then WordNext(m, below, a, c, t)
            else if Begins(ModeOf(k), b, pb, Min(i, |b|)) then WordNext(m, below, b, c, t)
            else t.Halt? && t.err.Some?
  {
    hide Step, LiteralMatches, Begins;
    LiteralTurn(k, m, c);
    MatchIsFit(k, a, m.pb + [c], Min(|m.pb| + 1, |a|));
    MatchIsFit(k, b, m.pb + [c], Min(|m.pb| + 1, |b|));
  }

  lemma NulIsNoLetter(mode: Mode, word: string)
    requires NUL !in word
    ensures forall j :: 0 <= j < |word| ==> !SameLetter(mode, word[j], NUL)
  {
    forall j | 0 <= j < |word| ensures !SameLetter(mode, word[j], NUL) {
      assert word[j] in word;
    }
  }

  /** One more character keeps the beginning of a word, or shows that it is another. */
  lemma Longer(mode: Mode, word: string, pb: string, s: string)
    requires NulFree(s) && NUL !in word
    ensures var i := |pb| + 1;
            Named(mode, word, pb + s) ==> Begins(mode, word, pb + [Peek(s)], Min(i, |word|))
    ensures |pb| < |word| && Begins(mode, word, pb + [Peek(s)], |pb| + 1) ==> s != ""
    ensures |pb| == |word| && Begins(mode, word, pb + [Peek(s)], |pb|) ==> Named(mode, word, pb + s)
  {
    hide SameLetter;
    var full, next := pb + s, pb + [Peek(s)];
    NulIsNoLetter(mode, word);
    assert forall j :: 0 <= j < |pb| ==> next[j] == pb[j] == full[j];
    if Named(mode, word, full) {
      forall j | 0 <= j < Min(|pb| + 1, |word|) ensures SameLetter(mode, word[j], next[j]) {
        assert next[j] == full[j];
      }
    }
    if |pb| < |word| && Begins(mode, word, next, |pb| + 1) {
      assert SameLetter(mode, word[|pb|], next[|pb|]);
    }
  }

  /** No word has more letters than it has. */
  lemma WordRoom(mode: Mode, st: State, a: string, b: string, pb: string, c: char)
    requires Choice(st, a, b) && (Begins(mode, a, pb, |pb|) || Begins(mode, b, pb, |pb|))
    ensures var next, i := pb + [c], |pb| + 1;
            if Begins(mode, a, next, Min(i, |a|)) then |pb| <= |a|
            else Begins(mode, b, next, Min(i, |b|)) ==> |pb| <= |b|
  {
    if |pb| > |a| {
      assert a[0] == 't' && SameLetter(mode, b[0], pb[0]) && !SameLetter(mode, a[0], pb[0]);
    }
    assert Begins(mode, a, pb, |pb|) ==> forall i :: 0 <= i < |pb| ==> (pb + [c])[i] == pb[i];
  }

  /** What comes of a literal in the text `full`. */
  predicate WordLeft(k: Config, m: Mach, below: seq<Srec>, word: string, full: string, x: Option<Success>, r: Mach) {
    Named(ModeOf(k), word, full) && DoneWith(below, r, WordValue(word)) && x == Result(k, r, full[|word|..])
  }

  lemma {:induction false} WordRun(k: Config, m: Mach, below: seq<Srec>, a: string, b: string, s: string)
    returns (r: Mach)
    requires Choice(m.top.state, a, b) && Reading(m, below) && |m.pb| == m.stPos && NulFree(s)
    requires Begins(ModeOf(k), a, m.pb, |m.pb|) || Begins(ModeOf(k), b, m.pb, |m.pb|)
    ensures var full, x := m.pb + s, Result(k, m, s);
            if Named(ModeOf(k), a, full) then WordLeft(k, m, below, a, full, x, r)
            else if Named(ModeOf(k), b, full) then WordLeft(k, m, below, b, full, x, r)
            else x == None
    decreases |s|
  {
    hide Step, Call, Result, DoneWith, Begins, Named;
    var c := Peek(s);
    WordRoom(ModeOf(k), m.top.state, a, b, m.pb, c);
    var i := |m.pb| + 1;
    var t := Step(k, m, c);
    WordTurn(k, m, below, a, b, c);
    Longer(ModeOf(k), a, m.pb, s);
    Longer(ModeOf(k), b, m.pb, s);
    if t.Redo? {
      RunRedo(k, m, s, t.m);
      r := t.m;
      assert (m.pb + s)[|m.pb|..] == s;
    } else if t.Advance? {
      RunAdvance(k, m, s, t.m);
      assert m.pb + [c] + s[1..] == m.pb + s;
      r := WordRun(k, t.m, below, a, b, s[1..]);
    } else {
      RunHalt(k, m, s, t.m, t.err.value);
      r := m;
    }
  }

  predicate Negative(m: Mach) {
    m.pb != "" && m.pb[0] == '-'
  }

  lemma InfinityLetter(k: Config, m: Mach, below: seq<Srec>, c: char)
    requires m.top.state == Inf && Reading(m, below) && m.stPos < 8
    ensures Step(k, m, c) == if SameLetter(ModeOf(k), "Infinity"[m.stPos], c) then Advance(m.(stPos := m.stPos + 1))
                             else Halt(m, Some(ParseUnexpected))
  {
    hide Step;
    LiteralTurn(k, m, c);
  }

  lemma InfinityEnds(k: Config, m: Mach, below: seq<Srec>, c: char)
    requires m.top.state == Inf && Reading(m, below) && m.stPos == 8
    ensures var t := Step(k, m, c);
            t.Redo? && DoneWith(below, t.m, Double(if Negative(m) then "-Infinity" else "Infinity"))
  {
    hide Step;
    LiteralTurn(k, m, c);
  }

  lemma {:induction false} InfinityRun(k: Config, m: Mach, below: seq<Srec>, word: string, s: string) returns (r: Mach)
    requires m.top.state == Inf && Reading(m, below) && m.stPos <= 8 && word == "Infinity"[m.stPos..] && NulFree(s)
    ensures if Named(ModeOf(k), word, s) then
              && DoneWith(below, r, Double(if Negative(m) then "-Infinity" else "Infinity"))
              && Result(k, m, s) == Result(k, r, s[|word|..])
            else Result(k, m, s) == None
    decreases |word|
  {
    hide Step, Call, Result, DoneWith, SameLetter;
    var c := Peek(s);
    if word == "" {
      InfinityEnds(k, m, below, c);
      r := Step(k, m, c).m;
      RunRedo(k, m, s, r);
      assert s[0..] == s;
    } else {
      InfinityLetter(k, m, below, c);
      NamedOn(ModeOf(k), word, s);
      assert word[1..] == "Infinity"[m.stPos + 1..];
      if s != "" && SameLetter(ModeOf(k), word[0], c) {
        var n := m.(stPos := m.stPos + 1);
        RunAdvance(k, m, s, n);
        r := InfinityRun(k, n, below, word[1..], s[1..]);
        assert |word| <= |s| ==> s[1..][|word| - 1..] == s[|word|..];
      } else {
        NulIsNoLetter(ModeOf(k), "Infinity");
        RunHalt(k, m, s, m, ParseUnexpected);
        r := m;
      }
    }
  }

  lemma NamedOn(mode: Mode, word: string, s: string)
    requires word != ""
    ensures Named(mode, word, s) <==> s != "" && SameLetter(mode, word[0], s[0]) && Named(mode, word[1..], s[1..])
  {
    hide SameLetter;
    if s != "" && SameLetter(mode, word[0], s[0]) && Named(mode, word[1..], s[1..]) {
      forall j | 0 <= j < |word| ensures j < |s| && SameLetter(mode, word[j], s[j]) {
        assert j > 0 ==> word[1..][j - 1] == word[j] && s[1..][j - 1] == s[j];
      }
    }
  }
}
