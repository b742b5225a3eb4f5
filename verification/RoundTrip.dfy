/**
 Parsing what was printed. For every tree without doubles that fits the depth limit, and
 every choice of printing flags, the tokener reads the printed text back as the same tree,
 except that a uint64 within the int64 range comes back as an int64.
 */
module RoundTrip {
  import opened Basics
  import opened OrderedMap
  import opened JsonValue
  import opened TokenerMachine
  import opened StringLiteral
  import opened TokenerCut
  import opened TokenerRun
  import opened JsonPrinter
  import opened RoundTripScalars

  predicate AllWs(w: string) {
    forall i :: 0 <= i < |w| ==> IsWs(w[i])
  }

  lemma GapsAreWs(f: Flags, level: nat, had: bool)
    ensures AllWs(Gap(f, level)) && AllWs(ClosingGap(f, level, had))
  {
  }

  /** The first character of a printed value is none of those the machine looks for around values. */
  lemma FirstChar(f: Flags, v: Json, level: nat)
    requires !v.Double?
    ensures Print(f, v, level) != ""
    ensures var c := Print(f, v, level)[0]; !IsWs(c) && c != '/' && c != ']' && c != NUL
  {
    hide PrintElems, PrintFields, Quoted, ClosingGap;
    match v
    case Int(i) => DigitsStart(i);
    case UInt(u) => DigitsStart(u);
    case Str(s) => QuotedStart(f, s);
    case _ =>
  }

  lemma QuotedStart(f: Flags, s: string)
    ensures Quoted(f, s) != "" && Quoted(f, s)[0] == '"'
  {
  }

  lemma DigitsStart(i: int)
    ensures Decimal.SignedDigits(i) != ""
    ensures Decimal.IsDigit(Decimal.SignedDigits(i)[0]) || Decimal.SignedDigits(i)[0] == '-'
  {
    Decimal.DigitsShape(if i < 0 then -i else i);
  }

  // ------------------------------------------------------------ leaving a finished child

  /** A finished child goes back to the level that waits for it. */
  lemma Popped(k: Config, below: seq<Srec>, w: Srec, r: Mach, v: Json, s: string) returns (q: Mach)
    requires DoneWith(below + [w], r, v) && s != "" && !IsWs(s[0]) && (s[0] != '/' || k.strict)
    requires w.state == ArrayAdd || w.state == ObjectValueAdd
    ensures q.below == below && q.top == w && q.obj == v && q.high == 0 && q.num == NUMBER_START
    ensures Eat(k, r, s) == Eat(k, q, s) && Call(k, r, s) == Call(k, q, s)
  {
    hide Step, Eat, Call;
    TokenTurn(k, r, s[0]);
    RedoEat(k, r, s);
    var fin := Goto(r, Finish);
    StackTurn(k, fin, s[0]);
    assert (below + [w])[..|below|] == below;
    RedoEat(k, fin, s);
    q := Step(k, fin, s[0]).m;
  }

  /** The child is appended to its array, and the array looks for a separator. */
  lemma Appended(k: Config, below: seq<Srec>, w: Srec, done: seq<Json>, r: Mach, v: Json, s: string) returns (q: Mach)
    requires DoneWith(below + [w], r, v) && s != "" && !IsWs(s[0]) && (s[0] != '/' || k.strict)
    requires w.state == ArrayAdd && w.current == Arr(done) && w.field == None
    ensures q.below == below && q.top == Srec(ArraySep, ArraySep, Arr(done + [v]), None) && Clean(q)
    ensures Eat(k, r, s) == Eat(k, q, s) && Call(k, r, s) == Call(k, q, s)
  {
    hide Step, Eat, Call;
    var p := Popped(k, below, w, r, v, s);
    StackTurn(k, p, s[0]);
    RedoEat(k, p, s);
    var e := Step(k, p, s[0]).m;
    TokenTurn(k, e, s[0]);
    RedoEat(k, e, s);
    q := Goto(e, ArraySep);
  }

  /** The child is added under the waiting key, and the object looks for a separator. */
  lemma Added(k: Config, below: seq<Srec>, w: Srec, done: seq<Field>, key: string, r: Mach, v: Json, s: string)
    returns (q: Mach)
    requires DoneWith(below + [w], r, v) && s != "" && !IsWs(s[0]) && (s[0] != '/' || k.strict)
    requires w.state == ObjectValueAdd && w.current == Obj(done) && w.field == Some(key)
    ensures q.below == below && q.top == Srec(ObjectSep, ObjectSep, Obj(Put(done, key, v)), None) && Clean(q)
    ensures Eat(k, r, s) == Eat(k, q, s) && Call(k, r, s) == Call(k, q, s)
  {
    hide Step, Eat, Call;
    var p := Popped(k, below, w, r, v, s);
    StackTurn(k, p, s[0]);
    RedoEat(k, p, s);
    var e := Step(k, p, s[0]).m;
    TokenTurn(k, e, s[0]);
    RedoEat(k, e, s);
    q := Goto(e, ObjectSep);
  }

  /** White space in front of `s` changes nothing once the value before it is settled. */
  lemma SettledAcross(k: Config, below: seq<Srec>, r: Mach, v: Json, w: string, s: string) returns (q: Mach)
    requires Pending(below, r, v) && AllWs(w) && s != "" && Delimiter(s[0], |below|)
    ensures DoneWith(below, q, ReadBack(v))
    ensures Eat(k, r, w + s) == Eat(k, q, s)
  {
    hide Step, Eat, Call, Pending, ReadBack;
    q := Settled(k, below, r, v, w + s);
    WhiteSpaceEaten(k, q, w);
    EatThenEat(k, q, w, s);
  }

  // ------------------------------------------------------------ arrays

  predicate ArrayEntry(s: State) {
    s == Array || s == ArrayAfterSep
  }

  /** At the first character of an element a new level is pushed. */
  lemma ElementOpens(k: Config, m: Mach, saved: State, done: seq<Json>, s: string) returns (q: Mach, w: Srec)
    requires Awaits(m, saved, Arr(done)) && ArrayEntry(saved) && |m.below| + 1 < k.maxDepth
    requires s != "" && !IsWs(s[0]) && (s[0] != '/' || k.strict) && s[0] != ']'
    ensures w.state == ArrayAdd && w.current == Arr(done) && w.field == None
    ensures q.below == m.below + [w] && AtValue(q)
    ensures Eat(k, m, s) == Eat(k, q, s) && Call(k, m, s) == Call(k, q, s)
  {
    hide Step, Eat, Call;
    TokenTurn(k, m, s[0]);
    RedoEat(k, m, s);
    var a := Goto(m, saved);
    StackTurn(k, a, s[0]);
    RedoEat(k, a, s);
    q := Push(a, ArrayAdd);
    w := a.top.(state := ArrayAdd);
  }

  lemma ArraySepTurns(k: Config, q: Mach, es: seq<Json>, s: string) returns (r: Mach)
    requires q.top == Srec(ArraySep, ArraySep, Arr(es), None) && Clean(q) && s != ""
    requires s[0] == ',' || s[0] == ']'
    ensures r.below == q.below && Awaits(r, if s[0] == ',' then ArrayAfterSep else Finish, Arr(es))
    ensures Eat(k, q, s) == Eat(k, r, s[1..]) && Call(k, q, s) == Call(k, r, s[1..])
  {
    hide Step, Eat, Call;
    StackTurn(k, q, s[0]);
    AdvanceEat(k, q, s);
    r := Step(k, q, s[0]).m;
  }

  /** The elements from the first unread one to the closing bracket. */
  lemma {:induction false} ElementsEaten(k: Config, m: Mach, f: Flags, done: seq<Json>, es: seq<Json>, level: nat,
                                         saved: State) returns (r: Mach)
    requires es != [] && AllFit(es, k.maxDepth - 2 - |m.below|)
    requires Awaits(m, saved, Arr(done)) && ArrayEntry(saved) && |m.below| + 1 < k.maxDepth
    ensures Eat(k, m, ElementsText(f, es, level)) == Some(r)
    ensures DoneWith(m.below, r, Arr(done + ReadBackAll(es)))
    decreases es, 1
  {
    hide Step, Eat, Call, Print, Gap, ClosingGap, ReadBack, Pending, Fits, AllFit;
    var first := Print(f, es[0], level + 1);
    var rest := ElementsTail(f, es[1..], level);
    assert Fits(es[0], k.maxDepth - 2 - |m.below|) && AllFit(es[1..], k.maxDepth - 2 - |m.below|) by {
      FitsParts(es, k.maxDepth - 2 - |m.below|);
    }
    FitsNoDouble(es[0], k.maxDepth - 2 - |m.below|);
    FirstChar(f, es[0], level + 1);
    GapsAreWs(f, level + 1, true);
    WhiteSpaceEaten(k, m, Gap(f, level + 1));
    EatThenEat(k, m, Gap(f, level + 1), first + rest);
    var q, w := ElementOpens(k, m, saved, done, first + rest);
    var c := ValueEaten(k, q, f, es[0], level + 1);
    EatThenEat(k, q, first, rest);
    assert ElementsText(f, es, level) == Gap(f, level + 1) + (first + rest);
    r := TailEaten(k, m.below, w, c, f, done, es, level);
  }

  /** From the end of one element: a comma and the next, or white space and the bracket. */
  lemma {:induction false} TailEaten(k: Config, below: seq<Srec>, w: Srec, c: Mach, f: Flags, done: seq<Json>,
                                     es: seq<Json>, level: nat) returns (r: Mach)
    requires es != [] && AllFit(es[1..], k.maxDepth - 2 - |below|) && |below| + 1 < k.maxDepth
    requires Pending(below + [w], c, es[0])
    requires w.state == ArrayAdd && w.current == Arr(done) && w.field == None
    ensures Eat(k, c, ElementsTail(f, es[1..], level)) == Some(r)
    ensures DoneWith(below, r, Arr(done + ReadBackAll(es)))
    decreases es, 0
  {
    hide Step, Eat, Call, Print, Gap, ClosingGap, ReadBack, Pending, Fits, AllFit;
    var rest := ElementsTail(f, es[1..], level);
    var v := ReadBack(es[0]);
    assert done + ReadBackAll(es) == (done + [v]) + ReadBackAll(es[1..]);
    if es[1..] == [] {
      GapsAreWs(f, level, true);
      var d := SettledAcross(k, below + [w], c, es[0], ClosingGap(f, level, true), "]");
      var a := Appended(k, below, w, done, d, v, "]");
      r := ArraySepTurns(k, a, done + [v], "]");
      NothingLeft(k, r);
      assert (done + [v]) + ReadBackAll(es[1..]) == done + [v];
    } else {
      assert rest == "," + ElementsText(f, es[1..], level);
      var d := Settled(k, below + [w], c, es[0], rest);
      var a := Appended(k, below, w, done, d, v, rest);
      var b := ArraySepTurns(k, a, done + [v], rest);
      assert rest[1..] == ElementsText(f, es[1..], level);
      r := ElementsEaten(k, b, f, done + [v], es[1..], level, ArrayAfterSep);
    }
  }

  lemma NothingLeft(k: Config, r: Mach)
    ensures Eat(k, r, "]"[1..]) == Some(r) && Eat(k, r, "}"[1..]) == Some(r)
  {
  }

  lemma FitsParts(es: seq<Json>, room: int)
    requires es != [] && AllFit(es, room)
    ensures Fits(es[0], room) && AllFit(es[1..], room)
  {
  }

  lemma FitsNoDouble(v: Json, room: int)
    requires Fits(v, room)
    ensures !v.Double?
  {
  }

  /** The text behind the opening bracket of a non-empty array. */
  function ElementsText(f: Flags, es: seq<Json>, level: nat): string
    requires es != []
    decreases |es|, 0
  {
    Gap(f, level + 1) + Print(f, es[0], level + 1) + ElementsTail(f, es[1..], level)
  }

  /** The text behind one element. */
  function ElementsTail(f: Flags, es: seq<Json>, level: nat): string
    decreases |es|, 1
  {
    if es == [] then ClosingGap(f, level, true) + "]" else "," + ElementsText(f, es, level)
  }

  lemma {:induction false} ElementsTailPrinted(f: Flags, es: seq<Json>, level: nat)
    ensures ElementsTail(f, es, level) == PrintElems(f, es, level, false) + ClosingGap(f, level, true) + "]"
  {
    hide Print, Gap, ClosingGap;
    if es == [] {
      assert "" + ClosingGap(f, level, true) == ClosingGap(f, level, true);
    } else {
      ElementsTailPrinted(f, es[1..], level);
    }
  }

  lemma ElementsPrinted(f: Flags, es: seq<Json>, level: nat)
    requires es != []
    ensures Print(f, Arr(es), level) == "[" + ElementsText(f, es, level)
  {
    hide Gap, ClosingGap, ElementsTail;
    ElementsTailPrinted(f, es[1..], level);
    var p := Print(f, es[0], level + 1);
    assert "" + Gap(f, level + 1) == Gap(f, level + 1);
  }

  // ------------------------------------------------------------ objects

  predicate FieldEntry(s: State) {
    s == FieldStart || s == FieldStartAfterSep
  }

  ghost predicate NewKeys(done: seq<Field>, fs: seq<Field>) {
    forall i, j :: 0 <= i < |done| && 0 <= j < |fs| ==> done[i].key != fs[j].key
  }

  ghost predicate KeysFit(fs: seq<Field>) {
    Distinct(fs) && forall i :: 0 <= i < |fs| ==> NulFree(fs[i].key)
  }

  /** A member name, up to its closing quote. */
  lemma KeyEaten(k: Config, m: Mach, saved: State, current: Json, f: Flags, key: string) returns (r: Mach)
    requires Awaits(m, saved, current) && FieldEntry(saved) && NulFree(key)
    ensures Eat(k, m, Quoted(f, key)) == Some(r)
    ensures r.below == m.below && r.top == Srec(EatWs, FieldEnd, current, Some(key)) && Clean(r)
  {
    hide Step, Eat, Call;
    var text := Quoted(f, key);
    TokenTurn(k, m, '"');
    RedoEat(k, m, text);
    var a := Goto(m, saved);
    StackTurn(k, a, '"');
    AdvanceEat(k, a, text);
    EscapeMeans(f, key);
    assert text[1..] == Text(ItemsOf(f, key)) + ['"'];
    var n := Step(k, a, '"').m;
    r := EatItems(k, n, ObjectField, '"', 0, "", ItemsOf(f, key));
    assert "" + key == key;
    ClosedIsClean(n, r, ObjectField, key);
  }

  lemma ColonEaten(k: Config, m: Mach, f: Flags, current: Json, key: string) returns (r: Mach)
    requires m.top == Srec(EatWs, FieldEnd, current, Some(key)) && Clean(m)
    ensures Eat(k, m, Colon(f)) == Some(r)
    ensures r.below == m.below && r.top == Srec(EatWs, ObjectValue, current, Some(key)) && Clean(r)
  {
    hide Step, Eat, Call;
    var text := Colon(f);
    TokenTurn(k, m, ':');
    RedoEat(k, m, text);
    var a := Goto(m, FieldEnd);
    StackTurn(k, a, ':');
    AdvanceEat(k, a, text);
    r := Step(k, a, ':').m;
    WhiteSpaceEaten(k, r, text[1..]);
  }

  /** At the first character of a member's value a new level is pushed. */
  lemma MemberOpens(k: Config, m: Mach, current: Json, key: string, s: string) returns (q: Mach, w: Srec)
    requires m.top == Srec(EatWs, ObjectValue, current, Some(key)) && Clean(m) && |m.below| + 1 < k.maxDepth
    requires s != "" && !IsWs(s[0]) && (s[0] != '/' || k.strict)
    ensures w.state == ObjectValueAdd && w.current == current && w.field == Some(key)
    ensures q.below == m.below + [w] && AtValue(q)
    ensures Eat(k, m, s) == Eat(k, q, s) && Call(k, m, s) == Call(k, q, s)
  {
    hide Step, Eat, Call;
    TokenTurn(k, m, s[0]);
    RedoEat(k, m, s);
    var a := Goto(m, ObjectValue);
    StackTurn(k, a, s[0]);
    RedoEat(k, a, s);
    q := Push(a, ObjectValueAdd);
    w := a.top.(state := ObjectValueAdd);
  }

  lemma ObjectSepTurns(k: Config, q: Mach, current: Json, s: string) returns (r: Mach)
    requires q.top == Srec(ObjectSep, ObjectSep, current, None) && Clean(q) && s != ""
    requires s[0] == ',' || s[0] == '}'
    ensures r.below == q.below && Awaits(r, if s[0] == ',' then FieldStartAfterSep else Finish, current)
    ensures Eat(k, q, s) == Eat(k, r, s[1..]) && Call(k, q, s) == Call(k, r, s[1..])
  {
    hide Step, Eat, Call;
    StackTurn(k, q, s[0]);
    AdvanceEat(k, q, s);
    r := Step(k, q, s[0]).m;
  }

  /** The text behind the opening brace of a non-empty object, and behind one member. */
  function MembersText(f: Flags, fs: seq<Field>, level: nat): string
    requires fs != []
    decreases |fs|, 0
  {
    Gap(f, level + 1) + Quoted(f, fs[0].key) + Colon(f) + Print(f, fs[0].val, level + 1) + MembersTail(f, fs[1..],
        level)
  }

  function MembersTail(f: Flags, fs: seq<Field>, level: nat): string
    decreases |fs|, 1
  {
    if fs == [] then ClosingGap(f, level, true) + "}" else "," + MembersText(f, fs, level)
  }

  lemma {:induction false} MembersTailPrinted(f: Flags, fs: seq<Field>, level: nat)
    ensures MembersTail(f, fs, level) == PrintFields(f, fs, level, false) + ClosingGap(f, level, true) + "}"
  {
    hide Print, Gap, ClosingGap, Quoted, Colon;
    if fs == [] {
      assert "" + ClosingGap(f, level, true) == ClosingGap(f, level, true);
    } else {
      MembersTailPrinted(f, fs[1..], level);
    }
  }

  lemma MembersPrinted(f: Flags, fs: seq<Field>, level: nat)
    requires fs != []
    ensures Print(f, Obj(fs), level) == "{" + MembersText(f, fs, level)
  {
    hide Gap, ClosingGap, Quoted, Colon, MembersTail;
    MembersTailPrinted(f, fs[1..], level);
    var p := Print(f, fs[0].val, level + 1);
    assert "" + Gap(f, level + 1) == Gap(f, level + 1);
  }

  lemma FieldsFitParts(fs: seq<Field>, room: int)
    requires fs != [] && AllFieldsFit(fs, room)
    ensures Fits(fs[0].val, room) && AllFieldsFit(fs[1..], room)
  {
  }

  lemma PutNew(done: seq<Field>, fs: seq<Field>, v: Json)
    requires fs != [] && KeysFit(fs) && NewKeys(done, fs)
    ensures Put(done, fs[0].key, v) == done + [Pair(fs[0].key, v)]
    ensures NewKeys(done + [Pair(fs[0].key, v)], fs[1..]) && KeysFit(fs[1..])
  {
    assert NewKeys(done, fs) && !Has(done, fs[0].key);
    var d := done + [Pair(fs[0].key, v)];
    forall i, j | 0 <= i < |d| && 0 <= j < |fs[1..]|
      ensures d[i].key != fs[1..][j].key
    {
      assert fs[1..][j] == fs[j + 1];
    }
  }

  /** One member: white space, the name, the colon; the value is then read on its own level. */
  lemma MemberNamed(k: Config, m: Mach, f: Flags, saved: State, done: seq<Field>, key: string, level: nat, s: string)
    returns (q: Mach, w: Srec)
    requires Awaits(m, saved, Obj(done)) && FieldEntry(saved) && |m.below| + 1 < k.maxDepth && NulFree(key)
    requires s != "" && !IsWs(s[0]) && s[0] != '/'
    ensures w.state == ObjectValueAdd && w.current == Obj(done) && w.field == Some(key)
    ensures q.below == m.below + [w] && AtValue(q)
    ensures Eat(k, m, Gap(f, level) + (Quoted(f, key) + (Colon(f) + s))) == Eat(k, q, s)
  {
    hide Step, Eat, Call, Gap, Quoted, Colon;
    GapsAreWs(f, level, true);
    WhiteSpaceEaten(k, m, Gap(f, level));
    EatThenEat(k, m, Gap(f, level), Quoted(f, key) + (Colon(f) + s));
    var a := KeyEaten(k, m, saved, Obj(done), f, key);
    EatThenEat(k, m, Quoted(f, key), Colon(f) + s);
    var b := ColonEaten(k, a, f, Obj(done), key);
    EatThenEat(k, a, Colon(f), s);
    q, w := MemberOpens(k, b, Obj(done), key, s);
  }

  /** The members from the first unread one to the closing brace. */
  lemma {:induction false} MembersEaten(k: Config, m: Mach, f: Flags, done: seq<Field>, fs: seq<Field>, level: nat,
                                        saved: State) returns (r: Mach)
    requires fs != [] && AllFieldsFit(fs, k.maxDepth - 2 - |m.below|) && KeysFit(fs) && NewKeys(done, fs)
    requires Awaits(m, saved, Obj(done)) && FieldEntry(saved) && |m.below| + 1 < k.maxDepth
    ensures Eat(k, m, MembersText(f, fs, level)) == Some(r)
    ensures DoneWith(m.below, r, Obj(done + ReadBackFields(fs)))
    decreases fs, 1
  {
    hide Step, Eat, Call, Print, Gap, ClosingGap, Colon, Quoted, ReadBack, Pending, Fits, AllFieldsFit;
    var fd: Field := fs[0];
    assert fd decreases to fd.val;
    var first := Print(f, fd.val, level + 1);
    var rest := MembersTail(f, fs[1..], level);
    FieldsFitParts(fs, k.maxDepth - 2 - |m.below|);
    FitsNoDouble(fd.val, k.maxDepth - 2 - |m.below|);
    FirstChar(f, fd.val, level + 1);
    var q, w := MemberNamed(k, m, f, saved, done, fd.key, level + 1, first + rest);
    var c := ValueEaten(k, q, f, fd.val, level + 1);
    EatThenEat(k, q, first, rest);
    assert MembersText(f, fs, level)
        == Gap(f, level + 1) + (Quoted(f, fd.key) + (Colon(f) + (first + rest)));
    r := MembersTailEaten(k, m.below, w, c, f, done, fs, level);
  }

  /** The last member: white space, the brace, and the object is finished. */
  lemma LastMemberEaten(k: Config, below: seq<Srec>, w: Srec, c: Mach, done: seq<Field>, key: string, v: Json,
                        gap: string) returns (r: Mach)
    requires Pending(below + [w], c, v) && AllWs(gap)
    requires w.state == ObjectValueAdd && w.current == Obj(done) && w.field == Some(key)
    ensures Eat(k, c, gap + "}") == Some(r)
    ensures DoneWith(below, r, Obj(Put(done, key, ReadBack(v))))
  {
    hide Step, Eat, Call, ReadBack, Pending, Put;
    var d := SettledAcross(k, below + [w], c, v, gap, "}");
    var a := Added(k, below, w, done, key, d, ReadBack(v), "}");
    r := ObjectSepTurns(k, a, Obj(Put(done, key, ReadBack(v))), "}");
    NothingLeft(k, r);
  }

  /** A comma after a member: the object waits for the next name. */
  lemma NextMemberAwaited(k: Config, below: seq<Srec>, w: Srec, c: Mach, done: seq<Field>, key: string, v: Json,
                          rest: string) returns (r: Mach)
    requires Pending(below + [w], c, v)
    requires w.state == ObjectValueAdd && w.current == Obj(done) && w.field == Some(key)
    ensures Eat(k, c, "," + rest) == Eat(k, r, rest)
    ensures r.below == below && Awaits(r, FieldStartAfterSep, Obj(Put(done, key, ReadBack(v))))
  {
    hide Step, Eat, Call, ReadBack, Pending, Put;
    var s := "," + rest;
    var d := Settled(k, below + [w], c, v, s);
    var a := Added(k, below, w, done, key, d, ReadBack(v), s);
    r := ObjectSepTurns(k, a, Obj(Put(done, key, ReadBack(v))), s);
    assert s[1..] == rest;
  }

  lemma {:induction false} DoneGrows(done: seq<Field>, fs: seq<Field>)
    requires fs != []
    ensures var done' := done + [Pair(fs[0].key, ReadBack(fs[0].val))];
            && done + ReadBackFields(fs) == done' + ReadBackFields(fs[1..])
            && (fs[1..] == [] ==> done + ReadBackFields(fs) == done')
  {
    hide ReadBack;
    var next := [Pair(fs[0].key, ReadBack(fs[0].val))];
    assert ReadBackFields(fs) == next + ReadBackFields(fs[1..]);
    assert done + (next + ReadBackFields(fs[1..])) == done + next + ReadBackFields(fs[1..]);
  }

  /** From the end of one member: a comma and the next, or white space and the brace. */
  lemma {:induction false} MembersTailEaten(k: Config, below: seq<Srec>, w: Srec, c: Mach, f: Flags, done: seq<Field>,
                                            fs: seq<Field>, level: nat) returns (r: Mach)
    requires fs != [] && AllFieldsFit(fs[1..], k.maxDepth - 2 - |below|) && |below| + 1 < k.maxDepth
    requires KeysFit(fs) && NewKeys(done, fs)
    requires Pending(below + [w], c, fs[0].val)
    requires w.state == ObjectValueAdd && w.current == Obj(done) && w.field == Some(fs[0].key)
    ensures Eat(k, c, MembersTail(f, fs[1..], level)) == Some(r)
    ensures DoneWith(below, r, Obj(done + ReadBackFields(fs)))
    decreases fs, 0
  {
    hide Step, Eat, Call, Print, Gap, ClosingGap, Colon, Quoted, ReadBack, Pending, Fits, AllFieldsFit, KeysFit,
        NewKeys, Put, ReadBackFields;
    var key := fs[0].key;
    var v := ReadBack(fs[0].val);
    var done' := done + [Pair(key, v)];
    PutNew(done, fs, v);
    DoneGrows(done, fs);
    if fs[1..] == [] {
      GapsAreWs(f, level, true);
      r := LastMemberEaten(k, below, w, c, done, key, fs[0].val, ClosingGap(f, level, true));
    } else {
      var b := NextMemberAwaited(k, below, w, c, done, key, fs[0].val, MembersText(f, fs[1..], level));
      r := MembersEaten(k, b, f, done', fs[1..], level, FieldStartAfterSep);
    }
  }

  lemma {:induction false} ObjectEaten(k: Config, m: Mach, f: Flags, fs: seq<Field>, level: nat) returns (r: Mach)
    requires AtValue(m) && Fits(Obj(fs), k.maxDepth - 1 - |m.below|)
    ensures Eat(k, m, Print(f, Obj(fs), level)) == Some(r)
    ensures DoneWith(m.below, r, Obj(ReadBackFields(fs)))
    decreases fs, 2
  {
    hide Step, Eat, Call, ClosingGap, ReadBack, AllFieldsFit;
    var text := Print(f, Obj(fs), level);
    Opened(k, m, text);
    var b := m.(top := Srec(EatWs, FieldStart, Obj([]), None));
    if fs == [] {
      var w := ClosingGap(f, level, false);
      assert text[1..] == w + "}";
      GapsAreWs(f, level, false);
      WhiteSpaceEaten(k, b, w);
      EatThenEat(k, b, w, "}");
      r := EmptyCloses(k, b, FieldStart, Obj([]), "}");
    } else {
      MembersPrinted(f, fs, level);
      assert text[1..] == MembersText(f, fs, level);
      r := MembersEaten(k, b, f, [], fs, level, FieldStart);
      assert [] + ReadBackFields(fs) == ReadBackFields(fs);
    }
  }

  // ------------------------------------------------------------ any value

  lemma {:induction false} ValueEaten(k: Config, m: Mach, f: Flags, v: Json, level: nat) returns (r: Mach)
    requires AtValue(m) && Fits(v, k.maxDepth - 1 - |m.below|)
    ensures Eat(k, m, Print(f, v, level)) == Some(r)
    ensures Pending(m.below, r, v)
    decreases v, 2
  {
    hide Step, Eat, Call;
    match v
    case Arr(es) => r := ArrayEaten(k, m, f, es, level);
    case Obj(fs) => r := ObjectEaten(k, m, f, fs, level);
    case _ => r := ScalarEaten(k, m, f, v, level);
  }

  lemma {:induction false} ArrayEaten(k: Config, m: Mach, f: Flags, es: seq<Json>, level: nat) returns (r: Mach)
    requires AtValue(m) && Fits(Arr(es), k.maxDepth - 1 - |m.below|)
    ensures Eat(k, m, Print(f, Arr(es), level)) == Some(r)
    ensures DoneWith(m.below, r, Arr(ReadBackAll(es)))
    decreases es, 2
  {
    hide Step, Eat, Call, ClosingGap, ReadBack, AllFit;
    var text := Print(f, Arr(es), level);
    Opened(k, m, text);
    var b := m.(top := Srec(EatWs, Array, Arr([]), None));
    if es == [] {
      var w := ClosingGap(f, level, false);
      assert text[1..] == w + "]";
      GapsAreWs(f, level, false);
      WhiteSpaceEaten(k, b, w);
      EatThenEat(k, b, w, "]");
      r := EmptyCloses(k, b, Array, Arr([]), "]");
    } else {
      ElementsPrinted(f, es, level);
      assert text[1..] == ElementsText(f, es, level);
      r := ElementsEaten(k, b, f, [], es, level, Array);
      assert [] + ReadBackAll(es) == ReadBackAll(es);
    }
  }

  /** The closing bracket of an empty container. */
  lemma EmptyCloses(k: Config, b: Mach, s: State, current: Json, bracket: string) returns (r: Mach)
    requires Awaits(b, s, current)
    requires (s == Array && bracket == "]") || (s == FieldStart && bracket == "}")
    ensures Eat(k, b, bracket) == Some(r) && DoneWith(b.below, r, current)
  {
    hide Step, Eat, Call;
    TokenTurn(k, b, bracket[0]);
    RedoEat(k, b, bracket);
    var a := Goto(b, s);
    StackTurn(k, a, bracket[0]);
    AdvanceEat(k, a, bracket);
    r := Step(k, a, bracket[0]).m;
    NothingLeft(k, r);
  }

  // ------------------------------------------------------------ the round trip

  /** The NUL behind the text ends a value at depth 0. */
  lemma EndsAtNul(k: Config, m: Mach, v: Json) returns (after: Mach)
    requires DoneWith([], m, v)
    ensures Call(k, m, [NUL]) == Ok(v, after, [NUL])
    ensures after.below == [] && after.top == LEVEL_RESET
  {
    hide Step, Eat;
    TokenTurn(k, m, NUL);
    RedoEat(k, m, [NUL]);
    var fin := Goto(m, Finish);
    StackTurn(k, fin, NUL);
    after := ResetLevels(fin);
  }

  /**
   The round trip: `json_tokener_parse` of the printed text succeeds, reads up to the final NUL
   and gives the tree back, for every printing flag, strict or not.
   */
  lemma ParsePrinted(k: Config, f: Flags, v: Json)
    requires k.maxDepth >= 1 && Fits(v, k.maxDepth - 1)
    ensures var o := ParseText(k, Print(f, v, 0));
            && o.Ok? && o.value == ReadBack(v) && o.rest == [NUL]
            && o.after.below == [] && o.after.top == LEVEL_RESET
  {
    hide Step, Eat, Call, ReadBack;
    var text := Print(f, v, 0);
    var r := ValueEaten(k, FRESH, f, v, 0);
    EatThenCall(k, FRESH, text, [NUL]);
    var q := Settled(k, [], r, v, [NUL]);
    var after := EndsAtNul(k, q, ReadBack(v));
  }

  /** A printed text can be cut anywhere. */
  lemma PrintedIsQuiet(k: Config, f: Flags, v: Json)
    requires k.maxDepth >= 1 && Fits(v, k.maxDepth - 1)
    ensures BetweenCalls(k, FRESH) && Quiet(k, Resume(FRESH), Print(f, v, 0) + [NUL])
  {
    hide Step, Eat, Call, Quiet, Spot;
    var r := ValueEaten(k, FRESH, f, v, 0);
    EatIsQuiet(k, FRESH, Print(f, v, 0), [NUL]);
    NulIsQuiet(k, r);
  }
}
