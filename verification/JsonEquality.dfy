/**
 `json_object_equal`: recursive comparison with lookups in both directions. Its meaning is
 equality of the values the trees denote, where integers are numbers and objects are maps. The two
 trees share no object: one object is equal to itself without a look inside.
 */
module JsonEquality {
  import opened Basics
  import opened OrderedMap
  import opened JsonValue
  import opened JsonPrinter
  import opened TokenerMachine
  import opened RoundTripScalars
  import opened RoundTrip

  /** The comparison of `_int64` and `_uint64` representations. */
  predicate IntsEqual(a: Json, b: Json)
    requires (a.Int? || a.UInt?) && (b.Int? || b.UInt?)
  {
    if a.Int? then
      if b.Int? then a.i == b.i
      else if a.i < 0 then false
      else a.i == b.u
    else if b.UInt? then a.u == b.u
    else if b.i < 0 then false
    else a.u == b.i
  }

  /** How a double's text is read: NaN, or a number that tells the double from those it is not equal to. */
  type Reading = string -> Option<int>

  predicate Equal(d: Reading, a: Json, b: Json)
    decreases a, 1
  {
    match a
    case Null => b.Null?
    case Bool(x) => b.Bool? && x == b.b
    case Int(_) => (b.Int? || b.UInt?) && IntsEqual(a, b)
    case UInt(_) => (b.Int? || b.UInt?) && IntsEqual(a, b)
    case Double(t) => b.Double? && d(t).Some? && d(t) == d(b.text)
    case Str(s) => b.Str? && s == b.s
    case Arr(es) => b.Arr? && |es| == |b.elems| && ElementsEqual(d, es, b.elems)
    case Obj(fs) => b.Obj? && ValuesMatch(d, fs, b.fields) && KeysKnown(b.fields, fs)
  }

  predicate ElementsEqual(d: Reading, as_: seq<Json>, bs: seq<Json>)
    requires |as_| == |bs|
    decreases as_, 0
  {
    as_ == [] || (Equal(d, as_[0], bs[0]) && ElementsEqual(d, as_[1..], bs[1..]))
  }

  /** Every key of `fs` is in `gs` with an equal value. */
  predicate ValuesMatch(d: Reading, fs: seq<Field>, gs: seq<Field>)
    decreases fs, 0
  {
    fs == [] ||
    var fd: Field := fs[0];
    assert fd decreases to fd.val;
    Has(gs, fd.key) && Equal(d, fd.val, gs[Find(gs, fd.key)].val) && ValuesMatch(d, fs[1..], gs)
  }

  predicate KeysKnown(gs: seq<Field>, fs: seq<Field>) {
    forall i :: 0 <= i < |gs| ==> Has(fs, gs[i].key)
  }

  /** What a tree denotes: numbers without their representation, objects without their order. */
  datatype Value =
    | VNull
    | VBool(b: bool)
    | VInt(n: int)
    | VDouble(x: Option<int>)
    | VStr(s: string)
    | VArr(vs: seq<Value>)
    | VObj(m: map<string, Value>)

  function Denote(d: Reading, v: Json): Value {
    match v
    case Null => VNull
    case Bool(b) => VBool(b)
    case Int(i) => VInt(i)
    case UInt(u) => VInt(u)
    case Double(t) => VDouble(d(t))
    case Str(s) => VStr(s)
    case Arr(es) => VArr(DenoteAll(d, es))
    case Obj(fs) => VObj(DenoteFields(d, fs))
  }

  function DenoteAll(d: Reading, es: seq<Json>): (vs: seq<Value>)
    ensures |vs| == |es|
  {
    if es == [] then [] else [Denote(d, es[0])] + DenoteAll(d, es[1..])
  }

  function DenoteFields(d: Reading, fs: seq<Field>): map<string, Value> {
    if fs == [] then map[]
    else
      var fd: Field := fs[0];
      assert fd decreases to fd.val;
      DenoteFields(d, fs[1..])[fd.key := Denote(d, fd.val)]
  }

  lemma {:induction false} FieldsDenote(d: Reading, fs: seq<Field>, key: string)
    ensures key in DenoteFields(d, fs) <==> Has(fs, key)
    ensures Has(fs, key) ==> DenoteFields(d, fs)[key] == Denote(d, fs[Find(fs, key)].val)
  {
    if fs != [] && fs[0].key != key {
      FieldsDenote(d, fs[1..], key);
    }
  }

  /** Every object in the tree has distinct keys, as a linkhash table does. */
  ghost predicate WellKeyed(v: Json) {
    match v
    case Arr(es) => AllWellKeyed(es)
    case Obj(fs) => Distinct(fs) && FieldsWellKeyed(fs)
    case _ => true
  }

  ghost predicate AllWellKeyed(es: seq<Json>) {
    es == [] || (WellKeyed(es[0]) && AllWellKeyed(es[1..]))
  }

  ghost predicate FieldsWellKeyed(fs: seq<Field>) {
    fs == [] ||
    var fd: Field := fs[0];
    assert fd decreases to fd.val;
    WellKeyed(fd.val) && FieldsWellKeyed(fs[1..])
  }

  /** No double in the tree is NaN. */
  ghost predicate NoNaN(d: Reading, v: Json) {
    match v
    case Double(t) => d(t).Some?
    case Arr(es) => NoneNaN(d, es)
    case Obj(fs) => NoFieldNaN(d, fs)
    case _ => true
  }

  ghost predicate NoneNaN(d: Reading, es: seq<Json>) {
    es == [] || (NoNaN(d, es[0]) && NoneNaN(d, es[1..]))
  }

  ghost predicate NoFieldNaN(d: Reading, fs: seq<Field>) {
    fs == [] ||
    var fd: Field := fs[0];
    assert fd decreases to fd.val;
    NoNaN(d, fd.val) && NoFieldNaN(d, fs[1..])
  }

  /**
   `json_object_equal` holds exactly when the two trees denote the same value and have no NaN. So it
   compares mixed integer representations by mathematical value and ignores the order of keys.
   */
  lemma {:induction false} EqualIsDenotation(d: Reading, a: Json, b: Json)
    requires WellKeyed(a)
    ensures Equal(d, a, b) <==> Denote(d, a) == Denote(d, b) && NoNaN(d, a)
    decreases a, 1
  {
    match a
    case Arr(es) =>
      if b.Arr? && |es| == |b.elems| {
        ElementsDenotation(d, es, b.elems);
      }
    case Obj(fs) =>
      if b.Obj? {
        ObjectsDenotation(d, fs, b.fields);
      }
    case _ =>
  }

  lemma {:induction false} ElementsDenotation(d: Reading, es: seq<Json>, gs: seq<Json>)
    requires |es| == |gs| && AllWellKeyed(es)
    ensures ElementsEqual(d, es, gs) <==> DenoteAll(d, es) == DenoteAll(d, gs) && NoneNaN(d, es)
    decreases es, 0
  {
    if es != [] {
      EqualIsDenotation(d, es[0], gs[0]);
      ElementsDenotation(d, es[1..], gs[1..]);
      assert DenoteAll(d, es)[1..] == DenoteAll(d, es[1..]) && DenoteAll(d, gs)[1..] == DenoteAll(d, gs[1..]);
    }
  }

  /** The values match when every key of `fs` denotes the same in both. */
  lemma {:induction false} MatchesDenotation(d: Reading, fs: seq<Field>, gs: seq<Field>)
    requires FieldsWellKeyed(fs)
    ensures ValuesMatch(d, fs, gs) <==>
            && NoFieldNaN(d, fs)
            && forall i :: 0 <= i < |fs| ==>
                 fs[i].key in DenoteFields(d, gs) && DenoteFields(d, gs)[fs[i].key] == Denote(d, fs[i].val)
    decreases fs, 0
  {
    if fs != [] {
      var fd: Field := fs[0];
      assert fd decreases to fd.val;
      FieldsDenote(d, gs, fd.key);
      if Has(gs, fd.key) {
        EqualIsDenotation(d, fd.val, gs[Find(gs, fd.key)].val);
      }
      MatchesDenotation(d, fs[1..], gs);
      assert forall i :: 0 < i < |fs| ==> fs[i] == fs[1..][i - 1];
    }
  }

  lemma {:induction false} ObjectsDenotation(d: Reading, fs: seq<Field>, gs: seq<Field>)
    requires Distinct(fs) && FieldsWellKeyed(fs)
    ensures ValuesMatch(d, fs, gs) && KeysKnown(gs, fs) <==>
              DenoteFields(d, fs) == DenoteFields(d, gs) && NoFieldNaN(d, fs)
    decreases fs, 1
  {
    hide Denote, ValuesMatch, DenoteFields, FieldsWellKeyed, NoFieldNaN;
    MatchesDenotation(d, fs, gs);
    forall key: string
      ensures key in DenoteFields(d, fs) <==> Has(fs, key)
      ensures key in DenoteFields(d, gs) <==> Has(gs, key)
      ensures Has(fs, key) ==> DenoteFields(d, fs)[key] == Denote(d, fs[Find(fs, key)].val)
    {
      FieldsDenote(d, fs, key);
      FieldsDenote(d, gs, key);
    }
    forall i | 0 <= i < |fs|
      ensures fs[i].key in DenoteFields(d, fs) && DenoteFields(d, fs)[fs[i].key] == Denote(d, fs[i].val)
    {
      FindUnique(fs, i);
    }
    if ValuesMatch(d, fs, gs) && KeysKnown(gs, fs) {
      forall key | key in DenoteFields(d, gs)
        ensures key in DenoteFields(d, fs)
      {
        assert Has(fs, gs[Find(gs, key)].key);
      }
      assert forall key :: key in DenoteFields(d, fs) ==> fs[Find(fs, key)].key == key;
    }
  }

  lemma {:induction false} FieldHasNoNaN(d: Reading, fs: seq<Field>, i: nat)
    requires NoFieldNaN(d, fs) && i < |fs|
    ensures NoNaN(d, fs[i].val)
  {
    if i > 0 {
      FieldHasNoNaN(d, fs[1..], i - 1);
    }
  }

  /** A NaN is seen in the value a tree denotes. */
  lemma {:induction false} NaNShows(d: Reading, a: Json, b: Json)
    requires WellKeyed(b) && Denote(d, a) == Denote(d, b) && NoNaN(d, a)
    ensures NoNaN(d, b)
    decreases b, 1
  {
    match b
    case Arr(es) => NaNsShow(d, a.elems, es);
    case Obj(fs) =>
      forall i | 0 <= i < |fs|
        ensures Has(a.fields, fs[i].key) && fs[i].key in DenoteFields(d, a.fields)
        ensures Denote(d, fs[i].val) == DenoteFields(d, a.fields)[fs[i].key]
      {
        FieldsDenote(d, fs, fs[i].key);
        FieldsDenote(d, a.fields, fs[i].key);
        FindUnique(fs, i);
      }
      FieldNaNsShow(d, a.fields, fs);
    case _ =>
  }

  lemma {:induction false} NaNsShow(d: Reading, as_: seq<Json>, bs: seq<Json>)
    requires AllWellKeyed(bs) && DenoteAll(d, as_) == DenoteAll(d, bs) && NoneNaN(d, as_)
    ensures NoneNaN(d, bs)
    decreases bs, 0
  {
    if bs != [] {
      assert DenoteAll(d, as_)[0] == DenoteAll(d, bs)[0];
      assert DenoteAll(d, as_)[1..] == DenoteAll(d, as_[1..]) && DenoteAll(d, bs)[1..] == DenoteAll(d, bs[1..]);
      NaNShows(d, as_[0], bs[0]);
      NaNsShow(d, as_[1..], bs[1..]);
    }
  }

  lemma {:induction false} FieldNaNsShow(d: Reading, fs: seq<Field>, gs: seq<Field>)
    requires FieldsWellKeyed(gs) && NoFieldNaN(d, fs)
    requires forall i :: 0 <= i < |gs| ==> Has(fs, gs[i].key) && gs[i].key in DenoteFields(d, fs)
                                           && Denote(d, gs[i].val) == DenoteFields(d, fs)[gs[i].key]
    ensures NoFieldNaN(d, gs)
    decreases gs, 0
  {
    if gs != [] {
      var fd: Field := gs[0];
      assert fd decreases to fd.val;
      FieldsDenote(d, fs, fd.key);
      FieldHasNoNaN(d, fs, Find(fs, fd.key));
      NaNShows(d, fs[Find(fs, fd.key)].val, fd.val);
      assert forall i :: 0 <= i < |gs[1..]| ==> gs[1..][i] == gs[i + 1];
      FieldNaNsShow(d, fs, gs[1..]);
    }
  }

  /** Symmetric and transitive on trees with distinct keys, and reflexive exactly where there is no NaN. */
  lemma EqualIsEquivalence(d: Reading, a: Json, b: Json, c: Json)
    requires WellKeyed(a) && WellKeyed(b) && WellKeyed(c)
    ensures Equal(d, a, a) <==> NoNaN(d, a)
    ensures Equal(d, a, b) ==> Equal(d, b, a)
    ensures Equal(d, a, b) && Equal(d, b, c) ==> Equal(d, a, c)
  {
    hide Equal, Denote, NoNaN;
    EqualIsDenotation(d, a, a);
    EqualIsDenotation(d, a, b);
    EqualIsDenotation(d, b, a);
    EqualIsDenotation(d, b, c);
    EqualIsDenotation(d, a, c);
    if Equal(d, a, b) {
      NaNShows(d, a, b);
    }
  }

  // ------------------------------------------------------------ the round trip, up to equality

  lemma {:induction false} ReadBackDenotes(d: Reading, v: Json)
    ensures Denote(d, ReadBack(v)) == Denote(d, v)
    decreases v, 1
  {
    match v
    case Arr(es) => ReadBackAllDenotes(d, es);
    case Obj(fs) => ReadBackFieldsDenotes(d, fs);
    case _ =>
  }

  lemma {:induction false} ReadBackAllDenotes(d: Reading, es: seq<Json>)
    ensures DenoteAll(d, ReadBackAll(es)) == DenoteAll(d, es)
    decreases es, 0
  {
    if es != [] {
      ReadBackDenotes(d, es[0]);
      ReadBackAllDenotes(d, es[1..]);
      assert ReadBackAll(es)[1..] == ReadBackAll(es[1..]);
    }
  }

  lemma {:induction false} ReadBackFieldsDenotes(d: Reading, fs: seq<Field>)
    ensures DenoteFields(d, ReadBackFields(fs)) == DenoteFields(d, fs)
    decreases fs, 0
  {
    if fs != [] {
      var fd: Field := fs[0];
      assert fd decreases to fd.val;
      ReadBackDenotes(d, fd.val);
      ReadBackFieldsDenotes(d, fs[1..]);
      assert ReadBackFields(fs)[1..] == ReadBackFields(fs[1..]);
    }
  }

  lemma {:induction false} FitsWellKeyed(v: Json, room: int)
    requires Fits(v, room)
    ensures WellKeyed(v)
    decreases v, 1
  {
    match v
    case Arr(es) => AllFitWellKeyed(es, room - 1);
    case Obj(fs) => FieldsFitWellKeyed(fs, room - 1);
    case _ =>
  }

  lemma {:induction false} AllFitWellKeyed(es: seq<Json>, room: int)
    requires es == [] || AllFit(es, room)
    ensures AllWellKeyed(es)
    decreases es, 0
  {
    if es != [] {
      FitsWellKeyed(es[0], room);
      AllFitWellKeyed(es[1..], room);
    }
  }

  lemma {:induction false} FieldsFitWellKeyed(fs: seq<Field>, room: int)
    requires fs == [] || AllFieldsFit(fs, room)
    ensures FieldsWellKeyed(fs)
    decreases fs, 0
  {
    if fs != [] {
      var fd: Field := fs[0];
      assert fd decreases to fd.val;
      FitsWellKeyed(fd.val, room);
      FieldsFitWellKeyed(fs[1..], room);
    }
  }

  lemma {:induction false} FitsNoNaN(d: Reading, v: Json, room: int)
    requires Fits(v, room)
    ensures NoNaN(d, v)
    decreases v, 1
  {
    match v
    case Arr(es) => AllFitNoNaN(d, es, room - 1);
    case Obj(fs) => FieldsFitNoNaN(d, fs, room - 1);
    case _ =>
  }

  lemma {:induction false} AllFitNoNaN(d: Reading, es: seq<Json>, room: int)
    requires es == [] || AllFit(es, room)
    ensures NoneNaN(d, es)
    decreases es, 0
  {
    if es != [] {
      FitsNoNaN(d, es[0], room);
      AllFitNoNaN(d, es[1..], room);
    }
  }

  lemma {:induction false} FieldsFitNoNaN(d: Reading, fs: seq<Field>, room: int)
    requires fs == [] || AllFieldsFit(fs, room)
    ensures NoFieldNaN(d, fs)
    decreases fs, 0
  {
    if fs != [] {
      var fd: Field := fs[0];
      assert fd decreases to fd.val;
      FitsNoNaN(d, fd.val, room);
      FieldsFitNoNaN(d, fs[1..], room);
    }
  }

  /**
   Print, then parse: for every tree without doubles that fits the depth limit, every printing
   flag and strict or lenient parsing, the result is one that `json_object_equal` accepts.
   */
  lemma PrintThenParse(k: Config, d: Reading, f: Flags, v: Json)
    requires k.maxDepth >= 1 && Fits(v, k.maxDepth - 1)
    ensures var o := ParseText(k, Print(f, v, 0));
            o.Ok? && Equal(d, v, o.value) && o.rest == [NUL]
  {
    hide Step, Call, Print, Equal, Denote, ReadBack, NoNaN;
    ParsePrinted(k, f, v);
    FitsNoNaN(d, v, k.maxDepth - 1);
    ReadBackDenotes(d, v);
    FitsWellKeyed(v, k.maxDepth - 1);
    EqualIsDenotation(d, v, ReadBack(v));
  }
}
