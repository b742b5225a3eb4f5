/**
 printbuf.c, and the `*_to_json_string` functions of json_object.c that write a tree into it piece
 by piece. The pieces are proved to add up to the text that JsonPrinter defines.
 */
module PrintBuf {
  import opened Basics
  import opened OrderedMap
  import opened JsonValue
  import opened Decimal
  import opened JsonPrinter

  /** A text of `n` characters and its terminator can still be held. */
  predicate Room(memory: bool, n: nat) {
    memory && n + 9 <= INT_MAX
  }

  /**
   How a run of appends leaves a buffer: the text follows what was there, or a piece was lost, which
   happens only when the whole does not fit.
   */
  predicate Grew(memory: bool, before: string, lostBefore: bool, after: string, lost: bool, text: string) {
    && (!lost ==> !lostBefore && after == before + text)
    && (lost ==> lostBefore || !Room(memory, |before| + |text|))
  }

  lemma GrewNot(memory: bool, before: string, lost: bool)
    ensures Grew(memory, before, lost, before, lost, "")
  {
  }

  lemma GrewTwice(memory: bool, b0: string, l0: bool, b1: string, l1: bool, t1: string, b2: string, l2: bool,
      t2: string)
    requires Grew(memory, b0, l0, b1, l1, t1) && Grew(memory, b1, l1, b2, l2, t2)
    ensures Grew(memory, b0, l0, b2, l2, t1 + t2)
  {
    assert b0 + t1 + t2 == b0 + (t1 + t2);
  }

  /** A run that lost a piece stays a losing one when more text would have followed. */
  lemma GrewShort(memory: bool, before: string, lostBefore: bool, after: string, t: string, text: string)
    requires Grew(memory, before, lostBefore, after, true, t) && |t| <= |text|
    ensures Grew(memory, before, lostBefore, after, true, text)
  {
  }

  /** What `printbuf_memset` leaves of a text; a gap before `start` becomes NULs. */
  function Overlay(text: string, start: nat, c: char, len: nat): string {
    (if start <= |text| then text[..start] else text + Repeat(NUL, start - |text|))
    + Repeat(c, len)
    + (if start + len <= |text| then text[start + len..] else "")
  }

  class Buf {
    var buf: array<char>
    var bpos: int
    var size: int
    /** Whether `realloc` finds memory. */
    const memory: bool
    /** An append failed, and its caller went on. */
    ghost var lost: bool

    ghost predicate Valid()
      reads this, buf
    {
      buf.Length == size && 0 <= bpos <= size <= INT_MAX && 0 < size
    }

    ghost function Text(): string
      reads this, buf
      requires Valid()
    {
      buf[..bpos]
    }

    /** The text is a C string. */
    ghost predicate Terminated()
      reads this, buf
      requires Valid()
    {
      bpos < size && buf[bpos] == NUL
    }

    constructor New(memory: bool)
      ensures Valid() && Terminated() && fresh(buf) && Text() == "" && !lost && size == 32 && this.memory == memory
    {
      this.memory := memory;
      size, bpos, lost := 32, 0, false;
      buf := new char[32](_ => NUL);
    }

    /** `printbuf_reset`. */
    method Reset()
      requires Valid()
      modifies this, buf
      ensures Valid() && Terminated() && buf == old(buf) && Text() == "" && !lost
    {
      buf[0] := NUL;
      bpos, lost := 0, false;
    }

    /** `printbuf_extend`. */
    method Extend(minSize: int) returns (rc: int)
      requires Valid() && 0 <= minSize <= INT_MAX
      modifies this`buf, this`size
      ensures Valid() && (buf == old(buf) || fresh(buf)) && Text() == old(Text())
      ensures rc == 0 || rc == -1
      ensures rc == 0 <==> minSize <= old(size) || (memory && minSize <= INT_MAX - 8)
      ensures rc == 0 ==> if minSize <= old(size) then buf == old(buf) && size == old(size) else minSize + 8 <= size
      ensures rc == -1 ==> buf == old(buf) && size == old(size)
    {
      if size >= minSize {
        return 0;
      }
      if minSize > INT_MAX - 8 {
        return -1;
      }
      var newSize;
      if size > INT_MAX / 2 {
        newSize := minSize + 8;
      } else {
        newSize := size * 2;
        if newSize < minSize + 8 {
          newSize := minSize + 8;
        }
      }
      if !memory {
        return -1;
      }
      var t := new char[newSize];
      forall i | 0 <= i < size {
        t[i] := buf[i];
      }
      size, buf := newSize, t;
      return 0;
    }

    /** `memcpy` to the end, and the terminator. */
    method Copy(s: string)
      requires Valid() && bpos + |s| < size
      modifies this`bpos, buf
      ensures Valid() && Terminated() && Text() == old(Text()) + s
    {
      forall i | 0 <= i < |s| {
        buf[bpos + i] := s[i];
      }
      bpos := bpos + |s|;
      buf[bpos] := NUL;
      assert buf[..bpos] == old(buf[..bpos]) + s;
    }

    /** `printbuf_memappend`. */
    method MemAppend(s: string) returns (rc: int)
      requires Valid() && |s| <= INT_MAX
      modifies this, buf
      ensures Valid() && (buf == old(buf) || fresh(buf))
      ensures rc == |s| || rc == -1
      ensures rc == |s| ==> Terminated() && Text() == old(Text()) + s && lost == old(lost)
      ensures rc == -1 ==> Text() == old(Text()) && lost
      ensures Grew(memory, old(Text()), old(lost), Text(), lost, s)
    {
      if |s| > INT_MAX - bpos - 1 {
        lost := true;
        return -1;
      }
      if size <= bpos + |s| + 1 {
        var r := Extend(bpos + |s| + 1);
        if r < 0 {
          lost := true;
          return -1;
        }
      }
      Copy(s);
      return |s|;
    }

    /** `printbuf_memappend_fast`. */
    method MemAppendFast(s: string)
      requires Valid() && |s| <= INT_MAX
      modifies this, buf
      ensures Valid() && (buf == old(buf) || fresh(buf))
      ensures Grew(memory, old(Text()), old(lost), Text(), lost, s)
    {
      if size - bpos > |s| {
        Copy(s);
      } else {
        var _ := MemAppend(s);
      }
    }

    /**
     `printbuf_memset`. It writes no terminator: without growth the text is terminated if and only if the
     byte behind it lies in the buffer and is NUL already. After growth there is room for a terminator,
     but the byte there is whatever `realloc` left.
     */
    method Memset(offset: int, c: char, len: int) returns (rc: int)
      requires Valid()
      modifies this, buf
      ensures Valid() && (buf == old(buf) || fresh(buf)) && lost == old(lost)
      ensures var start := if offset == -1 then |old(Text())| else offset;
              && (rc == 0 || rc == -1)
              && (rc == 0 <==> len >= 0 && start >= 0 && start + len <= INT_MAX
                               && (start + len <= old(size) || (memory && start + len <= INT_MAX - 8)))
              && (rc == 0 ==> Text() == Overlay(old(Text()), start, c, len))
              && (rc == -1 ==> Text() == old(Text()))
              && (start + len <= old(size) ==> size == old(size))
              && (rc == 0 && start + len <= old(size) ==>
                    (Terminated() <==> |Text()| < old(size) && old(buf[..])[|Text()|] == NUL))
              && (rc == 0 && start + len > old(size) ==> |Text()| + 8 <= size)
              && (rc == -1 ==> buf == old(buf) && buf[..] == old(buf[..]))
    {
      var start := if offset == -1 then bpos else offset;
      if len < 0 || start < -1 || len > INT_MAX - start {
        return -1;
      }
      var needed := start + len;
      if size < needed {
        var r := Extend(needed);
        if r < 0 {
          return -1;
        }
      }
      ghost var before := Text();
      SetChars(start, c, len);
      OverlayShape(before, Text(), start, c, len);
      return 0;
    }

    method SetChars(start: nat, c: char, len: nat)
      requires Valid() && start + len <= size
      modifies this`bpos, buf
      ensures Valid() && bpos == if old(bpos) < start + len then start + len else old(bpos)
      ensures forall i :: 0 <= i < bpos ==>
                buf[i] == if start <= i < start + len then c else if i < old(bpos) then old(buf[i]) else NUL
      ensures forall i :: bpos <= i < size ==> buf[i] == old(buf[i])
    {
      if bpos < start {
        forall i | bpos <= i < start {
          buf[i] := NUL;
        }
      }
      forall i | start <= i < start + len {
        buf[i] := c;
      }
      if bpos < start + len {
        bpos := start + len;
      }
    }
  }

  lemma OverlayShape(before: string, after: string, start: nat, c: char, len: nat)
    requires |after| == if |before| < start + len then start + len else |before|
    requires forall i :: 0 <= i < |after| ==>
               after[i] == if start <= i < start + len then c else if i < |before| then before[i] else NUL
    ensures after == Overlay(before, start, c, len)
  {
  }

  /** A `memset` that fills the buffer to the brim leaves no room for a terminator. */
  method MemsetMayNotTerminate() returns (pb: Buf)
    ensures pb.Valid() && |pb.Text()| == 32 && !pb.Terminated()
  {
    pb := new Buf.New(true);
    var rc := pb.Memset(-1, ' ', 32);
  }

  // ------------------------------------------------------------ writing a tree

  predicate NeedsEscape(f: Flags, c: char) {
    EscapeChar(f, c) != [c]
  }

  lemma {:induction false} EscapeAppend(f: Flags, a: string, b: string)
    ensures Escape(f, a + b) == Escape(f, a) + Escape(f, b)
  {
    if a == "" {
      assert a + b == b;
    } else {
      assert (a + b)[1..] == a[1..] + b;
      EscapeAppend(f, a[1..], b);
    }
  }

  lemma {:induction false} EscapePlain(f: Flags, s: string)
    requires forall i :: 0 <= i < |s| ==> !NeedsEscape(f, s[i])
    ensures Escape(f, s) == s
  {
    hide EscapeChar;
    if s != "" {
      EscapePlain(f, s[1..]);
      assert s == [s[0]] + s[1..];
    }
  }

  /** The stretch of plain characters that is waiting, written in one piece. */
  method FlushPlain(pb: Buf, f: Flags, str: string, start: nat, pos: nat, ghost b0: string, ghost l0: bool)
    requires pb.Valid() && start <= pos <= |str| <= INT_MAX
    requires forall i :: start <= i < pos ==> !NeedsEscape(f, str[i])
    requires Grew(pb.memory, b0, l0, pb.Text(), pb.lost, Escape(f, str[..start]))
    modifies pb, pb.buf
    ensures pb.Valid() && (pb.buf == old(pb.buf) || fresh(pb.buf))
    ensures Grew(pb.memory, b0, l0, pb.Text(), pb.lost, Escape(f, str[..pos]))
  {
    hide Escape, NeedsEscape, Grew;
    ghost var b1, l1 := pb.Text(), pb.lost;
    assert str[..pos] == str[..start] + str[start..pos];
    EscapeAppend(f, str[..start], str[start..pos]);
    EscapePlain(f, str[start..pos]);
    if pos > start {
      var _ := pb.MemAppend(str[start..pos]);
      GrewTwice(pb.memory, b0, l0, b1, l1, Escape(f, str[..start]), pb.Text(), pb.lost, str[start..pos]);
    } else {
      assert str[..pos] == str[..start];
    }
  }

  /** The waiting stretch, and then the escape of the character after it. */
  method EmitEscape(pb: Buf, f: Flags, str: string, start: nat, pos: nat, esc: string, fast: bool, ghost b0: string,
      ghost l0: bool)
    requires pb.Valid() && start <= pos < |str| <= INT_MAX && esc == EscapeChar(f, str[pos]) && |esc| <= 6
    requires forall i :: start <= i < pos ==> !NeedsEscape(f, str[i])
    requires Grew(pb.memory, b0, l0, pb.Text(), pb.lost, Escape(f, str[..start]))
    modifies pb, pb.buf
    ensures pb.Valid() && (pb.buf == old(pb.buf) || fresh(pb.buf))
    ensures Grew(pb.memory, b0, l0, pb.Text(), pb.lost, Escape(f, str[..pos + 1]))
  {
    hide Escape, NeedsEscape, Grew, EscapeChar;
    FlushPlain(pb, f, str, start, pos, b0, l0);
    ghost var b1, l1 := pb.Text(), pb.lost;
    if fast {
      pb.MemAppendFast(esc);
    } else {
      var _ := pb.MemAppend(esc);
    }
    GrewTwice(pb.memory, b0, l0, b1, l1, Escape(f, str[..pos]), pb.Text(), pb.lost, esc);
    EscapeOneMore(f, str, pos);
  }

  /** `json_escape_str`: plain stretches are copied in one piece. */
  method EscapeStr(pb: Buf, f: Flags, str: string)
    requires pb.Valid() && |str| <= INT_MAX
    modifies pb, pb.buf
    ensures pb.Valid() && (pb.buf == old(pb.buf) || fresh(pb.buf))
    ensures Grew(pb.memory, old(pb.Text()), old(pb.lost), pb.Text(), pb.lost, Escape(f, str))
  {
    hide Escape, Grew, EscapeChar, NeedsEscape, IsSpecial, ShortEscape, HexDigit;
    ghost var b0, l0 := pb.Text(), pb.lost;
    var pos, start := 0, 0;
    GrewNot(pb.memory, b0, l0);
    NothingEscaped(f, str);
    while pos < |str|
      invariant 0 <= start <= pos <= |str| && pb.Valid() && (pb.buf == old(pb.buf) || fresh(pb.buf))
      invariant forall i :: start <= i < pos ==> !NeedsEscape(f, str[i])
      invariant Grew(pb.memory, b0, l0, pb.Text(), pb.lost, Escape(f, str[..start]))
    {
      var c := str[pos];
      EscapeCases(f, c);
      if IsSpecial(c) {
        if f.noSlashEscape && c == '/' {
          pos := pos + 1;
        } else {
          EmitEscape(pb, f, str, start, pos, ShortEscape(c), false, b0, l0);
          pos := pos + 1;
          start := pos;
        }
      } else if c < ' ' {
        var sbuf := "\\u00" + [HexDigit(c as int / 16), HexDigit(c as int % 16)];
        EmitEscape(pb, f, str, start, pos, sbuf, true, b0, l0);
        pos := pos + 1;
        start := pos;
      } else {
        pos := pos + 1;
      }
    }
    FlushPlain(pb, f, str, start, pos, b0, l0);
    assert str[..pos] == str;
  }

  lemma NothingEscaped(f: Flags, str: string)
    ensures Escape(f, str[..0]) == ""
  {
  }

  lemma EscapeOneMore(f: Flags, s: string, pos: nat)
    requires pos < |s|
    ensures Escape(f, s[..pos + 1]) == Escape(f, s[..pos]) + EscapeChar(f, s[pos])
  {
    hide EscapeChar;
    assert s[..pos + 1] == s[..pos] + [s[pos]];
    EscapeAppend(f, s[..pos], [s[pos]]);
    assert [s[pos]][1..] == "";
  }

  /** The characters with a case of their own in the switch. */
  predicate IsSpecial(c: char) {
    c == 8 as char || c == '\n' || c == '\r' || c == '\t' || c == 12 as char || c == '"' || c == '\\' || c == '/'
  }

  function ShortEscape(c: char): (s: string)
    requires IsSpecial(c)
    ensures |s| == 2
  {
    if c == 8 as char then "\\b"
    else if c == '\n' then "\\n"
    else if c == '\r' then "\\r"
    else if c == '\t' then "\\t"
    else if c == 12 as char then "\\f"
    else if c == '"' then "\\\""
    else if c == '\\' then "\\\\"
    else "\\/"
  }

  lemma EscapeCases(f: Flags, c: char)
    ensures IsSpecial(c) && !(f.noSlashEscape && c == '/') ==> EscapeChar(f, c) == ShortEscape(c)
    ensures IsSpecial(c) && f.noSlashEscape && c == '/' ==> !NeedsEscape(f, c)
    ensures !IsSpecial(c) && c < ' ' ==> EscapeChar(f, c) == "\\u00" + [HexDigit(c as int / 16),
        HexDigit(c as int % 16)]
    ensures !IsSpecial(c) && c >= ' ' ==> !NeedsEscape(f, c)
  {
    hide HexDigit;
  }

  /** `printbuf_strappend` after text that is already accounted for. */
  method Append(pb: Buf, s: string, ghost b0: string, ghost l0: bool, ghost t0: string) returns (rc: int)
    requires pb.Valid() && |s| <= INT_MAX && Grew(pb.memory, b0, l0, pb.Text(), pb.lost, t0)
    modifies pb, pb.buf
    ensures pb.Valid() && (pb.buf == old(pb.buf) || fresh(pb.buf))
    ensures Grew(pb.memory, b0, l0, pb.Text(), pb.lost, t0 + s)
    ensures !pb.lost ==> pb.Terminated()
    ensures rc < 0 ==> pb.lost
  {
    hide Grew;
    ghost var b1, l1 := pb.Text(), pb.lost;
    rc := pb.MemAppend(s);
    GrewTwice(pb.memory, b0, l0, b1, l1, t0, pb.Text(), pb.lost, s);
  }

  /** `indent`. */
  method AppendIndent(pb: Buf, f: Flags, level: nat, ghost b0: string, ghost l0: bool, ghost t0: string)
    requires pb.Valid() && Grew(pb.memory, b0, l0, pb.Text(), pb.lost, t0)
    modifies pb, pb.buf
    ensures pb.Valid() && (pb.buf == old(pb.buf) || fresh(pb.buf))
    ensures Grew(pb.memory, b0, l0, pb.Text(), pb.lost, t0 + Indent(f, level))
  {
    ghost var b1, l1 := pb.Text(), pb.lost;
    if f.pretty {
      var rc;
      if f.prettyTab {
        rc := pb.Memset(-1, '\t', level);
      } else {
        rc := pb.Memset(-1, ' ', level * 2);
      }
      if rc < 0 {
        pb.lost := true;
      }
      assert b1 + Indent(f, level) + "" == b1 + Indent(f, level);
    } else {
      assert b1 + "" == b1;
    }
    GrewTwice(pb.memory, b0, l0, b1, l1, t0, pb.Text(), pb.lost, Indent(f, level));
  }

  /** Strings are at most INT_MAX long, as `json_object_new_string_len` has it. */
  predicate Small(v: Json)
    decreases v, 0
  {
    match v
    case Double(text) => |text| <= INT_MAX
    case Str(s) => |s| <= INT_MAX
    case Arr(es) => SmallElems(es)
    case Obj(fs) => SmallFields(fs)
    case _ => true
  }

  predicate SmallElems(es: seq<Json>)
    decreases es, 1
  {
    es == [] || (Small(es[0]) && SmallElems(es[1..]))
  }

  predicate SmallFields(fs: seq<Field>)
    decreases fs, 1
  {
    fs == [] ||
    var fd: Field := fs[0];
    assert fd decreases to fd.val;
    |fs[0].key| <= INT_MAX && Small(fs[0].val) && SmallFields(fs[1..])
  }

  lemma {:induction false} SmallAt(es: seq<Json>, i: nat)
    requires SmallElems(es) && i < |es|
    ensures Small(es[i])
  {
    if i > 0 {
      SmallAt(es[1..], i - 1);
    }
  }

  lemma {:induction false} SmallFieldAt(fs: seq<Field>, i: nat)
    requires SmallFields(fs) && i < |fs|
    ensures |fs[i].key| <= INT_MAX && Small(fs[i].val)
  {
    if i > 0 {
      SmallFieldAt(fs[1..], i - 1);
    }
  }

  function Nines(k: nat): nat {
    if k == 0 then 0 else Nines(k - 1) * 10 + 9
  }

  lemma {:induction false} DigitsShort(n: nat, k: nat)
    requires n <= Nines(k) && k >= 1
    ensures |Digits(n)| <= k
  {
    if n >= 10 {
      assert Nines(1) == 9;
      DigitsShort(n / 10, k - 1);
    }
  }

  /** With its terminator every 64-bit integer fits `sbuf[21]`. */
  lemma IntegersShort(i: int)
    requires INT64_MIN <= i <= UINT64_MAX
    ensures |SignedDigits(i)| <= 20
  {
    assert Nines(4) == 9999;
    assert Nines(8) == 9999_9999;
    assert Nines(12) == 9999_9999_9999;
    assert Nines(16) == 9999_9999_9999_9999;
    assert Nines(19) == 999_9999_9999_9999_9999;
    if i < 0 {
      DigitsShort(-i, 19);
    } else {
      DigitsShort(i, 20);
    }
  }

  lemma {:induction false} ElemsAppend(f: Flags, es: seq<Json>, e: Json, level: nat, first: bool)
    ensures PrintElems(f, es + [e], level, first) ==
            PrintElems(f, es, level, first) + Comma(first && es == []) + Gap(f, level + 1) + Print(f, e, level + 1)
  {
    hide Gap, Print, Comma;
    if es == [] {
      assert ([] + [e])[1..] == [];
    } else {
      assert (es + [e])[1..] == es[1..] + [e];
      ElemsAppend(f, es[1..], e, level, false);
    }
  }

  lemma {:induction false} FieldsAppend(f: Flags, fs: seq<Field>, fd: Field, level: nat, first: bool)
    ensures PrintFields(f, fs + [fd], level, first) ==
            PrintFields(f, fs, level, first) + Comma(first && fs == []) + Gap(f, level + 1)
            + Quoted(f, fd.key) + Colon(f) + Print(f, fd.val, level + 1)
  {
    hide Gap, Print, Comma, Colon, Quoted;
    if fs == [] {
      assert ([] + [fd])[1..] == [];
    } else {
      assert (fs + [fd])[1..] == fs[1..] + [fd];
      FieldsAppend(f, fs[1..], fd, level, false);
    }
  }

  /** The white space before a member. */
  method AppendGap(pb: Buf, f: Flags, level: nat, hadChildren: bool, ghost b0: string, ghost l0: bool, ghost t0: string)
    requires pb.Valid() && Grew(pb.memory, b0, l0, pb.Text(), pb.lost, t0)
    modifies pb, pb.buf
    ensures pb.Valid() && (pb.buf == old(pb.buf) || fresh(pb.buf))
    ensures Grew(pb.memory, b0, l0, pb.Text(), pb.lost, t0 + Comma(!hadChildren) + Gap(f, level))
  {
    hide Grew, Indent;
    ghost var t := t0;
    if hadChildren {
      var _ := Append(pb, ",", b0, l0, t);
      t := t + ",";
    }
    assert t == t0 + Comma(!hadChildren);
    ghost var t1 := t;
    if f.pretty {
      var _ := Append(pb, "\n", b0, l0, t);
      t := t + "\n";
    }
    if f.spaced && !f.pretty {
      var _ := Append(pb, " ", b0, l0, t);
      t := t + " ";
    }
    AppendIndent(pb, f, level, b0, l0, t);
    assert t + Indent(f, level) == t1 + Gap(f, level);
  }

  /** The white space and the bracket that close a container. */
  method AppendClosing(pb: Buf, f: Flags, level: nat, hadChildren: bool, bracket: string, ghost b0: string,
      ghost l0: bool, ghost t0: string)
    returns (rc: int)
    requires pb.Valid() && |bracket| == 1 && Grew(pb.memory, b0, l0, pb.Text(), pb.lost, t0)
    modifies pb, pb.buf
    ensures pb.Valid() && (pb.buf == old(pb.buf) || fresh(pb.buf)) && (!pb.lost ==> pb.Terminated())
    ensures Grew(pb.memory, b0, l0, pb.Text(), pb.lost, t0 + ClosingGap(f, level, hadChildren) + bracket)
    ensures rc < 0 ==> pb.lost
  {
    hide Grew, Indent;
    ghost var t := t0;
    if f.pretty && hadChildren {
      var _ := Append(pb, "\n", b0, l0, t);
      AppendIndent(pb, f, level, b0, l0, t + "\n");
      t := t + "\n" + Indent(f, level);
    }
    if f.spaced && !f.pretty {
      rc := Append(pb, " " + bracket, b0, l0, t);
      t := t + (" " + bracket);
    } else {
      rc := Append(pb, bracket, b0, l0, t);
      t := t + bracket;
    }
    assert t == t0 + ClosingGap(f, level, hadChildren) + bracket;
  }

  method AppendQuoted(pb: Buf, f: Flags, s: string, ghost b0: string, ghost l0: bool, ghost t0: string)
    requires pb.Valid() && |s| <= INT_MAX && Grew(pb.memory, b0, l0, pb.Text(), pb.lost, t0)
    modifies pb, pb.buf
    ensures pb.Valid() && (pb.buf == old(pb.buf) || fresh(pb.buf)) && (!pb.lost ==> pb.Terminated())
    ensures Grew(pb.memory, b0, l0, pb.Text(), pb.lost, t0 + Quoted(f, s))
  {
    hide Grew, Escape;
    var _ := Append(pb, "\"", b0, l0, t0);
    ghost var b1, l1 := pb.Text(), pb.lost;
    EscapeStr(pb, f, s);
    GrewTwice(pb.memory, b0, l0, b1, l1, t0 + "\"", pb.Text(), pb.lost, Escape(f, s));
    var _ := Append(pb, "\"", b0, l0, t0 + "\"" + Escape(f, s));
    assert t0 + "\"" + Escape(f, s) + "\"" == t0 + Quoted(f, s);
  }

  /** `snprintf` of a text into a buffer of its own: what does not fit is cut off. */
  method Snprintf(sbuf: array<char>, text: string) returns (len: nat)
    requires 0 < sbuf.Length
    modifies sbuf
    ensures len == if |text| < sbuf.Length then |text| else sbuf.Length - 1
    ensures sbuf[..len] == text[..len] && sbuf[len] == NUL
  {
    len := if |text| < sbuf.Length then |text| else sbuf.Length - 1;
    forall i | 0 <= i < len {
      sbuf[i] := text[i];
    }
    sbuf[len] := NUL;
  }

  /** `json_object_int_to_json_string`: nothing is cut off. */
  method PrintInteger(pb: Buf, i: int, ghost b0: string, ghost l0: bool) returns (rc: int)
    requires INT64_MIN <= i <= UINT64_MAX
    requires pb.Valid() && Grew(pb.memory, b0, l0, pb.Text(), pb.lost, "")
    modifies pb, pb.buf
    ensures pb.Valid() && (pb.buf == old(pb.buf) || fresh(pb.buf))
    ensures Grew(pb.memory, b0, l0, pb.Text(), pb.lost, "" + SignedDigits(i))
    ensures !pb.lost ==> pb.Terminated()
    ensures rc < 0 ==> pb.lost
  {
    hide Grew, SignedDigits;
    var sbuf := new char[21];
    var len := Snprintf(sbuf, SignedDigits(i));
    IntegersShort(i);
    assert sbuf[..len] == SignedDigits(i);
    rc := Append(pb, sbuf[..len], b0, l0, "");
  }

  /**
   The `*_to_json_string` functions: the pieces add up to the text of the tree, and end in a terminator.
   A negative result means that a piece was lost; but a lost piece need not give a negative result.
   */
  method PrintValue(pb: Buf, f: Flags, v: Json, level: nat) returns (rc: int)
    requires pb.Valid() && Small(v)
    modifies pb, pb.buf
    ensures pb.Valid() && (pb.buf == old(pb.buf) || fresh(pb.buf))
    ensures Grew(pb.memory, old(pb.Text()), old(pb.lost), pb.Text(), pb.lost, Print(f, v, level))
    ensures !pb.lost ==> pb.Terminated()
    ensures rc < 0 ==> pb.lost
    decreases v, 2
  {
    hide Grew, Gap, ClosingGap, Quoted, SignedDigits;
    ghost var b0, l0 := pb.Text(), pb.lost;
    GrewNot(pb.memory, b0, l0);
    rc := 0;
    if v.Null? {
      var _ := Append(pb, "null", b0, l0, "");
    } else if v.Bool? {
      rc := Append(pb, if v.b then "true" else "false", b0, l0, "");
    } else if v.Int? {
      rc := PrintInteger(pb, v.i, b0, l0);
    } else if v.UInt? {
      rc := PrintInteger(pb, v.u, b0, l0);
    } else if v.Double? {
      var _ := Append(pb, v.text, b0, l0, "");
    } else if v.Str? {
      AppendQuoted(pb, f, v.s, b0, l0, "");
    } else if v.Arr? {
      rc := PrintArray(pb, f, v, level);
    } else {
      rc := PrintObject(pb, f, v, level);
    }
    assert "" + Print(f, v, level) == Print(f, v, level);
  }

  lemma ElemText(f: Flags, es: seq<Json>, ii: nat, level: nat)
    requires ii < |es|
    ensures "[" + PrintElems(f, es[..ii], level, true) + Comma(ii == 0) + Gap(f, level + 1) + Print(f, es[ii],
        level + 1)
         == "[" + PrintElems(f, es[..ii + 1], level, true)
  {
    hide PrintElems, Gap, Print, Comma;
    ElemsAppend(f, es[..ii], es[ii], level, true);
    assert es[..ii + 1] == es[..ii] + [es[ii]];
  }

  lemma FieldText(f: Flags, fs: seq<Field>, ii: nat, level: nat)
    requires ii < |fs|
    ensures "{" + PrintFields(f, fs[..ii], level, true) + Comma(ii == 0) + Gap(f, level + 1)
              + Quoted(f, fs[ii].key) + Colon(f) + Print(f, fs[ii].val, level + 1)
         == "{" + PrintFields(f, fs[..ii + 1], level, true)
  {
    hide PrintFields, Gap, Print, Comma, Quoted, Colon;
    FieldsAppend(f, fs[..ii], fs[ii], level, true);
    assert fs[..ii + 1] == fs[..ii] + [fs[ii]];
  }

  /** What is left out when a member could not be printed is part of the text. */
  lemma {:induction false} ElemsPrefix(f: Flags, es: seq<Json>, n: nat, level: nat, first: bool)
    requires n <= |es|
    ensures |PrintElems(f, es[..n], level, first)| <= |PrintElems(f, es, level, first)|
  {
    hide Gap, Print, Comma;
    if n > 0 {
      assert es[..n][0] == es[0] && es[..n][1..] == es[1..][..n - 1];
      ElemsPrefix(f, es[1..], n - 1, level, false);
    }
  }

  lemma {:induction false} FieldsPrefix(f: Flags, fs: seq<Field>, n: nat, level: nat, first: bool)
    requires n <= |fs|
    ensures |PrintFields(f, fs[..n], level, first)| <= |PrintFields(f, fs, level, first)|
  {
    hide Gap, Print, Comma, Colon, Quoted;
    if n > 0 {
      assert fs[..n][0] == fs[0] && fs[..n][1..] == fs[1..][..n - 1];
      FieldsPrefix(f, fs[1..], n - 1, level, false);
    }
  }

  lemma ArrayPrefix(f: Flags, v: Json, n: nat, level: nat)
    requires v.Arr? && n <= |v.elems|
    ensures |"[" + PrintElems(f, v.elems[..n], level, true)| <= |Print(f, v, level)|
  {
    hide PrintElems;
    ElemsPrefix(f, v.elems, n, level, true);
  }

  lemma ObjectPrefix(f: Flags, v: Json, n: nat, level: nat)
    requires v.Obj? && n <= |v.fields|
    ensures |"{" + PrintFields(f, v.fields[..n], level, true)| <= |Print(f, v, level)|
  {
    hide PrintFields;
    FieldsPrefix(f, v.fields, n, level, true);
  }

  /** One turn of the array loop. */
  method AppendElem(pb: Buf, f: Flags, v: Json, ii: nat, level: nat, ghost b0: string, ghost l0: bool)
    returns (rc: int)
    requires pb.Valid() && v.Arr? && SmallElems(v.elems) && ii < |v.elems|
    requires Grew(pb.memory, b0, l0, pb.Text(), pb.lost, "[" + PrintElems(f, v.elems[..ii], level, true))
    modifies pb, pb.buf
    ensures pb.Valid() && (pb.buf == old(pb.buf) || fresh(pb.buf))
    ensures Grew(pb.memory, b0, l0, pb.Text(), pb.lost, "[" + PrintElems(f, v.elems[..ii + 1], level, true))
    ensures rc < 0 ==> pb.lost
    decreases v, 0
  {
    hide Grew, Gap, SmallElems, PrintElems, Print, Comma, Buf.Valid, Buf.Text, Buf.Terminated;
    ghost var t := "[" + PrintElems(f, v.elems[..ii], level, true);
    AppendGap(pb, f, level + 1, ii > 0, b0, l0, t);
    ghost var b1, l1, t1 := pb.Text(), pb.lost, t + Comma(ii == 0) + Gap(f, level + 1);
    SmallAt(v.elems, ii);
    rc := PrintValue(pb, f, v.elems[ii], level + 1);
    GrewTwice(pb.memory, b0, l0, b1, l1, t1, pb.Text(), pb.lost, Print(f, v.elems[ii], level + 1));
    ElemText(f, v.elems, ii, level);
  }

  method PrintArray(pb: Buf, f: Flags, v: Json, level: nat) returns (rc: int)
    requires pb.Valid() && v.Arr? && Small(v)
    modifies pb, pb.buf
    ensures pb.Valid() && (pb.buf == old(pb.buf) || fresh(pb.buf))
    ensures Grew(pb.memory, old(pb.Text()), old(pb.lost), pb.Text(), pb.lost, Print(f, v, level))
    ensures !pb.lost ==> pb.Terminated()
    ensures rc < 0 ==> pb.lost
    decreases v, 1
  {
    hide Grew, ClosingGap, Small, PrintElems, Buf.Valid, Buf.Text, Buf.Terminated;
    ghost var b0, l0 := pb.Text(), pb.lost;
    GrewNot(pb.memory, b0, l0);
    SmallMembers(v);
    NoMembers(f, level);
    var _ := Append(pb, "[", b0, l0, "");
    var hadChildren, ii := false, 0;
    assert v.elems[..0] == [] && "" + "[" == "[" + PrintElems(f, v.elems[..0], level, true);
    while ii < |v.elems|
      invariant 0 <= ii <= |v.elems| && hadChildren == (ii > 0)
      invariant pb.Valid() && (pb.buf == old(pb.buf) || fresh(pb.buf))
      invariant Grew(pb.memory, b0, l0, pb.Text(), pb.lost, "[" + PrintElems(f, v.elems[..ii], level, true))
    {
      rc := AppendElem(pb, f, v, ii, level, b0, l0);
      if rc < 0 {
        ArrayPrefix(f, v, ii + 1, level);
        GrewShort(pb.memory, b0, l0, pb.Text(), "[" + PrintElems(f, v.elems[..ii + 1], level, true), Print(f, v,
            level));
        return -1;
      }
      hadChildren := true;
      ii := ii + 1;
    }
    assert v.elems[..ii] == v.elems;
    rc := AppendClosing(pb, f, level, hadChildren, "]", b0, l0, "[" + PrintElems(f, v.elems, level, true));
  }

  /** One turn of the object loop. */
  method AppendField(pb: Buf, f: Flags, v: Json, ii: nat, level: nat, ghost b0: string, ghost l0: bool)
    returns (rc: int)
    requires pb.Valid() && v.Obj? && SmallFields(v.fields) && ii < |v.fields|
    requires Grew(pb.memory, b0, l0, pb.Text(), pb.lost, "{" + PrintFields(f, v.fields[..ii], level, true))
    modifies pb, pb.buf
    ensures pb.Valid() && (pb.buf == old(pb.buf) || fresh(pb.buf))
    ensures Grew(pb.memory, b0, l0, pb.Text(), pb.lost, "{" + PrintFields(f, v.fields[..ii + 1], level, true))
    ensures rc < 0 ==> pb.lost
    decreases v, 0
  {
    hide Grew, Gap, SmallFields, PrintFields, Print, Comma, Quoted, Buf.Valid, Buf.Text, Buf.Terminated;
    var fd: Field := v.fields[ii];
    assert (v.fields decreases to fd);
    assert (fd decreases to fd.val);
    ghost var t := "{" + PrintFields(f, v.fields[..ii], level, true);
    SmallFieldAt(v.fields, ii);
    AppendGap(pb, f, level + 1, ii > 0, b0, l0, t);
    ghost var t1 := t + Comma(ii == 0) + Gap(f, level + 1);
    AppendQuoted(pb, f, fd.key, b0, l0, t1);
    var _ := Append(pb, if f.spaced then ": " else ":", b0, l0, t1 + Quoted(f, fd.key));
    ghost var b1, l1, t2 := pb.Text(), pb.lost, t1 + Quoted(f, fd.key) + Colon(f);
    rc := PrintValue(pb, f, fd.val, level + 1);
    GrewTwice(pb.memory, b0, l0, b1, l1, t2, pb.Text(), pb.lost, Print(f, fd.val, level + 1));
    FieldText(f, v.fields, ii, level);
  }

  method PrintObject(pb: Buf, f: Flags, v: Json, level: nat) returns (rc: int)
    requires pb.Valid() && v.Obj? && Small(v)
    modifies pb, pb.buf
    ensures pb.Valid() && (pb.buf == old(pb.buf) || fresh(pb.buf))
    ensures Grew(pb.memory, old(pb.Text()), old(pb.lost), pb.Text(), pb.lost, Print(f, v, level))
    ensures !pb.lost ==> pb.Terminated()
    ensures rc < 0 ==> pb.lost
    decreases v, 1
  {
    hide Grew, ClosingGap, Small, PrintFields, Buf.Valid, Buf.Text, Buf.Terminated;
    ghost var b0, l0 := pb.Text(), pb.lost;
    GrewNot(pb.memory, b0, l0);
    SmallMembers(v);
    NoMembers(f, level);
    var _ := Append(pb, "{", b0, l0, "");
    var hadChildren, ii := false, 0;
    assert v.fields[..0] == [] && "" + "{" == "{" + PrintFields(f, v.fields[..0], level, true);
    while ii < |v.fields|
      invariant 0 <= ii <= |v.fields| && hadChildren == (ii > 0)
      invariant pb.Valid() && (pb.buf == old(pb.buf) || fresh(pb.buf))
      invariant Grew(pb.memory, b0, l0, pb.Text(), pb.lost, "{" + PrintFields(f, v.fields[..ii], level, true))
    {
      rc := AppendField(pb, f, v, ii, level, b0, l0);
      if rc < 0 {
        ObjectPrefix(f, v, ii + 1, level);
        GrewShort(pb.memory, b0, l0, pb.Text(), "{" + PrintFields(f, v.fields[..ii + 1], level, true), Print(f, v,
            level));
        return -1;
      }
      hadChildren := true;
      ii := ii + 1;
    }
    assert v.fields[..ii] == v.fields;
    rc := AppendClosing(pb, f, level, hadChildren, "}", b0, l0, "{" + PrintFields(f, v.fields, level, true));
  }

  lemma SmallMembers(v: Json)
    requires Small(v)
    ensures v.Arr? ==> SmallElems(v.elems)
    ensures v.Obj? ==> SmallFields(v.fields)
  {
  }

  lemma NoMembers(f: Flags, level: nat)
    ensures PrintElems(f, [], level, true) == "" && PrintFields(f, [], level, true) == ""
  {
  }

  /**
   `json_object_to_json_string_ext`: a text that fits comes out whole, as a C string; a NULL result, when
   `ok` is false, means that a piece was lost.
   */
  method ToJsonString(v: Json, f: Flags, memory: bool) returns (pb: Buf, ok: bool)
    requires Small(v)
    ensures pb.Valid() && fresh(pb)
    ensures !pb.lost ==> ok && pb.Text() == Print(f, v, 0) && pb.Terminated()
    ensures Room(memory, |Print(f, v, 0)|) ==> !pb.lost
  {
    hide Print, Small;
    pb := new Buf.New(memory);
    var rc := PrintValue(pb, f, v, 0);
    ok := rc >= 0;
    assert "" + Print(f, v, 0) == Print(f, v, 0);
  }
}
