/**
 The printer's buffer handed to the tokener: what `json_tokener_parse` makes of what
 `json_object_to_json_string_ext` returned.
 */
module PrintAndParse {
  import opened Basics
  import opened OrderedMap
  import opened JsonValue
  import opened JsonPrinter
  import opened JsonEquality
  import opened RoundTripScalars
  import opened TokenerMachine
  import opened TokenerCut
  import opened RoundTrip
  import PrintBuf
  import Tokener

  /** A tree whose text finds room in the buffer is read back as an equal tree. */
  method PrintAndParse(v: Json, ghost d: Reading, f: Flags, memory: bool, k: Config) returns (back: Option<Json>)
    requires k.maxDepth >= 1 && Fits(v, k.maxDepth - 1) && PrintBuf.Small(v)
    ensures PrintBuf.Room(memory, |Print(f, v, 0)|) ==> back.Some? && Equal(d, v, back.value)
  {
    hide Print, Fits, PrintBuf.Small, Parse, Equal;
    var pb, ok := PrintBuf.ToJsonString(v, f, memory);
    PrintThenParse(k, d, f, v);
    if ok && pb.bpos < pb.size {
      var tok := new Tokener.Tokener(k);
      var text := pb.buf[..pb.bpos + 1];
      assert !pb.lost ==> text == Print(f, v, 0) + [NUL];
      back := tok.ParseEx(text);
    } else {
      back := None;
    }
  }

  /** In pieces, however the text is cut, an equal tree comes back as well. */
  lemma PrintedCutAnywhere(k: Config, d: Reading, f: Flags, v: Json, pieces: seq<string>)
    requires k.maxDepth >= 1 && Fits(v, k.maxDepth - 1)
    requires pieces != [] && Join(pieces) == Print(f, v, 0) + [NUL] && AllButLastContinue(k, FRESH, pieces)
    ensures var o := ParsePieces(k, FRESH, pieces);
            o.Ok? && Equal(d, v, o.value) && o.rest == [NUL]
  {
    hide Print, Fits, Parse, Equal, Quiet, BetweenCalls, ParsePieces, AllButLastContinue;
    PrintedIsQuiet(k, f, v);
    PrintThenParse(k, d, f, v);
    CuttingDoesNotMatter(k, FRESH, pieces);
  }
}
