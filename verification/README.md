# A verified model of json-c and of libpq's client protocol code

The repository's server stands on two vendored C libraries. This project models the parts of them that
carry state, recursion and arithmetic, and proves what they promise: for every input, every run and every
reachable state.

* **json-c parser and printer.** `json_tokener_parse_ex` is a resumable push-down machine of 27 states
  (`TokenerMachine`, one switch turn per `Step`); the class in `Tokener` is the code itself, with its inner
  loops and `goto redo_char`, and is proved to compute that machine. What it accepts, in every configuration,
  is a grammar read by recursive descent (`JsonGrammar`; the proof in `GrammarScalars`, `GrammarNumbers`,
  `GrammarTexts`, examples in `GrammarExamples`), and what its errors say is in `TokenerErrors`. The printers
  (`JsonPrinter`) are written into a growable buffer (`PrintBuf`); what their flags do is told by scanning the
  text (`PrintLayout`). Between them stand the round trip (`RoundTrip`, `RoundTripScalars`, `JsonEquality`,
  `PrintAndParse`), independence from how the input is cut (`TokenerCut`, `TokenerCutExactly`, `RfcNumbers`),
  the meaning of string escapes (`StringLiteral`, `Utf8`, `TokenerRun`, `HexEscapes`), integers as text
  (`Decimal`) and the reuse of a tokener (`TokenerAlike`, `TokenerReset`, `TokenerExamples`).
* **json-c storage.** The hash table with tombstones and its linked list against an ordered map (`LinkHash`,
  `OrderedMap`), the growable array (`ArrayList`), reference counts over a shared graph (`RefGraph`,
  `RefCount`), deep copy (`DeepCopy`) and integer increments (`IntInc`).
* **JSON Pointer.** The in-place editing of the path and the recursive lookup against RFC 6901
  (`PointerTokens`, `JsonPointer`), and what a set leaves in every container on its way (`PointerStore`).
* **libpq.** Base64 against RFC 4648 (`Base64`), the outgoing message buffer (`OutBuffer`), the SCRAM client
  (`Scram`), an RFC 5802 server of its own to talk to (`ScramServer`) and its place in authentication
  (`SaslAuth`), and the connection state machine: as values (`ConnectMachine`), as the code that updates a
  connection (`ConnectPoll`), and the scripts of answers that lead to a server (`ConnectReach`).

`JsonValue` holds the trees, `Basics` what all of them share. Code that changes things in place is modelled by
classes and arrays with loops; code that computes by recursion is modelled by functions and lemmas. Operating
system, server, name service and random source are parameters, so a result holds for whatever they answer.

## What the proofs brought to light

Where a promise does not hold of the code as it stands, the model keeps the code, a lemma or a method shows an
input that breaks the promise, and another says exactly when it holds.

* The surrogate tests look at bits 10 to 15 only, so some code points above U+FFFF written as a pair are
  misread, U+1D800 for one: `TokenerExamples.PairMisread`, exactly when in
  `StringLiteral.MeaningIntendedExactly`.
* `json_tokener_reset` keeps a surrogate that waits for its partner: `TokenerReset.SurrogateCanWait`, exactly
  when in `TokenerReset.ResetIsNewExactly`.
* A number cut in two may be read differently: "[1-]" in `TokenerExamples.SignCutShows`. All ways of cutting a
  text agree if and only if its run meets no such spot: `TokenerCutExactly.CutsAgreeExactly`. Numbers that
  follow RFC 8259 have none: `RfcNumbers.CuttingRfcTextDoesNotMatter`.
* A comment that never ends hides an open array: "[1" followed by an open comment in
  `TokenerExamples.OpenCommentAccepted`. A level stays open under a success, and the next text is then read
  unlike by a new tokener, exactly when the text ended so: `TokenerReset.SuccessIsNewExactly`. What happens to
  the next value is in `TokenerReset.OpenLevelDrops`; strict parsing is free of it,
  `TokenerReset.StrictHasNoComments`.
* A block comment is not closed by a slash behind an even run of stars, as in "/* x **/", since the character
  behind a star is never taken for a star: `GrammarExamples.DefaultIsWider`, exactly when in
  `GrammarTexts.ParseIsGrammar`.
* Strict parsing still takes texts that RFC 8259 does not have, among them "00", "1.", NaN, a raw tab in a
  string and names in single quotes: `GrammarExamples.StrictIsWider`, exactly which in
  `GrammarTexts.ParseIsGrammar`. Every text of the RFC with 64-bit integers is read as it should be:
  `GrammarTexts.RfcIsParsed`.
* `json_object_equal` is reflexive exactly on trees without NaN: `JsonEquality.EqualIsEquivalence`. So a deep
  copy need not be equal to its source: `DeepCopy.SameTreeIsEqual`.
* `json_pointer_set` does not unescape the last token, an empty token is index 0, and a null array element
  counts as missing: `JsonPointer.EscapedSetIsLost`, `JsonPointer.EmptyTokenIsFirst`, exactly when in
  `JsonPointer.GetAfterSetExactly` and `JsonPointer.LookupIsRfcExactly`.
* The base64 decoder accepts more than encodings: `Base64.LenientTexts`, exactly when in
  `Base64.CanonicalExactly`.
* `printbuf_memset` may leave no terminator: `PrintBuf.MemsetMayNotTerminate`, exactly when in
  `PrintBuf.Buf.Memset`.
* An insert enters a key that the table already has a second time, and a resize to too small a size leaves more
  slots than the size says: `LinkHash.InsertTwice`, `LinkHash.ResizedTooSmall`, exactly when in
  `LinkHash.Table.Insert` and `LinkHash.Table.Resize`.
* A SCRAM iteration count beyond an int is cut to one: `Scram.PrintedCount`, exactly when it comes back in
  `Scram.CountComesBackExactly`.

## Model

| member | source | states |
|---|---|---|
| TokenerMachine.Step | lib/json-c/json_tokener.c:372-1286 | every `goto redo_char` lowers the rank of the state, with eatws just above the state it returns to; with the input left this ends the parse loop |
| TokenerMachine.StepKeepsInv | lib/json-c/json_tokener.c:470-1262 | every turn keeps the stack invariant of every reachable tokener: below the depth limit, and every lower level waits in array_add with an array or in object_value_add with an object and a field name, or was reset under an open comment; where all wait, all go on waiting; only a finished value stops without an error, and no field is used unset |
| Tokener.Tokener.ParseEx | lib/json-c/json_tokener.c:309-1329 | one call of the code, with its bulk loops, returns the value, error, read position and tokener that the turn-by-turn machine gives on the same buffer, and after every call without an error the tokener may be called again |
| GrammarTexts.ParseIsGrammar | lib/json-c/json_tokener.c:309-1329 | in every configuration a text succeeds if and only if it is in the grammar of its mode, which is read by recursive descent without the machine (separators, white space and comments, literals in their cases, numbers, depth, trailing commas and trailing text); value and read position are those of the grammar, and a text that ends in a comment behind a finished value comes to that value |
| GrammarTexts.ParseVerbose | lib/json-c/json_tokener.c:222-252 | a new tokener given a whole text returns the value that the grammar reads, and reports success exactly when there is one |
| GrammarTexts.RfcIsParsed | lib/json-c/json_tokener.c:309-1329 | every text of RFC 8259 whose integers fit 64 bits is accepted in every configuration, read to its end, as the value it has there |
| JsonGrammar.RfcNumberIsRead | lib/json-c/json_tokener.c:1032-1105 | every number of RFC 8259 section 6 has its value: one with a fraction or exponent is the double of its whole text, an integer is its decimal value, and only an integer outside 64 bits has none |
| GrammarNumbers.StrtodIsWide | lib/json-c/json_tokener.c:1077-1087 | the texts of number characters that `strtod` consumes whole are those of an automaton for digits, one point and one exponent |
| GrammarExamples.StrictIsWider | lib/json-c/json_tokener.c:384-388 | seven texts that strict parsing accepts and RFC 8259 does not have |
| GrammarExamples.DefaultIsWider | lib/json-c/json_tokener.c:590-677 | three more of the default mode, and a text after a comment that stars keep open, which it refuses |
| TokenerErrors.FailTells | lib/json-c/json_tokener.c:1289-1329 | a failed call reports the end of the data when it stopped at the NUL inside a value, and otherwise the part that was expected where it stopped, with the text from there as unread |
| Tokener.Tokener.Reset | lib/json-c/json_tokener.c:192-212 | reset clears every level and the depth and leaves the scratch fields as they are |
| Tokener.Tokener.CaseUnicode | lib/json-c/json_tokener.c:716-831 | up to four hexadecimal digits are read, kept over the end of the buffer, and turned into bytes as the machine does |
| Tokener.Tokener.CaseNumber | lib/json-c/json_tokener.c:922-1105 | the digit loop and what follows it do what the machine does digit by digit, with locals rebuilt from the saved text |
| Tokener.Tokener.CaseBulk | lib/json-c/json_tokener.c:590-677 | the inner loops over strings, names and comments read what the machine reads character by character |
| TokenerCut.CuttingDoesNotMatter | lib/json-c/json_tokener.c:276-285 | on a text with no sensitive spot every way of cutting gives the value, the error and the unread rest of one call, or the same tokener to continue with |
| TokenerCutExactly.CutsAgreeExactly | lib/json-c/json_tokener.c:276-285 | for a tokener between calls, all ways of cutting a text give the outcome of one call on the whole text if and only if its run meets no spot: no misplaced sign that a cut would let in, and no I of a late Infinity, but for the one that fails alike either way |
| TokenerCut.SpotIsSensitiveExactly | lib/json-c/json_tokener.c:928-965 | in a number read in one go, those spots in terms of the digits so far and the next character |
| TokenerCut.SameStep | lib/json-c/json_tokener.c:922-1105 | away from that spot two tokeners that were cut differently take the same turn |
| RfcNumbers.CuttingRfcTextDoesNotMatter | lib/json-c/json_tokener.c:368-1286 | texts whose numbers follow RFC 8259 section 6 and are closed by white space, a comma or a bracket can be cut anywhere, also inside escapes, surrogate pairs and literals |
| TokenerExamples.SignCutShows | lib/json-c/json_tokener.c:928-970 | a text that is an error in one piece and accepted in two |
| StringLiteral.MeaningIntendedExactly | lib/json-c/json_tokener.c:716-869 | what the tokener makes of the escapes of a string is what RFC 8259 section 7 intends (pairs as one code point, lone surrogates as U+FFFD) if and only if no pair denotes a code point that the masks misread |
| TokenerExamples.PairMisread | lib/json-c/json_tokener.c:716-869 | the pair of U+1D800 in quotes is parsed to one replacement character, which is not its encoding |
| HexEscapes.EscapeReads | lib/json-c/json_tokener.c:716-828 | the quoted escape of every code unit outside the surrogates, its four digits taken by position from the two rows of hexadecimal digits in any mixture of cases, parses to a string that decodes to that code point |
| HexEscapes.PairReadsExactly | lib/json-c/json_tokener.c:716-869 | a quoted pair of surrogates in any spelling parses to a string that decodes to its code point if and only if the masks do not misread it |
| StringLiteral.LoneHigh | lib/json-c/json_tokener.c:833-869 | a high surrogate not followed by a low one becomes exactly one U+FFFD, whatever follows |
| Utf8.EncodeDecodes | lib/json-c/json_tokener.c:769-828 | the byte formulas are the UTF-8 encoding of RFC 3629 section 3: decoding gives every code point back, and the length is the shortest |
| Utf8.EncodeInjective | lib/json-c/json_tokener.c:769-828 | two encodings that begin the same text are the same code point |
| TokenerRun.EatItems | lib/json-c/json_tokener.c:640-869 | reading the inside of any quoted string and its closing quote leaves exactly the meaning of its items as the value or the name |
| TokenerAlike.CallAlike | lib/json-c/json_tokener.c:372-1286 | tokeners that differ only in scratch fields written before they are read give the same outcome on every text |
| TokenerReset.ResetIsNewExactly | lib/json-c/json_tokener.c:202-212 | a reset tokener parses every text as a new one does if and only if no surrogate was waiting |
| TokenerReset.SurrogateCanWait | lib/json-c/json_tokener.c:785-803 | a call can end with such a surrogate waiting |
| TokenerReset.SuccessIsNewExactly | lib/json-c/json_tokener.c:1289-1323 | after a success a level is open if and only if the text ended in a comment behind a finished value with a level open; the tokener parses every further text as a new one does if and only if no level is open and no surrogate waits; either way it may be called again |
| TokenerReset.OpenLevelDrops | lib/json-c/json_tokener.c:470-476 | a value finished on a level that was left open is dropped, and the level below starts over |
| TokenerReset.StrictHasNoComments | lib/json-c/json_tokener.c:384-388 | in strict mode no text ends inside a comment, so a success there means the whole value was read |
| TokenerExamples.OpenCommentAccepted | lib/json-c/json_tokener.c:590-606 | an array followed by an open comment behind its first element is taken for that element, and a level stays open |
| Decimal.PrintedIntegerReadsBack | lib/json-c/json_tokener.c:1032-1075 | what is printed for any int64 or uint64 is read back exactly and without a range error |
| Decimal.TwoPlaces | lib/json-c/json_tokener.c:1032-1075 | digits count in the order of their characters, and ten to the place, in printing and in reading |
| JsonPrinter.EscapeMeans | lib/json-c/json_object.c:186-251 | the escaped text of any string is a list of valid string items whose meaning is the string |
| JsonPrinter.ShortestEscape | lib/json-c/json_object.c:186-251 | no escape is longer than it has to be, but for the slash, which is escaped exactly unless the flags ask for a bare one |
| PrintBuf.EscapeStr | lib/json-c/json_object.c:186-251 | copying plain stretches in one piece and escapes one by one appends the escaped text |
| PrintBuf.PrintArray | lib/json-c/json_object.c:1407-1448 | the array loop appends, piece by piece, the text of the array with commas, spacing and indentation; it stops at a child that reports failure, and failure is reported only when a piece was lost |
| PrintBuf.PrintObject | lib/json-c/json_object.c:463-515 | the object loop appends the text of the object with names, colons, spacing and indentation, with the same early end |
| PrintBuf.ToJsonString | lib/json-c/json_object.c:408-439 | a text that finds room comes out whole and ends in a NUL; the result is NULL only when a piece was lost |
| PrintLayout.PrintedIsLaidOut | lib/json-c/json_object.c:463-515 | without flags the text has no white space outside strings, no control character in them, and slashes behind a backslash unless asked otherwise; under SPACED and PRETTY it is that text with white space put in by the count of open brackets alone: one space inside brackets, between members and behind colons, or a newline and two spaces (or a tab) for each open bracket before every member and before the closing bracket of a non-empty container |
| PrintLayout.OneLine | lib/json-c/json_object.c:1407-1448 | without PRETTY a printed text has no newline |
| PrintLayout.FlagsAddBlanks | lib/json-c/json_object.c:463-515 | taking the white space outside strings out of a text printed under any flags gives the plain text |
| PrintBuf.IntegersShort | lib/json-c/json_object.c:702-712 | every 64-bit integer has at most 20 characters, so the buffer of 21 holds it with its terminator |
| PrintBuf.PrintInteger | lib/json-c/json_object.c:702-712 | printing into the local buffer and appending its length appends the whole integer |
| RoundTrip.ParsePrinted | lib/json-c/json_tokener.c:309-1329 | for every tree without doubles within the depth limit and every choice of flags, parsing the printed text succeeds, reads all of it and gives the tree back, a uint64 in the int64 range as an int64 |
| RoundTrip.PrintedIsQuiet | lib/json-c/json_tokener.c:276-285 | the printed text of such a tree, ended by NUL, has no spot where a cut would show |
| JsonEquality.PrintThenParse | lib/json-c/json_object.c:434-439 | the tree that comes back is equal to the printed one in the sense of `json_object_equal`, however doubles are read |
| PrintAndParse.PrintAndParse | lib/json-c/json_object.c:434-444 | the buffer of the printer handed to the tokener, both as the code has them, gives an equal tree |
| PrintAndParse.PrintedCutAnywhere | lib/json-c/json_object.c:434-444 | given to the tokener in any pieces, a printed text gives an equal tree |
| JsonEquality.EqualIsDenotation | lib/json-c/json_object.c:1547-1657 | for every way to read the text of doubles, `json_object_equal` holds if and only if the trees denote the same value and hold no NaN: integers by mathematical value across both representations, doubles by value, objects regardless of key order |
| JsonEquality.EqualIsEquivalence | lib/json-c/json_object.c:1604-1657 | equality is symmetric and transitive, and reflexive on a tree if and only if there is no NaN in it |
| PrintBuf.Buf.Extend | lib/json-c/printbuf.c:65-95 | growth keeps the text and gives at least the room asked for, unless memory or the int range ends |
| PrintBuf.Buf.MemAppend | lib/json-c/printbuf.c:97-114 | an append adds its bytes and a terminator, or changes nothing and says so |
| PrintBuf.Buf.Memset | lib/json-c/printbuf.c:116-142 | memset overlays its range, extends the text over a gap of NULs, and fails, changing nothing, exactly when the range is negative or does not fit; without growth a terminator remains if and only if one stood behind the new end of the text, and growth leaves at least 8 bytes behind it |
| PrintBuf.MemsetMayNotTerminate | lib/json-c/printbuf.c:116-142 | after a memset that fills the buffer there is no terminator |
| LinkHash.Table.constructor | lib/json-c/linkhash.c:497-518 | a new table is empty and satisfies the table invariant |
| LinkHash.Table.LookupEntry | lib/json-c/linkhash.c:626-643 | the probe ends and finds the key's entry if and only if the ordered map has the key |
| LinkHash.Table.Insert | lib/json-c/linkhash.c:578-619 | an insert appends its pair to what the list shows, growing a crowded table first; it fails only for want of memory or of a larger size, and the table stays sound if and only if the key was new |
| LinkHash.LoadFactor | lib/json-c/linkhash.c:583-590 | an insert grows the table first exactly when the entries are at least 0.66 of the slots |
| LinkHash.Table.Resize | lib/json-c/linkhash.c:535-564 | a resize keeps the ordered map, its order and the count, and leaves a sound table if and only if the new size never finds itself crowded on the way; otherwise it has more slots than its size says |
| LinkHash.Table.DeleteEntry | lib/json-c/linkhash.c:664-703 | deleting leaves a tombstone, joins the neighbours and takes exactly that pair out; the other pairs keep their order |
| LinkHash.Table.Delete | lib/json-c/linkhash.c:705-711 | deleting by key removes the key, or reports that there is none |
| LinkHash.Table.ObjectAdd | lib/json-c/json_object.c:557-592 | adding replaces the value in place or appends, so replacement keeps the key's place |
| LinkHash.Run | lib/json-c/linkhash.c:578-711 | a run of adds and deletes leaves the ordered map that replaying what was done gives; it breaks off only at an add of a new key, for want of memory or of a larger size |
| OrderedMap.ReplayLooksUp | lib/json-c/linkhash.c:626-643 | after any history a lookup gives what the last change to the key left |
| OrderedMap.ReplayOrders | lib/json-c/linkhash.c:594-615 | after any history the keys stand in the order in which they came in |
| LinkHash.InsertKeeps | lib/json-c/linkhash.c:594-615 | filling a free slot behind live or freed slots keeps list, links and no empty slot between a key's home and its slot, and keeps the keys distinct exactly when the key is new |
| LinkHash.DeleteKeeps | lib/json-c/linkhash.c:664-703 | a tombstone keeps every other key reachable from its home slot and the list linked both ways |
| LinkHash.FreeSlot | lib/json-c/linkhash.c:583-592 | a table with fewer entries than slots has a free one, so the insert's probe ends |
| LinkHash.ProbeEnds | lib/json-c/linkhash.c:626-643 | a probe that met an empty slot or went all the way round has not overlooked the key |
| ArrayList.List.Expand | lib/json-c/arraylist.c:81-104 | growing keeps the contents and gives the room, or fails and changes nothing |
| ArrayList.List.Shrink | lib/json-c/arraylist.c:106-126 | shrinking keeps the contents and leaves exactly the room asked for, at least one slot; it succeeds exactly when the size stays in range and memory is found where it is needed |
| ArrayList.List.InsertIdx | lib/json-c/arraylist.c:128-147 | an insert moves the later entries up by one, or acts as a put behind the end; it fails, changing nothing, exactly when the index is the last of size_t or there is no room |
| ArrayList.List.PutIdx | lib/json-c/arraylist.c:150-173 | a put releases the value in its way, or fills the gap before it with NULLs; it fails, changing nothing, exactly when the index is the last of size_t or there is no room |
| ArrayList.List.Add | lib/json-c/arraylist.c:175-188 | an add appends, or changes nothing exactly when there is no room |
| ArrayList.List.DelIdx | lib/json-c/arraylist.c:206-226 | a delete releases its entries in order and closes the gap, or refuses an invalid range |
| RefGraph.LiveExactly | lib/json-c/json_object.c:255-306 | in a conserved acyclic graph the live objects are exactly those some handle reaches |
| RefGraph.SurvivorsExactly | lib/json-c/json_object.c:272-306 | what survives a release is exactly what the remaining handles reach in the graph as it was |
| RefGraph.LetGo | lib/json-c/json_object.c:272-306 | letting go of one of several holds keeps every count equal to the slots and handles that name the object |
| RefGraph.LastLetGo | lib/json-c/json_object.c:272-306 | letting go of the last hold turns the object's slots into holds to be let go of, which keeps the law |
| RefGraph.RaisedRanks | lib/json-c/json_object.c:557-592 | a slot that closes no cycle keeps the graph free of cycles |
| RefCount.Store.Get | lib/json-c/json_object.c:255-270 | get adds one handle and one count, and NULL stays NULL |
| RefCount.Store.Put | lib/json-c/json_object.c:272-306 | put ends, gives one handle back, frees exactly the objects the remaining handles do not reach, each once, touches nothing else, and returns 1 exactly for the last hold |
| RefCount.Store.ReleaseAll | lib/json-c/json_object.c:517-528 | tearing an object down lets go of each of its members once |
| RefCount.Store.ObjectAdd | lib/json-c/json_object.c:557-592 | an add hands the caller's count to the object, releases a replaced value, refuses to put an object into itself, and on failure changes nothing |
| RefCount.Store.ObjectDel | lib/json-c/json_object.c:638-644 | a delete removes the member and releases its value |
| RefCount.Store.ArrayAdd | lib/json-c/json_object.c:1517-1521 | an array add hands the caller's count over, or on failure changes nothing |
| RefCount.Store.ArrayPutIdx | lib/json-c/json_object.c:1529-1533 | an array put releases the value in its way and hands the caller's count over |
| RefCount.Store.ArrayInsertIdx | lib/json-c/json_object.c:1523-1527 | an array insert hands the caller's count over and moves the others without a change of counts |
| RefCount.Store.ArrayDelIdx | lib/json-c/json_object.c:1535-1539 | an array delete releases each deleted element once |
| DeepCopy.DeepCopy | lib/json-c/json_object.c:1824-1847 | a copy succeeds if and only if there is memory for every object and every add its tree takes; it then denotes the tree of its source and reaches only new objects; a failed one leaves no new object alive; the old graph is unchanged either way |
| DeepCopy.CopyRecursive | lib/json-c/json_object.c:1747-1822 | every level of the copy builds new objects above the existing ones, gives one handle to the caller and succeeds exactly with memory enough for its part of the tree |
| DeepCopy.TreeFrame | lib/json-c/json_object.c:1747-1822 | objects that slots from outside do not enter denote what they denoted before |
| DeepCopy.SameTreeIsEqual | lib/json-c/json_object.c:1604-1657 | copy and source are equal in the sense of `json_object_equal`, whichever is asked first, if and only if the source has no NaN |
| IntInc.IntObject.Inc | lib/json-c/json_object.c:895-939 | an increment stores the exact sum clamped to the two 64-bit types together, in the representation the code chooses |
| IntInc.IntObject.IncAll | lib/json-c/json_object.c:895-939 | a run of increments stores the run of clamped sums |
| IntInc.UnclampedRunIsExact | lib/json-c/json_object.c:895-939 | a run whose partial sums all fit adds up exactly |
| IntInc.OneWayRunClampsOnce | lib/json-c/json_object.c:895-939 | a run in one direction gives its exact sum clamped once |
| IntInc.IntObject.GetInt64 | lib/json-c/json_object.c:801-837 | the int64 getter returns the number clamped to int64 |
| IntInc.IntObject.GetUInt64 | lib/json-c/json_object.c:839-875 | the uint64 getter returns the number clamped to uint64 |
| IntInc.IntObject.GetInt | lib/json-c/json_object.c:719-774 | the int getter returns the number clamped to 32 bits |
| PointerTokens.UnescapedIsDecoded | lib/json-c/json_pointer.c:110-112 | replacing all "~1" and then all "~0" reads a token as one pass from left to right does |
| PointerTokens.UnescapeEscape | lib/json-c/json_pointer.c:110-112 | unescaping gives back every key from its RFC 6901 section 3 escaping |
| PointerTokens.WrongOrderExactly | lib/json-c/json_pointer.c:110-112 | the opposite order gives back exactly the keys without "~1" |
| JsonPointer.ReplaceAll | lib/json-c/json_pointer.c:32-44 | the in-place shifting loop is the leftmost non-overlapping replacement, and writes nothing outside the string |
| JsonPointer.IsValidIndex | lib/json-c/json_pointer.c:46-83 | the index check with its loop accepts "0", digits without a leading zero, and the empty token |
| JsonPointer.GetSinglePath | lib/json-c/json_pointer.c:85-121 | one step finds the element or member the token leads to |
| JsonPointer.GetRecursive | lib/json-c/json_pointer.c:157-199 | cutting the path at each slash and putting the slash back walks the tokens of the path, and writes nothing outside it |
| JsonPointer.JsonPointerGet | lib/json-c/json_pointer.c:217-266 | get evaluates the whole path on a copy; the empty path is the object itself |
| JsonPointer.LookupIsRfcExactly | lib/json-c/json_pointer.c:85-199 | get agrees with the evaluation of RFC 6901 section 4 if and only if no empty token is used as an index and the place is not a null array element |
| JsonPointer.JsonPointerSet | lib/json-c/json_pointer.c:301-351 | set cuts the path at its last slash, walks to the parent and stores there, which is setting along the tokens, as PointerStore spells it out |
| PointerStore.SetExactly | lib/json-c/json_pointer.c:129-155 | the tree after a set, container by container: at "-" one element more, the last, and the others equal; at an index the longer of the old length and one past the index, with nulls only in the gap; in an object the keys as before with at most the new one behind them; everything off the way equal |
| PointerStore.SplitExactly | lib/json-c/json_pointer.c:301-351 | the tokens of a path are the texts between its slashes |
| JsonPointer.GetAfterSetExactly | lib/json-c/json_pointer.c:301-351 | after a successful set a get of the same path returns the value if and only if the last token needs no unescaping (or its key already held the value), and on an array is not "-" and the value not null |
| JsonPointer.SetKeepsOthers | lib/json-c/json_pointer.c:129-155 | every pointer that leaves the path of the set evaluates as before |
| JsonPointer.PlainTokensDiverge | lib/json-c/json_pointer.c:46-83 | pointers whose first different tokens are not empty and free of "~" leave each other's path in every tree |
| JsonPointer.SetSeenFromPrefix | lib/json-c/json_pointer.c:301-351 | a pointer on the way of the set leads to its old subtree with the rest of the set done in it |
| JsonPointer.EscapedSetIsLost | lib/json-c/json_pointer.c:129-155 | a set under an escaped key that a get of the same pointer does not find |
| JsonPointer.EmptyTokenIsFirst | lib/json-c/json_pointer.c:46-60 | an empty token that leads to the first array element |
| Base64.Encode | lib/libpq-standalone/libpq/base64.c:48-106 | the encoder writes the RFC 4648 section 4 encoding, or fails, clearing the buffer, exactly when it does not fit |
| Base64.Decode | lib/libpq-standalone/libpq/base64.c:115-213 | the decoder writes what the text decodes to, or fails, clearing the buffer, exactly when the text does not decode or does not fit |
| Base64.EncodingDecodes | lib/libpq-standalone/libpq/base64.c:115-213 | decoding the encoding of any bytes gives the bytes |
| Base64.CanonicalExactly | lib/libpq-standalone/libpq/base64.c:115-213 | a text that decodes is the encoding of its bytes if and only if only its last group is padded and no bit is left over |
| Base64.LenientTexts | lib/libpq-standalone/libpq/base64.c:115-213 | a text with a bit left over and one with a group behind the padding are decoded and are no encodings |
| Base64.SymbolsOfTable | lib/libpq-standalone/libpq/base64.c:27-28 | the 64 symbols are Table 1 of RFC 4648 as one text |
| Base64.ValuesOfTable | lib/libpq-standalone/libpq/base64.c:30-39 | the lookup gives every character of the table its position, and no other character a value |
| Base64.LengthsSuffice | lib/libpq-standalone/libpq/base64.c:223-242 | the lengths computed for the callers suffice for every encoding and every text that decodes |
| OutBuffer.PGconn.CheckOutBufferSpace | lib/libpq-standalone/libpq/fe-misc.c:290-345 | growth keeps the bytes and gives the room, or fails and changes nothing |
| OutBuffer.PGconn.PutMsgStart | lib/libpq-standalone/libpq/fe-misc.c:460-489 | starting a message leaves finished ones and sent bytes alone; it fails only where the buffer has to grow and memory or the int range ends, and always fails when both attempts to grow do |
| OutBuffer.PGconn.PutMsgBytes | lib/libpq-standalone/libpq/fe-misc.c:497-507 | bytes are added to the message under construction, or nothing changes, which happens only where the buffer has to grow and cannot |
| OutBuffer.PGconn.PutMsgEnd | lib/libpq-standalone/libpq/fe-misc.c:520-554 | ending a message fills in its big-endian length, which counts itself, and makes it the last of the messages to be sent; below 8 kB nothing is sent, above it never more than whole blocks of 8 kB, and just those when the call waits for them; it fails only with 8 kB or more waiting and a system that refuses something |
| OutBuffer.PGconn.SendSome | lib/libpq-standalone/libpq/fe-misc.c:788-947 | for every pattern of partial, refused and interrupted writes the accepted bytes followed by the waiting ones stay the same stream, until a write has failed |
| OutBuffer.PGconn.SendLoop | lib/libpq-standalone/libpq/fe-misc.c:788-947 | the loop hands over a prefix of the buffer in order and stops early only when it says so |
| OutBuffer.PGconn.Flush | lib/libpq-standalone/libpq/fe-misc.c:958-969 | as long as no write has failed, a flush that reports success has sent exactly the stream of all finished messages |
| OutBuffer.StreamReadsBack | lib/libpq-standalone/libpq/fe-misc.c:520-554 | taking messages off the stream by type and length gives them back as they were put in |
| OutBuffer.NetworkOrder | lib/libpq-standalone/libpq/fe-misc.c:525-529 | the length word has its highest byte first |
| Scram.ReadAttrValue | lib/libpq-standalone/libpq/fe-auth-scram.c:316-352 | cutting the attribute out of the text in place gives its value and the rest behind the comma, or an error |
| Scram.AttrReadsBack | lib/libpq-standalone/libpq/fe-auth-scram.c:316-352 | an attribute without a comma reads back, last or followed by more |
| Scram.ScramState.ReadServerFirst | lib/libpq-standalone/libpq/fe-auth-scram.c:623-710 | a server-first message is accepted exactly when it has a nonce that extends the client's, a salt in base64 and a positive iteration count |
| Scram.ScramState.ReadServerFinal | lib/libpq-standalone/libpq/fe-auth-scram.c:716-785 | a server-final message is accepted exactly when it carries a signature of the right length in base64 |
| Scram.ScramState.BuildClientFirst | lib/libpq-standalone/libpq/fe-auth-scram.c:358-461 | the first message is the gs2 header and the bare part with the base64 of the random bytes as nonce |
| Scram.ScramState.BuildClientFinal | lib/libpq-standalone/libpq/fe-auth-scram.c:467-617 | the final message carries the binding data, the server's nonce and the proof over the three saved messages |
| Scram.ScramState.Exchange | lib/libpq-standalone/libpq/fe-auth-scram.c:209-305 | success is reported exactly on the step from PROOF_SENT to FINISHED for the signature expected over the three saved messages; every other step keeps or advances the state as the protocol has it |
| Scram.HonestFirst | lib/libpq-standalone/libpq/fe-auth-scram.c:623-710 | a server-first message as RFC 5802 section 7 writes it reads back |
| Scram.HonestFinal | lib/libpq-standalone/libpq/fe-auth-scram.c:716-785 | a server-final message with a signature reads back |
| Scram.ServerAcceptsProof | lib/libpq-standalone/libpq/fe-auth-scram.c:793-849 | a server that stored the hash of the client key finds that key in the proof |
| SaslAuth.HonestRunAccepted | lib/libpq-standalone/libpq/fe-auth.c:845-1090 | a run with a server that follows RFC 5802 and knows the password is accepted, and the server finds the client's key in the proof |
| ScramServer.ExchangeWithServer | lib/libpq-standalone/libpq/fe-auth-scram.c:209-305 | against a server of RFC 5802 written on its own, which reads flag, nonce, binding data and proof off the two messages as sent, the exchange accepts a final message exactly when it says the signature that server computes with HMAC and "Server Key" |
| ScramServer.Signs | lib/libpq-standalone/libpq/fe-auth-scram.c:793-885 | that server finds the proof right and signs |
| ScramServer.RunWithServer | lib/libpq-standalone/libpq/fe-auth.c:845-1090 | a whole authentication with that server is accepted if and only if its final message says its signature |
| Scram.CbindMatchesFlag | lib/libpq-standalone/libpq/fe-auth-scram.c:467-566 | the binding data of the final message is base64 of the header of the first, and of the certificate hash when binding, also where the code spells it out |
| Scram.PrintedCount | lib/libpq-standalone/libpq/fe-auth-scram.c:690-703 | a printed iteration count is read as a long and cut to an int |
| Scram.CountComesBackExactly | lib/libpq-standalone/libpq/fe-auth-scram.c:690-703 | a printed count comes back as itself if and only if it is a positive int; one past 2^32 is taken for 1 |
| SaslAuth.Connection.SelectMechanism | lib/libpq-standalone/libpq/fe-auth.c:417-560 | the loop over the server's list picks the strongest usable mechanism and refuses PLUS without SSL |
| SaslAuth.Connection.SaslInit | lib/libpq-standalone/libpq/fe-auth.c:417-625 | a start is accepted exactly when no exchange was begun, a mechanism is chosen and allowed, and password, random bytes, memory and sending do not fail; it then has a new exchange with its first message sent |
| SaslAuth.Connection.SaslContinue | lib/libpq-standalone/libpq/fe-auth.c:633-707 | a payload is accepted exactly when it takes the exchange to its next stage; a final one only if it finishes the exchange, and a finished exchange is one with the expected signature |
| SaslAuth.Connection.SendAuth | lib/libpq-standalone/libpq/fe-auth.c:895-1090 | a request is handled exactly when it leads from the stage of the run to another; with channel binding required an OK is accepted only after a proven and bound exchange, and nothing but SASL and OK is |
| SaslAuth.Authenticate | lib/libpq-standalone/libpq/fe-auth.c:845-1090 | a run is accepted exactly when every request up to an OK is handled in its stage; with channel binding required this means that the server's first and final messages came in order in this run, extended our nonce and carried the expected signature over PLUS |
| ConnectPoll.PGconn.NextHost | lib/libpq-standalone/libpq/fe-connect.c:2339-2466 | hosts are taken one after the other and, for prefer-standby, once more from the first; an address list is taken whole |
| ConnectPoll.PGconn.Advance | lib/libpq-standalone/libpq/fe-connect.c:2322-2512 | before every state: the next address or host if asked for, with all fallbacks fresh, or the same address with the fallbacks left |
| ConnectPoll.PGconn.CheckStarted | lib/libpq-standalone/libpq/fe-connect.c:2761-2817 | a failed connect asks for the next address, any other failure ends the attempt |
| ConnectPoll.PGconn.Made | lib/libpq-standalone/libpq/fe-connect.c:2819-3004 | GSS, then SSL, then plain: which encryption is asked for, and when a required one ends the attempt |
| ConnectPoll.PGconn.SslNotAccepted | lib/libpq-standalone/libpq/fe-connect.c:3053-3094 | a refusal continues without SSL unless it is required, an error is left to be read, garbage ends the attempt |
| ConnectPoll.PGconn.SslHandshake | lib/libpq-standalone/libpq/fe-connect.c:3099-3141 | a failed handshake is tried again without SSL exactly under sslmode prefer; early data ends the attempt |
| ConnectPoll.PGconn.GssHandshake | lib/libpq-standalone/libpq/fe-connect.c:3211-3252 | a failed GSS handshake is tried again without GSS exactly under gssencmode prefer |
| ConnectPoll.PGconn.ServerError | lib/libpq-standalone/libpq/fe-connect.c:3378-3443 | cannot-connect-now asks for the next host; otherwise exactly one encryption fallback is used up for a new socket, or the attempt ends |
| ConnectPoll.PGconn.AwaitingResponse | lib/libpq-standalone/libpq/fe-connect.c:3261-3495 | what follows every kind of message: waiting for more, an error, another try, reading on after any handled request, and the end of authentication only at its OK |
| ConnectPoll.PGconn.AuthOk | lib/libpq-standalone/libpq/fe-connect.c:3496-3566 | an unknown application_name is given up for exactly one new socket |
| ConnectPoll.PGconn.CheckTarget | lib/libpq-standalone/libpq/fe-connect.c:3568-3703 | a connection is finished only on a server of the kind asked for, and left only when the server is known not to be |
| ConnectPoll.PGconn.Switch | lib/libpq-standalone/libpq/fe-connect.c:2514-3865 | no state moves to another host or address, a used fallback stays used, at most one socket is opened, and a new attempt on the same address uses up exactly one fallback |
| ConnectPoll.PGconn.Turn | lib/libpq-standalone/libpq/fe-connect.c:2322-3865 | every turn keeps the sockets opened and still affordable within the budget fixed at the start, and no host or address is skipped |
| ConnectPoll.PGconn.Poll | lib/libpq-standalone/libpq/fe-connect.c:2262-3878 | a call returns failed exactly in state BAD and done exactly in state OK, with the budget kept |
| ConnectPoll.PGconn.ConnectDBStart | lib/libpq-standalone/libpq/fe-connect.c:2056-2115 | starting over fixes the budget of sockets from hosts, addresses and passes, and a start that fails leaves the connection closed |
| ConnectPoll.PGconn.ConnectDBComplete | lib/libpq-standalone/libpq/fe-connect.c:2126-2232 | the waiting loop ends in OK or BAD within the budget of the start |
| ConnectPoll.PGconn.StartFresh | lib/libpq-standalone/libpq/fe-connect.c:2075-2100 | starting over begins before the first host in the first pass, with nothing opened and a budget of sockets that covers every host, address and pass |
| ConnectPoll.PGconn.TimeOut | lib/libpq-standalone/libpq/fe-connect.c:2216-2230 | a timeout gives up the present address and nothing else |
| ConnectPoll.PGconn.Connect | lib/libpq-standalone/libpq/fe-connect.c:2056-3878 | for every sequence of answers at most four sockets per address of every host and pass are opened and the second pass starts at most once; a connection that comes about is encrypted as required and of the target kind, and it comes about exactly when the answers lead to it |
| ConnectReach.ReachedExactly | lib/libpq-standalone/libpq/fe-connect.c:2056-3878 | a connection comes about at the h-th try of a host if and only if the answers lead there: every host before it fails or is of the wrong kind, and it connects over the fallbacks the settings allow, handles any number of requests up to the OK and is of the kind asked for, in the first pass or the second, with or without timeouts |
| ConnectReach.SecondHostReached | lib/libpq-standalone/libpq/fe-connect.c:2056-3878 | a first host without an address and a second that asks for two answers before its OK: the second is connected to |

## Left out

Behaviour of the modelled files that is not part of the model:

- Doubles are kept as their text, which results about equality read in any way whatever; the printing format and locale switching are not modelled, and the round trip takes trees without doubles.
- `json_object_equal` on one and the same object, which is equal without a look inside; equality is about two trees.
- The UTF-8 validation flag of the tokener, and the refusal of texts longer than an int.
- C characters are Dafny characters; bytes above 0x7F are not given a sign. Or-ing and masking of disjoint bits is written as addition and remainder.
- Allocation failure appears as an answer (`memory`, `room`) that makes a call fail; in the tokener and the hash table's constructor it does not occur. Copying and printing go on after it where the code does.
- Colours, custom serializers and deleters, user data, and sorting and searching of arrays.
- The inner loop of the tokener over the letters of Infinity is done by its outer loop; the parse is the same.
- Hash functions are any function of the key, and the table's free function is left to RefCount; freed hash table entries carry no links; the load factor 0.66 is taken as 33/50.
- Keys are C strings: a key with an embedded NUL is outside the round trip, and objects have distinct keys.
- Networking, SSL, GSSAPI, keepalives, name resolution, service and password files are answers of a script; the files fe-secure.c, fe-secure-gssapi.c and fe-secure-openssl.c are not part of this model.
- The incoming buffer of fe-misc.c, the protocol trace, and waiting for sockets.
- SASLprep and the cryptographic functions: hashes and key derivation are uninterpreted.
- json_patch.c, json_visit.c, json_util.c, the server's own sources under src/ and the multicast library: sockets, threads, SQL and calls into json-c, without an algorithm of their own, or with side conditions that would drown the result.

Contracts that say less than one might expect:

- GrammarTexts.ParseIsGrammar: is about a whole text up to its NUL given to a new tokener; texts in pieces are in TokenerCutExactly, reused tokeners in TokenerReset. What the escapes of a string mean is in StringLiteral.
- JsonGrammar.RfcNumberIsRead: a double is known by its text, so rounding is not part of it.
- PrintLayout.PrintedIsLaidOut: takes doubles whose texts are not empty and hold no white space, quote, comma, colon or bracket.
- TokenerCut.CuttingDoesNotMatter: is stated for texts without a spot, where it holds of tokeners left under an open comment too; CutsAgreeExactly has both directions.
- TokenerCutExactly.CutsAgreeExactly: asks for a tokener that was not left under an open comment, where a dropped value can hide a difference.
- LinkHash.Table.Resize: with a size that does not fit, says when the call is sure to succeed and not exactly when it fails at INT_MAX slots.
- LinkHash.Table.ObjectAdd: asks that a key announced as new is new, as the flag's description does.
- RefCount.Store.Get: requires a count below the 32-bit limit, as the assertion in the code does.
- RefCount.Store.ObjectAdd: requires that the value does not reach the object, which the code checks only for the object itself.
- RefCount.Store.ArrayAdd: requires that the value does not reach the array, which the code leaves to its caller.
- DeepCopy.DeepCopy: uses the default shallow copy, one unit of memory for each allocation and each add, and objects whose keys are distinct.
- IntInc.IntObject.Inc: excludes INT64_MIN on an unsigned object, where the code negates it and C does not define the result.
- JsonPointer.JsonPointerSet: gives the tree after the call as a value; update in place and sharing between trees are in RefCount.
- JsonPointer.LookupIsRfcExactly: is stated for arrays no longer than a size_t counts.
- PrintBuf.ToJsonString: prints strings of at most INT_MAX characters, and keys up to their terminator; that a piece was lost need not show in the result, as in the code.
- PrintBuf.Buf.Memset: after growth the bytes behind the text are whatever the allocator left, so nothing is said about a terminator.
- OutBuffer.PGconn.SendSome: a script of answers that runs out stands for a system that accepts everything from then on.
- SaslAuth.Connection.SendAuth: handlers of other authentication kinds only report an outcome; with channel binding required they are refused before they are asked.
- ConnectPoll.PGconn.Poll: one answer covers the system calls of one turn; a script that ends inside a call leaves the call unfinished and the results are about finished calls, except the bound on sockets.
- ConnectPoll.PGconn.Connect: an address list has any fixed bound on its length, and the bound on sockets is a multiple of it.
