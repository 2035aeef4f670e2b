# formate, modelled in Dafny

formate reads text from standard input and writes it back with its lines
reflowed to a comfortable width: between `minLen` (45) and `maxLen` (75)
runes. The input is cut into paragraphs at blank lines. Inside a paragraph,
literal lines are written as they are. A literal line is one whose first
rune is invalid UTF-8 or is not a letter; an empty line counts as literal.
Other lines are reflowable:

- a reflowable line shorter than `minLen` absorbs the reflowable lines after
  it, one at a time, until it reaches `minLen` runes, the paragraph ends or
  the next line is literal; each is added after one space, or directly when
  the line already ends in a space;
- a reflowable line longer than `maxLen` is cut at its last space at or
  before rune index `maxLen`, and the remainder is put back into the
  paragraph.

One empty line is written after every paragraph that a blank line ended.

The model has five modules:

- `Utf8` (`utf8.dfy`) covers the UTF-8 the program relies on, from section 3
  of RFC 3629:
  - `RuneLen`, `EncodeRune`, `DecodeRune` and `Decode`;
  - `EncodeRunes`, the program's `encodeRunes`, with its round trip through
    `Decode`.
- `Lines` (`lines.dfy`) covers lines, the literal test `isLiteral` and the
  join glue. A line is the sequence of runes it decodes to. The letter and
  white-space tables of the `unicode` package are parameters (`Classes`).
- `Segment` (`segment.dfy`) models `scanPara` over a sequence of input lines.
- `Reflow` (`reflow.dfy`) models the paragraph loop of `main` (main.go:28-83),
  as functions and as the imperative loop that is proved equal to them:
  - the join, `Absorb` and `JoinLoop`;
  - the backward scan for a space, `LastSpace` and `ScanBack`;
  - the cut, `CutLine`;
  - putting the remainder back, `Reinsert`;
  - one iteration, `Step` and `StepLine`;
  - the loop, `Run` and `ReflowPara`.
- `ReflowFacts` (`reflow_facts.dfy`) holds properties of the whole loop and
  small paragraphs that show how the program behaves as written.
- `Driver` (`driver.dfy`) models the top-level loop (main.go:26-90). `Formate`
  is the loop. `Document` is the same output stated paragraph by paragraph.

The program's behaviour is modelled as written, including what looks like
unintended behaviour:

- **The cursor is not used for re-insertion.** The split declares its own `i`
  (main.go:57), which shadows the paragraph cursor. So the remainder is
  placed relative to the split index `k`, not the cursor:
  - past the end of the paragraph it is appended;
  - before a literal `para[k+1]` the whole paragraph is rotated to start at
    `para[k+1]`, and the remainder is appended, as main.go:69 spells it out
    (the aliasing of that append is under "Left out");
  - before a reflowable `para[k+1]` it is glued onto the front of that line.
- **No space means a panic.** If the first `maxLen + 1` runes hold no space,
  the scan ends at -1 and `rs[:-1]` panics (main.go:63)
  (`Panic.NoSpaceToSplit`).
- **An empty remainder can panic.** An empty remainder before a reflowable
  line reads `rest[len(rest)-1]` and panics (main.go:71)
  (`Panic.EmptyRemainder`).

The lemmas in `ReflowFacts` exhibit each of these on small paragraphs:

- `RemainderPassesNextLine` and `RemainderPassesLiteral`: the remainder lands
  after the following line instead of before it;
- `LiteralLineLost`: a literal line is rotated behind the cursor and never
  written, while an already written line is written again;
- `NoSpacePanics` and `EmptyRemainderPanics`: the two panics.

The join and the remainder check test the last BYTE of a line against `' '`.
A multi-byte rune never ends in the byte 0x20, so this is the same as testing
the last rune. The model tests the last rune.

## Model

| member | source | states |
|---|---|---|
| `Utf8.RuneLen` | main.go:115-117 | the encoded length is -1 exactly for values that are not Unicode scalar values, 1 to 4 otherwise, and 1 exactly for ASCII |
| `Utf8.EncodeRune` | main.go:120-122 | a scalar value is encoded in exactly RuneLen octets; any other value is written as the encoding of U+FFFD |
| `Utf8.DecodeRune` | main.go:109 | decoding yields a scalar value and a size of at most 4 octets within the input; an empty input gives (RuneError, 0); an ASCII octet decodes to itself; a continuation octet, C0, C1 or F5..FF as first octet gives (RuneError, 1) |
| `Utf8.DecodeRuneSound` | main.go:109 | a non-empty input decodes to (RuneError, 1), or its first decoded octets are exactly the encoding of the decoded rune |
| `Utf8.DecodeInvalidStart` | main.go:109 | an input starting with no scalar value's encoding (overlong, surrogate, truncated, bad continuation) decodes to (RuneError, 1) |
| `Utf8.Decode` | main.go:54-56 | ranging over a byte string yields only scalar values and at most one rune per byte |
| `Utf8.DecodeEncodeRune` | main.go:120-122 | decoding the encoding of a scalar value gives the value back and consumes exactly RuneLen octets, whatever follows |
| `Utf8.DecodeEncodeAll` | main.go:113-124 | decoding the concatenated encodings of scalar values gives the values back |
| `Utf8.EncodeAllLength` | main.go:114-118 | the concatenated encodings are exactly as long as the sum of RuneLen, the size encodeRunes allocates |
| `Utf8.EncodeRunes` | main.go:113-124 | the buffer has the summed RuneLen size and decodes back to the input runes |
| `Lines.ReflowableStartsWithLetter` | main.go:108-111 | a line is reflowable exactly when it is non-empty and its first rune is a letter other than RuneError; an empty line is literal, so reading the last byte of a reflowable line (main.go:44) is safe |
| `Lines.IsLiteral` | main.go:108-111 | the literal test on a decoded line; ReflowableStartsWithLetter characterises it and LiteralAllBytes ties it to the byte-level test |
| `Lines.IsLiteralBytes` | main.go:108-111 | isLiteral on raw bytes; LiteralAllBytes, IsLiteralOfEncoding, InvalidLeadIsLiteral and InvalidStartIsLiteral state what it decides |
| `Lines.LiteralAllBytes` | main.go:108-111 | on any byte line, valid UTF-8 or not, the byte-level literal test is the rune-level test of what the line decodes to |
| `Lines.IsLiteralOfEncoding` | main.go:108-111 | on the UTF-8 encoding of a line, the byte-level literal test agrees with the rune-level one |
| `Lines.InvalidLeadIsLiteral` | main.go:108-111 | a line whose first octet cannot start a UTF-8 sequence is literal, whatever the letter table says |
| `Lines.InvalidStartIsLiteral` | main.go:108-111 | a line that does not start with the encoding of any scalar value is literal, whatever the letter table says |
| `Lines.MalformedStartsAreLiteral` | main.go:108-111 | lines starting with an overlong form, an encoded surrogate, a truncated sequence or a bad continuation octet are literal |
| `Lines.Glue` | main.go:44-47 | gluing adds exactly one rune beyond the two parts when the first part does not end in a space, none when it does |
| `Lines.GlueKeepsBoth` | main.go:44-47 | the glued line begins with all of the first part and ends with all of the second, with a space between them exactly when the first part did not end in one |
| `Lines.IsBlank` | main.go:100 | a line is blank when trimming white space leaves nothing; ScanPara's contract states how it cuts paragraphs |
| `Segment.ScanPara` | main.go:96-106 | the paragraph is the longest prefix of the remaining lines with no blank line; `more` holds exactly when a blank line ended it, and then the rest starts after that blank line; at the end of input nothing remains |
| `Segment.ScanParaSplitsInput` | main.go:96-106 | paragraph, ending blank line and rest together are exactly the input, in order, and the rest is strictly shorter when more follows |
| `Reflow.Absorb` | main.go:37-50 | the join stays inside the paragraph, never moves the cursor back and never shortens the line |
| `Reflow.AbsorbJoinsReflowable` | main.go:37-50 | the joined line is the start line glued, in order, to exactly the lines after the cursor up to the returned cursor, each of which is reflowable |
| `Reflow.AbsorbStops` | main.go:38-43 | every line was absorbed while the joined line was shorter than minLen, and the join stopped because the line reached minLen, the paragraph ended or the next line is literal |
| `Reflow.LastSpace` | main.go:57-62 | the scan returns an index at or below its start, holding a space when it is not negative, with no space between it and the start |
| `Reflow.CutLine` | main.go:52-64 | there is no cut exactly when the first maxLen + 1 runes hold no space; otherwise the written part has at most maxLen runes and the line is that part, a space and the remainder, cut at the last such space |
| `Reflow.ReinsertPlaces` | main.go:66-78 | putting the remainder back panics exactly when the line at split index + 1 is reflowable and the remainder is empty; past the end the remainder is appended; before a literal line the paragraph is rotated: the lines from split index + 1 on, in order, then the lines up to the split index, in order, then the remainder; before a reflowable line only that line changes, to the remainder glued to it |
| `Reflow.Reinsert` | main.go:66-78 | putting the remainder back; its contract is ReinsertPlaces |
| `Reflow.Split` | main.go:52-78 | the cut followed by re-insertion; StepReflowable states its panics and its result, and SplitLong is proved equal to it |
| `Reflow.Step` | main.go:29-82 | one iteration of the paragraph loop; StepAdvances, StepReflowable and StepSettled state what it does |
| `Reflow.Run` | main.go:28-83 | the paragraph loop, bounded by fuel; RunWritesFitting and RunSettled state what it writes |
| `Reflow.StepAdvances` | main.go:28-83 | an iteration that does not panic moves the cursor forward, writes exactly one line that is literal or fits within maxLen, keeps what was written, and never increases the number of lines after the cursor |
| `Reflow.StepReflowable` | main.go:36-82 | for a reflowable line: after the join, a line within maxLen is written and the paragraph is left alone; a longer line panics with NoSpaceToSplit exactly when it has no space in reach, and with EmptyRemainder exactly when it can be cut but putting the remainder back fails; otherwise its written part ends at the last space in reach, fits, and is followed by that space in the joined line, the cursor passes the absorbed lines, and the paragraph is the remainder put back at the split index + 1 |
| `Reflow.RunWritesFitting` | main.go:28-83 | however the paragraph loop ends, the lines written before stay in front and every line it writes is literal or fits within maxLen |
| `Reflow.JoinLoop` | main.go:37-50 | the join loop as written computes the join Absorb describes |
| `Reflow.ScanBack` | main.go:57-62 | the backward scan as written finds the index LastSpace describes |
| `Reflow.SplitLong` | main.go:52-78 | the split as written, with its shadowed index, computes the cut and re-insertion Split describes, panics included |
| `Reflow.StepLine` | main.go:29-82 | the body of the paragraph loop as written performs one Step |
| `Reflow.ReflowPara` | main.go:28-83 | the paragraph loop as written produces what Run describes |
| `ReflowFacts.StepSettled` | main.go:31-34 | a literal line, or a reflowable one already within [minLen, maxLen], is written unchanged and only the cursor moves |
| `ReflowFacts.StepSplitOnly` | main.go:52-79 | a reflowable line that is long enough not to join and too long to write is cut and the remainder put back, with no join |
| `ReflowFacts.RunSettled` | main.go:28-83 | from any cursor, a paragraph of settled lines is written out as it is, one iteration per line |
| `ReflowFacts.ReflowSettled` | main.go:28-83 | a paragraph whose every line is literal or already within the bounds comes back unchanged |
| `ReflowFacts.ShortLinesJoin` | main.go:37-50 | two short reflowable lines are written as one, with one space between |
| `ReflowFacts.RemainderPassesNextLine` | main.go:57-78 | the remainder of a split is placed by the split index, not the cursor: with maxLen 3, "ab cd" / "ef" comes out as "ab" / "ef" / "cd" |
| `ReflowFacts.RemainderPassesLiteral` | main.go:57-78 | the same split before a literal line "1." writes the remainder after the literal line |
| `ReflowFacts.LiteralLineLost` | main.go:66-69 | the rotation before a literal line brings an already written line back ahead of the cursor: "ab" is written twice and the literal line "1" never |
| `ReflowFacts.EmptyRemainderPanics` | main.go:71 | a cut at a trailing space leaves an empty remainder and, before a reflowable line, panics |
| `ReflowFacts.NoSpacePanics` | main.go:57-63 | an over-long line with no space in reach panics: the scan ends at -1 and `rs[:-1]` panics (main.go:63) |
| `Driver.ParaEnd` | main.go:96-106 | the head paragraph ends at the first blank line or at the end of the input, and holds no blank line |
| `Driver.ParaEndUnique` | main.go:96-106 | any blank-free prefix that ends at a blank line or at the end of the input is the head paragraph |
| `Driver.Document` | main.go:26-90 | the program's output paragraph by paragraph; DocumentFits, DocumentSettled and DocumentStep state what it writes |
| `Driver.DocumentStep` | main.go:26-90 | one round of the top-level loop: a paragraph's panic or exhausted bound ends the output there; otherwise its lines are followed by one empty line exactly when a blank line ended it, then by the rest of the input's output |
| `Driver.DocumentFits` | main.go:26-90 | every line the program writes, separators included, is literal or fits within maxLen |
| `Driver.DocumentSettled` | main.go:26-90 | input whose every line is blank, literal or already within the bounds is written back unchanged, each blank line as the empty line, and the program finishes |
| `Driver.Formate` | main.go:26-90 | the top-level loop as written writes Document's output and ends as Document says; every line it writes fits, and already formatted input comes back with blank lines emptied |

## Left out

- Reading and writing: `bufio.Scanner`, the writes to standard output and
  the error report on standard error (main.go:25, main.go:32-33,
  main.go:81-82, main.go:89, main.go:91-93). The input is a sequence of lines
  and the output is the sequence of lines written. A Scanner failure, such as
  a line over its token limit, is not modelled.
- The `unicode.IsLetter` and `unicode.IsSpace` tables. They are parameters
  (`Lines.Classes`), and `bytes.TrimSpace` becomes "every rune is white
  space".
- Invalid UTF-8 inside a line. Lines are rune sequences, and RuneError
  stands for an invalid leading sequence. The byte-level literal test is
  modelled (`Lines.IsLiteralBytes`). The byte-exact rewriting of invalid
  bytes as EF BF BD by `encodeRunes` is not.
- Slice aliasing in `append`. At main.go:69 the inner `append(para[:i+1],
  rest)` writes the remainder into the shared backing array, in the slot
  where `para[i+1:]` starts, so the program's rotated paragraph starts with
  the remainder rather than with the literal line. The model keeps the
  sequence values the statement spells out:
  `para[k+1:] ++ para[:k+1] ++ [rest]`.
- Reflow.Run: the paragraph loop carries an iteration bound `fuel`, ending
  in `OutOfFuel`. The program has no bound, and because re-insertion can
  move written lines back ahead of the cursor, its termination is not
  established here.
- Reflow.ReflowPara: bounded by `fuel` like `Run`, and returns `OutOfFuel`
  when the bound is reached.
- Driver.Formate: each paragraph's loop is bounded by `fuel`. The
  already-formatted case needs a bound at least the input length.
- Utf8.EncodeRunes: requires every rune to be a Unicode scalar value. Its
  only callers pass runes decoded by `range`, which are always scalar values.
  For any other value RuneLen is -1. When the sum is negative, the program
  panics in `make` (main.go:118). Otherwise the buffer is too short, and the
  writes of `EncodeRune` (main.go:121) go out of range.
- The configurable bounds: `minLen` and `maxLen` are package variables the
  program never changes. The model takes them as a `Config` (its `Default`
  is 45 and 75).
