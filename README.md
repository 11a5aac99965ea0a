# RegeditParserDotCore prototype parser, modelled in Dafny

This project models `Parser.Parse`, the early line-scanning parser of
RegeditParserDotCore. The parser reads a Windows Registry export (`.reg`) line by line
and groups it into key blocks. A `[HKEY...]` header line met outside a block opens a
`RegFolder`. One met inside a block is read as a value line instead, so the pairs that
follow it join the open folder.
Each non-blank line inside the block may add one name/data pair (`RegFile`), always typed `REG_SZ`.
A blank line closes the block. A block that closes with no pairs first gets a
`("(Default)", "REG_SZ", "(value not set)")` placeholder.

The parser's state is three locals:
- the list of folders built so far;
- `nextFileData`, the index of the current block;
- `enterKeyReg`, true while a block is open.

The model keeps this shape:

- `regdata.dfy` (module `RegData`): the `RegFile` and `RegFolder` records.
- `text.dfy` (module `Text`): the .NET string operations the parser calls. These are
  `StartsWith`, `EndsWith`, `Char.IsWhiteSpace`, `String.IsNullOrWhiteSpace` and
  `String.Split` with one separator. The module also proves `Split`'s laws:
  it joins back to its input, no piece holds the separator, and the first two pieces
  are characterised exactly.
- `line_scan.dfy` (module `LineScan`): the body of the `try` block, as method
  `ReadEntry`, which keeps the source's character loop, its quote counter and its `break`.
  `ReadEntry` is proved against `EntryOf`, a declarative statement of what the scan meets.
  The exception the `catch` swallows is the outcome `Skipped`.
- `parser.dfy` (module `Parser`): method `Parse`, with the `for` loop over lines and
  the three branches. It is proved equal to `Run`, the fold of the one-line
  transition `Step`. `Step`'s contract states every transition. `RunSound` proves
  what holds of every folder list the parser can return.
- `sample_file.dfy` (module `SampleFile`): two small exports parsed end to end, one of
  them with a header that follows its block without a blank line.

The repository's later structured parser (not modelled) behaves differently in several
places. The code modelled here does the following:
- the file header is not validated;
- a blank line closes a block;
- a line before any key is ignored, not an error;
- values are not typed;
- escapes are not processed;
- continuation lines are not joined;
- a quoted name keeps its opening quote, and string data keeps its quotes (`"a"="b"`
  gives name `"a` and data `"b"`).

## Model

| member | source | states |
|---|---|---|
| `Text.IndexFrom` | RegeditParserDotCore/Program.cs:94 | the index found holds the separator, and no earlier index from the start position does; `None` only when the separator occurs nowhere from there |
| `Text.StartsWith` | RegeditParserDotCore/Program.cs:66 | definition of `line.StartsWith(p)`, compared by character: it holds exactly when `p` is a prefix of the line; also used for `StartsWith("@")` at line 77 |
| `Text.IsNullOrWhiteSpace` | RegeditParserDotCore/Program.cs:71 | definition of `string.IsNullOrWhiteSpace`, built on `IsWhiteSpace`, the `Char.IsWhiteSpace` table: every character is white space, so the empty line is blank; a blank line is neither an `@` line nor a key header; also the test at line 113 |
| `Text.Split` | RegeditParserDotCore/Program.cs:94 | definition of `line.Split(new string[] { sep }, StringSplitOptions.None)` by the left-to-right search `IndexFrom`: there is at least one piece and at most one more than the length of the line; also the split at line 104 |
| `Text.SplitJoin` | RegeditParserDotCore/Program.cs:94 | joining the pieces of `Split(s, sep)` with `sep` gives `s` back, and there is always at least one piece |
| `Text.SplitPiecesFree` | RegeditParserDotCore/Program.cs:104 | no piece of a split contains the separator |
| `Text.SplitHasSecondPiece` | RegeditParserDotCore/Program.cs:104-105 | a split has a second piece (so `splitLine[1]` does not throw) exactly when the separator occurs |
| `Text.SplitFirstTwo` | RegeditParserDotCore/Program.cs:94-95 | `Split(s, sep)[0]` and `[1]` are `a` and `b` iff `s` begins with `a + sep + b`, `sep` first occurs right after `a`, and the next occurrence at or after it begins right after `b` or nowhere |
| `LineScan.SplitEntry` | RegeditParserDotCore/Program.cs:104-105 | definition of the split followed by `new RegFile(splitLine[0], "REG_SZ", splitLine[1])`: it is skipped (the index throws) exactly when the separator does not occur, otherwise the pair is typed `REG_SZ` and is the first two pieces; it never yields "no pair". Also lines 94-95 |
| `LineScan.QuotedLineOutcome` | RegeditParserDotCore/Program.cs:79-100 | definition of the character scan by what it meets: a pair if the quote counter is 2 at a `"`, `=`, value-start triple, else a throw if it is 2 within two characters of the end, else no pair; a recorded pair is typed `REG_SZ` and is the first two pieces of the `"=` split |
| `LineScan.EntryOf` | RegeditParserDotCore/Program.cs:73-111 | definition of the whole `try` block: an `@` line goes to the `=` split, any other line to the scan. A recorded pair is typed `REG_SZ`, and an `@` line never yields "no pair" |
| `LineScan.PairSplits` | RegeditParserDotCore/Program.cs:92-95 | when `"=` and a value start follow the second quote, splitting on `"=` yields a second piece, so the add at line 95 never throws |
| `LineScan.ReadEntry` | RegeditParserDotCore/Program.cs:73-111 | the character loop with its quote counter, lookahead and `break`, and the `@` split, yield exactly `EntryOf(line)`: the pair, no pair, or the skip the `catch` answers |
| `LineScan.QuotedLineRecorded` | RegeditParserDotCore/Program.cs:77-97 | a non-`@` line yields (`name`, `data`) iff its second `"` is followed by `=` and one of `"`, `d`, `q`, `h`, and `name`/`data` are the text before the first `"=` and the text from there to the next `"=` |
| `LineScan.QuotedLineOverrun` | RegeditParserDotCore/Program.cs:86-90 | a second `"` within two characters of the end makes the lookahead throw, and the line is skipped |
| `LineScan.QuotedLineSkipped` | RegeditParserDotCore/Program.cs:79-100 | when the second `"` of a non-`@` line does not start a pair, the lookahead still runs at every position up to the third `"`. The line is skipped exactly when it has exactly two `"`, or three with the third one last. Otherwise it yields no pair |
| `LineScan.UnquotedLineIgnored` | RegeditParserDotCore/Program.cs:79-100 | a non-`@` line with fewer than two `"` yields no pair and never throws |
| `LineScan.AtLineRecorded` | RegeditParserDotCore/Program.cs:102-111 | an `@` line yields (`name`, `data`) iff they are the text before the first `=` and the text from there to the next `=` or the end; it is skipped iff it has no `=`; it never yields "no pair" |
| `Parser.KeyHeaderShape` | RegeditParserDotCore/Program.cs:66 | about `IsKeyHeader`, the definition of the header test `line.StartsWith("[HKEY") && line.EndsWith("]")`: a header line is at least six characters long, opens with `[` and closes with `]`, and so is neither blank nor an `@` line |
| `Parser.AddEntry` | RegeditParserDotCore/Program.cs:95 | definition of `lines[nextFileData].RegFile.Add(e)`: the folder keeps its key and gains `e` at the end of its entries, and no other folder changes; also lines 105 and 115 |
| `Parser.Step` | RegeditParserDotCore/Program.cs:66-118 | one line keeps the block-count invariant. A folder is opened, keyed by the whole line, exactly on a header met outside a block, and it is appended with no existing folder changed. Other lines outside a block change nothing. A line inside a block with no pair, or one that throws, changes nothing. A recorded pair is appended to the current block. A blank line closes the block, increments `nextFileData`, and adds the placeholder only to a block with no pairs. Only the last folder changes, by at most one `REG_SZ` entry |
| `Parser.HeaderInBlockIgnored` | RegeditParserDotCore/Program.cs:66-71 | a header line without quotes met while a block is open opens no folder and leaves the state unchanged, because line 66 opens a folder only outside a block |
| `Parser.Run` | RegeditParserDotCore/Program.cs:63-119 | running through any lines keeps the block-count invariant, and adds at most one folder per line |
| `Parser.StepSound` | RegeditParserDotCore/Program.cs:66-118 | one line keeps four facts. Every folder is keyed by a header line read so far. Every entry is `REG_SZ`. Every closed block is non-empty. The block-count invariant holds |
| `Parser.RunSound` | RegeditParserDotCore/Program.cs:63-119 | the same four facts hold after any sequence of lines |
| `Parser.Parse` | RegeditParserDotCore/Program.cs:50-123 | the loop over `string.Empty` followed by the file's lines returns `ParseResult(input)`. Every folder is keyed by a header line of the input. Every entry is typed `REG_SZ`. Every folder but possibly the last, still-open one holds at least one entry |
| `SampleFile.NamedPairEntry` | RegeditParserDotCore/Program.cs:94-95 | the line `"a"="b"` yields name `"a` and data `"b"` |
| `SampleFile.MissingBlankLine` | RegeditParserDotCore/Program.cs:63-118 | with no blank line before the second header, the pairs after it are added to the first folder, and only one folder is returned |
| `SampleFile.SampleParse` | RegeditParserDotCore/Program.cs:50-123 | a header, a blank line, a block with `"a"="b"` and `@="x"`, and an empty block give two folders. The first block holds its two pairs. The empty block holds the placeholder |

## Left out

- Opening and reading the file (`File.OpenRead`, `StreamReader`, `ReadLine`, line-ending
  handling, Program.cs:54-55, 63): I/O. The input is the already split sequence of lines.
- `Program.Main` and its console output (Program.cs:126-139): demo code with hard-coded
  file names.
- The commented-out usage sketch (Program.cs:4-18): not code.
- The empty `Parser()` constructor: the class holds no state, so `Parse` is a method of
  the module.
- `StartsWith("[HKEY")`, `StartsWith("@")` and `EndsWith("]")` with a string argument
  compare by the current culture in .NET, so characters that culture ignores (a soft
  hyphen, say) can change the answer. The model compares character by character.
- .NET exception machinery: the `catch` is modelled as the outcome `Skipped`, which
  leaves the state unchanged exactly as `continue` does. Failures the code cannot raise on
  these inputs (out of memory, for one) are not modelled.
- .NET strings are sequences of UTF-16 code units; the model's strings are sequences of
  Unicode scalar values. This changes no outcome: every character the parser tests (`"`,
  `=`, `@`, `[HKEY`, `]`, `d`, `q`, `h`) is ASCII, and whether the lookahead runs off the
  line depends only on where the quotes are.
- `RegFile.data` is declared `object` but is only ever a string, which is what the
  model stores.
- The `List<RegFile>` inside each `RegFolder` is updated in place in the source; the
  model replaces the folder's sequence instead. No other reference to that list exists, so
  no aliasing is lost.
- `nextFileData` is a 32-bit `int`. The model uses an unbounded integer: overflow would
  need more than 2^31 key blocks.
- The repository's later structured parser is not part of this model: typed values, escape
  handling, hex continuation and header validation. The code modelled has none of these.
- `Text.IsWhiteSpace` has no contract of its own: it is the character table of
  `Char.IsWhiteSpace`, and `Text.IsNullOrWhiteSpace` carries what the parser relies on.
- `Text.EndsWith` and `Parser.IsKeyHeader` have no contract of their own: what the header
  test promises is stated by the lemma `Parser.KeyHeaderShape`.
