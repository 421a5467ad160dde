# go-logging handler, modelled in Dafny

A model of the `log/slog` handler in `logging.go`: `newHandler` and
`(*handler).Handle`. Handle drops a record whose level is strictly below the
handler's level. Otherwise it builds one text line:

    <datetime> <LEVEL>[ [k1=v1, k2=v2]]: <message>\n

It hands that line to the writer (a rotating log file) and also prints it to
standard output when `withStdout` is set. It always returns a nil error.

Modules:

- `Levels` (levels.dfy): slog levels as integers (Debug -4, Info 0, Warn 4,
  Error 8). It holds the level gate `Admit` and the canonical names `LevelName`.
- `Strings` (strings.dfy): `strings.Join`, plus a first-occurrence search used
  by the decoder.
- `LineFormat` (render.dfy): the record, the specification function `Render`,
  and the method `FormatLine`. `FormatLine` builds the line step by step, the
  way Handle fills its buffer, and is proved equal to `Render`.
- `LineParse` (parse.dfy): a decoder for rendered lines. It is the partner of
  `Render`: it shows that the datetime, level, attribute text and message can
  all be read back from a line.
- `Logging` (handler.dfy): the `Handler` class. The writer and standard output
  are sequences of written texts, one entry per write call. Its invariant
  `Valid()` says two things. The writer holds exactly the lines of the admitted
  records, in call order. Standard output equals the writer's content when
  `withStdout` is set and stays empty otherwise. Calls are taken one at a
  time (see "Left out").

The code and its test file disagree on one point, and the model follows the
code. For a record without attributes, logging.go:64-73 writes the level name
and then ": " directly, which gives `"<dt> ERROR: message"`. logging_test.go:92
expects `"<dt> ERROR : message"`. That test exercises a configurable API
(`NewHandler`, `Format`) that logging.go does not contain. `RenderNoAttrs`
states the line the code actually writes.

## Model

| member | source | states |
|---|---|---|
| `Levels.Admit` | logging.go:36-38 | a record is admitted exactly when the handler's level is at most the record's level |
| `Levels.AdmitMonotone` | logging.go:36 | if a level is admitted, every higher level is admitted by the same handler |
| `Levels.AdmitAntitone` | logging.go:36 | lowering the handler's level never drops a record that was admitted before |
| `Levels.AdmitAtInfo` | logging.go:89 | at the default level Info, Debug is dropped and Info, Warn and Error pass |
| `Levels.LevelName` | logging.go:46-56 | each of Debug, Info, Warn and Error gets its own name (both directions), and any other level gets the empty name |
| `Levels.LevelFromName` | logging.go:47-56 | reading a name back gives a named level whose name it is, and gives nothing exactly for strings that are not one of the four names |
| `Levels.LevelNameRoundTrip` | logging.go:47-56 | the printed name identifies a named level, and an unnamed level prints nothing that can be read back |
| `Levels.LevelNameHasNoDelimiter` | logging.go:49-55 | no level name contains ':' or ' ' |
| `Strings.Join` | logging.go:67 | `strings.Join`: no parts give the empty text, one part joins to itself, and joining n >= 1 parts adds exactly n-1 delimiters and nothing else |
| `Strings.JoinSplit` | logging.go:67 | a join keeps the order of its parts: cut anywhere, it is the join of the front, one delimiter, then the join of the back |
| `Strings.JoinExcludes` | logging.go:67 | a character found in no part and not in the delimiter is not in the join |
| `LineFormat.AttrText` | logging.go:61 | an attribute's text has the length of key, '=' and value text together, with the '=' right after the key |
| `LineFormat.AttrTextParts` | logging.go:61 | an attribute's text holds its key before the '=' and its value text after it |
| `LineFormat.AttrTexts` | logging.go:59-63 | one `key=value` text per attribute, in the record's order |
| `LineFormat.AttrSegment` | logging.go:64-69 | the attribute segment is empty exactly when the record has no attributes |
| `LineFormat.Render` | logging.go:40-76 | every line starts with the datetime text and ends with ": ", the message verbatim and one newline |
| `LineFormat.FormatLine` | logging.go:40-76 | building the line step by step, with the attributes collected one at a time, gives exactly `Render` of the record |
| `LineFormat.RenderWithoutAttrs` | logging.go:64-73 | with no attributes the line is datetime, " ", name, ": ", message and newline, with no brackets and no extra space |
| `LineFormat.RenderWithAttrs` | logging.go:59-73 | with n >= 1 attributes the line holds " [", the joined texts, "]: " and the message, and the joined texts hold n-1 delimiters |
| `LineFormat.RenderSingleLine` | logging.go:72-76 | if no input text contains a newline, the line holds exactly one newline, at its end |
| `LineFormat.RenderOneAttr` | logging_test.go:79-80 | `Info("message", "attr1", 1)` renders as `<dt> INFO [attr1=1]: message` plus a newline |
| `LineFormat.RenderTwoAttrs` | logging_test.go:85-86 | `Warn("message", "attr1", 1, "attr2", "v")` renders as `<dt> WARN [attr1=1, attr2=v]: message` plus a newline |
| `LineFormat.RenderNoAttrs` | logging.go:64-73 | `Error("message")` renders as `<dt> ERROR: message` plus a newline (no space before the colon) |
| `LineParse.NameEnd` | logging.go:46-56 | the level name ends at the first ':' or ' ' of what follows the datetime |
| `LineParse.NameEndAfter` | logging.go:46-59 | a name free of ':' and ' ' that is followed by either of them is exactly the part before the first one |
| `LineParse.ParseTailBracketed` | logging.go:64-73 | after " [", an attribute text followed by "]: " and a message is split back into exactly that text and message if and only if no "]: " begins inside the text |
| `LineParse.JoinClosesAfter` | logging.go:64-73 | when no attribute text contains "]: ", none begins inside their join with ", " either, even where a text meets a delimiter or the closing "]: " |
| `LineParse.ParseTailSegment` | logging.go:59-73 | when no attribute text contains "]: ", what follows the level name gives back the joined attribute text and the message |
| `LineParse.ParseLineFront` | logging.go:43-56 | the datetime, the separating space, the level name and the final newline sit where the decoder looks for them |
| `LineParse.ParseRender` | logging.go:40-76 | decoding a rendered line gives back the datetime, the level (for a named level), the joined attribute text and the message, provided no attribute text contains "]: " (brackets alone, as in `[1 2]`, are allowed) |
| `LineParse.RenderDeterminesMessage` | logging.go:40-76 | two records with datetimes of equal width and no "]: " in any attribute text that render to the same line have the same datetime, message and attribute text, and the same level when the first has a named level |
| `LineParse.SegmentEndAmbiguous` | logging.go:61-73 | a value text holding "]: " gives the same line as the value cut there with the rest moved in front of the message, so the restriction above is needed |
| `Logging.Emitted` | logging.go:36-38 | the writer's content over a run of calls: at most one line per call, and every line is the rendering of an admitted record of the run |
| `Logging.EmittedAppend` | logging.go:77-81 | the writer's output for a run of calls is the output of the earlier calls followed by that of the later ones |
| `Logging.EmittedStep` | logging.go:36-81 | one more call adds the record's line when it is admitted and nothing when it is dropped |
| `Logging.EmittedCount` | logging.go:36-38 | the writer receives exactly one line per admitted record |
| `Logging.EmittedNothingBelow` | logging.go:36-38 | records that are all below the handler's level produce no output at all |
| `Logging.DefaultRun` | logging_test.go:72-93 | the default level Info, given Debug, Info, Warn and Error records, writes the lines of the last three in call order; the Error line is the one logging.go writes, not the test's `"ERROR : message"` (see above) |
| `Logging.ErrorOnlyRun` | logging_test.go:117-133 | level Error writes nothing for Debug, Info and Warn records and the line of an Error record |
| `Logging.Handler.Valid` | logging.go:77-81 | the writer holds `Emitted` of the handled records and standard output mirrors it (or stays empty); hence at most as many printed lines as written lines, and at most as many written lines as calls |
| `Logging.Handler.constructor` | logging.go:23-31 | a new handler keeps its level and its stdout flag, and starts with nothing written or printed |
| `Logging.Handler.Handle` | logging.go:34-84 | returns nil on every path and records the call. A dropped record writes and prints nothing. An admitted record appends `Render(r)` to the writer, and to standard output exactly when `withStdout` is set. The invariant `Valid` is kept |

## Left out

- Log rotation (lumberjack: size, age, backup count, compression) and the
  `NewLogger` wiring of the package-level settings (logging.go:87-123). That is
  configuration of a third-party component, with no logic of its own here.
- `time.Time.Format` (logging.go:43) and `fmt`'s `%v` rendering of attribute
  values (logging.go:61). A record carries the datetime text and each value's
  text as given strings.
- The embedded `slog.Handler` (`slog.NewTextHandler`, logging.go:16, 26). Its
  `Enabled`, `WithAttrs` and `WithGroup` come from the standard library, which
  is not part of this model. `Enabled` may filter records before Handle is
  reached.
- `Logging.Handler.Handle` is modelled as called one call at a time. The
  source takes no lock (logging.go:34-84), and its write to the writer
  (logging.go:77) and its print to standard output (logging.go:80) are two
  separate writes, so goroutines logging concurrently can put lines into the
  file and onto standard output in different orders. The invariant that
  standard output equals the writer's content, in call order, holds only for
  sequential calls.
- Real I/O. The writer and standard output are sequences of the texts handed
  to them. The byte count and error that the writer's `Write` returns are not
  modelled, because Handle ignores them (logging.go:77).
- Standard output is modelled per handler. Output that other code prints to the
  process's standard output is not modelled.
- The configurable API that logging_test.go uses (`NewHandler`,
  `NewLoggerFromHandler`, `Format` templates, `Option`) is not part of
  logging.go and is not modelled.
- Integer width: slog levels are Go `int`. The model uses unbounded integers;
  the only operations on levels are comparisons, so this loses nothing.
- `LineParse.ParseRender`: it covers only records in which no attribute text
  contains "]: ". Brackets, colons and spaces on their own are allowed, so
  slice and group values printed as `[1 2]` are covered. A text that holds
  "]: " makes the segment boundary ambiguous: `SegmentEndAmbiguous` gives two
  different records with the same line.
- `LineParse.RenderDeterminesMessage`: it has the same restriction, for the
  same reason; `SegmentEndAmbiguous` shows that without it two records with
  different messages can share a line.
