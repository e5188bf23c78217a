# gyro, modelled in Dafny

gyro is a rotating log writer in Go. A `Logger` appends every write to one file
in its directory. The file's name is the current time, formatted by a layout,
set inside a template of prefix, separator, suffix and extension. When the
formatted time changes, writes go to a new file. Old files are never touched
again.

The template is compiled into a `fmt.Sprintf` format with one `%s` verb
whenever a naming parameter changes (`buildFormatString`). `FileName`
substitutes the formatted time into that verb. `Write` opens
`path/FileName()` for appending, creating it if absent, writes the bytes and
reports a short write as an error.

The model has these modules:

- `Strings` (`strings.dfy`): Go's `strings.TrimSpace`, with the white-space
  set of `unicode.IsSpace`, and the trimming lemmas the format compiler needs.
- `Fmt` (`fmt.dfy`): `fmt.Sprintf` for a format with a single `%s` verb.
- `Utf8` (`utf8.dfy`): the conversion `[]byte(s)`, with a decoder that shows
  it loses nothing.
- `Os` (`os.dfy`): the file system as a map from path to bytes, `path.Join`,
  `os.OpenFile` for appending and `(*os.File).Write`. Refusals and short writes
  are nondeterministic choices, so every OS outcome is covered.
- `Gyro` (`gyro.dfy`): the format compiler as a function, with its reference
  template. The `Logger` is a class whose setters update its fields in place.
  `Write`'s outcomes are described by the predicate `WriteOutcome`.
- `Scenarios` (`scenarios.dfy`): the repository's tests `TestFilenames`,
  `TestWrites` and (without its time zones) `TestSetTime` replayed as client
  code, over arbitrary strings and an arbitrary time formatter.

Where the code and the four-shape naming rule its tests pin down differ, the model follows the code:

- An extension of white space only is not empty, so the dot stays, but the
  trim removes the extension. The format then ends in a dangling dot
  (`BlankExtensionLeavesDot`).
- Leading white space of the prefix (and of the separator behind a blank
  prefix) is trimmed too. The trim runs on the format, before the stamp is
  put in, so white space that the stamp brings to the front of the name is
  kept. The four-shape template holds exactly only when the prefix does not
  start with white space and the extension does not end with it
  (`BuildFormatIsTemplate`).
- A short write is reported whenever fewer bytes than requested were written,
  even when the OS also returned an error; the OS error is then dropped
  (`WriteOutcome`).

## Model

| member | source | states |
|---|---|---|
| Strings.TrimLeftSpaceSpec | gyro.go:163 | `strings.TrimSpace`'s left half drops exactly a maximal run of white space: the result is a suffix, what was dropped is all white space, and the result does not start with white space |
| Strings.TrimRightSpaceSpec | gyro.go:163 | the right half drops exactly a maximal run of white space at the end: the result is a prefix, the rest is all white space, and the result does not end with white space |
| Strings.TrimSpace | gyro.go:163-169 | `strings.TrimSpace` as the right trim of the left trim; what it removes and keeps is stated by `TrimSpaceSpec` |
| Strings.TrimSpaceSpec | gyro.go:163-169 | `TrimSpace(s)` is an infix of `s` with only white space around it, and neither of its ends is white space |
| Strings.TrimLeftBeforeNonSpace | gyro.go:163 | left trimming stops at the first non-space character: what follows it is kept unchanged |
| Strings.TrimRightAfterNonSpace | gyro.go:163 | right trimming stops at the last non-space character: what precedes it is kept unchanged |
| Strings.TrimSpaceBetween | gyro.go:163-169 | with two non-space characters in a string, trimming touches only what stands before the first and after the second |
| Fmt.Sprintf | gyro.go:102 | `fmt.Sprintf` with one string argument for a format whose only '%' is its one `%s`; its meaning on such formats is stated by `SprintfAt` |
| Fmt.SprintfAt | gyro.go:102 | `Sprintf(before + "%s" + after, arg)`, with no '%' in `before` or `after`, is `before + arg + after` |
| Fmt.SprintfInjective | gyro.go:102 | different arguments give different results under one format with no '%' but its verb |
| Utf8.EncodeRune | gyro.go:126 | a rune encodes to 1, 2, 3 or 4 bytes according to its range, the first byte announces the length, and the others are continuation bytes |
| Utf8.DecodeEncodeRune | gyro.go:126 | decoding the encoding of a rune, whatever follows it, gives the rune and the length of its encoding |
| Utf8.Encode | gyro.go:126 | the conversion `[]byte(data)`: each rune's UTF-8 encoding in turn; `DecodeEncode` shows it loses nothing |
| Utf8.DecodeEncode | gyro.go:126 | `[]byte(s)` loses nothing: decoding it gives `s` back |
| Utf8.EncodeAppend | gyro.go:126 | the bytes of `s + t` are the bytes of `s` followed by those of `t` |
| Utf8.EncodeAscii | gyro.go:126 | an ASCII string encodes one byte per character, each byte the character's code |
| Os.AppendTo | gyro.go:110-116 | appending to a path creates it if absent, extends it by exactly the bytes, and leaves every other file as it was |
| Os.Join | gyro.go:110 | the joined path ends with the file name |
| Os.JoinInjective | gyro.go:110 | different names in one directory are different paths |
| Os.AppendTwice | gyro.go:110-116 | appending `a` and then `b` is appending `a + b` |
| Os.FileSystem.OpenAppend | gyro.go:110-113 | the open either fails with an `Open` path error and changes nothing, or creates the file empty if absent and changes nothing else |
| Os.FileSystem.Write | gyro.go:116 | the OS appends some prefix `data[..n]` of the data; fewer than all bytes always comes with an error |
| Gyro.BuildFormat | gyro.go:159-175 | the compiled format is the trimmed head, the verb, the tail, and the extension without its trailing white space behind a dot; with an empty extension there is no dot |
| Gyro.TrimRaw | gyro.go:160-170 | trimming the raw concatenation stops at the verb and at the dot, so only the head's leading and the extension's trailing white space go |
| Gyro.BuildFormatIsTemplate | gyro.go:159-175 | with no white space at the outer ends, the compiled format is the four-shape naming rule (`Template`) |
| Gyro.TemplateByParts | gyro.go:162-170 | the four shapes of the naming rule are one: head, verb, tail, dot and extension |
| Gyro.NothingToTrim | gyro.go:163-169 | a prefix not starting with white space and an extension not ending with it lose nothing to the trim |
| Gyro.DefaultFormat | gyro.go:17-18 | the default parameters compile to `"%s.log"` |
| Gyro.SeparatorUnusedWithoutAffixes | gyro.go:168-169 | without prefix and suffix, the separator does not appear: any two separators give the same format `"%s"` plus the dotted extension |
| Gyro.EmptyExtensionDropsDot | gyro.go:172-174 | an empty extension leaves no dangling dot: the format is that of a set extension without its `.ext` ending |
| Gyro.BlankExtensionLeavesDot | gyro.go:163-174 | an extension of white space only leaves the format ending in a dangling dot |
| Gyro.SubstituteIntoFormat | gyro.go:101-103 | with no '%' in any naming parameter, substituting a stamp into the compiled format puts it between the trimmed head and the tail |
| Gyro.TrimmedHeadPercentFree | gyro.go:163-165 | the part of the format before the verb holds no '%' when the prefix and separator hold none |
| Gyro.TailPercentFree | gyro.go:163-169 | the part of the format after the verb holds no '%' when the separator, suffix and extension hold none |
| Gyro.RawByCases | gyro.go:160-170 | the four concatenations `buildFormatString` chooses between are all head, verb, tail, dot and extension |
| Gyro.CompiledFromRaw | gyro.go:159-175 | the trimmed concatenation is never empty, so dropping its last character is defined; the result is the compiled format |
| Gyro.Logger.constructor | gyro.go:44-58 | a new logger has empty prefix, suffix and separator, layout "2006-01-02T15", extension "log", the given clock, and format `"%s.log"` |
| Gyro.Logger.New | gyro.go:44-61 | a failing write probe returns no logger and its error; otherwise a logger with the defaults and no error |
| Gyro.Logger.BuildFormatString | gyro.go:159-175 | after recompilation the cached format matches the naming parameters (`Valid`) |
| Gyro.Logger.SetPrefix | gyro.go:64-67 | only the prefix and the format change, and the format is recompiled |
| Gyro.Logger.SetSuffix | gyro.go:70-73 | only the suffix and the format change, and the format is recompiled |
| Gyro.Logger.SetSeparator | gyro.go:76-79 | only the separator and the format change, and the format is recompiled |
| Gyro.Logger.SetExtension | gyro.go:89-92 | only the extension and the format change, and the format is recompiled |
| Gyro.Logger.SetLayout | gyro.go:84-86 | only the layout changes; the format is left as it was |
| Gyro.Logger.SetTimeFunction | gyro.go:96-98 | only the clock changes; the format is left as it was |
| Gyro.Logger.NameAt | gyro.go:101-103 | with no '%' in the naming parameters, the name is the trimmed head, the formatted time, the tail and the dotted extension |
| Gyro.Logger.FileName | gyro.go:101-103 | with no '%' in the naming parameters, the name for the clock's current time is the trimmed head, its stamp, the tail and the dotted extension |
| Gyro.WriteOutcome | gyro.go:110-121 | the outcomes of one write: all data appended to the window's file (created if absent); a failed open with nothing written and the OS error; or `n` bytes appended and either the OS error or, when `n` falls short, a short-write error |
| Gyro.Logger.Write | gyro.go:106-122 | the files change as `WriteOutcome` says: all data appended to the window's file, or nothing on a failed open, or a reported short write of exactly the bytes written; no other file is touched |
| Gyro.Logger.WriteString | gyro.go:125-128 | the outcome is that of `Write` on the UTF-8 bytes of the string, for some count, and the error is `Write`'s |
| Gyro.WriteTouchesOnlyItsFile | gyro.go:106-122 | a write changes no file but the current window's and removes none |
| Gyro.WriteReportsCount | gyro.go:116-121 | fewer bytes than asked means a short-write error (or a failed open with nothing written); success means all bytes were appended |
| Gyro.WritesConcatenate | gyro.go:106-122 | two successful writes into one window append both payloads in order |
| Gyro.NameIsTemplate | gyro.go:101-103 | with no '%' and no outer white space, the file name is the naming rule with the stamp in place of the verb |
| Gyro.DistinctWindowsDistinctFiles | gyro.go:101-110 | two times whose stamps differ name different files in the logger's directory |
| Gyro.FormatInjective | gyro.go:102 | with no '%' in any naming parameter, different stamps in one compiled format give different names |
| Gyro.PastWindowUntouched | gyro.go:106-122 | a write in the current window leaves the file of any other window exactly as it was |
| Scenarios.FilenameSequence | gyro_test.go:28-63 | from the defaults, setting separator, extension "" then `ext`, prefix, suffix and layout gives at each step the naming rule for the parameters set so far, and the final format is the four-shape rule (`pre_%s_suf.txt` in the test) |
| Scenarios.UnaffixedNames | gyro_test.go:43-46 | without affixes, the separator changes nothing and an empty extension drops the dot |
| Scenarios.AffixedNames | gyro_test.go:47-49 | setting prefix and suffix brings the separator in, and changing the layout changes only the stamp |
| Scenarios.TwoWrites | gyro_test.go:94-124 | writing bytes and then a string into an empty directory at a fixed time creates only the window's file, which holds both lines in order if both writes succeed, one byte per character for ASCII lines |
| Scenarios.SwitchClock | gyro_test.go:67-91 | after `SetTimeFunction`, the name follows the new clock: under each fixed clock it is that clock's stamp with ".log" behind it |
| Scenarios.WritesIntoEmpty | gyro_test.go:111-123 | two successful writes into an empty directory leave one file holding both payloads |

## Left out

- `String`, the debug dump (gyro.go:131-144), is not modelled. It is diagnostics only and does not take part in naming or writing.
- `canWrite`, the probe that creates and removes a temporary file (gyro.go:147-155), is not modelled. Its verdict is the parameter `probe` of `Logger.New`.
- The files that `canWrite`'s probe creates and removes are therefore not in the file-system map.
- Go's `time.Time.Format` and time zones are library code outside this model. The formatter is the logger's constant `timeFormat`, and a time is an opaque value.
- The default clock `time.Now().UTC()` is the parameter `now` of `New`; clocks are pure functions, so the model holds fixed clocks only.
- The mutex and concurrent callers are not modelled. Each `Write` is one atomic step.
- Gyro.Logger.NameAt: states the name's shape only when no naming parameter holds a '%', because `fmt.Sprintf` with other verbs or `%%` escapes is not modelled.
- Gyro.Logger.FileName: likewise states the name only when no naming parameter holds a '%'.
- Fmt.Sprintf: on a format with a '%' other than its one `%s` it copies the text, where Go's `fmt.Sprintf` would unescape `%%` or report a bad verb; every lemma about it requires the format to have no other '%'.
- Gyro.BuildFormatIsTemplate: holds only without leading white space in the prefix and trailing white space in the extension, because the source trims these away.
- `path.Join`'s cleaning of `.`, `..` and repeated slashes is not modelled. `Os.Join` puts one slash between a directory and a plain file name.
- The error of `f.Close` (ignored by the source) and the file mode 0644 are not modelled.
- The text of the short-write error is not modelled; `ShortWrite` carries its two numbers.
- Go strings may hold invalid UTF-8; here strings are sequences of Unicode scalar values, so `[]byte(s)` is always valid UTF-8.
- Scenarios.FilenameSequence: the test's literal strings ("pre", "_", "suf", "txt", "2006010215") are replaced by arbitrary strings under the same conditions, and the formatter by a parameter; the expected names are stated through the naming rule rather than as literals.
- `TestCreateLogger` (gyro_test.go:15-26) is not replayed: whether the directory is writable is the probe verdict given to `New`, whose contract covers both outcomes.
- Scenarios.SwitchClock: the time zones of `TestSetTime` (gyro_test.go:67-91) are not modelled, because `time.Time.Format` and `time.LoadLocation` are library code; the formatter is a parameter and each clock is a fixed time.
- Scenarios.TwoWrites: the time formatter is a parameter, so the file name is the formatted stamp with ".log" behind it rather than the literal "1970-01-01T00.log".
