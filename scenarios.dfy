/** The behaviour the repository's tests pin down, replayed against the model
    as client code: the sequence of file names as the setters are called, and
    two writes into one window. The tests use fixed strings ("pre", "_",
    "suf", "txt", the layout "2006010215") and Go's `time.Time.Format`; here
    the strings are any that meet the naming rule's conditions and the
    formatter is a parameter. */
module Scenarios {
  import opened Wrappers
  import opened Strings
  import opened Utf8
  import opened Gyro
  import Os

  /** The four-shape naming rule with `stamp` in place of the verb. */
  function Expected(prefix: string, sep: string, suffix: string, ext: string, stamp: string): string
  {
    Head(prefix, sep) + stamp + Tail(sep, suffix) + Dot(ext)
  }

  /** Naming parameters under which the name is the naming rule: none holds
      a '%', and none has white space at the outer ends for the trim to
      take. */
  predicate Plain(prefix: string, sep: string, suffix: string, ext: string)
  {
    PercentFree(prefix) && PercentFree(sep) && PercentFree(suffix) && PercentFree(ext)
    && (prefix == "" || !IsSpace(prefix[0])) && (ext == "" || !IsSpace(ext[|ext| - 1]))
  }

  /** A consistent logger whose naming parameters are plain. */
  ghost predicate Nameable(l: Logger)
    reads l
  {
    l.Valid() && Plain(l.prefix, l.separator, l.suffix, l.extension)
  }

  /** Starting from the defaults, with the clock fixed at the epoch: set the
      separator, the extension to "" and then to `ext`, the prefix, the
      suffix and the layout, reading the file name after each step. Each
      name is the naming rule for the parameters set so far, with the epoch
      formatted by the layout in force; the separator alone changes nothing,
      and at the end the format is the four-shape naming rule with the verb
      in place of the stamp. */
  method FilenameSequence(timeFormat: (Time, string) -> string, now: () -> Time,
                          prefix: string, sep: string, suffix: string, ext: string, layout: string)
    returns (names: seq<string>, format: string)
    requires prefix != "" && !IsSpace(prefix[0]) && suffix != ""
    requires ext != "" && !IsSpace(ext[|ext| - 1])
    requires PercentFree(prefix) && PercentFree(sep) && PercentFree(suffix) && PercentFree(ext)
    ensures var s1, s2 := timeFormat(Epoch, DefaultLayout), timeFormat(Epoch, layout);
      names == [Expected("", "", "", DefaultExtension, s1), Expected("", sep, "", DefaultExtension, s1),
                Expected("", sep, "", "", s1), Expected("", sep, "", ext, s1),
                Expected(prefix, sep, "", ext, s1), Expected(prefix, sep, suffix, ext, s1),
                Expected(prefix, sep, suffix, ext, s2)]
    ensures format == Template(prefix, sep, suffix, ext)
  {
    var l := EpochLogger(now, timeFormat);
    var n1, n2, n3, n4 := UnaffixedNames(l, sep, ext);
    var n5, n6, n7 := AffixedNames(l, prefix, sep, suffix, ext, layout);
    names := [n1, n2, n3, n4, n5, n6, n7];
    format := l.format;
    BuildFormatIsTemplate(prefix, sep, suffix, ext);
  }

  /** A logger with the defaults whose clock is fixed at the epoch. */
  method EpochLogger(now: () -> Time, timeFormat: (Time, string) -> string) returns (l: Logger)
    ensures fresh(l) && l.Valid() && l.timeFn() == Epoch && l.timeFormat == timeFormat
    ensures l.Stamp(l.timeFn()) == timeFormat(Epoch, DefaultLayout)
    ensures l.prefix == "" && l.suffix == "" && l.separator == ""
    ensures l.layout == DefaultLayout && l.extension == DefaultExtension
  {
    var made, _ := Logger.New("test", None, now, timeFormat);
    l := made;
    l.SetTimeFunction(() => Epoch);
  }

  /** From the defaults: the names before and after setting the separator,
      after clearing the extension and after setting it to `ext`. */
  method UnaffixedNames(l: Logger, sep: string, ext: string) returns (n1: string, n2: string, n3: string, n4: string)
    requires l.Valid() && l.prefix == "" && l.suffix == "" && l.separator == ""
    requires l.extension == DefaultExtension
    requires PercentFree(sep) && PercentFree(ext) && ext != "" && !IsSpace(ext[|ext| - 1])
    modifies l`separator, l`extension, l`format
    ensures Nameable(l) && l.prefix == "" && l.suffix == "" && l.separator == sep && l.extension == ext
    ensures var s1 := l.Stamp(l.timeFn());
      n1 == Expected("", "", "", DefaultExtension, s1) && n2 == Expected("", sep, "", DefaultExtension, s1)
      && n3 == Expected("", sep, "", "", s1) && n4 == Expected("", sep, "", ext, s1)
  {
    n1 := FirstName(l);
    n2 := SeparatorName(l, sep);
    n3 := ExtensionName(l, "");
    n4 := ExtensionName(l, ext);
  }

  /** With no affixes yet: the names after setting the prefix, the suffix
      and the layout; the format is then the compiled template. */
  method AffixedNames(l: Logger, prefix: string, sep: string, suffix: string, ext: string, layout: string)
    returns (n5: string, n6: string, n7: string)
    requires Nameable(l) && l.prefix == "" && l.suffix == "" && l.separator == sep && l.extension == ext
    requires PercentFree(prefix) && PercentFree(suffix) && prefix != "" && !IsSpace(prefix[0])
    modifies l`prefix, l`suffix, l`layout, l`format
    ensures l.format == BuildFormat(prefix, sep, suffix, ext) && l.layout == layout
    ensures var s1, s2 := old(l.Stamp(l.timeFn())), l.Stamp(l.timeFn());
      n5 == Expected(prefix, sep, "", ext, s1) && n6 == Expected(prefix, sep, suffix, ext, s1)
      && n7 == Expected(prefix, sep, suffix, ext, s2)
  {
    n5 := PrefixName(l, prefix);
    n6 := SuffixName(l, suffix);
    n7 := LayoutName(l, layout);
  }

  /** The name under the defaults. */
  method FirstName(l: Logger) returns (name: string)
    requires l.Valid() && l.prefix == "" && l.suffix == "" && l.separator == ""
    requires l.extension == DefaultExtension
    ensures Nameable(l)
    ensures name == Expected(l.prefix, l.separator, l.suffix, l.extension, l.Stamp(l.timeFn()))
  {
    assert PercentFree(DefaultExtension) && !IsSpace(DefaultExtension[2]);
    name := ReadName(l);
  }

  /** The name after `SetSeparator(sep)`. */
  method SeparatorName(l: Logger, sep: string) returns (name: string)
    requires Nameable(l) && PercentFree(sep)
    modifies l`separator, l`format
    ensures Nameable(l) && l.separator == sep
    ensures name == Expected(l.prefix, l.separator, l.suffix, l.extension, l.Stamp(l.timeFn()))
  {
    l.SetSeparator(sep);
    name := ReadName(l);
  }

  /** The name after `SetExtension(ext)`. */
  method ExtensionName(l: Logger, ext: string) returns (name: string)
    requires Nameable(l) && PercentFree(ext) && (ext == "" || !IsSpace(ext[|ext| - 1]))
    modifies l`extension, l`format
    ensures Nameable(l) && l.extension == ext
    ensures name == Expected(l.prefix, l.separator, l.suffix, l.extension, l.Stamp(l.timeFn()))
  {
    l.SetExtension(ext);
    name := ReadName(l);
  }

  /** The name after `SetPrefix(prefix)`. */
  method PrefixName(l: Logger, prefix: string) returns (name: string)
    requires Nameable(l) && PercentFree(prefix) && (prefix == "" || !IsSpace(prefix[0]))
    modifies l`prefix, l`format
    ensures Nameable(l) && l.prefix == prefix
    ensures name == Expected(l.prefix, l.separator, l.suffix, l.extension, l.Stamp(l.timeFn()))
  {
    l.SetPrefix(prefix);
    name := ReadName(l);
  }

  /** The name after `SetSuffix(suffix)`. */
  method SuffixName(l: Logger, suffix: string) returns (name: string)
    requires Nameable(l) && PercentFree(suffix)
    modifies l`suffix, l`format
    ensures Nameable(l) && l.suffix == suffix
    ensures name == Expected(l.prefix, l.separator, l.suffix, l.extension, l.Stamp(l.timeFn()))
  {
    l.SetSuffix(suffix);
    name := ReadName(l);
  }

  /** The name after `SetLayout(layout)`. */
  method LayoutName(l: Logger, layout: string) returns (name: string)
    requires Nameable(l)
    modifies l`layout
    ensures Nameable(l) && l.layout == layout
    ensures name == Expected(l.prefix, l.separator, l.suffix, l.extension, l.Stamp(l.timeFn()))
  {
    l.SetLayout(layout);
    name := ReadName(l);
  }

  /** Reads the logger's file name, which is the naming rule with the
      current stamp. */
  method ReadName(l: Logger) returns (name: string)
    requires Nameable(l)
    ensures name == Expected(l.prefix, l.separator, l.suffix, l.extension, l.Stamp(l.timeFn()))
  {
    NameIsTemplate(l, l.timeFn());
    name := l.FileName();
  }

  /** Into a directory with no log file yet, with the clock fixed at `t`
      and the default naming, write the bytes of `line1` and then the string
      `line2`. Only the window's file, the stamp of `t` with ".log" behind
      it, is ever created, and if both writes succeed it holds both lines, in
      order. */
  method TwoWrites(timeFormat: (Time, string) -> string, t: Time, dir: string, line1: string, line2: string)
    returns (err1: Option<Error>, err2: Option<Error>, files: Os.Files)
    ensures var name := Os.Join(dir, timeFormat(t, DefaultLayout) + ".log");
      files.Keys <= {name} && (err1.None? && err2.None? ==> files == map[name := Encode(line1 + line2)])
    ensures var name := Os.Join(dir, timeFormat(t, DefaultLayout) + ".log");
      err1.None? && err2.None? && Ascii(line1 + line2) ==> AsciiBytes(files[name], line1 + line2)
  {
    var fs := new Os.FileSystem(map[]);
    var l, _ := Logger.New(dir, None, () => t, timeFormat);
    var _ := FirstName(l);  // the default name is the stamp with ".log" behind it
    err1, err2 := WriteTwice(l, fs, line1, line2);
    files := fs.files;
    if Ascii(line1 + line2) {
      EncodeAscii(line1 + line2);
    }
  }

  /** `bytes` are the character codes of the ASCII string `s`, one byte each:
      what the test reads back from the log file. */
  predicate AsciiBytes(bytes: seq<byte>, s: string) {
    |bytes| == |s| && forall i :: 0 <= i < |s| ==> bytes[i] == s[i] as int
  }

  /** With the default naming, the name under a clock fixed at `t1` and then,
      after `SetTimeFunction`, under a clock fixed at `t2`: each is the stamp
      of its clock's time with ".log" behind it, so a clock whose time falls
      in another window names another file. */
  method SwitchClock(timeFormat: (Time, string) -> string, t1: Time, t2: Time, dir: string)
    returns (name1: string, name2: string)
    ensures name1 == timeFormat(t1, DefaultLayout) + ".log"
    ensures name2 == timeFormat(t2, DefaultLayout) + ".log"
  {
    var l, _ := Logger.New(dir, None, () => t1, timeFormat);
    name1 := FirstName(l);
    l.SetTimeFunction(() => t2);
    name2 := FirstName(l);
  }

  /** Two writes through `l` into an empty file system, the first of bytes
      and the second of a string, within one time window. */
  method WriteTwice(l: Logger, fs: Os.FileSystem, line1: string, line2: string)
    returns (err1: Option<Error>, err2: Option<Error>)
    requires fs.files == map[]
    modifies fs
    ensures var name := Os.Join(l.path, l.FileName());
      fs.files.Keys <= {name} && (err1.None? && err2.None? ==> fs.files == map[name := Encode(line1 + line2)])
  {
    var name := Os.Join(l.path, l.FileName());
    var bytes1 := Encode(line1);
    var n1;
    n1, err1 := l.Write(fs, bytes1);
    ghost var afterFirst := fs.files;
    err2 := l.WriteString(fs, line2);
    ghost var n2 :| WriteOutcome(afterFirst, fs.files, name, Encode(line2), n2, err2);
    WriteTouchesOnlyItsFile(map[], afterFirst, name, bytes1, n1, err1, name + "x");
    WriteTouchesOnlyItsFile(afterFirst, fs.files, name, Encode(line2), n2, err2, name + "x");
    if err1.None? && err2.None? {
      WritesIntoEmpty(afterFirst, fs.files, name, bytes1, Encode(line2), n1, n2);
      EncodeAppend(line1, line2);
    }
  }

  /** Two successful writes into an empty directory leave one file holding
      both payloads. */
  lemma WritesIntoEmpty(files1: Os.Files, files2: Os.Files, name: string,
                        a: seq<byte>, b: seq<byte>, n1: nat, n2: nat)
    requires WriteOutcome(map[], files1, name, a, n1, None)
    requires WriteOutcome(files1, files2, name, b, n2, None)
    ensures files2 == map[name := a + b]
  {
    WritesConcatenate(map[], files1, files2, name, a, b, n1, n2);
    assert Os.Contents(map[], name) + a + b == a + b;
    assert files2.Keys == {name};
  }
}
