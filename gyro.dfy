/** The gyro log rotator: a logger that appends every write to the file whose
    name encodes the current time window, so that a new file starts whenever
    the formatted time changes and old files are never touched again.

    The filename template is compiled whenever a naming parameter changes
    (`BuildFormat`), and at write time the formatted time is substituted into
    its single `%s` verb (`Logger.FileName`). */
module Gyro {
  import opened Wrappers
  import opened Strings
  import opened Fmt
  import opened Utf8
  import Os

  /** Hourly windows: year, month, day and hour in Go's reference-time layout. */
  const DefaultLayout: string := "2006-01-02T15"
  const DefaultExtension: string := "log"

  /** A Go `time.Time`: an instant and the location it is shown in. */
  datatype Time = Time(unixNano: int, location: string)

  /** `time.Unix(0, 0).UTC()`, the fixed clock the tests use. */
  const Epoch: Time := Time(0, "UTC")

  /** The errors `Write` returns: one from the OS, passed on unchanged, or the
      logger's own report that fewer bytes were written than asked. */
  datatype Error = Io(cause: Os.IoError) | ShortWrite(written: nat, total: nat)

  // ---------------------------------------------------------------------------
  // Filename template compiler
  // ---------------------------------------------------------------------------

  /** What stands before the verb: the prefix and a separator, if there is a
      prefix. */
  function Head(prefix: string, sep: string): string
  {
    if |prefix| > 0 then prefix + sep else ""
  }

  /** What stands after the verb and before the extension: a separator and the
      suffix, if there is a suffix. */
  function Tail(sep: string, suffix: string): string
  {
    if |suffix| > 0 then sep + suffix else ""
  }

  /** The extension with its dot, or nothing when there is no extension. */
  function Dot(ext: string): string
  {
    if |ext| > 0 then "." + ext else ""
  }

  /** The extension as the compiled format ends: behind a dot and without
      its trailing white space, or nothing when there is no extension. */
  function TrimmedDot(ext: string): string
  {
    if |ext| > 0 then "." + TrimRightSpace(ext) else ""
  }

  /** The four-shape naming rule the tests pin down: one of four shapes, chosen by whether
      prefix and suffix are set, with ".ext" left off when the extension is
      empty. This is the reference the compiled format is compared with. */
  function Template(prefix: string, sep: string, suffix: string, ext: string): string
  {
    if prefix == "" && suffix == "" then Verb + Dot(ext)
    else if suffix == "" then prefix + sep + Verb + Dot(ext)
    else if prefix == "" then Verb + sep + suffix + Dot(ext)
    else prefix + sep + Verb + sep + suffix + Dot(ext)
  }

  /** The format string `buildFormatString` caches: the template with the
      separator only beside a prefix or suffix that is set, trimmed of white
      space at both ends, and with its last character (the dot) dropped when
      the extension is empty. Because the verb is not white space, the trim
      reaches into the prefix side and the extension only: the result is the
      head without its leading white space, the verb, the tail, and the
      extension without its trailing white space behind a dot. */
  function BuildFormat(prefix: string, sep: string, suffix: string, ext: string): (format: string)
    ensures format == TrimLeftSpace(Head(prefix, sep)) + Verb + Tail(sep, suffix) + TrimmedDot(ext)
  {
    var head, tail := Head(prefix, sep), Tail(sep, suffix);
    var trimmed := TrimSpace(head + Verb + tail + "." + ext);
    var stem := TrimLeftSpace(head) + Verb + tail;
    TrimRaw(head, tail, ext);
    assert trimmed == stem + "." + TrimRightSpace(ext);
    if |ext| == 0 then
      assert trimmed == stem + "." by { assert TrimRightSpace(ext) == ""; }
      assert trimmed[..|trimmed| - 1] == stem;
      trimmed[..|trimmed| - 1]
    else
      assert TrimmedDot(ext) == "." + TrimRightSpace(ext);
      trimmed
  }

  /** Trimming `head + "%s" + tail + "." + ext` stops at the verb on the left
      and at the dot on the right: it strips only the head's leading and the
      extension's trailing white space. */
  lemma TrimRaw(head: string, tail: string, ext: string)
    ensures TrimSpace(head + Verb + tail + "." + ext)
            == TrimLeftSpace(head) + Verb + tail + "." + TrimRightSpace(ext)
  {
    RawShape(head, tail, ext);
    TrimSpaceBetween(head, '%', "s" + tail, '.', ext);
    RawShape(TrimLeftSpace(head), tail, TrimRightSpace(ext));
  }

  /** The verb and the dot as the single characters the trim stops at. */
  lemma RawShape(head: string, tail: string, ext: string)
    ensures head + Verb + tail + "." + ext == head + ['%'] + ("s" + tail) + ['.'] + ext
  {
    assert Verb == ['%'] + "s";
  }

  /** With no white space at the outer ends (a prefix that does not start with
      it, an extension that does not end with it), the compiled format is
      exactly the four-shape naming rule. */
  lemma BuildFormatIsTemplate(prefix: string, sep: string, suffix: string, ext: string)
    requires prefix == "" || !IsSpace(prefix[0])
    requires ext == "" || !IsSpace(ext[|ext| - 1])
    ensures BuildFormat(prefix, sep, suffix, ext) == Template(prefix, sep, suffix, ext)
  {
    NothingToTrim(prefix, sep, ext);
    TemplateByParts(prefix, sep, suffix, ext);
  }

  /** A prefix that does not start with white space and an extension that
      does not end with it lose nothing to the trim. */
  lemma NothingToTrim(prefix: string, sep: string, ext: string)
    requires prefix == "" || !IsSpace(prefix[0])
    requires ext == "" || !IsSpace(ext[|ext| - 1])
    ensures TrimLeftSpace(Head(prefix, sep)) == Head(prefix, sep)
    ensures TrimmedDot(ext) == Dot(ext)
  {
    var h := Head(prefix, sep);
    if prefix != "" {
      assert h[0] == prefix[0];
    }
  }

  /** The four shapes of the naming rule are one: head, verb, tail, dot. */
  lemma TemplateByParts(prefix: string, sep: string, suffix: string, ext: string)
    ensures Template(prefix, sep, suffix, ext) == Head(prefix, sep) + Verb + Tail(sep, suffix) + Dot(ext)
  {
    var h, t := Head(prefix, sep), Tail(sep, suffix);
    if prefix == "" && suffix == "" {
      assert h + Verb + t == Verb;
    } else if suffix == "" {
      assert h + Verb + t == prefix + sep + Verb;
    } else if prefix == "" {
      assert h + Verb + t == Verb + sep + suffix;
    } else {
      assert h + Verb + t == prefix + sep + Verb + sep + suffix;
    }
  }

  /** The default naming parameters compile to "%s.log". */
  lemma DefaultFormat()
    ensures BuildFormat("", "", "", DefaultExtension) == "%s.log"
  {
    BuildFormatIsTemplate("", "", "", DefaultExtension);
  }

  /** Without a prefix and a suffix the separator does not appear in the
      format: any two separators give the same format. */
  lemma SeparatorUnusedWithoutAffixes(sep1: string, sep2: string, ext: string)
    ensures BuildFormat("", sep1, "", ext) == BuildFormat("", sep2, "", ext)
    ensures BuildFormat("", sep1, "", ext) == Verb + TrimmedDot(ext)
  {
  }

  /** An empty extension leaves no dangling dot: the format is the one for a
      non-empty extension without its ".ext" ending. */
  lemma EmptyExtensionDropsDot(prefix: string, sep: string, suffix: string, ext: string)
    requires ext != "" && !IsSpace(ext[|ext| - 1])
    ensures BuildFormat(prefix, sep, suffix, ext) == BuildFormat(prefix, sep, suffix, "") + "." + ext
  {
    TrimRightAfterNonSpace(ext[..|ext| - 1], ext[|ext| - 1], []);
    assert ext[..|ext| - 1] + [ext[|ext| - 1]] == ext;
  }

  /** The quirk of the source: an extension made of white space only is not
      empty, so the dot stays, but the trim removes the extension, leaving the
      format ending in a dangling dot. */
  lemma BlankExtensionLeavesDot(prefix: string, sep: string, suffix: string, ext: string)
    requires ext != "" && AllSpace(ext)
    ensures BuildFormat(prefix, sep, suffix, ext) == BuildFormat(prefix, sep, suffix, "") + "."
  {
    TrimRightSpaceSpec(ext);
  }

  /** Substituting a time stamp into the compiled format, when no naming
      parameter holds a '%', puts the stamp between the trimmed head and the
      tail. */
  lemma {:induction false} SubstituteIntoFormat(prefix: string, sep: string, suffix: string, ext: string, stamp: string)
    requires PercentFree(prefix) && PercentFree(sep) && PercentFree(suffix) && PercentFree(ext)
    ensures Sprintf(BuildFormat(prefix, sep, suffix, ext), stamp)
            == TrimLeftSpace(Head(prefix, sep)) + stamp + Tail(sep, suffix) + TrimmedDot(ext)
  {
    var t := TrimLeftSpace(Head(prefix, sep));
    TrimmedHeadPercentFree(prefix, sep);
    TailPercentFree(sep, suffix, ext);
    assert BuildFormat(prefix, sep, suffix, ext) == t + Verb + (Tail(sep, suffix) + TrimmedDot(ext));
    SprintfAt(t, Tail(sep, suffix) + TrimmedDot(ext), stamp);
  }

  /** What stands after the verb in the format holds no '%' when the
      separator, the suffix and the extension hold none. */
  lemma TailPercentFree(sep: string, suffix: string, ext: string)
    requires PercentFree(sep) && PercentFree(suffix) && PercentFree(ext)
    ensures PercentFree(Tail(sep, suffix) + TrimmedDot(ext))
  {
    var t, d := Tail(sep, suffix), TrimmedDot(ext);
    assert PercentFree(t) by {
      if |suffix| > 0 {
        forall j | 0 <= j < |t| ensures t[j] != '%' {
          if j < |sep| { assert t[j] == sep[j]; } else { assert t[j] == suffix[j - |sep|]; }
        }
      }
    }
    assert PercentFree(d) by {
      if |ext| > 0 {
        var e := TrimRightSpace(ext);
        TrimRightSpaceSpec(ext);
        forall j | 0 <= j < |d| ensures d[j] != '%' {
          if j > 0 { assert d[j] == e[j - 1] == ext[j - 1]; }
        }
      }
    }
    forall j | 0 <= j < |t + d| ensures (t + d)[j] != '%' {
      if j < |t| { assert (t + d)[j] == t[j]; } else { assert (t + d)[j] == d[j - |t|]; }
    }
  }

  /** What stands before the verb in the format holds no '%' when the prefix
      and the separator hold none. */
  lemma TrimmedHeadPercentFree(prefix: string, sep: string)
    requires PercentFree(prefix) && PercentFree(sep)
    ensures PercentFree(TrimLeftSpace(Head(prefix, sep)))
  {
    var h := Head(prefix, sep);
    var t := TrimLeftSpace(h);
    TrimLeftSpaceSpec(h);
    assert PercentFree(h) by {
      if |prefix| > 0 {
        forall j | 0 <= j < |h| ensures h[j] != '%' {
          if j < |prefix| { assert h[j] == prefix[j]; } else { assert h[j] == sep[j - |prefix|]; }
        }
      }
    }
    forall i | 0 <= i < |t| ensures t[i] != '%' {
      assert t[i] == h[|h| - |t| + i];
    }
  }

  /** The four concatenations `buildFormatString` chooses between are the
      head, the verb, the tail, a dot and the extension. */
  lemma RawByCases(prefix: string, sep: string, suffix: string, ext: string, raw: string)
    requires |prefix| > 0 && |suffix| > 0 ==> raw == prefix + sep + Verb + sep + suffix + "." + ext
    requires |prefix| > 0 && |suffix| == 0 ==> raw == prefix + sep + Verb + "." + ext
    requires |prefix| == 0 && |suffix| > 0 ==> raw == Verb + sep + suffix + "." + ext
    requires |prefix| == 0 && |suffix| == 0 ==> raw == Verb + "." + ext
    ensures raw == Head(prefix, sep) + Verb + Tail(sep, suffix) + "." + ext
  {
    var h, t := Head(prefix, sep), Tail(sep, suffix);
    if |prefix| > 0 && |suffix| > 0 {
      assert h + Verb + t == prefix + sep + Verb + sep + suffix;
    } else if |prefix| > 0 {
      assert h + Verb + t == prefix + sep + Verb;
    } else if |suffix| > 0 {
      assert h + Verb + t == Verb + sep + suffix;
    } else {
      assert h + Verb + t == Verb;
    }
  }

  /** Trimming the raw concatenation leaves at least its dot, and the
      compiled format is the trimmed text, without that dot when the
      extension is empty. */
  lemma CompiledFromRaw(prefix: string, sep: string, suffix: string, ext: string, raw: string)
    requires raw == Head(prefix, sep) + Verb + Tail(sep, suffix) + "." + ext
    ensures |TrimSpace(raw)| > 0
    ensures BuildFormat(prefix, sep, suffix, ext)
            == if |ext| == 0 then TrimSpace(raw)[..|TrimSpace(raw)| - 1] else TrimSpace(raw)
  {
    TrimRaw(Head(prefix, sep), Tail(sep, suffix), ext);
  }

  // ---------------------------------------------------------------------------
  // The logger
  // ---------------------------------------------------------------------------

  /** `Logger`: where the files go, the naming parameters, the clock and the
      cached format, with the bytes going through the OS's file system. The
      mutex serialising writes is not modelled: each `Write` is one atomic
      step. */
  class Logger {
    /** The directory the files are written in. */
    const path: string

    var prefix: string
    var suffix: string
    var separator: string
    var layout: string
    var extension: string

    /** The clock: what `time.Now` returns when the file name is derived. */
    var timeFn: () -> Time

    /** The cached filename format, with one `%s` for the formatted time. */
    var format: string

    /** Go's `time.Time.Format`, library code that is not part of this
        model: it is given to the logger and used as it is. */
    const timeFormat: (Time, string) -> string

    /** The cached format always matches the naming parameters. */
    ghost predicate Valid()
      reads this`prefix, this`separator, this`suffix, this`extension, this`format
    {
      format == BuildFormat(prefix, separator, suffix, extension)
    }

    /** The logger with the default naming parameters that `New` builds. */
    constructor (path: string, now: () -> Time, timeFormat: (Time, string) -> string)
      ensures Valid()
      ensures this.path == path && this.timeFn == now && this.timeFormat == timeFormat
      ensures prefix == "" && suffix == "" && separator == ""
      ensures layout == DefaultLayout && extension == DefaultExtension
      ensures format == "%s.log"
    {
      this.path := path;
      this.timeFormat := timeFormat;
      prefix, suffix, separator := "", "", "";
      layout, extension := DefaultLayout, DefaultExtension;
      timeFn := now;
      format := "";
      new;
      BuildFormatString();
      DefaultFormat();
    }

    /** `New(path)`: fails with the error of the write probe on `path`
        (whose outcome is the parameter `probe`), and otherwise returns a
        logger with the defaults: layout "2006-01-02T15", extension "log",
        empty prefix, suffix and separator, format "%s.log". The default clock,
        `time.Now().UTC()`, is the parameter `now`. */
    static method New(path: string, probe: Option<Os.IoError>, now: () -> Time,
                      timeFormat: (Time, string) -> string)
      returns (l: Logger?, err: Option<Os.IoError>)
      ensures err == probe
      ensures probe.Some? <==> l == null
      ensures l != null ==>
        && fresh(l) && l.Valid() && l.path == path
        && l.timeFn == now && l.timeFormat == timeFormat
        && l.prefix == "" && l.suffix == "" && l.separator == ""
        && l.layout == DefaultLayout && l.extension == DefaultExtension
        && l.format == "%s.log"
    {
      if probe.Some? {
        return null, probe;
      }
      l := new Logger(path, now, timeFormat);
      err := None;
    }

    /** `buildFormatString`: recompiles the cached format from the naming
        parameters, by the same four-way case split the source makes. */
    method BuildFormatString()
      modifies this`format
      ensures Valid()
    {
      var p, s := |prefix| > 0, |suffix| > 0;
      var raw;
      if p && s {
        raw := prefix + separator + Verb + separator + suffix + "." + extension;
      } else if p && !s {
        raw := prefix + separator + Verb + "." + extension;
      } else if !p && s {
        raw := Verb + separator + suffix + "." + extension;
      } else {
        raw := Verb + "." + extension;
      }
      RawByCases(prefix, separator, suffix, extension, raw);
      CompiledFromRaw(prefix, separator, suffix, extension, raw);
      format := TrimSpace(raw);
      if |extension| == 0 {
        format := format[..|format| - 1];
      }
    }

    /** `SetPrefix`: changes the prefix and recompiles the format; nothing
        else changes. */
    method SetPrefix(prefix: string)
      modifies this`prefix, this`format
      ensures this.prefix == prefix && Valid()
      ensures format == BuildFormat(prefix, separator, suffix, extension)
    {
      this.prefix := prefix;
      BuildFormatString();
    }

    /** `SetSuffix`: changes the suffix and recompiles the format. */
    method SetSuffix(suffix: string)
      modifies this`suffix, this`format
      ensures this.suffix == suffix && Valid()
      ensures format == BuildFormat(prefix, separator, suffix, extension)
    {
      this.suffix := suffix;
      BuildFormatString();
    }

    /** `SetSeparator`: changes the separator and recompiles the format. */
    method SetSeparator(sep: string)
      modifies this`separator, this`format
      ensures separator == sep && Valid()
      ensures format == BuildFormat(prefix, sep, suffix, extension)
    {
      separator := sep;
      BuildFormatString();
    }

    /** `SetExtension`: changes the extension and recompiles the format. */
    method SetExtension(ext: string)
      modifies this`extension, this`format
      ensures extension == ext && Valid()
      ensures format == BuildFormat(prefix, separator, suffix, ext)
    {
      extension := ext;
      BuildFormatString();
    }

    /** `SetLayout`: changes the time layout only; the format does not depend
        on it and is left as it was. */
    method SetLayout(layout: string)
      modifies this`layout
      ensures this.layout == layout && format == old(format)
    {
      this.layout := layout;
    }

    /** `SetTimeFunction`: replaces the clock only; the format is left as it
        was. */
    method SetTimeFunction(f: () -> Time)
      modifies this`timeFn
      ensures timeFn == f && format == old(format)
    {
      timeFn := f;
    }

    /** The current time formatted by the layout. */
    function Stamp(t: Time): string
      reads this`layout
    {
      timeFormat(t, layout)
    }

    /** No naming parameter holds a '%', so the format holds no verb but its
        own `%s` and `fmt.Sprintf` treats it as this model does. */
    predicate NoPercent()
      reads this`prefix, this`separator, this`suffix, this`extension
    {
      PercentFree(prefix) && PercentFree(separator) && PercentFree(suffix) && PercentFree(extension)
    }

    /** The file name for time `t`: the format with the time, formatted by
        the layout, in place of its verb. That is the compiled template with
        the stamp where the verb is. */
    function NameAt(t: Time): (name: string)
      reads this
      ensures Valid() && NoPercent() ==>
        name == TrimLeftSpace(Head(prefix, separator)) + Stamp(t) + Tail(separator, suffix)
                + TrimmedDot(extension)
    {
      if NoPercent() then
        SubstituteIntoFormat(prefix, separator, suffix, extension, Stamp(t));
        Sprintf(format, Stamp(t))
      else
        Sprintf(format, Stamp(t))
    }

    /** `FileName`: the name for what the clock says now, which is the
        compiled template with the current stamp where the verb is. */
    function FileName(): (name: string)
      reads this
      ensures Valid() && NoPercent() ==>
        name == TrimLeftSpace(Head(prefix, separator)) + Stamp(timeFn()) + Tail(separator, suffix)
                + TrimmedDot(extension)
    {
      NameAt(timeFn())
    }

    /** `Write`: opens the file for the current time window, `path/FileName()`,
        for appending (creating it if absent), writes `data` and closes it.
        The outcome is one of those `WriteOutcome` allows; the logger itself
        does not change. */
    method Write(fs: Os.FileSystem, data: seq<byte>) returns (n: nat, err: Option<Error>)
      modifies fs
      ensures WriteOutcome(old(fs.files), fs.files, Os.Join(path, FileName()), data, n, err)
    {
      var name := Os.Join(path, FileName());
      var f, openErr := fs.OpenAppend(name);
      if openErr.Some? {
        return 0, Some(Io(openErr.value));
      }
      var writeErr;
      n, writeErr := fs.Write(f, data);
      assert fs.files == Os.AppendTo(old(fs.files), name, data[..n]) by {
        Os.AppendTwice(old(fs.files), name, [], data[..n]);
        assert [] + data[..n] == data[..n];
      }
      if n != |data| {
        return n, Some(ShortWrite(n, |data|));
      }
      assert data[..n] == data;
      err := if writeErr.Some? then Some(Io(writeErr.value)) else None;
    }

    /** `WriteString`: `Write` of the UTF-8 bytes of `s`, keeping only the
        error. */
    method WriteString(fs: Os.FileSystem, s: string) returns (err: Option<Error>)
      modifies fs
      ensures exists n :: WriteOutcome(old(fs.files), fs.files, Os.Join(path, FileName()), Encode(s), n, err)
    {
      var n;
      n, err := Write(fs, Encode(s));
    }
  }

  // ---------------------------------------------------------------------------
  // What a write does to the files
  // ---------------------------------------------------------------------------

  /** The outcomes of `Write(data)` when the current window's file is `name`:
      - no error: all of `data` was appended to `name`, created if absent;
      - the open failed: nothing was written and no file changed;
      - the OS took fewer bytes than `data` holds: those bytes were appended,
        and the error says how many of how many;
      - the OS took all of `data` and still reported an error: that error is
        passed on.
      No file but `name` is ever touched. */
  predicate WriteOutcome(before: Os.Files, after: Os.Files, name: string, data: seq<byte>,
                         n: nat, err: Option<Error>)
  {
    n <= |data| &&
    match err
    case None =>
      n == |data| && after == Os.AppendTo(before, name, data)
    case Some(ShortWrite(written, total)) =>
      written == n && total == |data| && n < |data| && after == Os.AppendTo(before, name, data[..n])
    case Some(Io(e)) =>
      || (e == Os.PathError(Os.Op.Open, name) && n == 0 && after == before)
      || (e == Os.PathError(Os.Op.Write, name) && n == |data| && after == Os.AppendTo(before, name, data))
  }

  /** A write changes no file but the current window's and removes none:
      every other file keeps its contents, and no other file appears. */
  lemma WriteTouchesOnlyItsFile(before: Os.Files, after: Os.Files, name: string, data: seq<byte>,
                                n: nat, err: Option<Error>, other: string)
    requires WriteOutcome(before, after, name, data, n, err)
    requires other != name
    ensures other in after <==> other in before
    ensures other in before ==> after[other] == before[other]
    ensures before.Keys <= after.Keys <= before.Keys + {name}
  {
  }

  /** A write reports success exactly when it wrote everything, and then the
      file holds what it held (or nothing, if it was absent) followed by the
      data; a short write reports how much it wrote. */
  lemma WriteReportsCount(before: Os.Files, after: Os.Files, name: string, data: seq<byte>,
                          n: nat, err: Option<Error>)
    requires WriteOutcome(before, after, name, data, n, err)
    ensures n < |data| ==> err == Some(ShortWrite(n, |data|)) || (err == Some(Io(Os.PathError(Os.Op.Open, name))) && n == 0)
    ensures err.None? ==> n == |data| && name in after && after[name] == Os.Contents(before, name) + data
    ensures err != Some(Io(Os.PathError(Os.Op.Open, name))) ==>
              name in after && after[name] == Os.Contents(before, name) + data[..n]
  {
    if n == |data| {
      assert data[..n] == data;
    }
  }

  /** Two successful writes into one window append both payloads, the first
      before the second. */
  lemma WritesConcatenate(files0: Os.Files, files1: Os.Files, files2: Os.Files, name: string,
                          a: seq<byte>, b: seq<byte>, n1: nat, n2: nat)
    requires WriteOutcome(files0, files1, name, a, n1, None)
    requires WriteOutcome(files1, files2, name, b, n2, None)
    ensures files2 == Os.AppendTo(files0, name, a + b)
    ensures files2[name] == Os.Contents(files0, name) + a + b
  {
    Os.AppendTwice(files0, name, a, b);
  }

  /** The file name is the four-shape naming rule with the time stamp in place
      of the verb, when no naming parameter holds a '%' and there is no white
      space at the outer ends for the trim to remove. */
  lemma NameIsTemplate(l: Logger, t: Time)
    requires l.Valid() && l.NoPercent()
    requires l.prefix == "" || !IsSpace(l.prefix[0])
    requires l.extension == "" || !IsSpace(l.extension[|l.extension| - 1])
    ensures l.NameAt(t) == Head(l.prefix, l.separator) + l.Stamp(t) + Tail(l.separator, l.suffix) + Dot(l.extension)
  {
    NothingToTrim(l.prefix, l.separator, l.extension);
  }

  /** Rotation: two times whose stamps differ name different files in the
      logger's directory. */
  lemma DistinctWindowsDistinctFiles(l: Logger, t1: Time, t2: Time)
    requires l.Valid() && l.NoPercent()
    requires l.Stamp(t1) != l.Stamp(t2)
    ensures l.NameAt(t1) != l.NameAt(t2)
    ensures Os.Join(l.path, l.NameAt(t1)) != Os.Join(l.path, l.NameAt(t2))
  {
    var s1, s2 := l.Stamp(t1), l.Stamp(t2);
    assert l.NameAt(t1) == Sprintf(l.format, s1) && l.NameAt(t2) == Sprintf(l.format, s2);
    FormatInjective(l.prefix, l.separator, l.suffix, l.extension, s1, s2);
    Os.JoinInjective(l.path, l.NameAt(t1), l.NameAt(t2));
  }

  /** Two different stamps substituted into one compiled format give two
      different names. */
  lemma FormatInjective(prefix: string, sep: string, suffix: string, ext: string, s1: string, s2: string)
    requires PercentFree(prefix) && PercentFree(sep) && PercentFree(suffix) && PercentFree(ext)
    requires s1 != s2
    ensures Sprintf(BuildFormat(prefix, sep, suffix, ext), s1) != Sprintf(BuildFormat(prefix, sep, suffix, ext), s2)
  {
    var before := TrimLeftSpace(Head(prefix, sep));
    var after := Tail(sep, suffix) + TrimmedDot(ext);
    TrimmedHeadPercentFree(prefix, sep);
    TailPercentFree(sep, suffix, ext);
    assert BuildFormat(prefix, sep, suffix, ext) == before + Verb + after;
    SprintfInjective(before, after, s1, s2);
  }

  /** Old files are never touched again: a write at time `now` leaves the
      file of any earlier window whose stamp differs as it was. */
  lemma PastWindowUntouched(l: Logger, past: Time, now: Time, before: Os.Files, after: Os.Files,
                            data: seq<byte>, n: nat, err: Option<Error>)
    requires l.Valid() && l.NoPercent()
    requires l.Stamp(past) != l.Stamp(now)
    requires WriteOutcome(before, after, Os.Join(l.path, l.NameAt(now)), data, n, err)
    ensures var pastFile := Os.Join(l.path, l.NameAt(past));
      (pastFile in after <==> pastFile in before) && Os.Contents(after, pastFile) == Os.Contents(before, pastFile)
  {
    DistinctWindowsDistinctFiles(l, past, now);
    WriteTouchesOnlyItsFile(before, after, Os.Join(l.path, l.NameAt(now)), data, n, err,
                            Os.Join(l.path, l.NameAt(past)));
  }
}
