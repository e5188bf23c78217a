/** The use the log rotator makes of Go's `fmt.Sprintf`: a format holding
    exactly one `%s` verb, applied to one string argument. */
module Fmt {
  import opened Strings

  /** The one verb the filename formats hold. */
  const Verb: string := "%s"

  /** `fmt.Sprintf(format, arg)` for a format whose only '%' is the one of a
      single `%s`: the text around the verb is copied and the verb is
      replaced by `arg`. Formats with other verbs, `%%` escapes or a missing
      verb are not modelled; on them this copies every character but the first
      `%s`. */
  function Sprintf(format: string, arg: string): string
  {
    if |format| < 2 then format
    else if format[..2] == Verb then arg + format[2..]
    else [format[0]] + Sprintf(format[1..], arg)
  }

  /** Substitution into `before + "%s" + after`, where neither `before` nor
      `after` holds a '%' (so the format is one that Go's `fmt.Sprintf`
      treats as this model does), puts `arg` exactly where the verb was. */
  lemma {:induction false} SprintfAt(before: string, after: string, arg: string)
    requires PercentFree(before) && PercentFree(after)
    ensures Sprintf(before + Verb + after, arg) == before + arg + after
  {
    var f := before + Verb + after;
    if before == [] {
      assert f == Verb + after;
      assert f[..2] == Verb && f[2..] == after;
    } else {
      var rest := before[1..];
      assert f[0] == before[0] != '%';
      assert f[..2] != Verb by { assert f[..2][0] == f[0]; }
      assert f[1..] == rest + Verb + after;
      assert Sprintf(f, arg) == [f[0]] + Sprintf(f[1..], arg);
      assert PercentFree(rest) by {
        forall i | 0 <= i < |rest| ensures rest[i] != '%' {
          assert rest[i] == before[i + 1];
        }
      }
      SprintfAt(rest, after, arg);
      assert [before[0]] + (rest + arg + after) == before + arg + after;
    }
  }

  /** Different arguments give different results under the same format, so
      two time stamps never share a file name. */
  lemma SprintfInjective(before: string, after: string, arg1: string, arg2: string)
    requires PercentFree(before) && PercentFree(after)
    requires arg1 != arg2
    ensures Sprintf(before + Verb + after, arg1) != Sprintf(before + Verb + after, arg2)
  {
    SprintfAt(before, after, arg1);
    SprintfAt(before, after, arg2);
    var s1, s2 := before + arg1 + after, before + arg2 + after;
    assert s1[|before|..|s1| - |after|] == arg1;
    assert s2[|before|..|s2| - |after|] == arg2;
  }
}
