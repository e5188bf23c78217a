/** The part of Go's `strings` package that the log rotator relies on:
    `strings.TrimSpace`, which removes leading and trailing white space as
    `unicode.IsSpace` defines it. Strings are sequences of Unicode scalar
    values (Dafny's `char`), the runes a Go string decodes to. */
module Strings {

  /** `unicode.IsSpace`: the six ASCII spaces, NEL, NO-BREAK SPACE and the
      other characters with the Unicode White_Space property. */
  predicate IsSpace(c: char) {
    c == ' ' || c == '\t' || c == '\n' || c == '\U{B}' || c == '\U{C}' || c == '\r'
    || c == '\U{85}' || c == '\U{A0}' || c == '\U{1680}'
    || ('\U{2000}' <= c <= '\U{200A}')
    || c == '\U{2028}' || c == '\U{2029}' || c == '\U{202F}' || c == '\U{205F}' || c == '\U{3000}'
  }

  /** Every character of `s` is white space. */
  predicate AllSpace(s: string) {
    forall i :: 0 <= i < |s| ==> IsSpace(s[i])
  }

  /** `s` contains no '%', so `fmt.Sprintf` copies it verbatim when it is
      part of a format. */
  predicate PercentFree(s: string) {
    forall i :: 0 <= i < |s| ==> s[i] != '%'
  }

  /** Drops the leading white space of `s`. */
  function TrimLeftSpace(s: string): string
  {
    if |s| > 0 && IsSpace(s[0]) then TrimLeftSpace(s[1..]) else s
  }

  /** Drops the trailing white space of `s`. */
  function TrimRightSpace(s: string): string
  {
    if |s| > 0 && IsSpace(s[|s| - 1]) then TrimRightSpace(s[..|s| - 1]) else s
  }

  /** `strings.TrimSpace`: `s` without its leading and trailing white space. */
  function TrimSpace(s: string): string
  {
    TrimRightSpace(TrimLeftSpace(s))
  }

  /** `TrimLeftSpace` gives the longest suffix of `s` that does not start
      with white space: what it drops is white space, and it stops at the
      first character that is not. */
  lemma {:induction false} TrimLeftSpaceSpec(s: string)
    ensures |TrimLeftSpace(s)| <= |s| && TrimLeftSpace(s) == s[|s| - |TrimLeftSpace(s)|..]
    ensures AllSpace(s[..|s| - |TrimLeftSpace(s)|])
    ensures TrimLeftSpace(s) == [] || !IsSpace(TrimLeftSpace(s)[0])
  {
    if |s| > 0 && IsSpace(s[0]) {
      TrimLeftSpaceSpec(s[1..]);
      var r := TrimLeftSpace(s[1..]);
      assert s[..|s| - |r|] == [s[0]] + s[1..][..|s| - 1 - |r|];
    }
  }

  /** `TrimRightSpace` gives the longest prefix of `s` that does not end with
      white space. */
  lemma {:induction false} TrimRightSpaceSpec(s: string)
    ensures |TrimRightSpace(s)| <= |s| && TrimRightSpace(s) == s[..|TrimRightSpace(s)|]
    ensures AllSpace(s[|TrimRightSpace(s)|..])
    ensures TrimRightSpace(s) == [] || !IsSpace(TrimRightSpace(s)[|TrimRightSpace(s)| - 1])
  {
    if |s| > 0 && IsSpace(s[|s| - 1]) {
      TrimRightSpaceSpec(s[..|s| - 1]);
      var r := TrimRightSpace(s[..|s| - 1]);
      assert s[|r|..] == s[..|s| - 1][|r|..] + [s[|s| - 1]];
    }
  }

  /** What `TrimSpace` removes is white space only: its result is a piece
      `s[i..i + |r|]` of `s` with nothing but white space around it, and it
      neither starts nor ends with white space. */
  lemma TrimSpaceSpec(s: string) returns (i: nat)
    ensures i + |TrimSpace(s)| <= |s| && TrimSpace(s) == s[i..i + |TrimSpace(s)|]
    ensures AllSpace(s[..i]) && AllSpace(s[i + |TrimSpace(s)|..])
    ensures TrimSpace(s) == [] || (!IsSpace(TrimSpace(s)[0]) && !IsSpace(TrimSpace(s)[|TrimSpace(s)| - 1]))
  {
    var l := TrimLeftSpace(s);
    var r := TrimRightSpace(l);
    TrimLeftSpaceSpec(s);
    TrimRightSpaceSpec(l);
    i := |s| - |l|;
    assert l == s[i..];
    assert r == s[i..i + |r|];
    assert s[i + |r|..] == l[|r|..];
    if r != [] {
      assert r[0] == l[0];
    }
  }

  /** Leading white space in front of a non-space character is all that
      `TrimLeftSpace` removes: whatever follows that character is kept. */
  lemma {:induction false} TrimLeftBeforeNonSpace(head: string, c: char, tail: string)
    requires !IsSpace(c)
    ensures TrimLeftSpace(head + [c] + tail) == TrimLeftSpace(head) + [c] + tail
  {
    if head == [] {
      assert head + [c] + tail == [c] + tail;
    } else if IsSpace(head[0]) {
      assert (head + [c] + tail)[1..] == head[1..] + [c] + tail;
      TrimLeftBeforeNonSpace(head[1..], c, tail);
    } else {
      assert (head + [c] + tail)[0] == head[0];
    }
  }

  /** Symmetrically, trailing white space after a non-space character is all
      that `TrimRightSpace` removes. */
  lemma {:induction false} TrimRightAfterNonSpace(head: string, c: char, tail: string)
    requires !IsSpace(c)
    ensures TrimRightSpace(head + [c] + tail) == head + [c] + TrimRightSpace(tail)
  {
    var s := head + [c] + tail;
    if tail == [] {
      assert s == head + [c];
    } else if IsSpace(tail[|tail| - 1]) {
      assert s[..|s| - 1] == head + [c] + tail[..|tail| - 1];
      TrimRightAfterNonSpace(head, c, tail[..|tail| - 1]);
    } else {
      assert s[|s| - 1] == tail[|tail| - 1];
    }
  }

  /** Trimming a string with two non-space characters `c` and `d` in it
      trims only what stands before `c` and what stands after `d`. */
  lemma TrimSpaceBetween(head: string, c: char, mid: string, d: char, tail: string)
    requires !IsSpace(c) && !IsSpace(d)
    ensures TrimSpace(head + [c] + mid + [d] + tail)
            == TrimLeftSpace(head) + [c] + mid + [d] + TrimRightSpace(tail)
  {
    assert head + [c] + mid + [d] + tail == head + [c] + (mid + [d] + tail);
    TrimLeftBeforeNonSpace(head, c, mid + [d] + tail);
    var l := TrimLeftSpace(head) + [c] + mid;
    assert TrimLeftSpace(head) + [c] + (mid + [d] + tail) == l + [d] + tail;
    TrimRightAfterNonSpace(l, d, tail);
  }
}
