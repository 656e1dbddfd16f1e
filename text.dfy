/** Python's `str.strip()` and `str.lower()` as far as the settings handlers
    use them: every request body and every file read is stripped of leading
    and trailing whitespace, every file read translates line breaks, and two
    checks compare a lower-cased string with a constant. */
module Text {

  /** Python's `str.isspace()` for one character: the characters whose Unicode
      category is Zs or whose bidirectional class is WS, B or S. These are the
      characters that `str.strip()` with no argument removes. */
  predicate IsSpace(c: char) {
    c == ' ' || ('\t' <= c <= '\r') || ('\U{1C}' <= c <= '\U{1F}')
    || c == '\U{85}' || c == '\U{A0}' || c == '\U{1680}'
    || ('\U{2000}' <= c <= '\U{200A}')
    || c == '\U{2028}' || c == '\U{2029}' || c == '\U{202F}' || c == '\U{205F}'
    || c == '\U{3000}'
  }

  /** A string that `strip()` turns into the empty string. */
  predicate IsBlank(s: string) {
    forall i :: 0 <= i < |s| ==> IsSpace(s[i])
  }

  /** A string that neither starts nor ends with whitespace: what `strip()`
      returns. */
  predicate IsTrimmed(s: string) {
    s == [] || (!IsSpace(s[0]) && !IsSpace(s[|s| - 1]))
  }

  /** The index of the first character of `s` that is not whitespace, or
      `|s|` when there is none: `s.lstrip()` is `s[FirstNonSpace(s)..]`. */
  function FirstNonSpace(s: string): (n: nat)
    ensures n <= |s|
    ensures forall i :: 0 <= i < n ==> IsSpace(s[i])
    ensures n < |s| ==> !IsSpace(s[n])
    decreases |s|
  {
    if s != [] && IsSpace(s[0]) then 1 + FirstNonSpace(s[1..]) else 0
  }

  /** The index just past the last character of `s` that is not whitespace,
      or 0 when there is none: `s.rstrip()` is `s[..EndOfText(s)]`. */
  function EndOfText(s: string): (n: nat)
    ensures n <= |s|
    ensures forall i :: n <= i < |s| ==> IsSpace(s[i])
    ensures n > 0 ==> !IsSpace(s[n - 1])
    decreases |s|
  {
    if s != [] && IsSpace(s[|s| - 1]) then EndOfText(s[..|s| - 1]) else |s|
  }

  /** `s.strip()`. The result is empty exactly when `s` is blank, and otherwise
      neither starts nor ends with whitespace. */
  function Strip(s: string): (r: string)
    ensures |r| <= |s|
    ensures r == [] <==> IsBlank(s)
    ensures IsTrimmed(r)
  {
    var t := s[FirstNonSpace(s)..];
    var r := t[..EndOfText(t)];
    assert r != [] ==> r[0] == s[FirstNonSpace(s)];
    r
  }

  /** A blank prefix only shifts where the text starts. */
  lemma {:induction false} FirstNonSpaceAfterBlank(pre: string, s: string)
    requires IsBlank(pre)
    ensures FirstNonSpace(pre + s) == |pre| + FirstNonSpace(s)
    decreases |pre|
  {
    if pre == [] {
      assert pre + s == s;
    } else {
      assert (pre + s)[0] == pre[0];
      assert (pre + s)[1..] == pre[1..] + s;
      FirstNonSpaceAfterBlank(pre[1..], s);
    }
  }

  /** A blank suffix does not move where the text ends. */
  lemma {:induction false} EndOfTextBeforeBlank(s: string, post: string)
    requires IsBlank(post)
    ensures EndOfText(s + post) == EndOfText(s)
    decreases |post|
  {
    if post == [] {
      assert s + post == s;
    } else {
      var n := |post| - 1;
      assert (s + post)[|s + post| - 1] == post[n];
      assert (s + post)[..|s + post| - 1] == s + post[..n];
      EndOfTextBeforeBlank(s, post[..n]);
    }
  }

  /** A blank prefix does not change what `strip()` returns. */
  lemma StripAfterBlank(pre: string, s: string)
    requires IsBlank(pre)
    ensures Strip(pre + s) == Strip(s)
  {
    FirstNonSpaceAfterBlank(pre, s);
    var k := FirstNonSpace(s);
    assert (pre + s)[|pre| + k..] == s[k..];
  }

  /** Text after the first non-blank character does not move where it starts. */
  lemma {:induction false} FirstNonSpaceWithTail(s: string, tail: string)
    requires !IsBlank(s)
    ensures FirstNonSpace(s + tail) == FirstNonSpace(s)
    decreases |s|
  {
    assert (s + tail)[0] == s[0];
    if IsSpace(s[0]) {
      assert (s + tail)[1..] == s[1..] + tail;
      assert !IsBlank(s[1..]) by {
        var j :| 0 <= j < |s| && !IsSpace(s[j]);
        assert s[1..][j - 1] == s[j];
      }
      FirstNonSpaceWithTail(s[1..], tail);
    }
  }

  /** A blank suffix does not change what `strip()` returns. */
  lemma StripBeforeBlank(s: string, post: string)
    requires IsBlank(post)
    ensures Strip(s + post) == Strip(s)
  {
    if IsBlank(s) {
      forall i | 0 <= i < |s + post| ensures IsSpace((s + post)[i]) {
        if i < |s| { assert (s + post)[i] == s[i]; } else { assert (s + post)[i] == post[i - |s|]; }
      }
    } else {
      FirstNonSpaceWithTail(s, post);
      var k := FirstNonSpace(s);
      assert (s + post)[k..] == s[k..] + post;
      EndOfTextBeforeBlank(s[k..], post);
    }
  }

  /** Whitespace padding on either side does not change what `strip()`
      returns: together with StripKeepsTrimmed this pins `Strip` down. */
  lemma StripIgnoresPadding(pre: string, s: string, post: string)
    requires IsBlank(pre) && IsBlank(post)
    ensures Strip(pre + s + post) == Strip(s)
  {
    var tail := s + post;
    assert pre + s + post == pre + tail;
    StripAfterBlank(pre, tail);
    assert Strip(pre + tail) == Strip(tail);
    StripBeforeBlank(s, post);
    assert Strip(tail) == Strip(s);
  }

  /** A string with no whitespace at either end is its own `strip()`. */
  lemma StripKeepsTrimmed(s: string)
    requires IsTrimmed(s)
    ensures Strip(s) == s
  {
  }

  /** Stripping twice is stripping once: a handler that stores `body.strip()`
      and a reader that strips the file again see the same string. */
  lemma StripIdempotent(s: string)
    ensures Strip(Strip(s)) == Strip(s)
  {
    StripKeepsTrimmed(Strip(s));
  }

  /** A character that is not in `s` is not in `s.strip()` either. */
  lemma StripKeepsOut(s: string, c: char)
    requires c !in s
    ensures c !in Strip(s)
  {
    var k := FirstNonSpace(s);
    var r := Strip(s);
    forall i | 0 <= i < |r| ensures r[i] != c {
      assert r[i] == s[k + i];
    }
  }

  /** Reading a file in Python's text mode, where universal newlines are on
      by default: each `\r\n` and each lone `\r` reads back as `\n`. */
  function UniversalNewlines(s: string): (r: string)
    ensures '\r' !in r
    ensures '\r' !in s ==> r == s
    ensures |r| <= |s|
    decreases |s|
  {
    if s == [] then []
    else if s[0] == '\r' && |s| > 1 && s[1] == '\n' then "\n" + UniversalNewlines(s[2..])
    else if s[0] == '\r' then "\n" + UniversalNewlines(s[1..])
    else [s[0]] + UniversalNewlines(s[1..])
  }

  /** A string that does not end in a line break keeps its last character
      through the newline translation. */
  lemma {:induction false} NewlinesKeepLast(s: string)
    requires s != [] && s[|s| - 1] != '\r' && s[|s| - 1] != '\n'
    ensures var r := UniversalNewlines(s); r != [] && r[|r| - 1] == s[|s| - 1]
    decreases |s|
  {
    if |s| == 1 {
      assert UniversalNewlines(s) == [s[0]] + UniversalNewlines([]);
    } else if s[0] == '\r' && s[1] == '\n' {
      var rest := s[2..];
      assert |s| > 2 && rest[|rest| - 1] == s[|s| - 1];
      NewlinesKeepLast(rest);
      assert UniversalNewlines(s) == "\n" + UniversalNewlines(rest);
    } else {
      var rest := s[1..];
      assert rest[|rest| - 1] == s[|s| - 1];
      NewlinesKeepLast(rest);
      if s[0] == '\r' {
        assert UniversalNewlines(s) == "\n" + UniversalNewlines(rest);
      } else {
        assert UniversalNewlines(s) == [s[0]] + UniversalNewlines(rest);
      }
    }
  }

  /** The translation keeps a trimmed string trimmed, because `\r` and `\n`
      are whitespace and so cannot be at either end of it: what a handler
      stored stripped reads back, stripped again, as its translation. */
  lemma NewlinesKeepTrimmed(s: string)
    requires IsTrimmed(s)
    ensures Strip(UniversalNewlines(s)) == UniversalNewlines(s)
  {
    if s != [] {
      NewlinesKeepLast(s);
      StripKeepsTrimmed(UniversalNewlines(s));
    }
  }

  /** Python's `str.lower()` on one character, for the ASCII letters. */
  function LowerChar(c: char): char {
    if 'A' <= c <= 'Z' then (c as int - 'A' as int + 'a' as int) as char else c
  }

  /** `s.lower()` restricted to ASCII letters. Both places that lower-case
      compare the result with an ASCII constant (`"true"`, a `".mp3"`
      suffix), and no other character lower-cases to an ASCII character
      of those constants, so the comparison comes out the same. */
  function AsciiLower(s: string): string {
    seq(|s|, i requires 0 <= i < |s| => LowerChar(s[i]))
  }

  /** Comparing `lower()` of a string with a constant, one character at a time. */
  lemma AsciiLowerEquals(s: string, target: string)
    ensures AsciiLower(s) == target <==>
      |s| == |target| && forall i :: 0 <= i < |s| ==> LowerChar(s[i]) == target[i]
  {
    if |s| == |target| && forall i :: 0 <= i < |s| ==> LowerChar(s[i]) == target[i] {
      assert AsciiLower(s) == target;
    }
  }

  /** `name.lower().endswith('.mp3')`. */
  predicate HasMp3Suffix(name: string) {
    |name| >= 4 && AsciiLower(name[|name| - 4..]) == ".mp3"
  }

  /** The `.mp3` check is case-insensitive in the letters and exact in the
      dot and the digit: a name passes exactly when its last four characters
      are `.`, `m` or `M`, `p` or `P`, and `3`. */
  lemma Mp3SuffixIsCaseInsensitive(name: string)
    ensures HasMp3Suffix(name) <==>
      |name| >= 4 && name[|name| - 4] == '.' && name[|name| - 3] in "mM"
      && name[|name| - 2] in "pP" && name[|name| - 1] == '3'
  {
    if |name| >= 4 {
      var tail := name[|name| - 4..];
      AsciiLowerEquals(tail, ".mp3");
      assert tail[0] == name[|name| - 4] && tail[1] == name[|name| - 3];
      assert tail[2] == name[|name| - 2] && tail[3] == name[|name| - 1];
    }
  }
}
