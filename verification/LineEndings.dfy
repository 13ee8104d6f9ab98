/** Files with Windows line endings are lexed and formatted as their Unix counterparts. */
module LineEndings {
  import opened Chars
  import opened Layout
  import opened Lexemes
  import opened Formatter
  import opened Meaning

  /** The text with every `\n` written as `\r\n`. */
  function Windows(s: string): string {
    if s == "" then "" else (if s[0] == '\n' then ['\r', '\n'] else [s[0]]) + Windows(s[1..])
  }

  lemma {:induction false} ToLFWindows(s: string)
    requires NoCR(s)
    ensures ToLF(Windows(s)) == s
  {
    if s != "" {
      var head, rest := if s[0] == '\n' then ['\r', '\n'] else [s[0]], Windows(s[1..]);
      ToLFWindows(s[1..]);
      assert (head + rest)[|head|..] == rest;
      assert ToLF(head + rest) == [s[0]] + ToLF(rest);
    }
  }

  lemma {:induction false} WindowsConcat(a: string, b: string)
    ensures Windows(a + b) == Windows(a) + Windows(b)
  {
    if a == "" {
      assert a + b == b;
    } else {
      assert (a + b)[1..] == a[1..] + b;
      WindowsConcat(a[1..], b);
    }
  }

  lemma {:induction false} WindowsOneLine(l: string)
    requires OneLine(l)
    ensures Windows(l) == l
  {
    if l != "" {
      WindowsOneLine(l[1..]);
    }
  }

  predicate SameTrimmed(a: seq<string>, b: seq<string>) {
    |a| == |b| && forall i :: 0 <= i < |a| ==> TrimEnd(a[i]) == TrimEnd(b[i])
  }

  lemma FirstLineOf(l: string, rest: string)
    requires OneLine(l)
    ensures SplitLines(l + (['\n'] + rest)) == [l] + SplitLines(rest)
  {
    var s := l + (['\n'] + rest);
    LineEnds(l, rest);
    assert s[..|l|] == l && s[|l| + 1..] == rest;
  }

  lemma {:induction false} LineEnds(l: string, rest: string)
    requires OneLine(l)
    ensures CommentLen(l + (['\n'] + rest)) == |l|
  {
    var s := l + (['\n'] + rest);
    if l == "" {
      assert s == ['\n'] + rest;
    } else {
      assert s[1..] == l[1..] + (['\n'] + rest) && s[0] == l[0];
      LineEnds(l[1..], rest);
    }
  }

  lemma TrimReturn(l: string)
    ensures TrimEnd(l + ['\r']) == TrimEnd(l)
  {
    assert Init(l + ['\r']) == l && Last(l + ['\r']) == '\r';
  }

  lemma {:induction false} SplitWindows(s: string)
    ensures SameTrimmed(SplitLines(Windows(s)), SplitLines(s))
    decreases |s|
  {
    var n := CommentLen(s);
    if n == |s| {
      WindowsOneLine(s);
    } else {
      var l, rest := s[..n], s[n + 1..];
      SplitWindows(rest);
      WindowsLine(l, rest);
      assert s == l + (['\n'] + rest);
      FirstLineOf(l, rest);
      FirstLineOf(l + ['\r'], Windows(rest));
      TrimReturn(l);
      SameTrimmedCons(l + ['\r'], l, SplitLines(Windows(rest)), SplitLines(rest));
    }
  }

  lemma WindowsLine(l: string, rest: string)
    requires OneLine(l)
    ensures Windows(l + (['\n'] + rest)) == (l + ['\r']) + (['\n'] + Windows(rest))
  {
    WindowsConcat(l, ['\n'] + rest);
    WindowsOneLine(l);
    assert (['\n'] + rest)[1..] == rest;
    assert Windows(['\n'] + rest) == ['\r', '\n'] + Windows(rest);
  }

  lemma SameTrimmedCons(x: string, y: string, xs: seq<string>, ys: seq<string>)
    requires TrimEnd(x) == TrimEnd(y) && SameTrimmed(xs, ys)
    ensures SameTrimmed([x] + xs, [y] + ys)
  {
  }

  lemma {:induction false} FormatTrimmed(a: seq<string>, b: seq<string>, stack: seq<nat>, u: Alphabet)
    requires SameTrimmed(a, b)
    ensures FormatLines(a, stack, u) == FormatLines(b, stack, u)
    decreases |a|
  {
    if a != [] {
      assert TrimEnd(a[0]) == TrimEnd(b[0]);
      assert SameTrimmed(a[1..], b[1..]);
      FormatTrimmed(a[1..], b[1..], StackAfter(a[0], stack), u);
    }
  }

  /** Line endings are invisible to the lexer and to the formatter alike. */
  lemma LineEndingsInvisible(s: string, u: Alphabet)
    requires NoCR(s)
    ensures Tokenize(Windows(s)) == Tokenize(s)
    ensures Normalize(Windows(s), u) == Normalize(s, u)
  {
    ToLFWindows(s);
    ToLFIdle(s);
    SplitWindows(s);
    FormatTrimmed(SplitLines(Windows(s)), SplitLines(s), [0], u);
  }

  /** So formatting keeps the tokens of a file with Windows line endings exactly when it keeps those of the Unix one. */
  lemma WindowsPreserved(s: string, u: Alphabet)
    requires NoCR(s)
    ensures Kept(Windows(s), u) <==> Kept(s, u)
  {
    LineEndingsInvisible(s, u);
  }
}
