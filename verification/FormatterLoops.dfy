/** The loops of the formatter, against the functions that specify them (src/formatter.rs). */
module FormatterLoops {
  import opened Chars
  import opened Layout
  import opened Lexemes
  import opened Lines
  import opened Formatter
  import FixedPoint

  method DepthForCode(rawIndent: nat, stack: seq<nat>) returns (stack': seq<nat>, depth: nat)
    ensures stack' == CodeStack(rawIndent, stack) && depth == DepthOf(stack')
  {
    stack' := stack;
    var current := Top(stack);
    if rawIndent > current {
      stack' := stack + [rawIndent];
    } else if rawIndent < current {
      while |stack'| > 1 && Top(stack') > rawIndent
        invariant PopTo(stack', rawIndent) == PopTo(stack, rawIndent)
        decreases |stack'|
      {
        stack' := Init(stack');
      }
    }
    depth := DepthOf(stack');
  }

  lemma Regroup<T>(a: seq<T>, x: T, b: seq<T>)
    ensures a + ([x] + b) == a + [x] + b
  {
  }

  /** One round of the loop over the lines. */
  method FormatOne(raw: string, stack: seq<nat>, u: Alphabet) returns (line: FLine, stack': seq<nat>)
    ensures line == FormatLine(raw, stack, u) && stack' == StackAfter(raw, stack)
  {
    var text := TrimEnd(raw);
    stack' := stack;
    if text == "" {
      line := BLANK;
    } else {
      var rawIndent, stripped := IndentWidth(text), text[BlankLen(text)..];
      var depth;
      if IsCommentText(stripped) {
        depth := CommentDepth(rawIndent, stack);
      } else {
        stack', depth := DepthForCode(rawIndent, stack);
      }
      line := NewLine(depth, stripped, u);
    }
  }

  method NormalizeSource(source: string, u: Alphabet) returns (output: string)
    ensures output == Normalize(source, u)
  {
    var lines := FormatAll(SplitLines(source), u);
    var tidy := NormalizeBlankLines(lines);
    ContentsKept(source, u);
    var out := ApplyTopLevelSpacing(tidy);
    output := JoinLines(out);
  }

  method FormatAll(raws: seq<string>, u: Alphabet) returns (lines: seq<FLine>)
    ensures lines == FormatLines(raws, [0], u)
  {
    var stack, i := [0], 0;
    lines := [];
    assert raws[0..] == raws;
    while i < |raws|
      invariant 0 <= i <= |raws| && FormattedUpTo(lines, raws, i, stack, u)
    {
      var line, stack' := FormatOne(raws[i], stack, u);
      FormatStep(lines, raws, i, stack, u);
      lines, stack, i := lines + [line], stack', i + 1;
    }
  }

  /** `lines` are the first `i` lines, and `stack` is the indentation behind them. */
  ghost predicate FormattedUpTo(lines: seq<FLine>, raws: seq<string>, i: nat, stack: seq<nat>, u: Alphabet) {
    i <= |raws| && FormatLines(raws, [0], u) == lines + FormatLines(raws[i..], stack, u)
  }

  lemma FormatStep(lines: seq<FLine>, raws: seq<string>, i: nat, stack: seq<nat>, u: Alphabet)
    requires i < |raws| && FormattedUpTo(lines, raws, i, stack, u)
    ensures FormattedUpTo(lines + [FormatLine(raws[i], stack, u)], raws, i + 1, StackAfter(raws[i], stack), u)
  {
    assert raws[i..] == [raws[i]] + raws[i + 1..];
    FixedPoint.FormatLinesCons(raws[i], raws[i + 1..], stack, u);
    Regroup(lines, FormatLine(raws[i], stack, u), FormatLines(raws[i + 1..], StackAfter(raws[i], stack), u));
  }

  /** Every line that is not blank has text, so an empty string in the output is a blank line. */
  predicate HaveText(lines: seq<FLine>) {
    forall i :: 0 <= i < |lines| ==> !lines[i].blank ==> lines[i].content != ""
  }

  lemma ContentsKept(source: string, u: Alphabet)
    ensures HaveText(NormalizeBlanks(FormatLines(SplitLines(source), [0], u)))
  {
    var raws := SplitLines(source);
    var lines := FormatLines(raws, [0], u);
    FixedPoint.SplitLinesOneLine(source);
    FixedPoint.FormatLinesClean(raws, [0], u);
    FixedPoint.FormatLinesChain(raws, [0], u);
    FixedPoint.SqueezeGood(true, 0, lines, u);
    FixedPoint.TrimBlanksGood(0, Squeeze(true, lines), u);
  }

  /** The lines joined by newlines, and one more at the end. */
  method JoinLines(out: seq<string>) returns (text: string)
    ensures text == Unlines(if out == [] then [""] else out)
  {
    text := "";
    for i := 0 to |out|
      invariant i > 0 ==> text + ['\n'] == Unlines(out[..i])
      invariant i == 0 ==> text == ""
    {
      if i > 0 {
        text := text + ['\n'];
      }
      assert out[..i + 1] == out[..i] + [out[i]];
      UnlinesPush(out[..i], out[i]);
      text := text + out[i];
    }
    assert out[..|out|] == out;
    assert Unlines([""]) == "" + ['\n'] + Unlines([""][1..]) == ['\n'];
    text := text + ['\n'];
  }

  lemma {:induction false} UnlinesPush(ls: seq<string>, l: string)
    ensures Unlines(ls + [l]) == Unlines(ls) + l + ['\n']
  {
    if ls == [] {
      assert ls + [l] == [l] && [l][1..] == [];
      assert Unlines([l]) == l + ['\n'] + Unlines([]) == l + ['\n'];
    } else {
      assert (ls + [l])[1..] == ls[1..] + [l];
      UnlinesPush(ls[1..], l);
      var head, tail := ls[0] + ['\n'], Unlines(ls[1..]);
      assert Unlines(ls + [l]) == head + (tail + l + ['\n']);
      assert head + (tail + l + ['\n']) == head + tail + l + ['\n'];
    }
  }

  lemma SqueezeStep(pb: bool, lines: seq<FLine>)
    requires lines != []
    ensures Squeeze(pb, lines) ==
            if lines[0].blank && pb then Squeeze(true, lines[1..])
            else [lines[0]] + Squeeze(lines[0].blank, lines[1..])
  {
  }

  method NormalizeBlankLines(lines: seq<FLine>) returns (result: seq<FLine>)
    ensures result == NormalizeBlanks(lines)
  {
    result := [];
    assert lines[0..] == lines;
    var i := 0;
    while i < |lines|
      invariant 0 <= i <= |lines|
      invariant Squeeze(true, lines) == result + Squeeze(result == [] || Last(result).blank, lines[i..])
    {
      var lastBlank := result == [] || Last(result).blank;
      SqueezeStep(lastBlank, lines[i..]);
      assert lines[i..][1..] == lines[i + 1..];
      if !(lines[i].blank && lastBlank) {
        Regroup(result, lines[i], Squeeze(lines[i].blank, lines[i + 1..]));
        result := result + [lines[i]];
      }
      i := i + 1;
    }
    assert lines[|lines|..] == [];
    assert result == Squeeze(true, lines);
    while result != [] && Last(result).blank
      invariant TrimBlanks(result) == NormalizeBlanks(lines)
      decreases |result|
    {
      result := Init(result);
    }
  }

  function PrevLine(lines: seq<FLine>, i: nat): FLine
    requires i <= |lines|
  {
    if i == 0 then BLANK else lines[i - 1]
  }

  lemma TextsPush(done: seq<FLine>, l: FLine)
    ensures Texts(done + [l]) == Texts(done) + [TextOfLine(l)]
  {
  }

  method ApplyTopLevelSpacing(lines: seq<FLine>) returns (out: seq<string>)
    requires HaveText(lines)
    ensures out == Texts(Separated(BLANK, lines))
  {
    out := [];
    ghost var done := [];
    assert lines[0..] == lines;
    var i := 0;
    while i < |lines|
      invariant 0 <= i <= |lines|
      invariant out == Texts(done)
      invariant Separated(BLANK, lines) == done + Separated(PrevLine(lines, i), lines[i..])
      invariant out == [] <==> i == 0
      invariant i > 0 ==> (Last(out) == "" <==> lines[i - 1].blank)
    {
      ghost var more := Separated(lines[i], lines[i + 1..]);
      var insert := ShouldInsertBlankBefore(lines, i, out);
      assert lines[i..][1..] == lines[i + 1..];
      FixedPoint.SeparatedShape(PrevLine(lines, i), lines[i..]);
      if insert {
        Regroup(done, BLANK, [lines[i]] + more);
        TextsPush(done, BLANK);
        out, done := out + [""], done + [BLANK];
      }
      Regroup(done, lines[i], more);
      TextsPush(done, lines[i]);
      out, done := out + [TextOfLine(lines[i])], done + [lines[i]];
      i := i + 1;
    }
  }

  method ShouldInsertBlankBefore(lines: seq<FLine>, index: nat, out: seq<string>) returns (b: bool)
    requires index < |lines| && (out == [] <==> index == 0)
    requires index > 0 ==> (Last(out) == "" <==> lines[index - 1].blank)
    ensures b == Inserts(PrevLine(lines, index), lines[index..])
  {
    var line := lines[index];
    if line.blank || out == [] || Last(out) == "" {
      return false;
    }
    if line.depth != 0 {
      return false;
    }
    var previous := PreviousNonblank(lines, index);
    if line.comment {
      if previous < 0 || lines[previous].comment {
        return false;
      }
      b := GroupLeadsToDeclaration(lines, index);
      return;
    }
    if line.decl {
      return !(previous >= 0 && lines[previous].comment);
    }
    b := false;
  }

  /** The nearest line before `index` that is not blank, or -1. */
  method PreviousNonblank(lines: seq<FLine>, index: nat) returns (k: int)
    requires index <= |lines|
    ensures -1 <= k < index
    ensures k >= 0 ==> !lines[k].blank
    ensures forall j :: k < j < index ==> lines[j].blank
  {
    k := index - 1;
    while k >= 0 && lines[k].blank
      invariant -1 <= k < index
      invariant forall j :: k < j < index ==> lines[j].blank
    {
      k := k - 1;
    }
  }

  method GroupLeadsToDeclaration(lines: seq<FLine>, index: nat) returns (b: bool)
    requires index <= |lines|
    ensures b == GroupLeads(lines[index..])
  {
    var i := index;
    while i < |lines|
      invariant index <= i <= |lines|
      invariant GroupLeads(lines[i..]) == GroupLeads(lines[index..])
    {
      if !lines[i].comment {
        return !lines[i].blank && lines[i].decl;
      }
      assert lines[i..][1..] == lines[i + 1..];
      i := i + 1;
    }
    b := false;
  }

  /** Walks back over the closing dedents and removes the newline behind them. */
  method SignificantTokens(tokens: seq<Kind>) returns (kinds: seq<Kind>)
    ensures kinds == Significant(tokens)
  {
    kinds := WithoutEof(tokens);
    var end := |kinds|;
    assert kinds[..end] == kinds && kinds[end..] == [];
    while end > 0 && kinds[end - 1].Dedent?
      invariant 0 <= end <= |kinds|
      invariant DropTerminal(kinds) == DropTerminal(kinds[..end]) + kinds[end..]
    {
      TerminalStep(kinds, end);
      end := end - 1;
    }
    if end > 0 && kinds[end - 1].Newline? {
      assert Init(kinds[..end]) == kinds[..end - 1];
      kinds := kinds[..end - 1] + kinds[end..];
    } else {
      assert DropTerminal(kinds[..end]) == kinds[..end];
      assert kinds[..end] + kinds[end..] == kinds;
    }
  }

  lemma TerminalStep(kinds: seq<Kind>, end: nat)
    requires 0 < end <= |kinds| && kinds[end - 1].Dedent?
    ensures DropTerminal(kinds[..end]) + kinds[end..] == DropTerminal(kinds[..end - 1]) + kinds[end - 1..]
  {
    var head := kinds[..end];
    assert Init(head) == kinds[..end - 1] && Last(head) == kinds[end - 1];
    assert kinds[end - 1..] == [kinds[end - 1]] + kinds[end..];
    Regroup(DropTerminal(Init(head)), kinds[end - 1], kinds[end..]);
  }

  method WithoutEof(tokens: seq<Kind>) returns (kinds: seq<Kind>)
    ensures kinds == Filter(tokens)
  {
    kinds := [];
    assert tokens[0..] == tokens;
    var i := 0;
    while i < |tokens|
      invariant 0 <= i <= |tokens|
      invariant Filter(tokens) == kinds + Filter(tokens[i..])
    {
      assert tokens[i..][1..] == tokens[i + 1..];
      if !tokens[i].Eof? {
        Regroup(kinds, tokens[i], Filter(tokens[i + 1..]));
        kinds := kinds + [tokens[i]];
      }
      i := i + 1;
    }
  }
}
