/**
 * What a formatted text looks like (src/formatter.rs): where its blank lines stand, how deep
 * its lines are indented, and how its comments begin.
 */
module LineStyle {
  import opened Chars
  import opened Atoms
  import opened Layout
  import opened Lines
  import opened Formatter
  import opened FixedPoint

  // --- Blank lines ---

  /** A line that is not blank; `apart` if blank lines stand between it and the one before it. */
  datatype Para = Para(line: FLine, apart: bool)

  /** The lines that are not blank; `some` if there was one before, `gap` if blank lines followed it. */
  function Paras(lines: seq<FLine>, some: bool, gap: bool): seq<Para>
    decreases |lines|
  {
    if lines == [] then []
    else if lines[0].blank then Paras(lines[1..], some, true)
    else [Para(lines[0], some && gap)] + Paras(lines[1..], true, false)
  }

  lemma {:induction false} NothingBefore(lines: seq<FLine>, gap: bool)
    ensures Paras(lines, false, gap) == Paras(lines, false, true)
    decreases |lines|
  {
    if lines != [] && lines[0].blank {
      NothingBefore(lines[1..], gap);
    }
  }

  lemma {:induction false} ParasSqueeze(prevBlank: bool, lines: seq<FLine>, some: bool, gap: bool)
    requires prevBlank ==> gap || !some
    ensures Paras(Squeeze(prevBlank, lines), some, gap) == Paras(lines, some, gap)
    decreases |lines|
  {
    if lines != [] {
      if lines[0].blank && prevBlank {
        ParasSqueeze(true, lines[1..], some, gap);
        if !some {
          NothingBefore(lines[1..], gap);
        }
      } else {
        var more := Squeeze(lines[0].blank, lines[1..]);
        assert ([lines[0]] + more)[1..] == more;
        if lines[0].blank {
          ParasSqueeze(true, lines[1..], some, true);
        } else {
          ParasSqueeze(false, lines[1..], true, false);
        }
      }
    }
  }

  lemma {:induction false} ParasEnd(lines: seq<FLine>, last: FLine, some: bool, gap: bool)
    requires last.blank
    ensures Paras(lines + [last], some, gap) == Paras(lines, some, gap)
    decreases |lines|
  {
    if lines == [] {
      assert ([] + [last])[1..] == [];
    } else {
      assert (lines + [last])[1..] == lines[1..] + [last];
      ParasEnd(lines[1..], last, if lines[0].blank then some else true, lines[0].blank);
    }
  }

  lemma {:induction false} ParasTrim(lines: seq<FLine>)
    ensures Paras(TrimBlanks(lines), false, false) == Paras(lines, false, false)
    decreases |lines|
  {
    if lines != [] && Last(lines).blank {
      ParasTrim(Init(lines));
      ParasEnd(Init(lines), Last(lines), false, false);
      assert Init(lines) + [Last(lines)] == lines;
    }
  }

  /** The comments from number `k` on are directly followed by a declaration. */
  predicate LeadsToDeclaration(ps: seq<Para>, k: nat)
    requires k < |ps|
    decreases |ps| - k
  {
    && k + 1 < |ps| && !ps[k + 1].apart
    && if ps[k + 1].line.comment then LeadsToDeclaration(ps, k + 1) else ps[k + 1].line.decl
  }

  /**
   * A declaration at the margin is set apart, unless it follows a comment; the first of the
   * comments directly in front of it is set apart in its place.
   */
  predicate SetApart(ps: seq<Para>, k: nat)
    requires 0 < k < |ps|
  {
    && ps[k].line.depth == 0 && !ps[k - 1].line.comment
    && if ps[k].line.comment then LeadsToDeclaration(ps, k) else ps[k].line.decl
  }

  /** A blank line is no comment. */
  predicate PlainBlanks(lines: seq<FLine>) {
    forall i :: 0 <= i < |lines| && lines[i].blank ==> !lines[i].comment
  }

  lemma {:induction false} GroupIsLed(rest: seq<FLine>, ps: seq<Para>, k: nat, some: bool, gap: bool)
    requires rest != [] && !rest[0].blank && rest[0].comment && PlainBlanks(rest)
    requires k < |ps| && ps[k..] == Paras(rest, some, gap)
    ensures GroupLeads(rest) <==> LeadsToDeclaration(ps, k)
    decreases |rest|
  {
    var tail := rest[1..];
    assert PlainBlanks(tail);
    assert ps[k..][1..] == ps[k + 1..] == Paras(tail, true, false);
    if tail != [] {
      if tail[0].blank {
        AllApart(tail[1..], ps, k + 1);
      } else {
        assert ps[k + 1..][0] == ps[k + 1] == Para(tail[0], false);
        if tail[0].comment {
          GroupIsLed(tail, ps, k + 1, true, false);
        }
      }
    }
  }

  /** Behind a gap the next line is apart. */
  lemma {:induction false} AllApart(lines: seq<FLine>, ps: seq<Para>, k: nat)
    requires k <= |ps| && ps[k..] == Paras(lines, true, true)
    ensures k < |ps| ==> ps[k].apart
    decreases |lines|
  {
    if k < |ps| {
      assert ps[k..][0] == ps[k];
      if lines != [] && lines[0].blank {
        AllApart(lines[1..], ps, k);
      }
    }
  }

  /** `qs` is `ps`, with the lines set apart that are to be, from number `k` on. */
  predicate SpacedFrom(ps: seq<Para>, qs: seq<Para>, k: nat) {
    && |qs| == |ps| - k
    && forall i :: k <= i < |ps| ==>
         && qs[i - k].line == ps[i].line
         && (qs[i - k].apart <==> ps[i].apart || (i > 0 && SetApart(ps, i)))
  }

  /** The line before number `k`, or what stands for it at the start. */
  predicate Precedes(prev: FLine, ps: seq<Para>, k: nat, some: bool)
    requires k <= |ps|
  {
    (some <==> k > 0) && (if k > 0 then prev.blank || prev == ps[k - 1].line else prev.blank)
  }

  lemma {:induction false} InsertsExactly(prev: FLine, rest: seq<FLine>, ps: seq<Para>, k: nat, some: bool)
    requires rest != [] && !rest[0].blank && !prev.blank && PlainBlanks(rest)
    requires k < |ps| && ps[k..] == Paras(rest, some, false) && Precedes(prev, ps, k, some)
    ensures k > 0 && (Inserts(prev, rest) <==> SetApart(ps, k))
  {
    assert ps[k..][0] == ps[k];
    if rest[0].comment {
      GroupIsLed(rest, ps, k, some, false);
    }
  }

  lemma {:induction false} ParasSeparated(prev: FLine, rest: seq<FLine>, ps: seq<Para>, k: nat, some: bool)
    requires k <= |ps| && ps[k..] == Paras(rest, some, prev.blank) && Precedes(prev, ps, k, some) && PlainBlanks(rest)
    ensures SpacedFrom(ps, Paras(Separated(prev, rest), some, prev.blank), k)
    decreases |rest|
  {
    if rest != [] {
      var more := Separated(rest[0], rest[1..]);
      SeparatedShape(prev, rest);
      assert PlainBlanks(rest[1..]);
      assert ([rest[0]] + more)[1..] == more;
      if rest[0].blank {
        ParasSeparated(rest[0], rest[1..], ps, k, some);
      } else {
        assert ps[k..][0] == ps[k] && ps[k..][1..] == ps[k + 1..];
        ParasSeparated(rest[0], rest[1..], ps, k + 1, true);
        OneMoreSpaced(prev, rest, more, ps, k, some);
      }
    }
  }

  lemma {:induction false} OneMoreSpaced(
      prev: FLine, rest: seq<FLine>, more: seq<FLine>, ps: seq<Para>, k: nat, some: bool)
    requires rest != [] && !rest[0].blank && more == Separated(rest[0], rest[1..]) && PlainBlanks(rest)
    requires k < |ps| && ps[k..] == Paras(rest, some, prev.blank) && Precedes(prev, ps, k, some)
    requires SpacedFrom(ps, Paras(more, true, false), k + 1)
    ensures SpacedFrom(ps, Paras(Separated(prev, rest), some, prev.blank), k)
  {
    var tail, qs := [rest[0]] + more, Paras(more, true, false);
    SeparatedShape(prev, rest);
    assert tail[1..] == more && ([BLANK] + tail)[1..] == tail;
    assert ps[k..][0] == ps[k];
    if !prev.blank {
      InsertsExactly(prev, rest, ps, k, some);
    }
    var apart := some && (prev.blank || Inserts(prev, rest));
    var all := [Para(rest[0], apart)] + qs;
    assert Paras(Separated(prev, rest), some, prev.blank) == all;
    forall i | k <= i < |ps|
      ensures all[i - k].line == ps[i].line && (all[i - k].apart <==> ps[i].apart || (i > 0 && SetApart(ps, i)))
    {
      if i > k {
        assert all[i - k] == qs[i - (k + 1)];
      }
    }
  }

  lemma {:induction false} NormalizedPlain(source: string, u: Alphabet)
    ensures PlainBlanks(NormalizeBlanks(FormatLines(SplitLines(source), [0], u)))
  {
    var lines := FormatLines(SplitLines(source), [0], u);
    SplitLinesOneLine(source);
    FormatLinesClean(SplitLines(source), [0], u);
    FormatLinesChain(SplitLines(source), [0], u);
    SqueezeGood(true, 0, lines, u);
    TrimBlanksGood(0, Squeeze(true, lines), u);
    assert AllClean(NormalizeBlanks(lines), u);
    forall i | 0 <= i < |NormalizeBlanks(lines)| ensures Clean(NormalizeBlanks(lines)[i], u) {
    }
  }

  /**
   * Exactly where a formatted text has blank lines between its lines: where the source had
   * some, and in front of the declarations, or of their comments, that are to be set apart.
   * There is never more than one in a row, and none at either end.
   */
  lemma {:induction false} BlankLinesExactly(source: string, u: Alphabet)
    ensures var ps := Paras(FormatLines(SplitLines(source), [0], u), false, false);
            var qs := Paras(OutputLines(source, u), false, false);
            && |qs| == |ps|
            && forall i :: 0 <= i < |ps| ==>
                 && qs[i].line == ps[i].line
                 && (qs[i].apart <==> ps[i].apart || (i > 0 && SetApart(ps, i)))
    ensures Tidy(OutputLines(source, u))
  {
    var lines := FormatLines(SplitLines(source), [0], u);
    var ps := Paras(lines, false, false);
    NormalizedPlain(source, u);
    ParasSqueeze(true, lines, false, false);
    ParasTrim(Squeeze(true, lines));
    NothingBefore(NormalizeBlanks(lines), false);
    assert ps[0..] == ps;
    ParasSeparated(BLANK, NormalizeBlanks(lines), ps, 0, false);
    NothingBefore(OutputLines(source, u), false);
    OutputGood(source, u);
  }

  // --- Declarations, comments and indentation ---

  /** The words that begin a declaration. */
  const DECLARATIONS := ["route", "task", "schema", "auth", "on queue", "on topic", "export task", "export schema"]

  lemma {:induction false} DeclarationWords(s: string)
    ensures IsDeclaration(s) <==> exists i :: 0 <= i < |DECLARATIONS| && DECLARATIONS[i] + " " <= s
  {
    assert DECLARATIONS[0] + " " == "route " && DECLARATIONS[1] + " " == "task " && DECLARATIONS[2] + " " == "schema ";
    assert DECLARATIONS[3] + " " == "auth " && DECLARATIONS[4] + " " == "on queue ";
    assert DECLARATIONS[5] + " " == "on topic " && DECLARATIONS[6] + " " == "export task ";
    assert DECLARATIONS[7] + " " == "export schema ";
  }

  /** A comment gets one blank behind its `#` unless it has one, or a second `#`, or nothing; the rest stays. */
  lemma {:induction false} CommentsBegin(c: string)
    requires c != "" && c[0] == '#'
    ensures var r := CommentText(c);
            && (|r| > 1 ==> r[1] in {' ', '#'})
            && (r == c <==> |c| == 1 || c[1] in {' ', '#'})
            && (r != c ==> r == c[..1] + " " + c[1..])
  {
  }

  /** The number of tabs at the head of a line, among `n` characters. */
  function Tabs(s: string, n: nat): nat
    requires n <= |s|
  {
    if n == 0 then 0 else Tabs(s, n - 1) + if s[n - 1] == '\t' then 1 else 0
  }

  lemma {:induction false} TabsBehind(s: string, n: nat)
    requires 0 < n <= |s|
    ensures Tabs(s, n) == (if s[0] == '\t' then 1 else 0) + Tabs(s[1..], n - 1)
    decreases n
  {
    if n > 1 {
      TabsBehind(s, n - 1);
    }
  }

  /** The width of an indentation: one for each blank, and three more for each tab. */
  lemma {:induction false} WidthCounts(s: string)
    ensures IndentWidth(s) == BlankLen(s) + 3 * Tabs(s, BlankLen(s))
  {
    if s != "" && IsBlank(s[0]) {
      WidthCounts(s[1..]);
      TabsBehind(s, BlankLen(s));
    }
  }

  /** A printed line stands behind four blanks for each level, and a blank line is empty. */
  lemma {:induction false} LinesIndented(source: string, u: Alphabet, i: nat)
    requires i < |OutputLines(source, u)|
    ensures var line, text := OutputLines(source, u)[i], Texts(OutputLines(source, u))[i];
            if line.blank then text == ""
            else
              && BlankLen(text) == 4 * line.depth == IndentWidth(text) && text[4 * line.depth..] == line.content
              && forall k :: 0 <= k < 4 * line.depth ==> text[k] == ' '
  {
    var line := OutputLines(source, u)[i];
    OutputGood(source, u);
    assert Clean(line, u);
    if !line.blank {
      BehindSpaces(4 * line.depth, line.content);
    }
  }

  lemma {:induction false} BehindSpaces(n: nat, content: string)
    requires content != "" && !IsBlank(content[0])
    ensures BlankLen(Spaces(n) + content) == n == IndentWidth(Spaces(n) + content)
    ensures (Spaces(n) + content)[n..] == content
    decreases n
  {
    var text := Spaces(n) + content;
    if n > 0 {
      assert text[1..] == Spaces(n - 1) + content;
      BehindSpaces(n - 1, content);
    } else {
      assert text == content;
    }
  }

  /**
   * A comment goes with the block whose code is as wide: it gets that block's depth. A wider
   * one than any open block is one level deeper than the code before it, any other as deep.
   */
  lemma {:induction false} CommentsIndented(raw: string, stack: seq<nat>, u: Alphabet, i: nat)
    requires TrimEnd(raw) != "" && IsCommentText(Stripped(raw)) && Increasing(stack)
    ensures var w, line := IndentWidth(TrimEnd(raw)), FormatLine(raw, stack, u);
            && line.comment && !line.blank && !line.decl && line.content == CommentText(Stripped(raw))
            && (i < |stack| && stack[i] == w ==> line.depth == i)
            && (w !in stack ==> line.depth == if w > stack[|stack| - 1] then |stack| else |stack| - 1)
  {
    var w := IndentWidth(TrimEnd(raw));
    var j := LastPosition(w, stack);
    if i < |stack| && stack[i] == w && j != i {
      Grows(stack, if i < j then i else j, if i < j then j else i);
    }
    NotADeclaration(Stripped(raw));
  }

  /**
   * A code line wider than every open block opens one more; any other closes the blocks that
   * are wider than it is, and has the depth of the innermost of the others.
   */
  lemma {:induction false} CodeIndented(raw: string, stack: seq<nat>, u: Alphabet)
    requires TrimEnd(raw) != "" && !IsCommentText(Stripped(raw)) && Increasing(stack)
    ensures var w, line, d := IndentWidth(TrimEnd(raw)), FormatLine(raw, stack, u), FormatLine(raw, stack, u).depth;
            && !line.blank && !line.comment && line.content == Respace(Stripped(raw), u)
            && (line.decl <==> d == 0 && IsDeclaration(Stripped(raw)))
            && if w > stack[|stack| - 1] then d == |stack| && StackAfter(raw, stack) == stack + [w]
               else d < |stack| && Innermost(stack, w, d) && StackAfter(raw, stack) == stack[..d + 1]
  {
    PopToInnermost(stack, IndentWidth(TrimEnd(raw)));
  }

  /** Block `d` is not wider than `w`, and the next one is. */
  predicate Innermost(stack: seq<nat>, w: nat, d: nat)
    requires d < |stack|
  {
    stack[d] <= w && (d + 1 < |stack| ==> w < stack[d + 1])
  }

  lemma {:induction false} PopToInnermost(stack: seq<nat>, w: nat)
    requires Increasing(stack)
    ensures var r := PopTo(stack, w); r != [] && r == stack[..|r|] && Innermost(stack, w, |r| - 1)
    decreases |stack|
  {
    if |stack| > 1 && Top(stack) > w {
      assert Increasing(Init(stack));
      PopToInnermost(Init(stack), w);
    }
  }

  lemma {:induction false} NotADeclaration(s: string)
    requires s != "" && s[0] == '#'
    ensures !IsDeclaration(s)
  {
  }

  lemma {:induction false} Grows(stack: seq<nat>, i: nat, j: nat)
    requires Increasing(stack) && i < j < |stack|
    ensures stack[i] < stack[j]
    decreases j
  {
    if i + 1 < j {
      Grows(stack, i, j - 1);
    }
  }
}
