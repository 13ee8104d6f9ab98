/** Exactly which texts `format_source` formats, and which answer it gives for the others (src/formatter.rs). */
module Verdict {
  import opened Chars
  import opened Layout
  import opened Lexemes
  import opened Lines
  import opened Formatter
  import opened Meaning
  import opened Divergence
  import opened Guarantees

  // --- The printed text never ends in an open line ---

  lemma {:induction false} UnlinesEnds(lines: seq<string>)
    requires lines != []
    ensures Unlines(lines) != "" && Last(Unlines(lines)) == '\n'
    decreases |lines|
  {
    if |lines| > 1 {
      UnlinesEnds(lines[1..]);
      assert Unlines(lines) == lines[0] + "\n" + Unlines(lines[1..]);
    } else {
      assert lines[1..] == [];
    }
  }

  lemma {:induction false} ToLFEnds(s: string)
    requires s != "" && Last(s) == '\n'
    ensures ToLF(s) != "" && Last(ToLF(s)) == '\n'
    decreases |s|
  {
    var n := if s[0] == '\r' && s[1] == '\n' then 2 else 1;
    if |s| > n {
      ToLFEnds(s[n..]);
      assert Last(s[n..]) == Last(s);
    }
  }

  /** Formatted text never makes the lexer read out of range, whatever was formatted. */
  lemma OutputNeverPanics(source: string, u: Alphabet)
    ensures !Tokenize(Normalize(source, u)).Panicked?
  {
    var lines := OutputLines(source, u);
    UnlinesEnds(if lines == [] then [""] else Texts(lines));
    ToLFEnds(Normalize(source, u));
    PanicsExactly(Normalize(source, u));
  }

  // --- The tokens compared ---

  /** All tokens count but the end marker and the newline behind which only blocks are closed. */
  lemma {:induction false} MeaningBearing(body: seq<Kind>, dedents: seq<Kind>)
    requires NoEof(body) && (body != [] ==> !Last(body).Newline? && !Last(body).Dedent?)
    requires forall i :: 0 <= i < |dedents| ==> dedents[i].Dedent?
    ensures Significant(body + dedents + [Eof]) == body + dedents
    ensures Significant(body + [Newline] + dedents + [Eof]) == body + dedents
  {
    FilterEnd(body + dedents);
    FilterEnd(body + [Newline] + dedents);
    DropBehind(body, dedents);
    DropBehind(body + [Newline], dedents);
    assert Init(body + [Newline]) == body;
  }

  lemma {:induction false} FilterEnd(ts: seq<Kind>)
    requires NoEof(ts)
    ensures Filter(ts + [Eof]) == ts
    decreases |ts|
  {
    if ts == [] {
      assert ([] + [Eof])[1..] == [];
    } else {
      assert (ts + [Eof])[1..] == ts[1..] + [Eof];
      FilterEnd(ts[1..]);
    }
  }

  lemma DropOne(ts: seq<Kind>)
    ensures DropTerminal(ts + [Dedent]) == DropTerminal(ts) + [Dedent]
  {
    assert Init(ts + [Dedent]) == ts;
  }

  lemma {:induction false} DropBehind(ts: seq<Kind>, dedents: seq<Kind>)
    requires forall i :: 0 <= i < |dedents| ==> dedents[i].Dedent?
    ensures DropTerminal(ts + dedents) == DropTerminal(ts) + dedents
    decreases |dedents|
  {
    if dedents == [] {
      assert ts + dedents == ts && DropTerminal(ts) + dedents == DropTerminal(ts);
    } else {
      var init := Init(dedents);
      assert dedents == init + [Dedent];
      DropBehind(ts, init);
      DropOne(ts + init);
      assert ts + dedents == ts + init + [Dedent];
      assert DropTerminal(ts) + dedents == DropTerminal(ts) + init + [Dedent];
    }
  }

  // --- The answer ---

  /** The text lexes and parses. */
  predicate Reads(text: string, parses: seq<Kind> -> bool) {
    Tokenize(text).Done? && parses(Tokenize(text).tokens)
  }

  /**
   * For every text and every parser: the text is formatted if and only if it and its output
   * both parse and no meaning-bearing token has changed, and then the answer is the output;
   * the guard fires if and only if both parse and some token has changed.
   */
  lemma FormatExactly(source: string, u: Alphabet, parses: seq<Kind> -> bool)
    ensures var r, o := FormatSource(source, u, parses), Normalize(source, u);
            && (r.Formatted? <==> Reads(source, parses) && Reads(o, parses) && Kept(source, u))
            && (r.Formatted? ==> r.output == o)
            && (r == AstDivergence <==> Reads(source, parses) && Reads(o, parses) && !Kept(source, u))
            && (r == Crashed <==> Tokenize(source).Panicked?)
            && (r == ParseError <==> !Tokenize(source).Panicked? && !(Reads(source, parses) && Reads(o, parses)))
  {
    OutputNeverPanics(source, u);
  }

  /**
   * The texts on which the guard fires, among those whose lines can be read one by one: those
   * that parse before and after, and on some line of which something fuses or moves otherwise.
   */
  lemma GuardFiresExactly(source: string, u: Alphabet, parses: seq<Kind> -> bool)
    requires Plausible(source)
    ensures FormatSource(source, u, parses) == AstDivergence <==>
            && Reads(source, parses) && Reads(Normalize(source, u), parses)
            && !(LinesOk(SplitLines(source), u) && LayoutMatches(SplitLines(source), START, [0], [0]))
  {
    FormatExactly(source, u, parses);
    if Tokenize(source).Done? {
      KeptExactly(source, u);
    }
  }

  /** With a parser that ignores the newline at the end of a file, any other such text that parses is formatted. */
  lemma FormattedExactly(source: string, u: Alphabet, parses: seq<Kind> -> bool)
    requires Plausible(source) && TerminalNewlineIgnored(parses)
    ensures FormatSource(source, u, parses) == Formatted(Normalize(source, u)) <==>
            && Reads(source, parses)
            && LinesOk(SplitLines(source), u) && LayoutMatches(SplitLines(source), START, [0], [0])
  {
    FormatExactly(source, u, parses);
    if Tokenize(source).Done? {
      KeptExactly(source, u);
    }
  }
}
