/** The formatter: indentation, blank lines and spacing of a source text (src/formatter.rs). */
module Formatter {
  import opened Chars
  import opened Atoms
  import opened Layout
  import opened Lexemes
  import opened Lines

  /** A formatted line; `content` is its text behind the indentation. */
  datatype FLine = FLine(content: string, depth: nat, blank: bool, comment: bool, decl: bool)

  const BLANK := FLine("", 0, true, false, false)

  // --- Lines of a text ---

  /** The lines of `s`. The carriage return of a CRLF ending is trimmed with the line. */
  function SplitLines(s: string): seq<string>
    decreases |s|
  {
    if s == "" then []
    else
      var n := CommentLen(s);
      [s[..n]] + SplitLines(if n < |s| then s[n + 1..] else "")
  }

  function TrimEnd(s: string): (r: string)
    ensures r <= s
    ensures r != "" ==> !IsWhitespace(Last(r))
    ensures forall i :: |r| <= i < |s| ==> IsWhitespace(s[i])
  {
    if s != "" && IsWhitespace(Last(s)) then TrimEnd(Init(s)) else s
  }

  function BlankLen(s: string): (n: nat)
    ensures n <= |s| && forall i :: 0 <= i < n ==> IsBlank(s[i])
    ensures n < |s| ==> !IsBlank(s[n])
  {
    if s == "" || !IsBlank(s[0]) then 0 else 1 + BlankLen(s[1..])
  }

  /** The width of the leading blanks; a tab counts as four. */
  function IndentWidth(s: string): nat {
    if s == "" || !IsBlank(s[0]) then 0
    else (if s[0] == '\t' then 4 else 1) + IndentWidth(s[1..])
  }

  function Spaces(n: nat): (s: string)
    ensures |s| == n && forall i :: 0 <= i < n ==> s[i] == ' '
  {
    seq(n, _ => ' ')
  }

  // --- Depth ---

  function CodeStack(w: nat, stack: seq<nat>): seq<nat> {
    if w > Top(stack) then stack + [w]
    else if w < Top(stack) then PopTo(stack, w)
    else stack
  }

  function DepthOf(stack: seq<nat>): nat {
    if stack == [] then 0 else |stack| - 1
  }

  /** The last position that holds `w`, or -1. */
  function LastPosition(w: nat, stack: seq<nat>): (i: int)
    ensures -1 <= i < |stack|
    ensures i >= 0 ==> stack[i] == w
    ensures forall k :: i < k < |stack| ==> stack[k] != w
  {
    if stack == [] then -1
    else if Last(stack) == w then |stack| - 1
    else LastPosition(w, Init(stack))
  }

  function CommentDepth(w: nat, stack: seq<nat>): nat {
    var i := LastPosition(w, stack);
    if i >= 0 then i else if w > Top(stack) then |stack| else DepthOf(stack)
  }

  // --- One line ---

  function CommentText(c: string): string {
    if |c| > 1 && c[1] != ' ' && c[1] != '#' then "# " + c[1..] else c
  }

  predicate IsDeclaration(s: string) {
    || "route " <= s || "task " <= s || "schema " <= s || "auth " <= s
    || "on queue " <= s || "on topic " <= s || "export task " <= s || "export schema " <= s
  }

  predicate IsCommentText(s: string) {
    s != "" && s[0] == '#'
  }

  function NewLine(depth: nat, stripped: string, u: Alphabet): FLine {
    FLine(if IsCommentText(stripped) then CommentText(stripped) else Respace(stripped, u),
          depth, false, IsCommentText(stripped), depth == 0 && IsDeclaration(stripped))
  }

  function Stripped(raw: string): string {
    var line := TrimEnd(raw);
    line[BlankLen(line)..]
  }

  function StackAfter(raw: string, stack: seq<nat>): seq<nat> {
    if TrimEnd(raw) == "" || IsCommentText(Stripped(raw)) then stack
    else CodeStack(IndentWidth(TrimEnd(raw)), stack)
  }

  function FormatLine(raw: string, stack: seq<nat>, u: Alphabet): FLine {
    var line, stripped := TrimEnd(raw), Stripped(raw);
    if line == "" then BLANK
    else
      var w := IndentWidth(line);
      NewLine(if IsCommentText(stripped) then CommentDepth(w, stack) else DepthOf(CodeStack(w, stack)), stripped, u)
  }

  function FormatLines(raws: seq<string>, stack: seq<nat>, u: Alphabet): seq<FLine>
    decreases |raws|
  {
    if raws == [] then []
    else [FormatLine(raws[0], stack, u)] + FormatLines(raws[1..], StackAfter(raws[0], stack), u)
  }

  // --- Blank lines ---

  /** Runs of blank lines become one; blanks behind a blank (or at the start) are dropped. */
  function Squeeze(prevBlank: bool, lines: seq<FLine>): seq<FLine>
    decreases |lines|
  {
    if lines == [] then []
    else if lines[0].blank && prevBlank then Squeeze(true, lines[1..])
    else [lines[0]] + Squeeze(lines[0].blank, lines[1..])
  }

  function TrimBlanks(lines: seq<FLine>): seq<FLine> {
    if lines != [] && Last(lines).blank then TrimBlanks(Init(lines)) else lines
  }

  function NormalizeBlanks(lines: seq<FLine>): seq<FLine> {
    TrimBlanks(Squeeze(true, lines))
  }

  /** The comment lines at the head of `lines` directly precede a declaration. */
  predicate GroupLeads(lines: seq<FLine>) {
    lines != [] && if lines[0].comment then GroupLeads(lines[1..]) else !lines[0].blank && lines[0].decl
  }

  /** A blank goes in front of `rest[0]`, which follows `prev`. */
  predicate Inserts(prev: FLine, rest: seq<FLine>)
    requires rest != []
  {
    var line := rest[0];
    && !line.blank && !prev.blank && line.depth == 0 && !prev.comment
    && if line.comment then GroupLeads(rest) else line.decl
  }

  function Separated(prev: FLine, rest: seq<FLine>): seq<FLine>
    decreases |rest|
  {
    if rest == [] then []
    else (if Inserts(prev, rest) then [BLANK] else []) + [rest[0]] + Separated(rest[0], rest[1..])
  }

  // --- The whole text ---

  function TextOfLine(line: FLine): string {
    if line.blank then "" else Spaces(4 * line.depth) + line.content
  }

  function Texts(lines: seq<FLine>): (ts: seq<string>)
    ensures |ts| == |lines| && forall i :: 0 <= i < |ts| ==> ts[i] == TextOfLine(lines[i])
  {
    seq(|lines|, i requires 0 <= i < |lines| => TextOfLine(lines[i]))
  }

  /** The lines joined by newlines, with one final newline. */
  function Print(lines: seq<FLine>): string {
    Unlines(if lines == [] then [""] else Texts(lines))
  }

  function OutputLines(source: string, u: Alphabet): seq<FLine> {
    Separated(BLANK, NormalizeBlanks(FormatLines(SplitLines(source), [0], u)))
  }

  function Normalize(source: string, u: Alphabet): string {
    Print(OutputLines(source, u))
  }

  // --- The meaning-bearing tokens and the guard ---

  /** Drops the end marker and the newline behind which only blocks are closed. */
  function Significant(ts: seq<Kind>): seq<Kind> {
    DropTerminal(Filter(ts))
  }

  function Filter(ts: seq<Kind>): seq<Kind> {
    if ts == [] then [] else (if ts[0].Eof? then [] else [ts[0]]) + Filter(ts[1..])
  }

  function DropTerminal(ts: seq<Kind>): seq<Kind> {
    if ts == [] then []
    else if Last(ts).Dedent? then DropTerminal(Init(ts)) + [Last(ts)]
    else if Last(ts).Newline? then Init(ts)
    else ts
  }

  /** `Crashed` is the lexer's out-of-range read. */
  datatype FormatResult = Formatted(output: string) | ParseError | AstDivergence | Crashed

  /** `parses` stands for the parser, a function of the token kinds. */
  function FormatSource(source: string, u: Alphabet, parses: seq<Kind> -> bool): FormatResult {
    var before, output := Tokenize(source), Normalize(source, u);
    var after := Tokenize(output);
    if before.Panicked? then Crashed
    else if !before.Done? || !parses(before.tokens) then ParseError
    else if after.Panicked? then Crashed
    else if !after.Done? || !parses(after.tokens) then ParseError
    else if Significant(before.tokens) != Significant(after.tokens) then AstDivergence
    else Formatted(output)
  }
}
