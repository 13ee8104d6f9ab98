/**
 * The lexical items of one line (src/lexer.rs, `read_string`, `read_number`,
 * `read_identifier` and the operator arms of `tokenize`). Token positions are dropped;
 * a keyword is a function of its word, so words keep their text.
 */
module Lexemes {
  import opened Chars

  datatype Kind =
    | Integer(value: nat)
    | Float(text: string)
    | Text(content: string)
    | Name(word: string)
    | Sym(text: string)
    | Newline
    | Indent
    | Dedent
    | Eof

  datatype LexError = UnexpectedCharacter(c: char) | UnterminatedString | InvalidNumber | InvalidIndentation

  /** What is read at one position: a token, something to skip, or an error. */
  datatype Item = Tok(kind: Kind, len: nat) | Skip(len: nat) | Bad(error: LexError)

  const MAX_I64 := 0x7FFF_FFFF_FFFF_FFFF

  predicate IsIdChar(c: char) {
    IsLetter(c) || IsDigit(c) || c == '?'
  }

  function IdLen(cs: string): (n: nat)
    ensures n <= |cs|
    ensures forall i :: 0 <= i < n ==> IsIdChar(cs[i])
    ensures n < |cs| ==> !IsIdChar(cs[n])
  {
    if cs == "" || !IsIdChar(cs[0]) then 0 else 1 + IdLen(cs[1..])
  }

  function CommentLen(cs: string): (n: nat)
    ensures n <= |cs|
    ensures forall i :: 0 <= i < n ==> cs[i] != '\n'
    ensures n < |cs| ==> cs[n] == '\n'
  {
    if cs == "" || cs[0] == '\n' then 0 else 1 + CommentLen(cs[1..])
  }

  function Unescape(c: char): string {
    if c == 'n' then "\n"
    else if c == 't' then "\t"
    else if c == 'r' then "\r"
    else if c == '\\' || c == '"' || c == '#' then [c]
    else ['\\', c]
  }

  datatype Quoted = Closed(value: string, len: nat) | Open

  /** A string literal read after its opening quote; `len` includes the closing one. */
  function ReadString(cs: string): (q: Quoted)
    ensures q.Closed? ==> 1 <= q.len <= |cs|
  {
    if cs == "" || cs[0] == '\n' then Open
    else if cs[0] == '"' then Closed("", 1)
    else if cs[0] == '\\' then
      if |cs| == 1 then Open
      else match ReadString(cs[2..])
        case Open => Open
        case Closed(v, n) => Closed(Unescape(cs[1]) + v, 2 + n)
    else match ReadString(cs[1..])
      case Open => Open
      case Closed(v, n) => Closed([cs[0]] + v, 1 + n)
  }

  datatype Span = Span(len: nat, dotted: bool) | TwoDots

  /** The extent of a number: a dot counts only in front of a digit, and only once. */
  function NumSpan(cs: string, dotted: bool): (s: Span)
    ensures s.Span? ==> s.len <= |cs|
    ensures s.Span? && cs != "" && IsDigit(cs[0]) ==> s.len > 0
    decreases |cs|
  {
    if cs == "" then Span(0, dotted)
    else if cs[0] == '.' then
      if |cs| > 1 && IsDigit(cs[1]) then
        if dotted then TwoDots else Longer(NumSpan(cs[1..], true))
      else Span(0, dotted)
    else if IsDigit(cs[0]) then Longer(NumSpan(cs[1..], dotted))
    else Span(0, dotted)
  }

  function Longer(s: Span): Span {
    if s.Span? then Span(1 + s.len, s.dotted) else s
  }

  /** The value of the decimal digits of `ds`; other characters count as zero. */
  function DecValue(ds: string): nat {
    if ds == "" then 0
    else
      var last := ds[|ds| - 1];
      10 * DecValue(ds[..|ds| - 1]) + if IsDigit(last) then last as nat - '0' as nat else 0
  }

  function ReadNumber(cs: string): Item {
    match NumSpan(cs, false)
    case TwoDots => Bad(InvalidNumber)
    case Span(n, dotted) =>
      if dotted then Tok(Float(cs[..n]), n)
      else if DecValue(cs[..n]) <= MAX_I64 then Tok(Integer(DecValue(cs[..n])), n)
      else Bad(InvalidNumber)
  }

  predicate At(cs: string, i: nat, c: char) {
    i < |cs| && cs[i] == c
  }

  /** The length of the operator or delimiter at the head of `cs`; 0 when there is none. */
  function SymLen(cs: string): (n: nat)
    requires cs != ""
    ensures n <= |cs|
  {
    match cs[0]
    case '-' => if At(cs, 1, '>') then 2 else 1
    case '*' => if At(cs, 1, '>') && At(cs, 2, '>') then 3 else 1
    case '=' => if At(cs, 1, '=') || At(cs, 1, '>') then 2 else 1
    case '!' => if At(cs, 1, '=') then 2 else 0
    case '>' => if At(cs, 1, '>') || At(cs, 1, '=') then 2 else 1
    case '<' => if At(cs, 1, '=') then 2 else 1
    case c =>
      if || c == '+' || c == '/' || c == '%' || c == '(' || c == ')' || c == '[' || c == ']'
         || c == '{' || c == '}' || c == ',' || c == '.' || c == ':'
      then 1 else 0
  }

  function ReadItem(cs: string): (it: Item)
    requires cs != "" && cs[0] != '\n'
    ensures !it.Bad? ==> 1 <= it.len <= |cs|
  {
    var c := cs[0];
    if IsBlank(c) || c == '\r' then Skip(1)
    else if c == '#' then Skip(CommentLen(cs))
    else if c == '"' then
      match ReadString(cs[1..])
      case Open => Bad(UnterminatedString)
      case Closed(v, n) => Tok(Text(v), 1 + n)
    else if IsDigit(c) then ReadNumber(cs)
    else if IsLetter(c) then Tok(Name(cs[..IdLen(cs)]), IdLen(cs))
    else if SymLen(cs) > 0 then Tok(Sym(cs[..SymLen(cs)]), SymLen(cs))
    else Bad(UnexpectedCharacter(c))
  }

  datatype Lexed = Kinds(kinds: seq<Kind>) | Fails(error: LexError)

  function Append(a: Lexed, b: Lexed): Lexed {
    if a.Fails? then a else if b.Fails? then b else Kinds(a.kinds + b.kinds)
  }

  predicate OneLine(cs: string) {
    forall i :: 0 <= i < |cs| ==> cs[i] != '\n'
  }

  /** The tokens of the line at the head of `cs`, without layout. */
  function LexLine(cs: string): Lexed
    decreases |cs|
  {
    if cs == "" || cs[0] == '\n' then Kinds([])
    else match ReadItem(cs)
      case Bad(e) => Fails(e)
      case Skip(n) => LexLine(cs[n..])
      case Tok(k, n) => Append(Kinds([k]), LexLine(cs[n..]))
  }
}
