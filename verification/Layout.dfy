/**
 * The lexer as a function of the source text: significant indentation, newline
 * suppression and the `>>` continuation rule (src/lexer.rs, `tokenize`).
 */
module Layout {
  import opened Lexemes

  datatype LexState = LexState(tokens: seq<Kind>, stack: seq<nat>, nesting: nat, lineStart: bool)

  const START := LexState([], [0], 0, true)

  /** `Panicked` is the out-of-range read behind an unterminated last line of spaces. */
  datatype LexResult = Done(tokens: seq<Kind>) | Failed(error: LexError) | Panicked

  predicate IsLayout(k: Kind) {
    k.Indent? || k.Dedent?
  }

  function Last<T>(s: seq<T>): T
    requires s != []
  {
    s[|s| - 1]
  }

  function Init<T>(s: seq<T>): seq<T>
    requires s != []
  {
    s[..|s| - 1]
  }

  // --- Tokens ---

  /** Removes the newline that ends `ts`, not counting indentation tokens behind it. */
  function DropNewline(ts: seq<Kind>): seq<Kind> {
    if ts == [] then []
    else if IsLayout(Last(ts)) then DropNewline(Init(ts)) + [Last(ts)]
    else if Last(ts).Newline? then Init(ts)
    else ts
  }

  predicate Opens(k: Kind) {
    k == Sym("(") || k == Sym("[") || k == Sym("{")
  }

  predicate Closes(k: Kind) {
    k == Sym(")") || k == Sym("]") || k == Sym("}")
  }

  function Nest(n: nat, k: Kind): nat {
    if Opens(k) then n + 1 else if Closes(k) && n > 0 then n - 1 else n
  }

  function Emit(st: LexState, k: Kind): LexState {
    var ts := if k == Sym(">>") then DropNewline(st.tokens) else st.tokens;
    st.(tokens := ts + [k], nesting := Nest(st.nesting, k))
  }

  function EmitAll(st: LexState, ks: seq<Kind>): LexState
    decreases |ks|
  {
    if ks == [] then st else EmitAll(Emit(st, ks[0]), ks[1..])
  }

  // --- Newlines ---

  predicate Continues(k: Kind) {
    k == Sym(">>") || k == Sym("*>>") || k == Sym("->") || k == Sym("=>") || k == Sym(",")
  }

  /** The last token that is not layout asks for more, or there is none yet. */
  predicate Suppressed(ts: seq<Kind>) {
    if ts == [] then true
    else if IsLayout(Last(ts)) || Last(ts).Newline? then Suppressed(Init(ts))
    else Continues(Last(ts))
  }

  function WithNewline(ts: seq<Kind>): seq<Kind> {
    if Suppressed(ts) || ts == [] || Last(ts).Newline? then ts else ts + [Newline]
  }

  function NewlineStep(st: LexState): LexState {
    if st.nesting > 0 then st.(lineStart := false)
    else st.(tokens := WithNewline(st.tokens), lineStart := true)
  }

  // --- Indentation ---

  function Top(stack: seq<nat>): nat {
    if stack == [] then 0 else Last(stack)
  }

  function PopTo(stack: seq<nat>, w: nat): (r: seq<nat>)
    ensures |r| <= |stack| && r == stack[..|r|]
  {
    if |stack| > 1 && Top(stack) > w then PopTo(Init(stack), w) else stack
  }

  function Dedents(n: nat): (ts: seq<Kind>)
    ensures |ts| == n
  {
    if n == 0 then [] else Dedents(n - 1) + [Dedent]
  }

  datatype Indented = Level(st: LexState) | Mismatch

  function IndentStep(st: LexState, w: nat): Indented {
    if w > Top(st.stack) then Level(st.(stack := st.stack + [w], tokens := st.tokens + [Indent]))
    else if w < Top(st.stack) then
      var stack := PopTo(st.stack, w);
      if Top(stack) != w then Mismatch
      else Level(st.(stack := stack, tokens := st.tokens + Dedents(|st.stack| - |stack|)))
    else Level(st)
  }

  function SpaceLen(cs: string): (n: nat)
    ensures n <= |cs|
    ensures forall i :: 0 <= i < n ==> cs[i] == ' '
    ensures n < |cs| ==> cs[n] != ' '
  {
    if cs == "" || cs[0] != ' ' then 0 else 1 + SpaceLen(cs[1..])
  }

  /** Indentation counts only in front of code, not on blank or comment lines. */
  predicate IsCode(rest: string) {
    rest != "" && rest[0] != '\n' && rest[0] != '#'
  }

  /** What the head of a line does to the state, before its first item is read. */
  function EnterLine(cs: string, st: LexState): Indented {
    var inLine := st.(lineStart := false);
    if st.lineStart && IsCode(cs[SpaceLen(cs)..]) then IndentStep(inLine, SpaceLen(cs)) else Level(inLine)
  }

  // --- The whole lexer ---

  function Finish(st: LexState): seq<Kind> {
    st.tokens + Dedents(if |st.stack| > 1 then |st.stack| - 1 else 0) + [Eof]
  }

  function LexFrom(cs: string, st: LexState): LexResult
    decreases |cs|, st.lineStart
  {
    if cs == "" then Done(Finish(st))
    else if st.lineStart then
      var rest := cs[SpaceLen(cs)..];
      if rest == "" then Panicked
      else match EnterLine(cs, st)
        case Mismatch => Failed(InvalidIndentation)
        case Level(st') => LexFrom(rest, st'.(lineStart := false))
    else if cs[0] == '\n' then LexFrom(cs[1..], NewlineStep(st))
    else match ReadItem(cs)
      case Bad(e) => Failed(e)
      case Skip(n) => LexFrom(cs[n..], st)
      case Tok(k, n) => LexFrom(cs[n..], Emit(st, k))
  }

  /** Line endings are normalized to `\n` before lexing. */
  function ToLF(s: string): string {
    if s == "" then ""
    else if s[0] == '\r' then ['\n'] + ToLF(if |s| > 1 && s[1] == '\n' then s[2..] else s[1..])
    else [s[0]] + ToLF(s[1..])
  }

  function Tokenize(source: string): LexResult {
    LexFrom(ToLF(source), START)
  }

  // --- Well-bracketed layout ---

  function Weight(k: Kind): int {
    if k.Indent? then 1 else if k.Dedent? then -1 else 0
  }

  function Depth(ts: seq<Kind>): int {
    if ts == [] then 0 else Depth(Init(ts)) + Weight(Last(ts))
  }

  /** No prefix closes more blocks than it opened. */
  predicate NeverBelow(ts: seq<Kind>) {
    ts == [] || (NeverBelow(Init(ts)) && Depth(ts) >= 0)
  }

  predicate NoDoubleNewline(ts: seq<Kind>) {
    forall i :: 1 <= i < |ts| ==> !(ts[i - 1].Newline? && ts[i].Newline?)
  }

  predicate Increasing(stack: seq<nat>) {
    stack != [] && stack[0] == 0 && forall i :: 1 <= i < |stack| ==> stack[i - 1] < stack[i]
  }

  predicate NoEof(ts: seq<Kind>) {
    forall i :: 0 <= i < |ts| ==> !ts[i].Eof?
  }

  predicate Sound(st: LexState) {
    && Increasing(st.stack) && NoEof(st.tokens)
    && NeverBelow(st.tokens) && Depth(st.tokens) == |st.stack| - 1
    && NoDoubleNewline(st.tokens)
  }

  lemma DepthPush(ts: seq<Kind>, k: Kind)
    ensures Depth(ts + [k]) == Depth(ts) + Weight(k)
    ensures NeverBelow(ts + [k]) <==> NeverBelow(ts) && Depth(ts) + Weight(k) >= 0
  {
    assert Init(ts + [k]) == ts;
  }

  lemma {:induction false} DepthDedents(ts: seq<Kind>, n: nat)
    requires NeverBelow(ts) && Depth(ts) >= n && NoDoubleNewline(ts) && NoEof(ts)
    ensures var r := ts + Dedents(n);
            NeverBelow(r) && Depth(r) == Depth(ts) - n && NoDoubleNewline(r) && NoEof(r)
  {
    if n == 0 {
      assert ts + Dedents(0) == ts;
    } else {
      DepthDedents(ts, n - 1);
      DepthPush(ts + Dedents(n - 1), Dedent);
      assert ts + Dedents(n) == ts + Dedents(n - 1) + [Dedent];
    }
  }

  lemma {:induction false} DropNewlineKeepsDepth(ts: seq<Kind>)
    ensures Depth(DropNewline(ts)) == Depth(ts)
    ensures NeverBelow(ts) ==> NeverBelow(DropNewline(ts))
    ensures NoDoubleNewline(ts) ==> NoDoubleNewline(DropNewline(ts))
    ensures NoEof(ts) ==> NoEof(DropNewline(ts))
  {
    if ts != [] && IsLayout(Last(ts)) {
      DropNewlineKeepsDepth(Init(ts));
      DepthPush(DropNewline(Init(ts)), Last(ts));
    }
  }

  lemma EmitSound(st: LexState, k: Kind)
    requires Sound(st) && !IsLayout(k) && !k.Newline? && !k.Eof?
    ensures Sound(Emit(st, k))
  {
    DropNewlineKeepsDepth(st.tokens);
    DepthPush(DropNewline(st.tokens), k);
    DepthPush(st.tokens, k);
  }

  lemma NewlineSound(st: LexState)
    requires Sound(st)
    ensures Sound(NewlineStep(st))
  {
    DepthPush(st.tokens, Newline);
  }

  lemma {:induction false} PopToIncreasing(stack: seq<nat>, w: nat)
    requires Increasing(stack)
    ensures Increasing(PopTo(stack, w)) && (Top(PopTo(stack, w)) <= w)
  {
    if |stack| > 1 && Top(stack) > w {
      PopToIncreasing(Init(stack), w);
    }
  }

  lemma IndentSound(st: LexState, w: nat)
    requires Sound(st) && IndentStep(st, w).Level?
    ensures Sound(IndentStep(st, w).st)
  {
    if w > Top(st.stack) {
      DepthPush(st.tokens, Indent);
    } else if w < Top(st.stack) {
      PopToIncreasing(st.stack, w);
      DepthDedents(st.tokens, |st.stack| - |PopTo(st.stack, w)|);
    }
  }

  /** The token stream of a successful run: blocks close exactly as often as they open, and one end marker. */
  predicate WellBracketed(ts: seq<Kind>) {
    ts != [] && Last(ts) == Eof && NoEof(Init(ts)) && NeverBelow(ts) && Depth(ts) == 0 && NoDoubleNewline(ts)
  }

  lemma FinishWellBracketed(st: LexState)
    requires Sound(st)
    ensures WellBracketed(Finish(st))
  {
    var ts := st.tokens + Dedents(|st.stack| - 1);
    assert Init(Finish(st)) == ts;
    DepthDedents(st.tokens, |st.stack| - 1);
    DepthPush(ts, Eof);
  }

  lemma {:induction false} LexWellBracketed(cs: string, st: LexState)
    requires Sound(st) && LexFrom(cs, st).Done?
    ensures WellBracketed(LexFrom(cs, st).tokens)
    decreases |cs|, st.lineStart
  {
    if cs == "" {
      FinishWellBracketed(st);
    } else if st.lineStart {
      var w, inLine := SpaceLen(cs), st.(lineStart := false);
      if IsCode(cs[w..]) {
        IndentSound(inLine, w);
      }
      LexWellBracketed(cs[w..], EnterLine(cs, st).st.(lineStart := false));
    } else if cs[0] == '\n' {
      NewlineSound(st);
      LexWellBracketed(cs[1..], NewlineStep(st));
    } else {
      match ReadItem(cs)
      case Skip(n) => LexWellBracketed(cs[n..], st);
      case Tok(k, n) =>
        EmitSound(st, k);
        LexWellBracketed(cs[n..], Emit(st, k));
    }
  }

  /** Every successful run yields a well-bracketed layout stream. */
  lemma TokenizeWellBracketed(source: string)
    ensures Tokenize(source).Done? ==> WellBracketed(Tokenize(source).tokens)
  {
    if Tokenize(source).Done? {
      assert Sound(START);
      LexWellBracketed(ToLF(source), START);
    }
  }
}
