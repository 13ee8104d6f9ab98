/**
 * Writing tokens and reading them back (src/lexer.rs, `read_number`, `read_string`,
 * `read_identifier` and the operator arms of `tokenize`): what each literal stands for.
 */
module Literals {
  import opened Chars
  import opened Lexemes
  import Config

  // --- Integers and floats ---

  predicate AllDigits(ds: string) {
    forall i :: 0 <= i < |ds| ==> IsDigit(ds[i])
  }

  /** No number goes on here: a dot needs a digit behind it. */
  predicate EndsNumber(rest: string) {
    rest == "" || !(IsDigit(rest[0]) || (rest[0] == '.' && |rest| > 1 && IsDigit(rest[1])))
  }

  lemma {:induction false} SpanOfDigits(ds: string, rest: string, dotted: bool)
    requires AllDigits(ds) && EndsNumber(rest)
    ensures NumSpan(ds + rest, dotted) == Span(|ds|, dotted)
  {
    if ds == "" {
      assert ds + rest == rest;
    } else {
      assert (ds + rest)[1..] == ds[1..] + rest;
      SpanOfDigits(ds[1..], rest, dotted);
    }
  }

  lemma {:induction false} ValueOfDecimal(n: nat)
    ensures DecValue(Config.Decimal(n)) == n
  {
    var ds := Config.Decimal(n);
    if n >= 10 {
      ValueOfDecimal(n / 10);
      assert ds[..|ds| - 1] == Config.Decimal(n / 10);
    } else {
      assert ds[..|ds| - 1] == "";
    }
  }

  function Zeros(k: nat): (ds: string)
    ensures |ds| == k && forall i :: 0 <= i < k ==> ds[i] == '0'
  {
    seq(k, _ => '0')
  }

  lemma {:induction false} LeadingZeros(k: nat, ds: string)
    requires AllDigits(ds)
    ensures DecValue(Zeros(k) + ds) == DecValue(ds)
    decreases k + |ds|
  {
    var all := Zeros(k) + ds;
    if ds != "" {
      assert all[..|all| - 1] == Zeros(k) + ds[..|ds| - 1];
      LeadingZeros(k, ds[..|ds| - 1]);
    } else if k > 0 {
      assert all[..|all| - 1] == Zeros(k - 1) + ds;
      LeadingZeros(k - 1, ds);
    } else {
      assert all == ds;
    }
  }

  /** A decimal, with any number of zeros in front, reads as its value, or not at all beyond 64 bits. */
  lemma IntegerReadsBack(k: nat, n: nat, rest: string)
    requires EndsNumber(rest)
    ensures var ds := Zeros(k) + Config.Decimal(n);
            ReadItem(ds + rest) == if n <= MAX_I64 then Tok(Integer(n), |ds|) else Bad(InvalidNumber)
  {
    LeadingZeros(k, Config.Decimal(n));
    ValueOfDecimal(n);
    DigitsRead(Zeros(k) + Config.Decimal(n), rest);
  }

  lemma DigitsRead(ds: string, rest: string)
    requires ds != "" && AllDigits(ds) && EndsNumber(rest)
    ensures ReadItem(ds + rest) ==
            if DecValue(ds) <= MAX_I64 then Tok(Integer(DecValue(ds)), |ds|) else Bad(InvalidNumber)
  {
    var cs := ds + rest;
    SpanOfDigits(ds, rest, false);
    assert cs[0] == ds[0] && IsDigit(ds[0]) && cs[..|ds|] == ds;
    assert ReadItem(cs) == ReadNumber(cs);
  }

  lemma {:induction false} SpanAtDot(ds: string, rest: string, dotted: bool)
    requires AllDigits(ds) && |rest| > 1 && rest[0] == '.' && IsDigit(rest[1])
    ensures NumSpan(ds + rest, dotted) ==
            if dotted then TwoDots
            else if NumSpan(rest[1..], true).TwoDots? then TwoDots
            else Span(|ds| + 1 + NumSpan(rest[1..], true).len, NumSpan(rest[1..], true).dotted)
  {
    if ds == "" {
      assert ds + rest == rest;
    } else {
      assert (ds + rest)[1..] == ds[1..] + rest;
      SpanAtDot(ds[1..], rest, dotted);
    }
  }

  /** Digits on both sides of one dot are a float; a second dot with a digit behind it is an error. */
  lemma FloatReadsBack(whole: string, fraction: string, rest: string)
    requires whole != "" && fraction != "" && AllDigits(whole) && AllDigits(fraction)
    requires EndsNumber(rest) || (|rest| > 1 && rest[0] == '.' && IsDigit(rest[1]))
    ensures var text := whole + "." + fraction;
            ReadItem(text + rest) == if EndsNumber(rest) then Tok(Float(text), |text|) else Bad(InvalidNumber)
  {
    var text := whole + "." + fraction;
    var behind := "." + (fraction + rest);
    assert text + rest == whole + behind;
    assert behind[1..] == fraction + rest && behind[1] == fraction[0];
    SpanAtDot(whole, behind, false);
    if EndsNumber(rest) {
      SpanOfDigits(fraction, rest, true);
    } else {
      SpanAtDot(fraction, rest, true);
    }
    assert (text + rest)[0] == whole[0] && (text + rest)[..|text|] == text;
  }

  // --- Texts ---

  /** How a character is written inside a string literal; `#` may be written either way. */
  function Escape(c: char, hash: bool): string {
    if c == '\n' then "\\n"
    else if c == '\t' then "\\t"
    else if c == '\r' then "\\r"
    else if c == '\\' then "\\\\"
    else if c == '"' then "\\\""
    else if c == '#' && hash then "\\#"
    else [c]
  }

  function Escaped(s: string, hash: bool): string {
    if s == "" then "" else Escape(s[0], hash) + Escaped(s[1..], hash)
  }

  lemma PlainReads(c: char, tail: string)
    requires ReadString(tail).Closed? && c !in {'\n', '"', '\\'}
    ensures ReadString([c] + tail) == Closed([c] + ReadString(tail).value, 1 + ReadString(tail).len)
  {
    assert ([c] + tail)[1..] == tail;
  }

  lemma PairReads(d: char, tail: string)
    requires ReadString(tail).Closed?
    ensures ReadString(['\\', d] + tail) == Closed(Unescape(d) + ReadString(tail).value, 2 + ReadString(tail).len)
  {
    assert (['\\', d] + tail)[2..] == tail;
  }

  lemma EscapeForm(c: char, hash: bool)
    ensures var e := Escape(c, hash);
            || (e == [c] && c !in {'\n', '"', '\\'})
            || (|e| == 2 && e == ['\\', e[1]] && Unescape(e[1]) == [c])
  {
  }

  lemma EscapeReads(c: char, hash: bool, tail: string)
    requires ReadString(tail).Closed?
    ensures ReadString(Escape(c, hash) + tail)
         == Closed([c] + ReadString(tail).value, |Escape(c, hash)| + ReadString(tail).len)
  {
    var e := Escape(c, hash);
    EscapeForm(c, hash);
    if e == [c] {
      PlainReads(c, tail);
    } else {
      PairReads(e[1], tail);
    }
  }

  lemma {:induction false} EscapedReads(s: string, hash: bool, rest: string)
    ensures ReadString(Escaped(s, hash) + "\"" + rest) == Closed(s, |Escaped(s, hash)| + 1)
    decreases |s|
  {
    var end := "\"" + rest;
    if s == "" {
      assert Escaped(s, hash) + "\"" + rest == end;
    } else {
      var e, tail := Escape(s[0], hash), Escaped(s[1..], hash) + "\"" + rest;
      assert Escaped(s, hash) + "\"" + rest == e + tail;
      EscapedReads(s[1..], hash, rest);
      EscapeReads(s[0], hash, tail);
      assert [s[0]] + s[1..] == s;
    }
  }

  /** Every text, written with escapes between quotes, reads as itself. */
  lemma TextReadsBack(s: string, hash: bool, rest: string)
    ensures var written := "\"" + Escaped(s, hash) + "\"";
            ReadItem(written + rest) == Tok(Text(s), |written|)
  {
    var written := "\"" + Escaped(s, hash) + "\"";
    assert (written + rest)[1..] == Escaped(s, hash) + "\"" + rest;
    EscapedReads(s, hash, rest);
  }

  /** A backslash in front of any other character stands for itself. */
  lemma OtherEscapeKept(c: char, rest: string)
    requires c !in {'n', 't', 'r', '\\', '"', '#'}
    ensures ReadString(['\\', c] + rest).Closed? <==> ReadString(rest).Closed?
    ensures ReadString(rest).Closed? ==>
              ReadString(['\\', c] + rest) == Closed(['\\', c] + ReadString(rest).value, 2 + ReadString(rest).len)
  {
    assert (['\\', c] + rest)[2..] == rest;
  }

  // --- Names and symbols ---

  predicate IsName(w: string) {
    w != "" && IsLetter(w[0]) && forall i :: 0 <= i < |w| ==> IsIdChar(w[i])
  }

  lemma {:induction false} IdLenOf(w: string, rest: string)
    requires (forall i :: 0 <= i < |w| ==> IsIdChar(w[i])) && (rest == "" || !IsIdChar(rest[0]))
    ensures IdLen(w + rest) == |w|
  {
    if w == "" {
      assert w + rest == rest;
    } else {
      assert (w + rest)[1..] == w[1..] + rest;
      IdLenOf(w[1..], rest);
    }
  }

  lemma NameReadsBack(w: string, rest: string)
    requires IsName(w) && (rest == "" || !IsIdChar(rest[0]))
    ensures ReadItem(w + rest) == Tok(Name(w), |w|)
  {
    IdLenOf(w, rest);
    assert (w + rest)[0] == w[0] && (w + rest)[..|w|] == w;
  }

  /** The operators and delimiters. */
  predicate IsSymbol(t: string) {
    || (|t| == 1 && t[0] in {'+', '-', '*', '/', '%', '=', '>', '<', '(', ')', '[', ']', '{', '}', ',', '.', ':'})
    || (|t| == 2 && t[0] in {'-', '=', '>'} && t[1] == '>')
    || (|t| == 2 && t[0] in {'=', '!', '>', '<'} && t[1] == '=')
    || (|t| == 3 && t[0] == '*' && t[1] == '>' && t[2] == '>')
  }

  /** The lexer takes the longest symbol that heads the text, and finds none exactly when none does. */
  lemma LongestSymbol(cs: string, n: nat)
    requires cs != "" && n <= |cs|
    ensures SymLen(cs) > 0 ==> IsSymbol(cs[..SymLen(cs)])
    ensures IsSymbol(cs[..n]) ==> n <= SymLen(cs)
  {
    var t := cs[..n];
    assert forall i :: 0 <= i < n ==> t[i] == cs[i];
  }

  /** A character that heads no item is an error. */
  lemma OtherCharacter(cs: string)
    requires cs != "" && !IsDigit(cs[0]) && !IsLetter(cs[0]) && cs[0] !in {' ', '\t', '\r', '\n', '#', '"'}
    requires forall n :: 0 <= n <= |cs| ==> !IsSymbol(cs[..n])
    ensures ReadItem(cs) == Bad(UnexpectedCharacter(cs[0]))
  {
    LongestSymbol(cs, SymLen(cs));
  }

  /** A symbol reads as itself in front of anything that does not make it longer. */
  lemma SymbolReadsBack(t: string, rest: string)
    requires IsSymbol(t) && forall n :: |t| < n <= |t + rest| ==> !IsSymbol((t + rest)[..n])
    ensures ReadItem(t + rest) == Tok(Sym(t), |t|)
  {
    var cs := t + rest;
    assert cs[..|t|] == t && cs[0] == t[0];
    LongestSymbol(cs, |t|);
    assert SymLen(cs) == |t|;
  }
}
