/**
 * Where a comment starts: the lexer (src/lexer.rs), the formatter's atom scanner
 * (src/formatter.rs) and the lint's own scan (src/lint.rs) each decide it for themselves.
 * They agree.
 */
module CommentScan {
  import opened Chars
  import opened Atoms
  import opened Lexemes
  import opened Options
  import Respacing

  function Shift(n: nat, at: Option<nat>): Option<nat> {
    if at.Some? then Some(n + at.value) else None
  }

  // ---- the three scanners ----

  /** The lint's scan: a flag flips at every quote; in a string a backslash hides one character. */
  function LintComment(cs: string, inString: bool): (r: Option<nat>)
    ensures r.Some? ==> r.value < |cs|
    decreases |cs|
  {
    if cs == "" then None
    else if cs[0] == '\\' && inString then
      if |cs| == 1 then None else Shift(2, LintComment(cs[2..], true))
    else if cs[0] == '"' then Shift(1, LintComment(cs[1..], !inString))
    else if cs[0] == '#' && !inString then Some(0)
    else Shift(1, LintComment(cs[1..], inString))
  }

  method CommentStartIndex(line: string) returns (at: Option<nat>)
    ensures at == LintComment(line, false)
  {
    var inString := false;
    var i: nat := 0;
    assert line[0..] == line;
    while i < |line|
      invariant i <= |line|
      invariant LintComment(line, false) == Shift(i, LintComment(line[i..], inString))
    {
      ghost var rest := line[i..];
      assert i + 1 < |line| ==> line[i + 2..] == rest[2..];
      assert line[i + 1..] == rest[1..];
      if line[i] == '\\' && inString {
        if i + 1 == |line| {
          return None;
        }
        i := i + 1;
      } else if line[i] == '"' {
        inString := !inString;
      } else if line[i] == '#' && !inString {
        return Some(i);
      }
      i := i + 1;
    }
    at := None;
  }

  /** Where the formatter's scan cuts a comment atom. */
  function AtomComment(cs: string, u: Alphabet): (r: Option<nat>)
    ensures r.Some? ==> r.value < |cs|
    decreases |cs|
  {
    if cs == "" then None
    else if cs[0] == '#' then Some(0)
    else if IsBlank(cs[0]) then Shift(1, AtomComment(cs[1..], u))
    else var n := |FirstAtom(cs, u).text|; Shift(n, AtomComment(cs[n..], u))
  }

  /** Where the lexer skips a comment; nowhere when it stops at an error first. */
  function LexComment(cs: string): (r: Option<nat>)
    ensures r.Some? ==> r.value < |cs|
    decreases |cs|
  {
    if cs == "" || cs[0] == '\n' then None
    else if cs[0] == '#' then Some(0)
    else
      var it := ReadItem(cs);
      if it.Bad? then None else Shift(it.len, LexComment(cs[it.len..]))
  }

  // ---- the formatter's comment atom ----

  /** The comment atom, if there is one, is the last and holds the rest of the line from there on. */
  lemma {:induction false} AtomCommentIsAtom(cs: string, u: Alphabet)
    ensures CommentLast(Scan(cs, u), cs, AtomComment(cs, u))
    decreases |cs|
  {
    if cs != "" {
      if cs[0] == '#' {
        ScanSplits(cs, u);
        assert cs[|cs|..] == "" && Scan("", u) == [] && cs[0..] == cs;
      } else if IsBlank(cs[0]) {
        ScanSkips(cs, u);
        AtomCommentIsAtom(cs[1..], u);
        CommentLastShift(Scan(cs[1..], u), cs, 1, AtomComment(cs[1..], u));
      } else {
        var a := FirstAtom(cs, u);
        var n := |a.text|;
        ScanSplits(cs, u);
        AtomCommentIsAtom(cs[n..], u);
        CommentLastShift(Scan(cs[n..], u), cs, n, AtomComment(cs[n..], u));
        CommentLastCons(a, Scan(cs[n..], u), cs, AtomComment(cs, u));
      }
    }
  }

  predicate CommentLast(atoms: seq<Atom>, cs: string, at: Option<nat>) {
    && (forall k :: 0 <= k < |atoms| && atoms[k].Comment? ==> k == |atoms| - 1)
    && (at.Some? <==> atoms != [] && atoms[|atoms| - 1].Comment?)
    && (at.Some? ==> at.value <= |cs| && atoms[|atoms| - 1].text == cs[at.value..])
  }

  lemma CommentLastShift(atoms: seq<Atom>, cs: string, n: nat, at: Option<nat>)
    requires n <= |cs| && CommentLast(atoms, cs[n..], at)
    ensures CommentLast(atoms, cs, Shift(n, at))
  {
    assert at.Some? ==> cs[n..][at.value..] == cs[n + at.value..];
  }

  lemma CommentLastCons(a: Atom, atoms: seq<Atom>, cs: string, at: Option<nat>)
    requires !a.Comment? && CommentLast(atoms, cs, at)
    ensures CommentLast([a] + atoms, cs, at)
  {
  }

  // ---- agreement ----

  predicate Bland(c: char) { c != '"' && c != '#' }

  /** Outside strings, characters other than quotes and hashes are passed over one by one. */
  lemma {:induction false} LintPasses(cs: string, n: nat)
    requires n <= |cs| && forall i :: 0 <= i < n ==> Bland(cs[i])
    ensures LintComment(cs, false) == Shift(n, LintComment(cs[n..], false))
    decreases n
  {
    if n > 0 {
      LintPasses(cs[1..], n - 1);
      assert cs[1..][n - 1..] == cs[n..];
    } else {
      assert cs[0..] == cs;
    }
  }

  /** Inside a string the lint goes on to the same closing quote as the formatter. */
  lemma {:induction false} LintPassesString(cs: string)
    ensures LintComment(cs, true) ==
            if StrCloses(cs) then Shift(StrLen(cs), LintComment(cs[StrLen(cs)..], false)) else None
    decreases |cs|
  {
    if cs != "" && cs[0] != '"' && (cs[0] != '\\' || |cs| > 1) {
      var n := if cs[0] == '\\' then 2 else 1;
      LintPassesString(cs[n..]);
      assert cs[n..][StrLen(cs[n..])..] == cs[StrLen(cs)..];
    }
  }

  lemma {:induction false} OpenStringEnds(cs: string)
    requires !StrCloses(cs)
    ensures StrLen(cs) == |cs|
    decreases |cs|
  {
    if cs != "" && (cs[0] != '\\' || |cs| > 1) {
      OpenStringEnds(cs[if cs[0] == '\\' then 2 else 1..]);
    }
  }

  /** The lint and the formatter agree on every line, even one that does not lex. */
  lemma {:induction false} LintAgreesWithFormatter(cs: string, u: Alphabet)
    ensures LintComment(cs, false) == AtomComment(cs, u)
    decreases |cs|
  {
    if cs == "" || cs[0] == '#' {
    } else if IsBlank(cs[0]) {
      LintAgreesWithFormatter(cs[1..], u);
    } else {
      var a := FirstAtom(cs, u);
      LintAgreesWithFormatter(cs[|a.text|..], u);
      if cs[0] == '"' {
        StringAtom(cs, u);
      } else {
        LintPasses(cs, |a.text|);
      }
    }
  }

  lemma StringAtom(cs: string, u: Alphabet)
    requires cs != "" && cs[0] == '"'
    ensures var n := |FirstAtom(cs, u).text|; LintComment(cs, false) == Shift(n, LintComment(cs[n..], false))
  {
    var n := |FirstAtom(cs, u).text|;
    LintPassesString(cs[1..]);
    assert cs[1..][n - 1..] == cs[n..];
    if !StrCloses(cs[1..]) {
      OpenStringEnds(cs[1..]);
    }
  }

  lemma {:induction false} NumberBland(cs: string, dotted: bool)
    ensures var s := NumSpan(cs, dotted); s.Span? ==> forall i :: 0 <= i < s.len ==> Bland(cs[i])
    decreases |cs|
  {
    if cs != "" {
      NumberBland(cs[1..], dotted || cs[0] == '.');
      var s := NumSpan(cs, dotted);
      assert s.Span? ==> forall i :: 1 <= i < s.len ==> cs[i] == cs[1..][i - 1];
    }
  }

  /** An item that is neither a string nor a comment holds no quote and no hash. */
  lemma ItemBland(cs: string)
    requires cs != "" && cs[0] != '\n' && Bland(cs[0]) && !ReadItem(cs).Bad?
    ensures forall i :: 0 <= i < ReadItem(cs).len ==> Bland(cs[i])
  {
    if IsDigit(cs[0]) {
      NumberBland(cs, false);
    }
  }

  /** On every line that lexes, the lexer's comment starts where the lint's does. */
  lemma {:induction false} LexerAgreesWithLint(cs: string)
    requires OneLine(cs) && LexLine(cs).Kinds?
    ensures LexComment(cs) == LintComment(cs, false)
    decreases |cs|
  {
    if cs != "" && cs[0] != '#' {
      var n := ReadItem(cs).len;
      LexerAgreesWithLint(cs[n..]);
      if cs[0] == '"' {
        Respacing.ReadStringAgrees(cs[1..], "");
        StringAtom(cs, c => false);
      } else {
        ItemBland(cs);
        LintPasses(cs, n);
      }
    }
  }

  /** All three scanners name the same position. */
  lemma ScannersAgree(line: string, u: Alphabet)
    requires OneLine(line) && LexLine(line).Kinds?
    ensures LexComment(line) == AtomComment(line, u) == LintComment(line, false)
  {
    LexerAgreesWithLint(line);
    LintAgreesWithFormatter(line, u);
  }
}
