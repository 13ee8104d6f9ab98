/**
 * Intra-line spacing: a code line is scanned into atoms and the atoms are printed
 * back with house-style separators (src/formatter.rs, `scan_atoms` and `join_atoms`).
 */
module Atoms {
  import opened Chars

  datatype Atom = Word(text: string) | Str(text: string) | Comment(text: string) | Op(text: string)

  // --- Scanning ---

  /** How many characters a string literal takes, counted after its opening quote. */
  function StrLen(cs: string): (n: nat)
    ensures n <= |cs|
  {
    if cs == "" then 0
    else if cs[0] == '\\' then if |cs| == 1 then 1 else 2 + StrLen(cs[2..])
    else if cs[0] == '"' then 1
    else 1 + StrLen(cs[1..])
  }

  /** The literal whose text after the opening quote starts `cs` has a closing quote. */
  predicate StrCloses(cs: string) {
    if cs == "" then false
    else if cs[0] == '\\' then |cs| > 1 && StrCloses(cs[2..])
    else cs[0] == '"' || StrCloses(cs[1..])
  }

  function WordLen(cs: string, u: Alphabet): (n: nat)
    ensures n <= |cs|
    ensures forall i :: 0 <= i < n ==> IsWordChar(cs[i], u)
    ensures n < |cs| ==> !IsWordChar(cs[n], u)
  {
    if cs == "" || !IsWordChar(cs[0], u) then 0 else 1 + WordLen(cs[1..], u)
  }

  /** The two-character operators, which scanning prefers to their first character. */
  predicate IsDouble(a: char, b: char) {
    || (b == '>' && (a == '>' || a == '-' || a == '='))
    || (b == '=' && (a == '=' || a == '!' || a == '>' || a == '<'))
  }

  function OpLen(cs: string): (n: nat)
    requires cs != ""
    ensures 1 <= n <= |cs|
  {
    if |cs| >= 3 && cs[0] == '*' && cs[1] == '>' && cs[2] == '>' then 3
    else if |cs| >= 2 && IsDouble(cs[0], cs[1]) then 2
    else 1
  }

  function FirstAtom(cs: string, u: Alphabet): (a: Atom)
    requires cs != "" && !IsBlank(cs[0])
    ensures 1 <= |a.text| <= |cs| && a.text == cs[..|a.text|]
  {
    if cs[0] == '"' then Str(cs[..1 + StrLen(cs[1..])])
    else if cs[0] == '#' then Comment(cs)
    else if IsWordChar(cs[0], u) then Word(cs[..WordLen(cs, u)])
    else Op(cs[..OpLen(cs)])
  }

  function Scan(cs: string, u: Alphabet): seq<Atom>
    decreases |cs|
  {
    if cs == "" then []
    else if IsBlank(cs[0]) then Scan(cs[1..], u)
    else var a := FirstAtom(cs, u); [a] + Scan(cs[|a.text|..], u)
  }

  // --- Printing ---

  predicate IsKeywordOperator(w: string) {
    w == "and" || w == "or" || w == "not" || w == "in"
  }

  predicate IsOperandEnd(a: Atom) {
    match a
    case Word(w) => !IsKeywordOperator(w)
    case Str(_) => true
    case Op(_) => IsOp(a, ')') || IsOp(a, ']') || IsOp(a, '}')
    case Comment(_) => false
  }

  predicate IsOp(a: Atom, c: char) {
    a.Op? && |a.text| == 1 && a.text[0] == c
  }

  /** `afterOperand` decides between a binary `+`/`-` and a sign. */
  predicate IsBinarySpaced(a: Atom, afterOperand: bool) {
    || IsOp(a, '=') || IsOp(a, '<') || IsOp(a, '>') || IsOp(a, '*') || IsOp(a, '/') || IsOp(a, '%')
    || (a.Op? && |a.text| == 2 && IsDouble(a.text[0], a.text[1]))
    || (a.Op? && |a.text| == 3 && a.text[0] == '*' && a.text[1] == '>' && a.text[2] == '>')
    || (IsSign(a) && afterOperand)
  }

  predicate IsSign(a: Atom) {
    IsOp(a, '+') || IsOp(a, '-')
  }

  /** Whether one space goes between `atoms[k-1]` and `atoms[k]`. */
  predicate Separator(atoms: seq<Atom>, k: nat)
    requires 1 <= k < |atoms|
  {
    Spaced(k >= 2 && IsOperandEnd(atoms[k - 2]), atoms[k - 1], atoms[k])
  }

  predicate Spaced(operandBefore: bool, p: Atom, c: Atom) {
    if IsOp(c, '.') || IsOp(p, '.') || IsOp(c, '?') || IsOp(p, '?') then false
    else if IsOp(p, '(') || IsOp(p, '[') || IsOp(c, ')') || IsOp(c, ']') then false
    else if IsOp(c, ',') || IsOp(c, ':') then false
    else if IsOp(p, ',') || IsOp(p, ':') then true
    else if IsOp(p, '{') && IsOp(c, '}') then false
    else if IsOp(p, '{') || IsOp(c, '}') then true
    else if IsOp(c, '(') || IsOp(c, '[') then !IsOperandEnd(p)
    else if IsBinarySpaced(c, IsOperandEnd(p)) then true
    else if IsBinarySpaced(p, operandBefore) then true
    else !(IsSign(p) && !operandBefore)
  }

  /** What is printed in front of `atoms[k]`. */
  function Lead(atoms: seq<Atom>, k: nat): string
    requires k < |atoms|
  {
    if k == 0 then ""
    else if atoms[k].Comment? then "  "
    else if Separator(atoms, k) then " "
    else ""
  }

  /** The printed text of `atoms[k..]`, starting with what precedes `atoms[k]`. */
  function JoinFrom(atoms: seq<Atom>, k: nat): string
    requires k <= |atoms|
    decreases |atoms| - k
  {
    if k == |atoms| then "" else Lead(atoms, k) + atoms[k].text + JoinFrom(atoms, k + 1)
  }

  function Join(atoms: seq<Atom>): string {
    JoinFrom(atoms, 0)
  }

  function Respace(cs: string, u: Alphabet): string {
    Join(Scan(cs, u))
  }

  // --- The loops of the source, against the functions above ---

  method ScanAtoms(line: string, u: Alphabet) returns (atoms: seq<Atom>)
    ensures atoms == Scan(line, u)
  {
    var i := 0;
    atoms := [];
    assert line[0..] == line;
    while i < |line|
      invariant 0 <= i <= |line|
      invariant Scan(line, u) == atoms + Scan(line[i..], u)
    {
      ghost var rest := line[i..];
      if IsBlank(line[i]) {
        ScanSkips(rest, u);
        assert line[i + 1..] == rest[1..];
        i := i + 1;
      } else {
        var a, j := ScanAtom(line, i, u);
        ScanSplits(rest, u);
        assert line[j..] == rest[|a.text|..];
        assert atoms + ([a] + Scan(line[j..], u)) == atoms + [a] + Scan(line[j..], u);
        atoms, i := atoms + [a], j;
      }
    }
  }

  lemma ScanSkips(cs: string, u: Alphabet)
    requires cs != "" && IsBlank(cs[0])
    ensures Scan(cs, u) == Scan(cs[1..], u)
  {
  }

  lemma ScanSplits(cs: string, u: Alphabet)
    requires cs != "" && !IsBlank(cs[0])
    ensures Scan(cs, u) == [FirstAtom(cs, u)] + Scan(cs[|FirstAtom(cs, u).text|..], u)
  {
  }

  /** One round of the scanning loop, at a character that is not blank. */
  method ScanAtom(line: string, i: nat, u: Alphabet) returns (a: Atom, j: nat)
    requires i < |line| && !IsBlank(line[i])
    ensures a == FirstAtom(line[i..], u) && j == i + |a.text|
  {
    ghost var rest := line[i..];
    var c := line[i];
    if c == '"' {
      j := ScanString(line, i + 1);
      assert line[i + 1..] == rest[1..];
      a := Str(line[i..j]);
    } else if c == '#' {
      j := |line|;
      a := Comment(line[i..]);
    } else if IsWordChar(c, u) {
      j := ScanWord(line, i, u);
      a := Word(line[i..j]);
    } else {
      j := ScanOp(line, i);
      a := Op(line[i..j]);
    }
    assert line[i..j] == rest[..j - i];
  }

  /** The inner loop over a string literal; `i` starts after the opening quote. */
  method ScanString(line: string, i: nat) returns (j: nat)
    requires i <= |line|
    ensures j == i + StrLen(line[i..])
  {
    j := i;
    while j < |line|
      invariant i <= j <= |line| + 1
      invariant j <= |line| ==> StrLen(line[i..]) == j - i + StrLen(line[j..])
      invariant j > |line| ==> StrLen(line[i..]) == |line| - i
    {
      ghost var rest := line[j..];
      if line[j] == '\\' {
        assert j + 2 <= |line| ==> line[j + 2..] == rest[2..];
        j := j + 2;
      } else if line[j] == '"' {
        return j + 1;
      } else {
        assert line[j + 1..] == rest[1..];
        j := j + 1;
      }
    }
    j := if j > |line| then |line| else j;
  }

  method ScanWord(line: string, i: nat, u: Alphabet) returns (j: nat)
    requires i <= |line|
    ensures j == i + WordLen(line[i..], u)
  {
    j := i;
    while j < |line| && IsWordChar(line[j], u)
      invariant i <= j <= |line|
      invariant WordLen(line[i..], u) == j - i + WordLen(line[j..], u)
    {
      assert line[j..][1..] == line[j + 1..];
      j := j + 1;
    }
  }

  method ScanOp(line: string, i: nat) returns (j: nat)
    requires i < |line|
    ensures j == i + OpLen(line[i..])
  {
    assert forall k :: 0 <= k < |line[i..]| ==> line[i..][k] == line[i + k];
    if i + 3 <= |line| && line[i] == '*' && line[i + 1] == '>' && line[i + 2] == '>' {
      j := i + 3;
    } else if i + 2 <= |line| && IsDouble(line[i], line[i + 1]) {
      j := i + 2;
    } else {
      j := i + 1;
    }
  }

  /** Scanned atoms are never empty, so only the first atom finds an empty buffer. */
  method JoinAtoms(atoms: seq<Atom>) returns (out: string)
    requires forall a :: a in atoms ==> a.text != ""
    ensures out == Join(atoms)
  {
    out := "";
    for k := 0 to |atoms|
      invariant out + JoinFrom(atoms, k) == Join(atoms)
      invariant out == "" <==> k == 0
    {
      var lead := "";
      if atoms[k].Comment? {
        if out != "" {
          lead := "  ";
        }
      } else if k > 0 && Separator(atoms, k) {
        lead := " ";
      }
      assert atoms[k] in atoms;
      JoinStep(atoms, k, out);
      out := out + (lead + atoms[k].text);
    }
  }

  lemma JoinStep(atoms: seq<Atom>, k: nat, out: string)
    requires k < |atoms|
    ensures out + JoinFrom(atoms, k) == out + (Lead(atoms, k) + atoms[k].text) + JoinFrom(atoms, k + 1)
  {
    var head, rest := Lead(atoms, k) + atoms[k].text, JoinFrom(atoms, k + 1);
    assert JoinFrom(atoms, k) == head + rest;
    assert out + (head + rest) == out + head + rest;
  }
}
