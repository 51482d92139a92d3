/** The regular expressions of the format rules, as patterns over strings.
    A pattern is matched from the start of the string (every pattern in the
    library begins with `^`); `End` stands for `$`. The meaning of a pattern
    at position `i` is the set of positions where a match starting at `i`
    can end, which is what a backtracking engine explores. */
module Patterns {
  import opened Wrappers

  /** `\d`, `[a-fA-F0-9]` and `\s` of JavaScript regular expressions. */
  datatype CharClass = Digit | Hex | Space

  predicate IsDigit(c: char) {
    '0' <= c <= '9'
  }

  predicate IsHexDigit(c: char) {
    '0' <= c <= '9' || 'a' <= c <= 'f' || 'A' <= c <= 'F'
  }

  /** The characters JavaScript's `\s` matches: WhiteSpace and
      LineTerminator of ECMAScript (Unicode category Zs included). */
  predicate IsSpace(c: char) {
    c == '\t' || c == '\n' || c == '\U{000B}' || c == '\U{000C}' || c == '\r' ||
    c == ' ' || c == '\U{00A0}' || c == '\U{1680}' || '\U{2000}' <= c <= '\U{200A}' ||
    c == '\U{2028}' || c == '\U{2029}' || c == '\U{202F}' || c == '\U{205F}' ||
    c == '\U{3000}' || c == '\U{FEFF}'
  }

  predicate InClass(cls: CharClass, c: char) {
    match cls
    case Digit => IsDigit(c)
    case Hex => IsHexDigit(c)
    case Space => IsSpace(c)
  }

  predicate AllIn(cls: CharClass, t: string) {
    forall k :: 0 <= k < |t| ==> InClass(cls, t[k])
  }

  /** ASCII letters to lower case: the case folding of the `i` flag for the
      literals the library writes (`x402`). */
  function Fold(c: char): char {
    if 'A' <= c <= 'Z' then (c as int + 32) as char else c
  }

  predicate SameText(t: string, lit: string, ignoreCase: bool)
    requires |t| == |lit|
  {
    if ignoreCase then forall k :: 0 <= k < |t| ==> Fold(t[k]) == Fold(lit[k])
    else t == lit
  }

  datatype Re =
    | Lit(text: string, ignoreCase: bool)           // a literal string
    | Run(cls: CharClass, min: nat, max: Option<nat>) // cls{min,max}; cls+ is Run(cls, 1, None)
    | Cat(first: Re, second: Re)                    // first, then second
    | Maybe(inner: Re)                              // (inner)?
    | End                                           // $

  /** Positions where a match of `re` begun at `i` can end. */
  function Ends(re: Re, s: string, i: nat): (r: set<nat>)
    requires i <= |s|
    ensures forall j :: j in r ==> i <= j <= |s|
    decreases re, 0
  {
    match re
    case Lit(text, ic) =>
      if i + |text| <= |s| && SameText(s[i..i + |text|], text, ic) then {i + |text|} else {}
    case Run(cls, lo, hi) =>
      set j: nat | i + lo <= j <= |s| && (hi.None? || j <= i + hi.value) && AllIn(cls, s[i..j])
    case Cat(a, b) =>
      EndsAfter(b, s, Ends(a, s, i), i)
    case Maybe(inner) =>
      {i} + Ends(inner, s, i)
    case End =>
      if i == |s| then {i} else {}
  }

  /** Positions where `re` can end when it starts at some position of
      `mids` that is at least `k`. */
  function EndsAfter(re: Re, s: string, mids: set<nat>, k: nat): (r: set<nat>)
    requires k <= |s| + 1
    ensures forall j :: j in r ==> k <= j <= |s|
    ensures forall j :: j in r <==> exists m :: k <= m <= |s| && m in mids && j in Ends(re, s, m)
    decreases re, |s| + 1 - k
  {
    if k > |s| then {}
    else
      var here := if k in mids then Ends(re, s, k) else {};
      here + EndsAfter(re, s, mids, k + 1)
  }

  /** `re.test(s)` for a pattern anchored at the start. */
  predicate Matches(re: Re, s: string) {
    Ends(re, s, 0) != {}
  }
}
