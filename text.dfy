/**
 * The JavaScript string operations the application relies on: the whitespace
 * class shared by `\s` and `String.prototype.trim`, ASCII case folding as a
 * non-unicode `/i` regular expression performs it, first-occurrence search,
 * and `replace` with the `$`-patterns of its replacement string.
 */
module Text {
  import opened Wrappers

  /** The LineTerminator code points; `.` in a regular expression matches none of them. */
  predicate IsLineTerminator(c: char) {
    c == '\n' || c == '\r' || c == '\U{2028}' || c == '\U{2029}'
  }

  /** WhiteSpace or LineTerminator: what `\s` matches and what `trim` removes. */
  predicate IsJsSpace(c: char) {
    || IsLineTerminator(c)
    || c == '\t' || c == '\U{B}' || c == '\U{C}' || c == ' ' || c == '\U{A0}'
    || c == '\U{1680}' || ('\U{2000}' <= c <= '\U{200A}')
    || c == '\U{202F}' || c == '\U{205F}' || c == '\U{3000}' || c == '\U{FEFF}'
  }

  predicate NoLineTerminator(s: string) {
    forall k :: 0 <= k < |s| ==> !IsLineTerminator(s[k])
  }

  predicate NoDollar(s: string) {
    forall k :: 0 <= k < |s| ==> s[k] != '$'
  }

  lemma NoDollarAppend(a: string, b: string)
    requires NoDollar(a) && NoDollar(b)
    ensures NoDollar(a + b)
  {
    assert forall k :: |a| <= k < |a + b| ==> (a + b)[k] == b[k - |a|];
  }

  /** Neither end of `s` is whitespace. */
  predicate IsTrimmed(s: string) {
    s == [] || (!IsJsSpace(s[0]) && !IsJsSpace(s[|s| - 1]))
  }

  /** `s` without its leading whitespace. */
  function TrimStart(s: string): (r: string)
    ensures |r| <= |s| && r == s[|s| - |r|..]
    ensures r == [] || !IsJsSpace(r[0])
    ensures forall k :: 0 <= k < |s| - |r| ==> IsJsSpace(s[k])
  {
    if s != [] && IsJsSpace(s[0]) then TrimStart(s[1..]) else s
  }

  /** `s` without its trailing whitespace. */
  function TrimEnd(s: string): (r: string)
    ensures |r| <= |s| && r == s[..|r|]
    ensures r == [] || !IsJsSpace(r[|r| - 1])
    ensures forall k :: |r| <= k < |s| ==> IsJsSpace(s[k])
  {
    if s != [] && IsJsSpace(s[|s| - 1]) then TrimEnd(s[..|s| - 1]) else s
  }

  /** The number of whitespace characters `trim` removes from the front of `s`. */
  function LeadingSpace(s: string): nat {
    |s| - |TrimStart(s)|
  }

  /**
   * `String.prototype.trim`: the result is the slice of `s` that starts at the
   * first non-whitespace character, with nothing but whitespace around it.
   */
  function Trim(s: string): (r: string)
    ensures IsTrimmed(r)
    ensures LeadingSpace(s) + |r| <= |s| && r == s[LeadingSpace(s)..LeadingSpace(s) + |r|]
    ensures forall k :: 0 <= k < LeadingSpace(s) ==> IsJsSpace(s[k])
    ensures forall k :: LeadingSpace(s) + |r| <= k < |s| ==> IsJsSpace(s[k])
  {
    var t := TrimStart(s);
    var r := TrimEnd(t);
    assert r == s[|s| - |t|..|s| - |t| + |r|];
    assert forall k :: |s| - |t| + |r| <= k < |s| ==> s[k] == t[k - (|s| - |t|)];
    r
  }

  /** Trimming what is already trimmed changes nothing. */
  lemma TrimOfTrimmed(s: string)
    requires IsTrimmed(s)
    ensures Trim(s) == s
  {
  }

  function LowerAscii(c: char): (r: char)
    ensures 'A' <= c <= 'Z' ==> r as int == c as int + 32
    ensures !('A' <= c <= 'Z') ==> r == c
  {
    if 'A' <= c <= 'Z' then (c as int + 32) as char else c
  }

  /** `s.toLowerCase()`, for the ASCII letters. */
  function LowerAsciiString(s: string): (r: string)
    ensures |r| == |s|
  {
    seq(|s|, k requires 0 <= k < |s| => LowerAscii(s[k]))
  }

  /**
   * The form in which text is compared. Under `/i` without the `u` flag a
   * non-ASCII character never folds onto an ASCII one, so for the ASCII
   * patterns used here only ASCII letters fold.
   */
  function Folded(s: string, ignoreCase: bool): string {
    if ignoreCase then LowerAsciiString(s) else s
  }

  /** `pat` occurs in `s` at index `i`. */
  predicate MatchesAt(s: string, i: nat, pat: string, ignoreCase: bool) {
    i + |pat| <= |s| && Folded(s[i..i + |pat|], ignoreCase) == Folded(pat, ignoreCase)
  }

  /** The first index at or after `from` where `pat` occurs. */
  function FindFrom(s: string, pat: string, ignoreCase: bool, from: nat): (r: Option<nat>)
    requires from <= |s|
    ensures r.Some? ==> from <= r.value && MatchesAt(s, r.value, pat, ignoreCase)
    ensures r.Some? ==> forall j :: from <= j < r.value ==> !MatchesAt(s, j, pat, ignoreCase)
    ensures r.None? ==> forall j :: from <= j <= |s| ==> !MatchesAt(s, j, pat, ignoreCase)
    decreases |s| - from
  {
    if MatchesAt(s, from, pat, ignoreCase) then Some(from)
    else if from == |s| then None
    else FindFrom(s, pat, ignoreCase, from + 1)
  }

  /** `s.indexOf(pat)`, or the index of the first match of a literal regular expression. */
  function IndexOf(s: string, pat: string, ignoreCase: bool): Option<nat> {
    FindFrom(s, pat, ignoreCase, 0)
  }

  /**
   * The text a replacement string stands for once its `$`-patterns are expanded
   * (the abstract operation GetSubstitution of ECMAScript, for a pattern without
   * capture groups): `$$` is `$`, `$&` the matched text, `` $` `` the text before
   * the match, `$'` the text after it; every other character stands for itself.
   */
  function Substitute(repl: string, matched: string, before: string, after: string): (r: string)
    decreases |repl|
  {
    if |repl| >= 2 && repl[0] == '$' && repl[1] == '$' then "$" + Substitute(repl[2..], matched, before, after)
    else if |repl| >= 2 && repl[0] == '$' && repl[1] == '&' then matched + Substitute(repl[2..], matched, before, after)
    else if |repl| >= 2 && repl[0] == '$' && repl[1] == '`' then before + Substitute(repl[2..], matched, before, after)
    else if |repl| >= 2 && repl[0] == '$' && repl[1] == '\'' then after + Substitute(repl[2..], matched, before, after)
    else if repl == [] then []
    else [repl[0]] + Substitute(repl[1..], matched, before, after)
  }

  /** A replacement string without `$` is inserted literally. */
  lemma {:induction false} SubstituteLiteral(repl: string, matched: string, before: string, after: string)
    requires NoDollar(repl)
    ensures Substitute(repl, matched, before, after) == repl
  {
    if repl != [] {
      assert repl[0] != '$';
      SubstituteLiteral(repl[1..], matched, before, after);
    }
  }

  /**
   * `s.replace(pat, repl)` for a string pattern, or for a literal regular
   * expression without the `g` flag: only the first occurrence is replaced.
   */
  function ReplaceFirst(s: string, pat: string, repl: string, ignoreCase: bool): (r: string)
    ensures IndexOf(s, pat, ignoreCase).None? ==> r == s
    ensures IndexOf(s, pat, ignoreCase).Some? ==>
      var i := IndexOf(s, pat, ignoreCase).value;
      var tail := s[i + |pat|..];
      |r| >= i + |tail| && r[..i] == s[..i] && r[|r| - |tail|..] == tail
  {
    match IndexOf(s, pat, ignoreCase)
    case None => s
    case Some(i) =>
      var tail := s[i + |pat|..];
      var r := s[..i] + Substitute(repl, s[i..i + |pat|], s[..i], tail) + tail;
      assert r[..i] == s[..i];
      assert r[|r| - |tail|..] == tail;
      r
  }

  /** With no `$` in the replacement, exactly the first occurrence is swapped for the replacement. */
  lemma ReplaceFirstLiteral(s: string, pat: string, repl: string, ignoreCase: bool, i: nat)
    requires NoDollar(repl)
    requires IndexOf(s, pat, ignoreCase) == Some(i)
    ensures ReplaceFirst(s, pat, repl, ignoreCase) == s[..i] + repl + s[i + |pat|..]
  {
    SubstituteLiteral(repl, s[i..i + |pat|], s[..i], s[i + |pat|..]);
  }

  /** A pattern whose first character does not occur before it is found right there. */
  lemma FirstOccurrenceAfter(pre: string, pat: string, post: string)
    requires pat != [] && forall k :: 0 <= k < |pre| ==> pre[k] != pat[0]
    ensures IndexOf(pre + pat + post, pat, false) == Some(|pre|)
  {
    var s := pre + pat + post;
    assert s[|pre|..|pre| + |pat|] == pat;
    assert MatchesAt(s, |pre|, pat, false);
    forall j | 0 <= j < |pre|
      ensures !MatchesAt(s, j, pat, false)
    {
      assert s[j] == pre[j];
      if j + |pat| <= |s| {
        assert s[j..j + |pat|][0] == s[j];
      }
    }
  }

  /** The replacement `$&` puts back what it replaces, so the text is unchanged. */
  lemma ReplaceFirstWithMatch(s: string, pat: string, ignoreCase: bool, i: nat)
    requires IndexOf(s, pat, ignoreCase) == Some(i)
    ensures ReplaceFirst(s, pat, "$&", ignoreCase) == s
  {
    var matched := s[i..i + |pat|];
    var repl := "$&";
    assert repl[0] == '$' && repl[1] == '&' && repl[2..] == [];
    assert Substitute(repl, matched, s[..i], s[i + |pat|..]) == matched;
    assert s[..i] + matched + s[i + |pat|..] == s;
  }

  /** `c.repeat(n)` for a one-character string `c`. */
  function Repeat(c: char, n: nat): (r: string)
    ensures |r| == n
    ensures forall k :: 0 <= k < n ==> r[k] == c
  {
    if n == 0 then [] else Repeat(c, n - 1) + [c]
  }

  /** `parts.join(sep)`. */
  function Join(parts: seq<string>, sep: string): string {
    if parts == [] then ""
    else if |parts| == 1 then parts[0]
    else parts[0] + sep + Join(parts[1..], sep)
  }
}
