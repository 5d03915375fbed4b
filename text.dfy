/** The ASCII character classes used by the regular expressions of the
    source, and `str.lower()` restricted to ASCII letters. */
module Text {

  predicate IsUpper(ch: char) { 'A' <= ch <= 'Z' }

  predicate IsLetter(ch: char) { 'a' <= ch <= 'z' || IsUpper(ch) }

  predicate IsDigit(ch: char) { '0' <= ch <= '9' }

  /** `[a-zA-Z0-9]` */
  predicate IsAlnum(ch: char) { IsLetter(ch) || IsDigit(ch) }

  /** `[a-zA-Z0-9_]` */
  predicate IsWord(ch: char) { IsAlnum(ch) || ch == '_' }

  predicate AllAlnum(s: string) { forall i :: 0 <= i < |s| ==> IsAlnum(s[i]) }

  predicate AllWord(s: string) { forall i :: 0 <= i < |s| ==> IsWord(s[i]) }

  function LowerChar(ch: char): (r: char)
    ensures !IsUpper(r)
    ensures IsUpper(ch) || r == ch
  {
    if IsUpper(ch) then (ch as int + 32) as char else ch
  }

  /** `s.lower()` on ASCII text. */
  function Lower(s: string): (r: string)
    ensures |r| == |s|
    ensures forall i :: 0 <= i < |s| ==> r[i] == LowerChar(s[i])
  {
    seq(|s|, i requires 0 <= i < |s| => LowerChar(s[i]))
  }

  /** `s.replace(old, new)` for a one-character pattern. */
  function ReplaceChar(s: string, pattern: char, replacement: string): (r: string)
    ensures pattern !in replacement ==> pattern !in r
    ensures pattern !in s ==> r == s
  {
    if s == [] then []
    else (if s[0] == pattern then replacement else [s[0]]) + ReplaceChar(s[1..], pattern, replacement)
  }

  /** Replacing works piece by piece: in a concatenation each part is
      replaced on its own. */
  lemma {:induction false} ReplaceCharAppend(a: string, b: string, pattern: char, replacement: string)
    ensures ReplaceChar(a + b, pattern, replacement) ==
      ReplaceChar(a, pattern, replacement) + ReplaceChar(b, pattern, replacement)
  {
    if a != [] {
      assert (a + b)[0] == a[0] && (a + b)[1..] == a[1..] + b;
      ReplaceCharAppend(a[1..], b, pattern, replacement);
    } else {
      assert a + b == b;
    }
  }

  /** The pattern on its own becomes the replacement, and any other
      character stays itself. */
  lemma ReplaceCharSingle(ch: char, pattern: char, replacement: string)
    ensures ReplaceChar([ch], pattern, replacement) == (if ch == pattern then replacement else [ch])
  {
    assert [ch][1..] == [];
  }
}
