/** The title derived from a repository's raw name: every `-` and `_`
    becomes a space, then every word character that starts a word is
    upper-cased. Word characters are those of a regular expression without
    the Unicode flag, the ASCII letters, digits and `_`. */
module TitleCase {

  predicate IsWordChar(c: char) {
    'a' <= c <= 'z' || 'A' <= c <= 'Z' || '0' <= c <= '9' || c == '_'
  }

  /** `toUpperCase` on a word character: only `a`-`z` change. */
  function Upper(c: char): char {
    if 'a' <= c <= 'z' then (c as int - 32) as char else c
  }

  function Separator(c: char): char {
    if c == '-' || c == '_' then ' ' else c
  }

  /** Whether position `i` of `s` starts a word (what `\b\w` matches): a
      word character at the start or after a non-word character. */
  predicate StartsWord(s: string, i: nat)
    requires i < |s|
  {
    IsWordChar(s[i]) && (i == 0 || !IsWordChar(s[i - 1]))
  }

  /** The first replacement, `/[-_]/g` by a space. */
  function SeparatorsToSpaces(s: string): string {
    seq(|s|, i requires 0 <= i < |s| => Separator(s[i]))
  }

  /** The second replacement, `/\b\w/g` by its upper case. Every match is
      one character and is found in the string before replacement. */
  function CapitalizeWords(s: string): string {
    seq(|s|, i requires 0 <= i < |s| => if StartsWord(s, i) then Upper(s[i]) else s[i])
  }

  function TitleCase(s: string): string {
    CapitalizeWords(SeparatorsToSpaces(s))
  }

  /** The title has the input's length; each `-` and `_` becomes a space; a
      lower-case letter at the start or after a non-word character, `-` and
      `_` included, is upper-cased; every character other than `-`, `_` and
      such a letter is kept. */
  lemma TitleCaseShape(s: string)
    ensures |TitleCase(s)| == |s|
    ensures forall i :: 0 <= i < |s| ==> TitleCase(s)[i] != '-' && TitleCase(s)[i] != '_'
    ensures forall i :: 0 <= i < |s| && (s[i] == '-' || s[i] == '_') ==> TitleCase(s)[i] == ' '
    ensures forall i :: 0 <= i < |s| && 'a' <= s[i] <= 'z' && (i == 0 || !IsWordChar(s[i - 1]) || s[i - 1] == '_') ==>
      'A' <= TitleCase(s)[i] <= 'Z' && TitleCase(s)[i] as int == s[i] as int - 32
    ensures forall i :: 0 <= i < |s| && s[i] != '-' && s[i] != '_' && !StartsWord(SeparatorsToSpaces(s), i) ==>
      TitleCase(s)[i] == s[i]
    ensures forall i :: 0 <= i < |s| && s[i] != '-' && s[i] != '_' && !('a' <= s[i] <= 'z') ==>
      TitleCase(s)[i] == s[i]
  {
  }

  /** Upper-casing keeps a character's class, so a title is its own title. */
  lemma TitleCaseIdempotent(s: string)
    ensures TitleCase(TitleCase(s)) == TitleCase(s)
  {
    var d, t := SeparatorsToSpaces(s), TitleCase(s);
    assert SeparatorsToSpaces(t) == t;
    assert forall i :: 0 <= i < |t| ==> IsWordChar(t[i]) == IsWordChar(d[i]);
    assert forall i :: 0 <= i < |t| ==> (StartsWord(t, i) <==> StartsWord(d, i));
  }

  lemma Example()
    ensures TitleCase("nc-agent_core") == "Nc Agent Core"
  {
  }
}
