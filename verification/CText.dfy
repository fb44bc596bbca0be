/**
  Characters and words as the C sources see them (interface/useful/strskip.c, strupper.c).
  A character is a byte; bytes above 127 are negative and so count as blanks.
 */
module CText {

  const NUL := '\0'

  /** Not greater than a space, for a signed character. */
  predicate Blank(c: char) {
    c <= ' ' || c >= '\U{80}'
  }

  function SkipSpaces(s: string): (r: string)
    ensures |r| <= |s|
  {
    if s != [] && Blank(s[0]) then SkipSpaces(s[1..]) else s
  }

  /** The characters before the first blank. */
  function Word(s: string): (r: string)
    ensures |r| <= |s|
  {
    if s != [] && !Blank(s[0]) then [s[0]] + Word(s[1..]) else []
  }

  /** The first word of a text. */
  function Token(s: string): string {
    Word(SkipSpaces(s))
  }

  lemma TokenFits(s: string)
    ensures |Token(s)| <= |s|
  {
  }

  function UpperChar(c: char): char {
    if 'a' <= c <= 'z' then c - 'a' + 'A' else c
  }

  function Upper(s: string): (r: string)
    ensures |r| == |s|
    ensures forall i :: 0 <= i < |s| ==> r[i] == UpperChar(s[i])
  {
    if s == [] then [] else [UpperChar(s[0])] + Upper(s[1..])
  }
}
