/** Short codes shared by both URL-shortener stores: the 62-symbol alphabet
    `a`-`z`, `A`-`Z`, `0`-`9`, what a well-formed six-character code is, and how a
    sequence of random draws (indices into the alphabet) becomes a code.

    The random generator `chars.random()` is not modelled; each of its results is
    an index below 62 supplied by the caller as a "draw". */
module Codes {

  datatype Option<+T> = None | Some(value: T)

  /** Number of characters in a generated short code. */
  const CodeLength: nat := 6

  predicate IsAlphanumeric(ch: char) {
    'a' <= ch <= 'z' || 'A' <= ch <= 'Z' || '0' <= ch <= '9'
  }

  /** A code as the generators produce it: six alphanumeric characters. */
  predicate ValidCode(code: string) {
    |code| == CodeLength && forall i :: 0 <= i < |code| ==> IsAlphanumeric(code[i])
  }

  /** The characters from `lo` to `hi` inclusive, in order (Kotlin's `lo..hi`),
      for ASCII bounds. */
  function CharRange(lo: char, hi: char): string
    requires lo <= hi <= '~'
  {
    seq(hi as int - lo as int + 1, i requires 0 <= i <= hi as int - lo as int => (lo as int + i) as char)
  }

  /** The alphabet in the order both generators list it:
      lower-case letters, then upper-case letters, then digits. */
  const Alphabet: string := CharRange('a', 'z') + CharRange('A', 'Z') + CharRange('0', '9')

  /** What one call of `chars.random()` may return: a position in the alphabet. */
  predicate ValidDraw(d: nat) {
    d < |Alphabet|
  }

  predicate ValidDraws(draws: seq<nat>) {
    forall i :: 0 <= i < |draws| ==> ValidDraw(draws[i])
  }

  /** The position of an alphanumeric character in the alphabet. */
  function IndexOf(ch: char): (k: nat)
    requires IsAlphanumeric(ch)
    ensures k < |Alphabet| && Alphabet[k] == ch
  {
    if 'a' <= ch <= 'z' then ch as int - 'a' as int
    else if 'A' <= ch <= 'Z' then 26 + (ch as int - 'A' as int)
    else 52 + (ch as int - '0' as int)
  }

  /** Every alphabet position holds an alphanumeric character, and positions
      are distinct: IndexOf inverts indexing. */
  lemma AlphabetAt(k: nat)
    requires k < |Alphabet|
    ensures IsAlphanumeric(Alphabet[k]) && IndexOf(Alphabet[k]) == k
  {
  }

  lemma AlphabetSize()
    ensures |Alphabet| == 62
  {
  }

  /** The characters picked by a sequence of draws, one per draw. */
  function Pick(draws: seq<nat>): (code: string)
    requires ValidDraws(draws)
    ensures |code| == |draws|
    ensures forall i :: 0 <= i < |code| ==> IsAlphanumeric(code[i]) && IndexOf(code[i]) == draws[i]
  {
    if draws == [] then []
    else
      AlphabetAt(draws[0]);
      [Alphabet[draws[0]]] + Pick(draws[1..])
  }

  /** The draws that pick a given alphanumeric string. */
  function DrawsFor(code: string): (draws: seq<nat>)
    requires forall i :: 0 <= i < |code| ==> IsAlphanumeric(code[i])
    ensures |draws| == |code| && ValidDraws(draws)
    ensures forall i :: 0 <= i < |draws| ==> Alphabet[draws[i]] == code[i]
  {
    if code == [] then []
    else [IndexOf(code[0])] + DrawsFor(code[1..])
  }

  /** Every alphanumeric string is picked by exactly the draws DrawsFor gives:
      the generator can produce every valid code, and distinct draws give
      distinct codes. */
  lemma PickDrawsFor(code: string)
    requires forall i :: 0 <= i < |code| ==> IsAlphanumeric(code[i])
    ensures Pick(DrawsFor(code)) == code
  {
  }

  lemma DrawsForPick(draws: seq<nat>)
    requires ValidDraws(draws)
    ensures DrawsFor(Pick(draws)) == draws
  {
  }

  /** `s` begins with `prefix` (Kotlin's `startsWith`). */
  function StartsWith(s: string, prefix: string): (b: bool)
    ensures b <==> |prefix| <= |s| && s[..|prefix|] == prefix
  {
    if prefix == [] then true
    else if s == [] then false
    else s[0] == prefix[0] && StartsWith(s[1..], prefix[1..])
  }
}
