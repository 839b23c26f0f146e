/** Identifiers as the guard's pattern finds them in a text: in every run of
    identifier characters, from the first one that may start an identifier.
 */
module Identifiers {
  /** Which characters past ASCII count as letters or digits is left open. */
  type Wide = char -> bool

  predicate Letter(c: char) { 'a' <= c <= 'z' || 'A' <= c <= 'Z' }

  predicate Word(wide: Wide, c: char) {
    Letter(c) || '0' <= c <= '9' || c == '_' || (c > '\U{7F}' && wide(c))
  }

  predicate Part(wide: Wide, c: char) { Word(wide, c) || c == '$' }

  predicate Begins(c: char) { Letter(c) || c == '_' || c == '$' }

  /** The identifier at [o, e): its run starts at a, with nothing before o that could
      begin an identifier, and ends at e. */
  ghost predicate TokenIn(wide: Wide, s: string, a: nat, o: nat, e: nat) {
    && a <= o < e <= |s| && Begins(s[o])
    && (forall k :: a <= k < e ==> Part(wide, s[k]))
    && (forall k :: a <= k < o ==> !Begins(s[k]))
    && (a == 0 || !Part(wide, s[a - 1]))
    && (e == |s| || !Part(wide, s[e]))
  }

  ghost predicate Token(wide: Wide, s: string, o: nat, e: nat) {
    exists a :: TokenIn(wide, s, a, o, e)
  }

  predicate Digit(c: char) { c in "0123456789" }

  predicate Alphabetic(c: char) { c in "abcdefghijklmnopqrstuvwxyz" || c in "ABCDEFGHIJKLMNOPQRSTUVWXYZ" }

  lemma LowerIs(c: char)
    ensures 'a' <= c <= 'z' <==> c in "abcdefghijklmnopqrstuvwxyz"
  {
    var w := "abcdefghijklmnopqrstuvwxyz";
    assert |w| == 26;
    if i :| 0 <= i < |w| && w[i] == c { assert 'a' <= w[i] <= 'z'; }
  }

  lemma UpperIs(c: char)
    ensures 'A' <= c <= 'Z' <==> c in "ABCDEFGHIJKLMNOPQRSTUVWXYZ"
  {
    var w := "ABCDEFGHIJKLMNOPQRSTUVWXYZ";
    assert |w| == 26;
    if i :| 0 <= i < |w| && w[i] == c { assert 'A' <= w[i] <= 'Z'; }
  }

  lemma DigitIs(c: char)
    ensures '0' <= c <= '9' <==> Digit(c)
  {
    var w := "0123456789";
    assert |w| == 10;
    if i :| 0 <= i < |w| && w[i] == c { assert '0' <= w[i] <= '9'; }
  }

  /** THE CHARACTERS: in ASCII those listed; past it, letters and digits as left open. */
  lemma CharactersAre(wide: Wide, c: char)
    ensures Word(wide, c) <==> Alphabetic(c) || Digit(c) || c == '_' || (c > '\U{7F}' && wide(c))
    ensures Part(wide, c) <==> Word(wide, c) || c == '$'
    ensures Begins(c) <==> Alphabetic(c) || c == '_' || c == '$'
  {
    hide Alphabetic, Digit;
    assert Letter(c) <==> Alphabetic(c) by { LettersAre(c); }
    DigitIs(c);
  }

  lemma LettersAre(c: char)
    ensures Letter(c) <==> Alphabetic(c)
  {
    LowerIs(c);
    UpperIs(c);
  }
}
