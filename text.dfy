/** The two java.lang.String operations the organizer relies on:
    lastIndexOf on a single character and toLowerCase. */
module Text {

  /** String.lastIndexOf(c): the index of the last occurrence of c in s, or -1 when there is none. */
  function LastIndexOf(s: string, c: char): (r: int)
    ensures -1 <= r < |s|
    ensures r == -1 <==> c !in s
    ensures 0 <= r ==> s[r] == c && c !in s[r + 1..]
  {
    if s == [] then -1
    else if s[|s| - 1] == c then |s| - 1
    else
      var r := LastIndexOf(s[..|s| - 1], c);
      assert s == s[..|s| - 1] + [s[|s| - 1]];
      assert 0 <= r ==> s[r + 1..] == s[..|s| - 1][r + 1..] + [s[|s| - 1]];
      r
  }

  predicate IsUpper(ch: char) {
    'A' <= ch <= 'Z'
  }

  predicate IsLower(ch: char) {
    'a' <= ch <= 'z'
  }

  /** Character.toLowerCase restricted to the ASCII letters; every other character is kept. */
  function LowerChar(ch: char): char {
    if IsUpper(ch) then (ch as int - 'A' as int + 'a' as int) as char else ch
  }

  /** String.toLowerCase, character by character; LowerCharacters says what happens to each. */
  function Lower(s: string): string {
    seq(|s|, i requires 0 <= i < |s| => LowerChar(s[i]))
  }

  /** Upper-case letters become the lower-case letter 32 code points further on, every other
      character is kept, and no upper-case letter is left. */
  lemma LowerCharacters(s: string)
    ensures forall i :: 0 <= i < |s| ==> !IsUpper(Lower(s)[i])
    ensures forall i :: 0 <= i < |s| && !IsUpper(s[i]) ==> Lower(s)[i] == s[i]
    ensures forall i :: 0 <= i < |s| && IsUpper(s[i]) ==>
      IsLower(Lower(s)[i]) && Lower(s)[i] as int == s[i] as int + 32
  {
  }

  /** Lowercasing twice is lowercasing once. */
  lemma LowerIdempotent(s: string)
    ensures Lower(Lower(s)) == Lower(s)
  {
  }

  /** A character that is not a letter is found at exactly the same places after lowercasing,
      so its last occurrence does not move. */
  lemma {:induction false} LastIndexOfLower(s: string, c: char)
    requires !IsUpper(c) && !IsLower(c)
    ensures LastIndexOf(Lower(s), c) == LastIndexOf(s, c)
  {
    if s != [] {
      var n := |s| - 1;
      assert Lower(s)[..n] == Lower(s[..n]);
      assert LowerChar(s[n]) == c <==> s[n] == c;
      LastIndexOfLower(s[..n], c);
    }
  }
}
