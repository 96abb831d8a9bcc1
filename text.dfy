/** Single-character string replacement, as Python's `str.replace` performs it
    when the pattern is one character long. */
module Text {

  /** `s.replace(ch, rep)`: every occurrence of `ch` in `s` becomes `rep`;
      every other character is kept, in order. */
  function ReplaceAll(s: string, ch: char, rep: string): (r: string)
    ensures ch !in s ==> r == s
    ensures rep == [ch] ==> r == s
  {
    if s == [] then []
    else (if s[0] == ch then rep else [s[0]]) + ReplaceAll(s[1..], ch, rep)
  }

  /** Number of positions of `s` holding `ch`. */
  function Occurrences(s: string, ch: char): (n: nat)
    ensures n <= |s|
    ensures n == 0 <==> ch !in s
  {
    if s == [] then 0 else (if s[0] == ch then 1 else 0) + Occurrences(s[1..], ch)
  }

  /** Replacing works piece by piece: it distributes over concatenation. */
  lemma {:induction false} ReplaceAllAppend(a: string, b: string, ch: char, rep: string)
    ensures ReplaceAll(a + b, ch, rep) == ReplaceAll(a, ch, rep) + ReplaceAll(b, ch, rep)
  {
    if a != [] {
      assert (a + b)[1..] == a[1..] + b;
      ReplaceAllAppend(a[1..], b, ch, rep);
    } else {
      assert a + b == b;
    }
  }

  /** Replacing a character by nothing deletes exactly its occurrences. */
  lemma {:induction false} ReplaceByNothingDeletes(s: string, ch: char)
    ensures ch !in ReplaceAll(s, ch, [])
    ensures forall c :: c != ch ==> Occurrences(ReplaceAll(s, ch, []), c) == Occurrences(s, c)
  {
    if s != [] {
      ReplaceByNothingDeletes(s[1..], ch);
      var head := if s[0] == ch then [] else [s[0]];
      forall c | c != ch
        ensures Occurrences(ReplaceAll(s, ch, []), c) == Occurrences(s, c)
      {
        OccurrencesAppend(head, ReplaceAll(s[1..], ch, []), c);
      }
    }
  }

  lemma {:induction false} OccurrencesAppend(a: string, b: string, c: char)
    ensures Occurrences(a + b, c) == Occurrences(a, c) + Occurrences(b, c)
  {
    if a != [] {
      assert (a + b)[1..] == a[1..] + b;
      OccurrencesAppend(a[1..], b, c);
    } else {
      assert a + b == b;
    }
  }
}
