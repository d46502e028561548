/** Strings as C reads them. */
module CStrings {

  /** What comes before the first terminator, or all of it. */
  function Before<T(==)>(s: seq<T>, nul: T): seq<T> {
    if s == [] || s[0] == nul then [] else [s[0]] + Before(s[1..], nul)
  }

  /** Text without a terminator is read whole. */
  lemma BeforeWhole<T>(s: seq<T>, nul: T)
    requires nul !in s
    ensures Before(s, nul) == s
  {
    if s != [] { BeforeWhole(s[1..], nul); }
  }

  /** Text with one is read up to the first, whatever follows. */
  lemma {:induction false} BeforeCut<T>(s: seq<T>, nul: T, rest: seq<T>)
    requires nul !in s
    ensures Before(s + [nul] + rest, nul) == s
  {
    if s != [] {
      assert (s + [nul] + rest)[1..] == s[1..] + [nul] + rest;
      BeforeCut(s[1..], nul, rest);
    }
  }
}
