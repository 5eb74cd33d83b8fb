/**
What `str::trim_start_matches` does, for the path code that relies on it.
*/
module Text {

  /** `s` without the copies of `c` it starts with. */
  function TrimStart(s: string, c: char): string {
    if s != [] && s[0] == c then TrimStart(s[1..], c) else s
  }

  /** It is the longest suffix that does not start with `c`, and only copies of `c` are gone. */
  lemma {:induction false} TrimStartTakesOnlyThat(s: string, c: char)
    ensures var r := TrimStart(s, c);
            && |r| <= |s| && s[|s| - |r|..] == r && (r != [] ==> r[0] != c)
            && (forall i :: 0 <= i < |s| - |r| ==> s[i] == c)
            && (r == s <==> s == [] || s[0] != c)
  {
    if s != [] && s[0] == c {
      TrimStartTakesOnlyThat(s[1..], c);
    }
  }
}
