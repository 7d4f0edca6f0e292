/** Letter case, as applied to addresses and hashes. */
module Text {

  function LowerCase(c: char): char { if 'A' <= c <= 'Z' then c - 'A' + 'a' else c }

  function Lowered(s: string): string { seq(|s|, i requires 0 <= i < |s| => LowerCase(s[i])) }

  /** `small` is the small letter of the capital `large`: 32 code points on. */
  predicate CaseOf(large: char, small: char) { 'A' <= large <= 'Z' && small as int == large as int + 32 }

  /** The two characters are the same, or the two cases of one letter. */
  predicate SameLetter(c: char, d: char) { c == d || CaseOf(c, d) || CaseOf(d, c) }

  /** Lowering identifies exactly the texts that differ only in letter case. */
  lemma LoweredExactlyForgetsCase(s: string, t: string)
    ensures Lowered(s) == Lowered(t) <==> |s| == |t| && forall i :: 0 <= i < |s| ==> SameLetter(s[i], t[i])
  {
    if |s| == |t| {
      assert forall i :: 0 <= i < |s| ==> (Lowered(s)[i] == Lowered(t)[i] <==> SameLetter(s[i], t[i]));
    } else {
      assert |Lowered(s)| != |Lowered(t)|;
    }
  }

  /** What is lowered holds no capital letter, and lowering it again changes nothing. */
  lemma LoweredIsLower(s: string)
    ensures Lowered(Lowered(s)) == Lowered(s) && forall c :: c in Lowered(s) ==> !('A' <= c <= 'Z')
  {
  }
}
