/** The 8-character confirmation code the profile page asks the user to
    retype before it deletes the account. Every `Math.floor(Math.random() * n)`
    draw is an explicit index below `n`, and the shuffle done by sorting with
    a random comparator is an explicit list of transpositions: any
    permutation is some such list, and no claim is made about how likely
    each one is. */
module ConfirmCode {
  import Strength

  const Numbers: string := "0123456789"
  const Uppercase: string := "ABCDEFGHIJKLMNOPQRSTUVWXYZ"
  const Lowercase: string := "abcdefghijklmnopqrstuvwxyz"
  const AllChars: string := Numbers + Uppercase + Lowercase

  const CodeLength: nat := 8

  predicate InAlphabet(c: char) {
    Strength.IsAsciiDigit(c) || Strength.IsAsciiUpper(c) || Strength.IsAsciiLower(c)
  }

  lemma AlphabetShape()
    ensures |Numbers| == 10 && |Uppercase| == 26 && |Lowercase| == 26 && |AllChars| == 62
    ensures forall i :: 0 <= i < 10 ==> Strength.IsAsciiDigit(Numbers[i])
    ensures forall i :: 0 <= i < 26 ==> Strength.IsAsciiUpper(Uppercase[i])
    ensures forall i :: 0 <= i < 26 ==> Strength.IsAsciiLower(Lowercase[i])
    ensures forall i :: 0 <= i < 62 ==> InAlphabet(AllChars[i])
  {
  }

  /** The random draws one call to `generateRandomCode` makes. */
  datatype Draws = Draws(digit: nat, upper: nat, lower: nat, fill: seq<nat>, swaps: seq<(nat, nat)>)

  /** What `Math.random` can produce: each index below the length of the
      string it indexes, five fill draws, and transpositions of positions of
      the 8-character code. */
  predicate ValidDraws(d: Draws) {
    && d.digit < |Numbers| && d.upper < |Uppercase| && d.lower < |Lowercase|
    && |d.fill| == CodeLength - 3
    && (forall i :: 0 <= i < |d.fill| ==> d.fill[i] < |AllChars|)
    && (forall k :: 0 <= k < |d.swaps| ==> d.swaps[k].0 < CodeLength && d.swaps[k].1 < CodeLength)
  }

  /** Exchanges positions `i` and `j`. */
  function Swap(s: string, i: nat, j: nat): (r: string)
    requires i < |s| && j < |s|
    ensures |r| == |s| && multiset(r) == multiset(s)
  {
    s[i := s[j]][j := s[i]]
  }

  /** The shuffle: the transpositions applied in order. */
  function Shuffle(s: string, swaps: seq<(nat, nat)>): (r: string)
    requires forall k :: 0 <= k < |swaps| ==> swaps[k].0 < |s| && swaps[k].1 < |s|
    ensures |r| == |s| && multiset(r) == multiset(s)
    decreases |swaps|
  {
    if swaps == [] then s
    else Shuffle(Swap(s, swaps[0].0, swaps[0].1), swaps[1..])
  }

  /** The code before the shuffle: one digit, one upper-case and one
      lower-case letter, then five characters of the whole alphabet. */
  function Unshuffled(d: Draws): (code: string)
    requires ValidDraws(d)
    ensures |code| == CodeLength
    ensures forall i :: 0 <= i < |code| ==> InAlphabet(code[i])
  {
    AlphabetShape();
    [Numbers[d.digit], Uppercase[d.upper], Lowercase[d.lower]]
      + seq(CodeLength - 3, k requires 0 <= k < CodeLength - 3 => AllChars[d.fill[k]])
  }

  /** `generateRandomCode`: the guaranteed three, the loop that adds the
      other five, then the shuffle. */
  method Generate(d: Draws) returns (code: string)
    requires ValidDraws(d)
    ensures |code| == CodeLength
    ensures forall i :: 0 <= i < |code| ==> InAlphabet(code[i])
    ensures Strength.HasDigit(code) && Strength.HasUpper(code)
    ensures exists i :: 0 <= i < |code| && Strength.IsAsciiLower(code[i])
    ensures multiset(code) == multiset(Unshuffled(d))
  {
    AlphabetShape();
    ghost var pre := Unshuffled(d);
    code := "";
    code := code + [Numbers[d.digit]];
    code := code + [Uppercase[d.upper]];
    code := code + [Lowercase[d.lower]];
    var i := 3;
    while i < CodeLength
      invariant 3 <= i <= CodeLength
      invariant code == pre[..i]
    {
      code := code + [AllChars[d.fill[i - 3]]];
      i := i + 1;
    }
    assert code == pre;
    code := Shuffle(code, d.swaps);
    assert pre[0] in multiset(code) && pre[1] in multiset(code) && pre[2] in multiset(code);
    ghost var a :| 0 <= a < |code| && code[a] == pre[0];
    ghost var b :| 0 <= b < |code| && code[b] == pre[1];
    ghost var c :| 0 <= c < |code| && code[c] == pre[2];
    assert Strength.IsAsciiDigit(code[a]) && Strength.IsAsciiUpper(code[b]) && Strength.IsAsciiLower(code[c]);
    forall j | 0 <= j < |code|
      ensures InAlphabet(code[j])
    {
      assert code[j] in multiset(pre);
    }
  }
}
