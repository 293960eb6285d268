/** Index-based sequence edits shared by sections and data points. */
module Seqs {

  /** `s.filter((_, idx) => idx !== i)`: every element whose position is not
      `i`, in order. An `i` outside the sequence keeps everything. */
  function Without<T>(s: seq<T>, i: int): (r: seq<T>)
    ensures 0 <= i < |s| ==> r == s[..i] + s[i + 1..]
    ensures !(0 <= i < |s|) ==> r == s
    decreases |s|
  {
    if s == [] then []
    else
      var rest := Without(s[1..], i - 1);
      if i == 0 then rest else [s[0]] + rest
  }

  /** Position-wise reading of `Without`: earlier elements stay put, later
      ones move down by one. */
  lemma WithoutAt<T>(s: seq<T>, i: int, j: int)
    requires 0 <= i < |s|
    requires 0 <= j < |s| - 1
    ensures |Without(s, i)| == |s| - 1
    ensures Without(s, i)[j] == if j < i then s[j] else s[j + 1]
  {
  }

  /** Removing what was just appended gives the original back. */
  lemma WithoutLastOfAppend<T>(s: seq<T>, x: T)
    ensures Without(s + [x], |s|) == s
  {
    assert (s + [x])[..|s|] == s;
  }
}
