/** The accepted length of a drafted block: match flags, cumulative product, sum. */
module AcceptedPrefix {

  function CumulativeProduct(flags: seq<bool>, carry: nat): (r: seq<nat>)
    ensures |r| == |flags|
  {
    if flags == [] then []
    else
      var c := carry * (if flags[0] then 1 else 0);
      [c] + CumulativeProduct(flags[1..], c)
  }

  function Total(f: seq<nat>): nat {
    if f == [] then 0 else f[0] + Total(f[1..])
  }

  /** `flags.cumprod(-1).sum(-1)` on 0/1 flags. */
  function AcceptedLength(flags: seq<bool>): nat {
    Total(CumulativeProduct(flags, 1))
  }

  /** `k` is the length of the longest all-true prefix. */
  ghost predicate LongestPrefix(flags: seq<bool>, k: nat) {
    && k <= |flags|
    && (forall i :: 0 <= i < k ==> flags[i])
    && (k < |flags| ==> !flags[k])
  }

  lemma {:induction false} ZeroCarry(flags: seq<bool>)
    ensures Total(CumulativeProduct(flags, 0)) == 0
  {
    if flags != [] { ZeroCarry(flags[1..]); }
  }

  /** The product-and-sum idiom measures exactly the longest matching prefix. */
  lemma {:induction false} AcceptedLengthIsLongestPrefix(flags: seq<bool>)
    ensures LongestPrefix(flags, AcceptedLength(flags))
  {
    if flags != [] {
      if flags[0] {
        AcceptedLengthIsLongestPrefix(flags[1..]);
        var k := AcceptedLength(flags[1..]);
        assert AcceptedLength(flags) == 1 + k;
        forall i | 0 <= i < k + 1 ensures flags[i] {
          if i > 0 { assert flags[i] == flags[1..][i - 1]; }
        }
      } else {
        ZeroCarry(flags[1..]);
      }
    }
  }

  lemma LongestPrefixUnique(flags: seq<bool>, k: nat)
    ensures LongestPrefix(flags, k) <==> k == AcceptedLength(flags)
  {
    AcceptedLengthIsLongestPrefix(flags);
  }
}
