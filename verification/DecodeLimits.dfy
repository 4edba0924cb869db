/** When decoding stops and how much of a round is committed. */
module DecodeLimits {
  import opened Distribution

  datatype Limits = Limits(maxLength: nat, stop: set<Token>, blockSize: nat) {

    /** The loop exit test; `s` is the text up to and including `output_ids[start]`. */
    predicate Finished(s: seq<Token>) {
      |s| >= maxLength || (s != [] && s[|s| - 1] in stop)
    }

    /** `output_ids[:, :min(start + 1, max_length)]` */
    function Trim(s: seq<Token>): seq<Token> {
      if |s| <= maxLength then s else s[..maxLength]
    }

    /** One more than the index of the first stop token, or the length when there is none. */
    function StopCut(y: seq<Token>): (k: nat)
      ensures k <= |y|
      ensures forall i :: 0 <= i < k - 1 ==> y[i] !in stop
      ensures k < |y| ==> k > 0 && y[k - 1] in stop
      ensures y != [] ==> k > 0
    {
      if y == [] then 0 else if y[0] in stop then 1 else 1 + StopCut(y[1..])
    }

    /** The text after a round that emitted `y`: limited by the length, then cut at the first stop token. */
    function Committed(s: seq<Token>, y: seq<Token>): (r: seq<Token>)
      requires |s| < maxLength
      ensures y != [] ==> |s| < |r|
    {
      var produced := if |y| < maxLength - |s| then |y| else maxLength - |s|;
      s + y[..StopCut(y[..produced])]
    }

    /** A finished commit absorbs further emitted tokens; an unfinished one keeps them all. */
    lemma CommitExtend(s: seq<Token>, y: seq<Token>, t: Token)
      requires |s| < maxLength && y != []
      ensures Finished(Committed(s, y)) ==> Committed(s, y + [t]) == Committed(s, y)
      ensures !Finished(Committed(s, y)) ==> Committed(s, y) == s + y && Committed(s, y + [t]) == s + (y + [t])
    {
      var produced := if |y| < maxLength - |s| then |y| else maxLength - |s|;
      var k := StopCut(y[..produced]);
      var z := (y + [t])[..if |y| + 1 < maxLength - |s| then |y| + 1 else maxLength - |s|];
      StopCutUnique(y[..produced], z);
    }

    /** A longer text has the same cut when the shorter one already ends in a stop token. */
    lemma {:induction false} StopCutUnique(a: seq<Token>, z: seq<Token>)
      requires |a| <= |z| <= |a| + 1 && z[..|a|] == a && a != []
      ensures a[StopCut(a) - 1] in stop ==> StopCut(z) == StopCut(a)
      ensures a[StopCut(a) - 1] !in stop ==> StopCut(a) == |a| && StopCut(z) == |z|
    {
      if a[0] !in stop {
        if |a| == 1 {
          assert |z| == 2 ==> StopCut(z[1..]) == 1;
        } else {
          assert z[1..][..|a[1..]|] == a[1..];
          StopCutUnique(a[1..], z[1..]);
        }
      }
    }

    /** `min(block_size, max_length - start)` for a text that ends at position `start`. */
    function VerifySize(s: seq<Token>): (k: nat)
      requires 0 < |s| < maxLength && blockSize >= 1
      ensures 1 <= k <= blockSize && |s| + k <= maxLength + 1
    {
      var room := maxLength - (|s| - 1);
      if blockSize < room then blockSize else room
    }
  }
}
