/** One speculative round: greedy acceptance of a drafted batch against the target's own predictions. */
module SpeculativeRound {
  import opened Common

  datatype RoundOutcome = RoundOutcome(acceptedCount: nat, settleToken: u32, fullAccept: bool)

  /** The target model: the token it predicts after a given context. */
  type Target = seq<u32> -> u32

  function CarryLen(carry: Option<u32>): nat {
    if carry.Some? then 1 else 0
  }

  function CarrySeq(carry: Option<u32>): seq<u32> {
    if carry.Some? then [carry.value] else []
  }

  /** What the target predicts once the first `i` drafted tokens have been fed. */
  function Prediction(carry: Option<u32>, expected0: u32, logits: seq<u32>, i: nat): u32
    requires i + CarryLen(carry) <= |logits|
  {
    if i + CarryLen(carry) == 0 then expected0 else logits[i + CarryLen(carry) - 1]
  }

  /** `out` accepts the longest prefix of the draft that the predictions confirm,
      and settles on the prediction that follows that prefix. */
  ghost predicate IsOutcome(carry: Option<u32>, expected0: u32, draft: seq<u32>, logits: seq<u32>, out: RoundOutcome)
    requires |logits| == |draft| + CarryLen(carry)
  {
    var n := out.acceptedCount;
    && n <= |draft|
    && (forall i | 0 <= i < n :: draft[i] == Prediction(carry, expected0, logits, i))
    && (n < |draft| ==> draft[n] != Prediction(carry, expected0, logits, n))
    && out.settleToken == Prediction(carry, expected0, logits, n)
    && (out.fullAccept <==> n == |draft|)
  }

  /** Resumes the comparison after `n` drafted tokens were confirmed. */
  function VerifyFrom(carry: Option<u32>, expected0: u32, draft: seq<u32>, logits: seq<u32>,
                      n: nat): (out: RoundOutcome)
    requires |logits| == |draft| + CarryLen(carry)
    requires n <= |draft|
    requires forall i | 0 <= i < n :: draft[i] == Prediction(carry, expected0, logits, i)
    ensures IsOutcome(carry, expected0, draft, logits, out)
    decreases |draft| - n
  {
    var expected := Prediction(carry, expected0, logits, n);
    if n == |draft| then RoundOutcome(n, expected, true)
    else if draft[n] != expected then RoundOutcome(n, expected, false)
    else VerifyFrom(carry, expected0, draft, logits, n + 1)
  }

  function VerifyRound(carry: Option<u32>, expected0: u32, draft: seq<u32>, logits: seq<u32>): (out: RoundOutcome)
    requires |logits| == |draft| + CarryLen(carry)
    ensures IsOutcome(carry, expected0, draft, logits, out)
  {
    VerifyFrom(carry, expected0, draft, logits, 0)
  }

  lemma OutcomeUnique(carry: Option<u32>, expected0: u32, draft: seq<u32>, logits: seq<u32>, a: RoundOutcome,
                      b: RoundOutcome)
    requires |logits| == |draft| + CarryLen(carry)
    requires IsOutcome(carry, expected0, draft, logits, a) && IsOutcome(carry, expected0, draft, logits, b)
    ensures a == b
  {
  }

  method GreedyVerifyRound(carry: Option<u32>, expected0: u32, draft: seq<u32>, logits: seq<u32>)
    returns (out: RoundOutcome)
    requires |logits| == |draft| + CarryLen(carry)
    ensures IsOutcome(carry, expected0, draft, logits, out)
    ensures out == VerifyRound(carry, expected0, draft, logits)
  {
    var carryLen := if carry.Some? then 1 else 0;
    var expected := expected0;
    var accepted := 0;
    var i := 0;
    while i < |logits|
      invariant 0 <= i <= |logits|
      invariant i < carryLen ==> accepted == 0 && expected == expected0
      invariant i >= carryLen ==> accepted == i - carryLen && expected == Prediction(carry, expected0, logits, accepted)
      invariant forall j | 0 <= j < accepted :: draft[j] == Prediction(carry, expected0, logits, j)
    {
      var logit := logits[i];
      if i == 0 && carry.Some? {
        expected := logit;
      } else {
        var d := draft[i - carryLen];
        if d == expected {
          accepted := accepted + 1;
          expected := logit;
        } else {
          out := RoundOutcome(accepted, expected, false);
          OutcomeUnique(carry, expected0, draft, logits, out, VerifyRound(carry, expected0, draft, logits));
          return;
        }
      }
      i := i + 1;
    }
    out := RoundOutcome(accepted, expected, true);
    OutcomeUnique(carry, expected0, draft, logits, out, VerifyRound(carry, expected0, draft, logits));
  }

  /** Positions of the KV cache that survive a round. */
  function KvKeepLen(base: nat, carry: Option<u32>, acceptedCount: nat): nat {
    base + CarryLen(carry) + acceptedCount
  }

  function Clamp(x: int, lo: int, hi: int): int
    requires lo <= hi
  {
    if x < lo then lo else if x > hi then hi else x
  }

  /** Batch size for the next round; the acceptance-rate thresholds 0.7 and 0.5 are compared by cross-multiplication. */
  function NextK(k: nat, acceptedCount: nat, kThisRound: nat): (r: nat)
    ensures 2 <= r <= 8
    ensures 2 <= k <= 8 ==> k - 1 <= r <= k + 1
    ensures 2 <= k <= 8 ==> (r > k <==> k < 8 && kThisRound > 0 && 10 * acceptedCount > 7 * kThisRound)
    ensures 2 <= k <= 8 ==> (r < k <==> k > 2 && kThisRound > 0 && 2 * acceptedCount < kThisRound)
  {
    if kThisRound == 0 then Clamp(k, 2, 8)
    else if 10 * acceptedCount > 7 * kThisRound then Clamp(k + 1, 2, 8)
    else if 2 * acceptedCount < kThisRound then Clamp(k - 1, 2, 8)
    else Clamp(k, 2, 8)
  }

  // ---- The reference: plain greedy decoding ------------------------------------------------

  /** The `n` tokens the target produces by itself after `ctx`, one at a time. */
  function Greedy(next: Target, ctx: seq<u32>, n: nat): (r: seq<u32>)
    ensures |r| == n
  {
    if n == 0 then [] else
      var g := Greedy(next, ctx, n - 1);
      g + [next(ctx + g)]
  }

  lemma {:induction false} GreedySplit(next: Target, ctx: seq<u32>, a: nat, b: nat)
    ensures Greedy(next, ctx, a + b) == Greedy(next, ctx, a) + Greedy(next, ctx + Greedy(next, ctx, a), b)
  {
    if b == 0 {
    } else {
      GreedySplit(next, ctx, a, b - 1);
      var g := Greedy(next, ctx, a);
      assert ctx + (g + Greedy(next, ctx + g, b - 1)) == ctx + g + Greedy(next, ctx + g, b - 1);
    }
  }

  lemma GreedyPrefix(next: Target, ctx: seq<u32>, a: nat, n: nat)
    requires a <= n
    ensures Greedy(next, ctx, n)[..a] == Greedy(next, ctx, a)
  {
    GreedySplit(next, ctx, a, n - a);
  }

  lemma GreedyLast(next: Target, ctx: seq<u32>, n: nat)
    ensures Greedy(next, ctx, n + 1)[n] == next(ctx + Greedy(next, ctx, n))
  {
  }

  /** What an honest target reports for `batch` fed on top of a cache that holds `cache`. */
  function Logits(next: Target, cache: seq<u32>, batch: seq<u32>): (r: seq<u32>)
    ensures |r| == |batch|
  {
    seq(|batch|, j requires 0 <= j < |batch| => next(cache + batch[..j + 1]))
  }

  lemma HonestPrediction(next: Target, cache: seq<u32>, carry: Option<u32>, expected0: u32, draft: seq<u32>, i: nat)
    requires i <= |draft|
    requires carry.None? ==> expected0 == next(cache)
    ensures Prediction(carry, expected0, Logits(next, cache, CarrySeq(carry) + draft), i) ==
            next(cache + CarrySeq(carry) + draft[..i])
  {
    var batch := CarrySeq(carry) + draft;
    var j := i + CarryLen(carry);
    assert batch[..j] == CarrySeq(carry) + draft[..i];
    if j == 0 {
      assert cache + CarrySeq(carry) + draft[..i] == cache;
    } else {
      assert cache + batch[..j] == cache + CarrySeq(carry) + draft[..i];
    }
  }

  /** With honest logits a round commits the target's own greedy continuation, and the accepted
      part is the longest prefix of the draft that agrees with it. */
  lemma RoundCommitsGreedy(next: Target, cache: seq<u32>, carry: Option<u32>, expected0: u32, draft: seq<u32>)
    requires carry.None? ==> expected0 == next(cache)
    ensures var ctx := cache + CarrySeq(carry);
            var out := VerifyRound(carry, expected0, draft, Logits(next, cache, CarrySeq(carry) + draft));
            var n := out.acceptedCount;
            && draft[..n] + [out.settleToken] == Greedy(next, ctx, n + 1)
            && forall m: nat | m <= |draft| :: draft[..m] == Greedy(next, ctx, m) <==> m <= n
  {
    var ctx := cache + CarrySeq(carry);
    var logits := Logits(next, cache, CarrySeq(carry) + draft);
    var out := VerifyRound(carry, expected0, draft, logits);
    var n := out.acceptedCount;
    AcceptedIsGreedy(next, cache, carry, expected0, draft, n);
    HonestPrediction(next, cache, carry, expected0, draft, n);
    forall m: nat | m <= |draft|
      ensures draft[..m] == Greedy(next, ctx, m) <==> m <= n
    {
      if m <= n {
        GreedyPrefix(next, ctx, m, n);
        assert draft[..m] == draft[..n][..m];
      } else {
        GreedyPrefix(next, ctx, n + 1, m);
        if draft[..m] == Greedy(next, ctx, m) {
          assert draft[..m][..n + 1][n] == draft[n];
          assert Greedy(next, ctx, n + 1)[n] == next(ctx + Greedy(next, ctx, n));
          assert false;
        }
      }
    }
  }

  lemma {:induction false} AcceptedIsGreedy(next: Target, cache: seq<u32>, carry: Option<u32>, expected0: u32,
                                            draft: seq<u32>, n: nat)
    requires carry.None? ==> expected0 == next(cache)
    requires n <= |draft|
    requires forall i | 0 <= i < n ::
             draft[i] == Prediction(carry, expected0, Logits(next, cache, CarrySeq(carry) + draft), i)
    ensures draft[..n] == Greedy(next, cache + CarrySeq(carry), n)
  {
    if n == 0 {
    } else {
      AcceptedIsGreedy(next, cache, carry, expected0, draft, n - 1);
      HonestPrediction(next, cache, carry, expected0, draft, n - 1);
      assert draft[..n] == draft[..n - 1] + [draft[n - 1]];
    }
  }
}
