/** The receivable lifecycle table. */
module ReceivableStates {
  datatype ReceivableState = Open | PartiallyApplied | Settled | Claimed | Flagged

  const INITIAL: ReceivableState := Open

  function ValidTransitions(s: ReceivableState): seq<ReceivableState> {
    match s
    case Open => [PartiallyApplied, Settled, Claimed]
    case PartiallyApplied => [Settled, Claimed, Flagged]
    case Claimed => [Settled, PartiallyApplied, Flagged]
    case Settled => []
    case Flagged => []
  }

  predicate CanTransition(from: ReceivableState, to: ReceivableState) { to in ValidTransitions(from) }

  predicate IsTerminal(s: ReceivableState) { |ValidTransitions(s)| == 0 }
}

/** The two pure settlement decisions, on money text. `None` models the parser's throw. */
module Decisions {
  import opened Basics
  import opened Money
  import opened ReceivableStates

  datatype ApplyDecision = Apply(newBalance: string, newState: ReceivableState) | OverApplication

  function DecideApplication(outstandingBalance: string, amount: string): Option<ApplyDecision> {
    match (ToScaledSigned(outstandingBalance), ToScaledSigned(amount))
    case (Some(balance), Some(paid)) =>
      if paid > balance then Some(OverApplication)
      else
        var newBalance := balance - paid;
        Some(Apply(FromScaled(newBalance), if newBalance == 0 then Settled else PartiallyApplied))
    case _ => None
  }

  datatype Outcome = OutSettled | OutPartial | OutFlagged

  datatype ReconcileDecision = Decision(outcome: Outcome, variance: string)

  function OutcomeOf(claimed: int, remitted: int): Outcome {
    if claimed == remitted then OutSettled else if claimed > remitted then OutPartial else OutFlagged
  }

  function DecideReconciliation(claimed: string, remitted: string): Option<ReconcileDecision> {
    match (ToScaledUnsigned(claimed), ToScaledUnsigned(remitted))
    case (Some(c), Some(r)) => Some(Decision(OutcomeOf(c, r), FromScaled(c - r)))
    case _ => None
  }

  /** The decision on a printed claim total, in integers. */
  lemma ReconciliationOf(claimed: nat, remitted: string)
    requires ToScaledUnsigned(remitted).Some?
    ensures var r := ToScaledUnsigned(remitted).value;
            DecideReconciliation(FromScaled(claimed), remitted)
            == Some(Decision(OutcomeOf(claimed, r), FromScaled(claimed - r)))
  {
    hide ToScaledUnsigned, FromScaled;
    UnsignedRoundTripIff(claimed);
  }

  /**
   * On a printed claim total and any readable remittance: the recorded variance, read by
   * the sign-aware parser, is exactly claimed minus remitted. Read by the module's own
   * unsigned parser it is exact if and only if the remittance does not exceed the claim by
   * a fractional amount.
   */
  lemma ReconciliationVariance(claimed: nat, remitted: string, d: ReconcileDecision)
    requires ToScaledUnsigned(remitted).Some?
    requires DecideReconciliation(FromScaled(claimed), remitted) == Some(d)
    ensures var v := claimed - ToScaledUnsigned(remitted).value;
            && ToScaledSigned(d.variance) == Some(v)
            && (d.outcome == OutSettled <==> v == 0)
            && (d.outcome == OutPartial <==> v > 0)
            && (d.outcome == OutFlagged <==> v < 0)
            && (ToScaledUnsigned(d.variance) == Some(v) <==> v >= 0 || -v % UNIT == 0)
  {
    hide DecideReconciliation, ToScaledUnsigned, ToScaledSigned, FromScaled;
    ReconciliationOf(claimed, remitted);
    VarianceReads(claimed - ToScaledUnsigned(remitted).value, d.variance);
  }

  lemma VarianceReads(v: int, text: string)
    requires text == FromScaled(v)
    ensures ToScaledSigned(text) == Some(v)
    ensures ToScaledUnsigned(text) == Some(v) <==> v >= 0 || -v % UNIT == 0
  {
    SignedRoundTrip(v);
    UnsignedRoundTripIff(v);
  }

  /**
   * Cash application on a printed balance never truncates: it refuses exactly an amount
   * above the balance, and otherwise the printed new balance plus the amount is the old one.
   */
  lemma ApplicationExact(balance: int, amount: string)
    requires ToScaledSigned(amount).Some?
    ensures var a := ToScaledSigned(amount).value;
            var d := DecideApplication(FromScaled(balance), amount);
            && d.Some?
            && (d.value.OverApplication? <==> a > balance)
            && (d.value.Apply? ==>
                  && ToScaledSigned(d.value.newBalance) == Some(balance - a)
                  && (d.value.newState == Settled <==> a == balance)
                  && (d.value.newState == PartiallyApplied <==> a < balance))
  {
    hide ToScaledSigned, FromScaled;
    SignedRoundTrip(balance);
    SignedRoundTrip(balance - ToScaledSigned(amount).value);
  }
}

/** First-in-first-out apportioning of one remittance over a claim's lines. */
module Fifo {
  import opened Basics

  predicate NonNegative(bs: seq<int>) { forall i :: 0 <= i < |bs| ==> bs[i] >= 0 }

  /** The part of `remitted` that line `i` absorbs: what its predecessors left, capped by its balance. */
  function Share(bs: seq<int>, remitted: int, i: nat): int
    requires i < |bs|
  {
    Min(bs[i], Max(0, remitted - Sum(bs[..i])))
  }

  function Shares(bs: seq<int>, remitted: int): (s: seq<int>)
    ensures |s| == |bs|
    ensures forall i :: 0 <= i < |bs| ==> s[i] == Share(bs, remitted, i)
  {
    seq(|bs|, i requires 0 <= i < |bs| => Share(bs, remitted, i))
  }

  lemma {:induction false} SumNonNegative(bs: seq<int>)
    requires NonNegative(bs)
    ensures Sum(bs) >= 0
  {
    if |bs| > 0 { SumNonNegative(bs[..|bs| - 1]); }
  }

  lemma {:induction false} SumMonotone(bs: seq<int>, i: nat, j: nat)
    requires NonNegative(bs) && i <= j <= |bs|
    ensures Sum(bs[..i]) <= Sum(bs[..j])
  {
    assert bs[..j] == bs[..i] + bs[i..j];
    SumConcat(bs[..i], bs[i..j]);
    SumNonNegative(bs[i..j]);
  }

  /** The shares of the first k lines add up to the remittance or to those lines' total. */
  lemma {:induction false} SharesSum(bs: seq<int>, remitted: int, k: nat)
    requires NonNegative(bs) && remitted >= 0 && k <= |bs|
    ensures Sum(Shares(bs, remitted)[..k]) == Min(remitted, Sum(bs[..k]))
  {
    if k > 0 {
      SharesSum(bs, remitted, k - 1);
      assert bs[..k][..k - 1] == bs[..k - 1];
      assert Shares(bs, remitted)[..k][..k - 1] == Shares(bs, remitted)[..k - 1];
    }
  }

  function Minus(a: seq<int>, b: seq<int>): (c: seq<int>)
    requires |a| == |b|
    ensures |c| == |a|
  {
    seq(|a|, i requires 0 <= i < |a| => a[i] - b[i])
  }

  lemma {:induction false} SumMinus(a: seq<int>, b: seq<int>)
    requires |a| == |b|
    ensures Sum(Minus(a, b)) == Sum(a) - Sum(b)
  {
    if |a| > 0 {
      var n := |a| - 1;
      assert Minus(a, b)[..n] == Minus(a[..n], b[..n]);
      SumMinus(a[..n], b[..n]);
    }
  }

  /** The balances left after apportioning add up to the unremitted part of the claim. */
  lemma BalancesLeft(bs: seq<int>, remitted: int)
    requires NonNegative(bs) && remitted >= 0
    ensures Sum(Minus(bs, Shares(bs, remitted))) == Max(0, Sum(bs) - remitted)
  {
    SharesSum(bs, remitted, |bs|);
    assert Shares(bs, remitted)[..|bs|] == Shares(bs, remitted) && bs[..|bs|] == bs;
    SumMinus(bs, Shares(bs, remitted));
  }

  /** Index of the first line the remittance does not clear, or the length. */
  function Frontier(bs: seq<int>, remitted: int): (k: nat)
    ensures k <= |bs|
  {
    if |bs| == 0 then 0
    else
      var k := Frontier(bs[..|bs| - 1], remitted);
      if k < |bs| - 1 then k else if Sum(bs) <= remitted then |bs| else |bs| - 1
  }

  lemma {:induction false} FrontierSplits(bs: seq<int>, remitted: int, i: nat)
    requires NonNegative(bs) && i < |bs|
    ensures i < Frontier(bs, remitted) <==> Sum(bs[..i + 1]) <= remitted
  {
    var n := |bs| - 1;
    assert bs[..n + 1] == bs;
    if i < n {
      FrontierSplits(bs[..n], remitted, i);
      assert bs[..n][..i + 1] == bs[..i + 1];
    } else if n > 0 {
      FrontierSplits(bs[..n], remitted, n - 1);
      assert bs[..n][..n] == bs[..n];
      SumMonotone(bs, n, n + 1);
    }
  }

  /**
   * Shape of a first-in-first-out apportioning: lines before the frontier are cleared, the
   * frontier line is partly reduced at most, and the lines after it are untouched.
   */
  lemma PrefixCleared(bs: seq<int>, remitted: int)
    requires NonNegative(bs) && remitted >= 0
    ensures var k, s := Frontier(bs, remitted), Shares(bs, remitted);
            && (forall i :: 0 <= i < k ==> s[i] == bs[i])
            && (k < |bs| ==> 0 <= s[k] < bs[k])
            && (forall i :: k < i < |bs| ==> s[i] == 0)
            && (k == |bs| <==> Sum(bs) <= remitted)
  {
    var k, s := Frontier(bs, remitted), Shares(bs, remitted);
    forall i | 0 <= i < |bs|
      ensures i < k ==> s[i] == bs[i]
      ensures i == k ==> 0 <= s[i] < bs[i]
      ensures i > k ==> s[i] == 0
    {
      FrontierSplits(bs, remitted, i);
      assert bs[..i + 1][..i] == bs[..i];
      if i > 0 {
        FrontierSplits(bs, remitted, i - 1);
        if i > k {
          FrontierSplits(bs, remitted, k);
          SumMonotone(bs, k + 1, i);
        }
      }
    }
    if |bs| > 0 {
      FrontierSplits(bs, remitted, |bs| - 1);
      assert bs[..|bs|] == bs;
    }
  }
}
