/**
 The profit-and-loss arithmetic of the payoff plotting helpers in
 `payoff_visualizer.py`: the payoff at expiry of a long call or put bought for
 a premium, its breakeven price, and the curves the helpers compute over a
 range of underlying prices before handing them to the plotting library.
 */
module Payoff {

  datatype Kind = Call | Put

  /** Lower-casing of one character, for the ASCII letters. */
  function LowerChar(c: char): (l: char)
    ensures 'A' <= c <= 'Z' ==> 'a' <= l <= 'z' && l as int - c as int == 32
    ensures !('A' <= c <= 'Z') ==> l == c
  {
    if 'A' <= c <= 'Z' then (c as int + 32) as char else c
  }

  /** Lower-casing of a tag, character by character. */
  function Lower(tag: string): (l: string)
    ensures |l| == |tag|
    ensures forall i :: 0 <= i < |tag| ==> l[i] == LowerChar(tag[i])
  {
    if tag == [] then [] else [LowerChar(tag[0])] + Lower(tag[1..])
  }

  /** The option kind a tag selects: "call" in any mix of cases is a call,
      and every other tag, whatever it says, falls through to a put. */
  function KindOf(tag: string): (kind: Kind)
    ensures kind == Call <==> |tag| == 4 && (forall i :: 0 <= i < 4 ==> tag[i] == "call"[i] || tag[i] == "CALL"[i])
  {
    var l := Lower(tag);
    if l == "call" then
      assert forall i :: 0 <= i < 4 ==> LowerChar(tag[i]) == "call"[i];
      Call
    else
      assert |tag| == 4 ==> exists i :: 0 <= i < 4 && l[i] != "call"[i];
      Put
  }

  /** Elementwise maximum of two prices, as the array maximum computes it. */
  function Maximum(a: real, b: real): (m: real)
    ensures m >= a && m >= b
    ensures m == a || m == b
  {
    if a >= b then a else b
  }

  /** The profit at expiry of one option bought for `premium`, when the
      underlying ends at `s`: the exercise value beyond the strike, less the
      premium paid. */
  function Profit(kind: Kind, s: real, k: real, premium: real): (v: real)
    ensures v >= -premium
    ensures kind == Call ==> v >= s - k - premium && (v == -premium || v == s - k - premium)
    ensures kind == Put ==> v >= k - s - premium && (v == -premium || v == k - s - premium)
  {
    match kind
    case Call => Maximum(s - k, 0.0) - premium
    case Put => Maximum(k - s, 0.0) - premium
  }

  /** The underlying price at which the option exactly recovers a
      non-negative premium: above the strike for a call, below it for a
      put. */
  function Breakeven(kind: Kind, k: real, premium: real): (b: real)
    ensures premium >= 0.0 ==> Profit(kind, b, k, premium) == 0.0
    ensures premium >= 0.0 && kind == Call ==> b >= k
    ensures premium >= 0.0 && kind == Put ==> b <= k
  {
    match kind
    case Call => k + premium
    case Put => k - premium
  }

  /** The payoff at every price of a range, one entry per price and in the
      same order. */
  function PayoffCurve(kind: Kind, prices: seq<real>, k: real, premium: real): (curve: seq<real>)
    ensures |curve| == |prices|
    ensures forall i :: 0 <= i < |prices| ==> curve[i] == Profit(kind, prices[i], k, premium)
  {
    if prices == [] then []
    else [Profit(kind, prices[0], k, premium)] + PayoffCurve(kind, prices[1..], k, premium)
  }

  /** The elementwise sum of two curves of the same length. */
  function AddCurves(a: seq<real>, b: seq<real>): (c: seq<real>)
    requires |a| == |b|
    ensures |c| == |a|
    ensures forall i :: 0 <= i < |a| ==> c[i] == a[i] + b[i]
  {
    if a == [] then [] else [a[0] + b[0]] + AddCurves(a[1..], b[1..])
  }

  /** |x|, the distance of a price from the strike. */
  function Abs(x: real): (a: real)
    ensures a >= 0.0 && (a == x || a == -x)
  {
    if x >= 0.0 then x else -x
  }

  /** The data of a single-option payoff diagram. */
  datatype PayoffChart = PayoffChart(payoff: seq<real>, breakeven: real)

  /** The data of a diagram of a call and a put on the same strike. */
  datatype CombinedChart = CombinedChart(callPayoff: seq<real>, putPayoff: seq<real>, combined: seq<real>,
                                         callBreakeven: real, putBreakeven: real)

  /** The curve and breakeven behind a single-option payoff diagram. The
      kind is read off the tag, so anything but "call" is drawn as a put. */
  function PlotPayoff(prices: seq<real>, k: real, premium: real, tag: string): (chart: PayoffChart)
    ensures |chart.payoff| == |prices|
    ensures forall i :: 0 <= i < |prices| ==> chart.payoff[i] == Profit(KindOf(tag), prices[i], k, premium)
    ensures forall i :: 0 <= i < |prices| ==> chart.payoff[i] >= -premium
    ensures chart.breakeven == Breakeven(KindOf(tag), k, premium)
    ensures premium >= 0.0 ==> Profit(KindOf(tag), chart.breakeven, k, premium) == 0.0
  {
    var kind := KindOf(tag);
    PayoffChart(PayoffCurve(kind, prices, k, premium), Breakeven(kind, k, premium))
  }

  /** The curves and breakevens behind a diagram of a call and a put on the
      same strike: the combined curve is the straddle, whose value at each
      price is the distance from the strike less both premiums. */
  function PlotCombinedPayoff(prices: seq<real>, k: real, callPremium: real, putPremium: real): (chart: CombinedChart)
    ensures |chart.callPayoff| == |chart.putPayoff| == |chart.combined| == |prices|
    ensures forall i :: 0 <= i < |prices| ==>
      chart.callPayoff[i] == Profit(Call, prices[i], k, callPremium) && chart.putPayoff[i] == Profit(Put, prices[i], k, putPremium)
    ensures forall i :: 0 <= i < |prices| ==> chart.combined[i] == chart.callPayoff[i] + chart.putPayoff[i]
    ensures forall i :: 0 <= i < |prices| ==> chart.combined[i] == Abs(prices[i] - k) - (callPremium + putPremium)
    ensures forall i :: 0 <= i < |prices| ==> chart.combined[i] >= -(callPremium + putPremium)
    ensures callPremium >= 0.0 ==> Profit(Call, chart.callBreakeven, k, callPremium) == 0.0
    ensures putPremium >= 0.0 ==> Profit(Put, chart.putBreakeven, k, putPremium) == 0.0
    ensures chart.callBreakeven == Breakeven(Call, k, callPremium)
    ensures chart.putBreakeven == Breakeven(Put, k, putPremium)
  {
    var callPayoff := PayoffCurve(Call, prices, k, callPremium);
    var putPayoff := PayoffCurve(Put, prices, k, putPremium);
    forall i | 0 <= i < |prices|
      ensures callPayoff[i] + putPayoff[i] == Abs(prices[i] - k) - (callPremium + putPremium)
    {
      Straddle(prices[i], k, callPremium, putPremium);
    }
    CombinedChart(callPayoff, putPayoff, AddCurves(callPayoff, putPayoff),
                  Breakeven(Call, k, callPremium), Breakeven(Put, k, putPremium))
  }

  /** A call payoff never falls as the underlying rises. */
  lemma CallPayoffMonotone(s1: real, s2: real, k: real, premium: real)
    requires s1 <= s2
    ensures Profit(Call, s1, k, premium) <= Profit(Call, s2, k, premium)
  {
  }

  /** A put payoff never rises as the underlying rises. */
  lemma PutPayoffAntitone(s1: real, s2: real, k: real, premium: real)
    requires s1 <= s2
    ensures Profit(Put, s1, k, premium) >= Profit(Put, s2, k, premium)
  {
  }

  /** With a non-negative premium, a call makes money exactly above its
      breakeven and a put exactly below its own. */
  lemma ProfitBeyondBreakeven(s: real, k: real, premium: real)
    requires premium >= 0.0
    ensures Profit(Call, s, k, premium) > 0.0 <==> s > Breakeven(Call, k, premium)
    ensures Profit(Put, s, k, premium) > 0.0 <==> s < Breakeven(Put, k, premium)
  {
  }

  /** A call and a put on the same strike together pay the distance of the
      underlying from the strike, less both premiums. */
  lemma Straddle(s: real, k: real, callPremium: real, putPremium: real)
    ensures Profit(Call, s, k, callPremium) + Profit(Put, s, k, putPremium) == Abs(s - k) - (callPremium + putPremium)
  {
  }

  /** Over an ascending price range the call curve is ascending and the put
      curve descending. */
  lemma CurvesFollowPrices(prices: seq<real>, k: real, premium: real)
    requires forall i, j :: 0 <= i < j < |prices| ==> prices[i] <= prices[j]
    ensures forall i, j :: 0 <= i < j < |prices| ==>
      PayoffCurve(Call, prices, k, premium)[i] <= PayoffCurve(Call, prices, k, premium)[j]
    ensures forall i, j :: 0 <= i < j < |prices| ==>
      PayoffCurve(Put, prices, k, premium)[i] >= PayoffCurve(Put, prices, k, premium)[j]
  {
    var calls := PayoffCurve(Call, prices, k, premium);
    var puts := PayoffCurve(Put, prices, k, premium);
    forall i, j | 0 <= i < j < |prices|
      ensures calls[i] <= calls[j] && puts[i] >= puts[j]
    {
      CallPayoffMonotone(prices[i], prices[j], k, premium);
      PutPayoffAntitone(prices[i], prices[j], k, premium);
    }
  }

  /** The tag test ignores case: any capitalisation of "call" plots a call,
      and a tag that is not one, such as "Put" or "calls", plots a put. */
  lemma TagCases()
    ensures KindOf("call") == Call && KindOf("Call") == Call && KindOf("CALL") == Call
    ensures KindOf("put") == Put && KindOf("Put") == Put && KindOf("calls") == Put && KindOf("") == Put
  {
  }
}
