# Black-Scholes-Merton options pricing, modelled in Dafny

This project models the pricing core of a small options simulator:

- the closed-form Black-Scholes-Merton prices of European calls and puts, through the standardised quantities d1 and d2;
- the sensitivities of those prices (the "Greeks": delta, gamma, theta, vega, rho);
- the profit-and-loss arithmetic behind the payoff diagrams. This covers the payoff at expiry of a long call or put, its breakeven price, and the straddle curve of a call and a put on one strike.

The repository keeps two copies of the pricing module. One is the package module `src/black_scholes.py`. The other is a top-level `black_scholes.py` with the same text, which the plotting helpers and the test script import. Both are modelled, and a lemma links them.

The floating-point library functions the code calls are modelled in `Numerics.Primitives` as a value of five functions over `real`: the standard normal distribution function Phi and density phi, exp, ln and sqrt. Every formula takes this value as a parameter. The predicate `Primitives.Valid()` states the only facts the proofs use:

- Phi lies in [0, 1];
- Phi(-x) = 1 - Phi(x);
- phi is positive;
- exp is positive, exp(0) = 1, and exp is below 1 for negative arguments;
- sqrt of a non-negative number is a non-negative square root.

ln is left unconstrained. The five inputs S, K, T, r and sigma are `Market.Params`. `Params.Valid()` requires S, K, T and sigma to be positive: the documented domain of the formulas (prices, a time in years and a volatility), not merely what the arithmetic needs. The rate may have either sign.

Files:

- `numerics.dfy`: the primitives and their facts.
- `market.dfy`: the inputs and the discounted strike K e^(-rT).
- `arith.dfy`: identities of real arithmetic, stated over plain variables and instantiated by the pricing proofs.
- `black_scholes.dfy`: `src/black_scholes.py`.
- `root_black_scholes.dfy`: the top-level `black_scholes.py`.
- `greeks.dfy`: `src/greeks.py`.
- `payoff.dfy`: the arithmetic of `payoff_visualizer.py`.

## Model

| member | source | states |
|---|---|---|
| Market.DiscountedStrike | src/black_scholes.py:76 | K e^(-rT) is positive, equals K at a zero rate and lies strictly below K at a positive rate |
| BlackScholes.D1Scaled | src/black_scholes.py:4-26 | d1 (`BlackScholes.D1`, which has no contract of its own) times sigma sqrt(T) is ln(S/K) + (r + sigma^2/2) T, and d1 is positive exactly when that numerator is |
| BlackScholes.D2 | src/black_scholes.py:28-50 | d2 lies strictly below d1, and the gap d1 - d2 squares to sigma^2 T (the gap is sigma sqrt(T)) |
| BlackScholes.CallPrice | src/black_scholes.py:52-76 | the call price never exceeds the spot S |
| BlackScholes.PutPrice | src/black_scholes.py:78-102 | the put price never exceeds the discounted strike K e^(-rT) |
| BlackScholes.PutCallParity | test_options.py:36-38 | call + K e^(-rT) == put + S exactly, for every valid input |
| BlackScholes.AtTheMoneyZeroRate | src/black_scholes.py:76-102 | at the money (S = K) with r = 0 the call and the put cost the same |
| BlackScholes.AtTheMoneyPositiveRate | src/black_scholes.py:76-102 | at the money with r > 0 the call is strictly dearer than the put |
| RootBlackScholes.D1Scaled | black_scholes.py:4-26 | top-level copy: d1 (`RootBlackScholes.D1`) times sigma sqrt(T) is ln(S/K) + (r + sigma^2/2) T, and d1 is positive exactly when that numerator is |
| RootBlackScholes.D2 | black_scholes.py:28-50 | top-level copy: d2 lies strictly below d1, with gap squared sigma^2 T |
| RootBlackScholes.CallPrice | black_scholes.py:52-76 | top-level copy: the call price never exceeds S |
| RootBlackScholes.PutPrice | black_scholes.py:78-102 | top-level copy: the put price never exceeds K e^(-rT) |
| RootBlackScholes.AgreesWithPackage | black_scholes.py:4-102 | the top-level copy computes the same d1, d2, call and put as the package copy |
| RootBlackScholes.PutCallParity | test_options.py:37 | put-call parity for the copy the test script prices with |
| Greeks.DeltaCall | src/greeks.py:5-27 | the call delta lies in [0, 1] |
| Greeks.DeltaPut | src/greeks.py:29-51 | the put delta lies in [-1, 0] |
| Greeks.Gamma | src/greeks.py:53-75 | gamma is strictly positive |
| Greeks.ThetaCall | src/greeks.py:77-103 | call theta is strictly negative whenever r >= 0 |
| Greeks.ThetaPut | src/greeks.py:105-131 | put theta is strictly negative whenever r <= 0 |
| Greeks.Vega | src/greeks.py:133-155 | vega is strictly positive |
| Greeks.RhoCall | src/greeks.py:157-179 | call rho is never negative |
| Greeks.RhoPut | src/greeks.py:181-203 | put rho is never positive |
| Greeks.DeltaPutFromCall | src/greeks.py:27-51 | put delta == call delta - 1, and also == -Phi(-d1) |
| Greeks.ThetaDifference | src/greeks.py:99-131 | call theta - put theta == -r K e^(-rT): the decay terms cancel |
| Greeks.RhoDifference | src/greeks.py:179-203 | call rho - put rho == T K e^(-rT) |
| Greeks.VegaFromGamma | src/greeks.py:75-155 | vega == gamma S^2 sigma T |
| Greeks.CallPriceFromDeltaAndRho | src/greeks.py:27-179 | call price == S * call delta - call rho / T |
| Greeks.PutPriceFromDeltaAndRho | src/greeks.py:51-203 | put price == S * put delta - put rho / T |
| Greeks.ThetaCallFromVegaAndRho | src/greeks.py:99-179 | call theta == -sigma vega / (2T) - r * call rho / T |
| Greeks.ThetaPutFromVegaAndRho | src/greeks.py:127-203 | put theta == -sigma vega / (2T) - r * put rho / T |
| Payoff.Lower | payoff_visualizer.py:22 | lower-casing keeps the length and lowers each character in place |
| Payoff.KindOf | payoff_visualizer.py:22 | a tag selects a call exactly when it is four characters spelling "call" in any mix of cases; every other tag selects a put |
| Payoff.TagCases | payoff_visualizer.py:22-27 | "call", "Call" and "CALL" plot calls; "put", "Put", "calls" and "" plot puts |
| Payoff.Maximum | payoff_visualizer.py:23 | the maximum is at least both arguments and is one of them |
| Payoff.Profit | payoff_visualizer.py:23-26 | the payoff is never below -premium, and it is either -premium or the exercise value less the premium, whichever is larger |
| Payoff.Breakeven | payoff_visualizer.py:24-27 | with premium >= 0 the payoff at the breakeven is exactly 0; a call breaks even at or above the strike and a put at or below it |
| Payoff.PayoffCurve | payoff_visualizer.py:23-26 | the curve has one payoff per price, in the order of the prices |
| Payoff.AddCurves | payoff_visualizer.py:63 | the sum of two equal-length curves is their elementwise sum |
| Payoff.PlotPayoff | payoff_visualizer.py:22-27 | one payoff per price, for the kind the tag selects, none below -premium; the breakeven is that kind's breakeven (K + premium for a call, K - premium for a put), where the payoff is 0 when premium >= 0 |
| Payoff.PlotCombinedPayoff | payoff_visualizer.py:61-66 | three curves of the range's length: the call payoff and the put payoff at each price, and combined == call + put == abs(S - K) - (call premium + put premium) pointwise, never below minus both premiums; the breakevens are K + call premium and K - put premium, each with payoff 0 when its premium >= 0 |
| Payoff.CallPayoffMonotone | payoff_visualizer.py:23 | the call payoff never falls as S rises |
| Payoff.PutPayoffAntitone | payoff_visualizer.py:26 | the put payoff never rises as S rises |
| Payoff.ProfitBeyondBreakeven | payoff_visualizer.py:23-27 | with premium >= 0 a call is profitable iff S > K + premium, and a put iff S < K - premium |
| Payoff.Straddle | payoff_visualizer.py:61-63 | a call plus a put on one strike pay abs(S - K) less both premiums |
| Payoff.CurvesFollowPrices | payoff_visualizer.py:23-26 | over an ascending price range the call curve ascends and the put curve descends |

## Left out

- Floating-point rounding and the accuracy of the numerical library's normal distribution, exp, log and sqrt. They are abstract functions constrained only by the facts in `Primitives.Valid()`, so concrete prices such as about 10.45 for the at-the-money test case are not derived.
- T = 0 and sigma = 0. The code divides by zero there and produces infinities or NaN. `Params.Valid()` requires both to be positive; it does not invent a fallback.
- Negative sigma, and S and K of equal negative sign. The code evaluates them without error, but they lie outside the documented domain. `Params.Valid()` excludes them, and the sign facts for gamma, vega and theta fail there.
- Monotonicity of prices in S or sigma, and their deep in- and out-of-the-money limits. These need calculus on Phi that the abstract primitives do not provide.
- BlackScholes.CallPrice: does not state that the price is non-negative. Non-negativity depends on the shape of Phi beyond the facts assumed.
- BlackScholes.PutPrice: does not state that the price is non-negative, for the same reason.
- RootBlackScholes.CallPrice: does not state that the price is non-negative. Non-negativity depends on the shape of Phi beyond the facts assumed.
- RootBlackScholes.PutPrice: does not state that the price is non-negative, for the same reason.
- Sharing of d1 and d2 between the call and the put holds by construction. Both prices call the same `D1` and `D2` on the same inputs, so no lemma is stated for it.
- Gamma and vega serving both calls and puts likewise holds by construction: there is one function each.
- BlackScholes.D1 and RootBlackScholes.D1 carry no contract of their own. Their `D1Scaled` lemmas characterise them, and D2's contract and the prices constrain them further. ln is unconstrained, so d1's sign is known only relative to the sign of its numerator.
- All plotting calls, figure titles, labels and the `show_breakeven` flag of both plotting helpers (payoff_visualizer.py:29-42, 68-85). These are presentation only; the helpers return the plotting library, not data.
- Payoff.PlotPayoff: takes the option tag explicitly, while `plot_payoff` defaults it to `'call'` (payoff_visualizer.py:5). Dafny has no default arguments; passing "call" gives the default behaviour, and `TagCases` shows that this selects a call.
- Payoff.Lower: lowers only the ASCII letters A-Z. Python's lower-casing also maps other Unicode capitals, which never spell "call".
- The array arguments of the plotting helpers are modelled as sequences of reals. The strike and premiums are scalars, and the array library's broadcasting of other shapes is not modelled.
- The top-level `greeks` module that the test script imports is not part of this model; `src/greeks.py` is.
- Printing and reporting in the test script, `setup.py` (packaging) and the package `__init__.py` files (re-exports only).
