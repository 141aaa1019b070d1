/** The pricing formulas: balanced reserves with every intermediate rounded at eight digits, and a plugged-in price. */
module Formula {
  import opened Decimals

  datatype Refusal = BalanceTooLow | AmountTooLow | AmountTooBig

  datatype Quote = Quoted(amount: int) | Refused(reason: Refusal)

  // ---- Balanced reserves ----

  function BalancedOutGivenIn(balanceIn: nat, balanceOut: nat, amountIn: int): Quote {
    if balanceIn == 0 || balanceOut == 0 then Refused(BalanceTooLow)
    else if amountIn <= 0 then Refused(AmountTooLow)
    else
      var amount := RoundDiv(balanceOut * (SCALE - Div(balanceIn, balanceIn + amountIn)), SCALE);
      if amount <= 0 then Refused(AmountTooLow)
      else if amount >= balanceOut then Refused(AmountTooBig)
      else Quoted(amount)
  }

  function BalancedInGivenOut(balanceIn: nat, balanceOut: nat, amountOut: int): Quote {
    if balanceIn == 0 || balanceOut == 0 then Refused(BalanceTooLow)
    else if amountOut == 0 then Refused(AmountTooLow)
    else if amountOut >= balanceOut then Refused(AmountTooBig)
    else
      var amount := RoundDiv(balanceIn * (Div(balanceOut, balanceOut - amountOut) - SCALE), SCALE);
      if amount <= 0 then Refused(AmountTooLow) else Quoted(amount)
  }

  function BalancedSpotPrice(balanceIn: nat, balanceOut: nat): Quote {
    if balanceIn == 0 || balanceOut == 0 then Refused(BalanceTooLow) else Quoted(Div(balanceOut, balanceIn))
  }

  // ---- A plugged-in price, the exact decimal num / den ----

  function PluggableOutGivenIn(balanceOut: nat, num: int, den: int, amountIn: int): Quote
    requires den > 0
  {
    if amountIn == 0 then Refused(AmountTooLow)
    else
      var amount := RoundDiv(amountIn * num, den);
      if amount <= 0 then Refused(AmountTooLow)
      else if amount >= balanceOut then Refused(AmountTooBig)
      else Quoted(amount)
  }

  function PluggableInGivenOut(balanceOut: nat, num: int, den: int, amountOut: int): Quote
    requires den > 0
  {
    if amountOut == 0 then Refused(AmountTooLow)
    else if amountOut >= balanceOut then Refused(AmountTooBig)
    else
      var amount := RoundDiv(amountOut * num, den);
      if amount <= 0 then Refused(AmountTooLow) else Quoted(amount)
  }

  // ---- How far rounding takes a quote from the curve ----

  lemma ScaledError(x: int, e: int, d: int)
    requires x >= 0 && -d <= e <= d
    ensures -(x * d) <= x * e <= x * d
  {
    assert x * (d - e) >= 0;
    assert x * (d + e) >= 0;
  }

  /** Two roundings in a row: `r` of s*a/d and `m` of b*r'/s, with r' = s - r or r - s. */
  lemma ErrorBudget(b: int, d: int, s: int, k: int, e1: int, e2: int, m: int, q: int)
    requires b >= 0 && d > 0 && s > 0
    requires 2 * s * m == 2 * b * q + e2 && 2 * d * q == 2 * k * s + e1
    requires -d <= e1 <= d && -s <= e2 <= s
    ensures -((b + s) * d) <= 2 * s * d * m - 2 * s * b * k <= (b + s) * d
  {
    calc {
      2 * s * d * m;
      d * (2 * s * m);
      d * (2 * b * q) + d * e2;
      b * (2 * d * q) + d * e2;
      b * (2 * k * s) + b * e1 + d * e2;
      2 * s * b * k + b * e1 + d * e2;
    }
    ScaledError(b, e1, d);
    ScaledError(d, e2, s);
    assert (b + s) * d == b * d + d * s;
  }

  lemma OutBudget(balanceIn: int, balanceOut: int, a: int, r: int, m: int, s: int)
    requires balanceOut >= 0 && balanceIn + a > 0 && s > 0
    requires var d := balanceIn + a; -d <= 2 * (d * r - balanceIn * s) <= d
    requires -s <= 2 * (s * m - balanceOut * (s - r)) <= s
    ensures var d := balanceIn + a;
            -((balanceOut + s) * d) <= 2 * s * d * m - 2 * s * balanceOut * a <= (balanceOut + s) * d
  {
    var d, q := balanceIn + a, s - r;
    assert d * q == d * s - d * r && d * s == balanceIn * s + a * s;
    ErrorBudget(balanceOut, d, s, a, 0 - 2 * (d * r - balanceIn * s), 2 * (s * m - balanceOut * q), m, q);
  }

  lemma InBudget(balanceIn: int, balanceOut: int, a: int, r: int, m: int, s: int)
    requires balanceIn >= 0 && balanceOut - a > 0 && s > 0
    requires var d := balanceOut - a; -d <= 2 * (d * r - balanceOut * s) <= d
    requires -s <= 2 * (s * m - balanceIn * (r - s)) <= s
    ensures var d := balanceOut - a;
            -((balanceIn + s) * d) <= 2 * s * d * m - 2 * s * balanceIn * a <= (balanceIn + s) * d
  {
    var d, q := balanceOut - a, r - s;
    assert d * q == d * r - d * s && d * s == balanceOut * s - a * s;
    ErrorBudget(balanceIn, d, s, a, 2 * (d * r - balanceOut * s), 2 * (s * m - balanceIn * q), m, q);
  }

  /** A quote for an amount in misses the exact balanceOut * a / (balanceIn + a) by at most (balanceOut + 1) / 2 in the
      eighth digit (both sides times 2 * SCALE * (balanceIn + a)). */
  lemma OutGivenInError(balanceIn: nat, balanceOut: nat, a: int)
    requires BalancedOutGivenIn(balanceIn, balanceOut, a).Quoted?
    ensures var m := BalancedOutGivenIn(balanceIn, balanceOut, a).amount;
            var d := balanceIn + a;
            -((balanceOut + SCALE) * d) <= 2 * SCALE * d * m - 2 * SCALE * balanceOut * a <= (balanceOut + SCALE) * d
  {
    var r := Div(balanceIn, balanceIn + a);
    OutBudget(balanceIn, balanceOut, a, r, RoundDiv(balanceOut * (SCALE - r), SCALE), SCALE);
  }

  /** Symmetrically for an amount out: the exact amount in is balanceIn * a / (balanceOut - a). */
  lemma InGivenOutError(balanceIn: nat, balanceOut: nat, a: int)
    requires BalancedInGivenOut(balanceIn, balanceOut, a).Quoted?
    ensures var m := BalancedInGivenOut(balanceIn, balanceOut, a).amount;
            var d := balanceOut - a;
            -((balanceIn + SCALE) * d) <= 2 * SCALE * d * m - 2 * SCALE * balanceIn * a <= (balanceIn + SCALE) * d
  {
    var r := Div(balanceOut, balanceOut - a);
    InBudget(balanceIn, balanceOut, a, r, RoundDiv(balanceIn * (r - SCALE), SCALE), SCALE);
  }

  // ---- When there is a quote ----

  lemma QuoteLow(s: int, d: int, m: int, exact: int, budget: int)
    requires s > 0 && d > 0 && m <= 0 && 2 * s * d * m - exact >= 0 - budget
    ensures exact <= budget
  {
    assert 2 * s * d > 0;
    MulLe(m, 0, 2 * s * d);
    assert m * (2 * s * d) == 2 * s * d * m;
  }

  lemma QuoteHigh(s: int, d: int, m: int, top: int, exact: int, budget: int)
    requires s > 0 && d > 0 && m >= top && 2 * s * d * m - exact <= budget
    ensures exact + budget >= 2 * s * d * top
  {
    assert 2 * s * d > 0;
    MulLe(top, m, 2 * s * d);
    assert m * (2 * s * d) == 2 * s * d * m && top * (2 * s * d) == 2 * s * d * top;
  }

  /** Why an amount in is refused: an empty reserve; nothing paid; an exact amount out within the rounding of nothing, or of
      the whole reserve. */
  lemma OutRefusals(balanceIn: nat, balanceOut: nat, a: int)
    ensures var q, d := BalancedOutGivenIn(balanceIn, balanceOut, a), balanceIn + a;
            var exact, budget := 2 * SCALE * balanceOut * a, (balanceOut + SCALE) * d;
            && (q == Refused(BalanceTooLow) <==> balanceIn == 0 || balanceOut == 0)
            && (balanceIn > 0 && balanceOut > 0 && a <= 0 ==> q == Refused(AmountTooLow))
            && (a > 0 && q == Refused(AmountTooLow) ==> exact <= budget)
            && (q == Refused(AmountTooBig) ==> a > 0 && exact + budget >= 2 * SCALE * d * balanceOut)
  {
    if balanceIn > 0 && balanceOut > 0 && a > 0 {
      var d := balanceIn + a;
      var r := Div(balanceIn, d);
      var m := RoundDiv(balanceOut * (SCALE - r), SCALE);
      OutBudget(balanceIn, balanceOut, a, r, m, SCALE);
      if m <= 0 {
        QuoteLow(SCALE, d, m, 2 * SCALE * balanceOut * a, (balanceOut + SCALE) * d);
      } else if m >= balanceOut {
        QuoteHigh(SCALE, d, m, balanceOut, 2 * SCALE * balanceOut * a, (balanceOut + SCALE) * d);
      }
    }
  }

  /** The same for an amount out, which also must be below the reserve. */
  lemma InRefusals(balanceIn: nat, balanceOut: nat, a: nat)
    ensures var q, d := BalancedInGivenOut(balanceIn, balanceOut, a), balanceOut - a;
            && (q == Refused(BalanceTooLow) <==> balanceIn == 0 || balanceOut == 0)
            && (balanceIn > 0 && balanceOut > 0 && a == 0 ==> q == Refused(AmountTooLow))
            && (q == Refused(AmountTooBig) <==> balanceIn > 0 && balanceOut > 0 && a >= balanceOut)
            && (a > 0 && q == Refused(AmountTooLow) ==> 2 * SCALE * balanceIn * a <= (balanceIn + SCALE) * d)
  {
    if balanceIn > 0 && 0 < a < balanceOut {
      var d := balanceOut - a;
      var r := Div(balanceOut, d);
      var m := RoundDiv(balanceIn * (r - SCALE), SCALE);
      InBudget(balanceIn, balanceOut, a, r, m, SCALE);
      if m <= 0 { QuoteLow(SCALE, d, m, 2 * SCALE * balanceIn * a, (balanceIn + SCALE) * d); }
    }
  }

  /** So there is a quote, of at least `unit`, wherever the exact amount out is further from `unit` and from the reserve than
      the rounding goes. */
  lemma OutQuoted(balanceIn: nat, balanceOut: nat, a: int, unit: nat)
    requires balanceIn > 0 && balanceOut > 0 && a > 0 && unit > 0
    requires var d := balanceIn + a;
             var exact, budget := 2 * SCALE * balanceOut * a, (balanceOut + SCALE) * d;
             exact > budget + 2 * SCALE * d * (unit - 1) && exact + budget < 2 * SCALE * d * balanceOut
    ensures BalancedOutGivenIn(balanceIn, balanceOut, a).Quoted? && BalancedOutGivenIn(balanceIn, balanceOut, a).amount >= unit
  {
    var d := balanceIn + a;
    var exact, budget := 2 * SCALE * balanceOut * a, (balanceOut + SCALE) * d;
    var r := Div(balanceIn, d);
    var m := RoundDiv(balanceOut * (SCALE - r), SCALE);
    OutBudget(balanceIn, balanceOut, a, r, m, SCALE);
    if m >= balanceOut { QuoteHigh(SCALE, d, m, balanceOut, exact, budget); }
    AtLeast(SCALE, d, m, unit, exact, budget);
  }

  lemma AtLeast(s: int, d: int, m: int, unit: int, exact: int, budget: int)
    requires s > 0 && d > 0 && 2 * s * d * m - exact >= 0 - budget && exact > budget + 2 * s * d * (unit - 1)
    ensures m >= unit
  {
    assert 2 * s * d > 0;
    assert m * (2 * s * d) == 2 * s * d * m && (unit - 1) * (2 * s * d) == 2 * s * d * (unit - 1);
    MulCancel(unit - 1, m, 2 * s * d);
  }

  lemma InQuoted(balanceIn: nat, balanceOut: nat, a: nat, unit: nat)
    requires balanceIn > 0 && 0 < a < balanceOut && unit > 0
    requires 2 * SCALE * balanceIn * a > (balanceIn + SCALE) * (balanceOut - a) + 2 * SCALE * (balanceOut - a) * (unit - 1)
    ensures BalancedInGivenOut(balanceIn, balanceOut, a).Quoted? && BalancedInGivenOut(balanceIn, balanceOut, a).amount >= unit
  {
    var d := balanceOut - a;
    var r := Div(balanceOut, d);
    var m := RoundDiv(balanceIn * (r - SCALE), SCALE);
    InBudget(balanceIn, balanceOut, a, r, m, SCALE);
    AtLeast(SCALE, d, m, unit, 2 * SCALE * balanceIn * a, (balanceIn + SCALE) * d);
  }

  /** Rounding to at least `k`, exactly. */
  lemma RoundsTo(x: int, den: int, k: int)
    requires den > 0 && k > 0
    ensures RoundDiv(x, den) >= k <==> 2 * x >= (2 * k - 1) * den
  {
    var r := RoundDiv(x, den);
    if x > 0 {
      if r >= k {
        MulLe(k, r, den);
        assert k * den == den * k && r * den == den * r && (2 * k - 1) * den == 2 * (k * den) - den;
      } else {
        MulLe(r, k - 1, den);
        assert (k - 1) * den == k * den - den && r * den == den * r && (2 * k - 1) * den == 2 * (k * den) - den;
      }
    } else {
      MulLe(1, 2 * k - 1, den);
    }
  }

  /** At a plugged-in price there is a quote for an amount in exactly if the exact amount out rounds to something below the
      reserve. */
  lemma PluggableOutExactly(balanceOut: nat, num: int, den: int, a: int)
    requires den > 0
    ensures PluggableOutGivenIn(balanceOut, num, den, a).Quoted? <==> den <= 2 * (a * num) < (2 * balanceOut - 1) * den
    ensures PluggableOutGivenIn(balanceOut, num, den, a) == Refused(AmountTooBig) <==>
              den <= 2 * (a * num) && 2 * (a * num) >= (2 * balanceOut - 1) * den
  {
    RoundsTo(a * num, den, 1);
    if balanceOut > 0 { RoundsTo(a * num, den, balanceOut); }
  }

  /** And for an amount out exactly if it is below the reserve and the exact amount in rounds to something. */
  lemma PluggableInExactly(balanceOut: nat, num: int, den: int, a: int)
    requires den > 0
    ensures PluggableInGivenOut(balanceOut, num, den, a).Quoted? <==> a < balanceOut && den <= 2 * (a * num)
    ensures PluggableInGivenOut(balanceOut, num, den, a) == Refused(AmountTooBig) <==> a != 0 && a >= balanceOut
  {
    RoundsTo(a * num, den, 1);
  }

  /** There is a spot price exactly if neither reserve is empty, and it is not zero exactly if it rounds to something. */
  lemma SpotExactly(balanceIn: nat, balanceOut: nat)
    ensures BalancedSpotPrice(balanceIn, balanceOut).Quoted? <==> balanceIn > 0 && balanceOut > 0
    ensures balanceIn > 0 && balanceOut > 0 ==>
              (BalancedSpotPrice(balanceIn, balanceOut).amount > 0 <==> 2 * (balanceOut * SCALE) >= balanceIn)
  {
    if balanceIn > 0 { RoundsTo(balanceOut * SCALE, balanceIn, 1); }
  }

  // ---- The curve ----

  /** Selling `a` into the pool for `m` keeps the product up to the rounding term. */
  lemma CurveAfterIn(balanceIn: int, balanceOut: int, a: int, m: int, s: int)
    requires 2 * s * (balanceIn + a) * m - 2 * s * balanceOut * a <= (balanceOut + s) * (balanceIn + a)
    ensures 2 * s * ((balanceIn + a) * (balanceOut - m))
         >= 2 * s * (balanceIn * balanceOut) - (balanceOut + s) * (balanceIn + a)
  {
    assert (balanceIn + a) * (balanceOut - m) == balanceIn * balanceOut + balanceOut * a - (balanceIn + a) * m;
    Distribute(s, balanceIn * balanceOut, balanceOut * a, (balanceIn + a) * m);
  }

  /** Buying `a` out of the pool for `m` keeps the product up to the rounding term. */
  lemma CurveAfterOut(balanceIn: int, balanceOut: int, a: int, m: int, s: int)
    requires 2 * s * (balanceOut - a) * m - 2 * s * balanceIn * a >= -((balanceIn + s) * (balanceOut - a))
    ensures 2 * s * ((balanceIn + m) * (balanceOut - a))
         >= 2 * s * (balanceIn * balanceOut) - (balanceIn + s) * (balanceOut - a)
  {
    assert (balanceIn + m) * (balanceOut - a) == balanceIn * balanceOut - balanceIn * a + (balanceOut - a) * m;
    Distribute(s, balanceIn * balanceOut, (balanceOut - a) * m, balanceIn * a);
  }

  lemma Distribute(s: int, x: int, y: int, z: int)
    ensures 2 * s * (x + y - z) == 2 * s * x + 2 * s * y - 2 * s * z
  {
  }

  // ---- Any sequence of trades ----

  datatype Pool = Pool(x: nat, y: nat)

  /** A trade against the pool: which reserve it pays into, and whether the amount is what goes in or what comes out. */
  datatype PoolTrade = PoolTrade(intoX: bool, givenIn: bool, amount: nat)

  function QuoteFor(p: Pool, t: PoolTrade): Quote {
    var bi, bo := if t.intoX then p.x else p.y, if t.intoX then p.y else p.x;
    if t.givenIn then BalancedOutGivenIn(bi, bo, t.amount) else BalancedInGivenOut(bi, bo, t.amount)
  }

  lemma QuotePositive(p: Pool, t: PoolTrade)
    requires QuoteFor(p, t).Quoted?
    ensures QuoteFor(p, t).amount > 0
    ensures t.givenIn ==> QuoteFor(p, t).amount < (if t.intoX then p.y else p.x)
    ensures !t.givenIn ==> t.amount < (if t.intoX then p.y else p.x)
  {
  }

  /** The pool after a trade at its quote; a refused trade changes nothing. */
  function AfterTrade(p: Pool, t: PoolTrade): Pool {
    match QuoteFor(p, t)
    case Refused(_) => p
    case Quoted(m) =>
      QuotePositive(p, t);
      var paid, received := if t.givenIn then t.amount else m, if t.givenIn then m else t.amount;
      if t.intoX then Pool(p.x + paid, p.y - received) else Pool(p.x - received, p.y + paid)
  }

  /** The rounding terms of the two kinds of trade, in units of half of 10^-24. */
  function InTerm(balanceIn: int, balanceOut: int, a: int): int {
    (balanceOut + SCALE) * (balanceIn + a)
  }

  function OutTerm(balanceIn: int, balanceOut: int, a: int): int {
    (balanceIn + SCALE) * (balanceOut - a)
  }

  function RoundingTerm(p: Pool, t: PoolTrade): int {
    var bi, bo := if t.intoX then p.x else p.y, if t.intoX then p.y else p.x;
    if QuoteFor(p, t).Refused? then 0 else if t.givenIn then InTerm(bi, bo, t.amount) else OutTerm(bi, bo, t.amount)
  }

  lemma InKeepsProduct(balanceIn: nat, balanceOut: nat, a: int)
    requires BalancedOutGivenIn(balanceIn, balanceOut, a).Quoted?
    ensures var m := BalancedOutGivenIn(balanceIn, balanceOut, a).amount;
            2 * SCALE * ((balanceIn + a) * (balanceOut - m))
            >= 2 * SCALE * (balanceIn * balanceOut) - InTerm(balanceIn, balanceOut, a)
  {
    OutGivenInError(balanceIn, balanceOut, a);
    CurveAfterIn(balanceIn, balanceOut, a, BalancedOutGivenIn(balanceIn, balanceOut, a).amount, SCALE);
  }

  lemma OutKeepsProduct(balanceIn: nat, balanceOut: nat, a: int)
    requires BalancedInGivenOut(balanceIn, balanceOut, a).Quoted?
    ensures var m := BalancedInGivenOut(balanceIn, balanceOut, a).amount;
            2 * SCALE * ((balanceIn + m) * (balanceOut - a))
            >= 2 * SCALE * (balanceIn * balanceOut) - OutTerm(balanceIn, balanceOut, a)
  {
    InGivenOutError(balanceIn, balanceOut, a);
    CurveAfterOut(balanceIn, balanceOut, a, BalancedInGivenOut(balanceIn, balanceOut, a).amount, SCALE);
  }

  function Product(p: Pool): nat {
    p.x * p.y
  }

  lemma ProductOf(p: Pool, bi: int, bo: int)
    requires (p.x == bi && p.y == bo) || (p.x == bo && p.y == bi)
    ensures Product(p) == bi * bo
  {
  }

  lemma TradeKeepsProduct(p: Pool, t: PoolTrade)
    ensures 2 * SCALE * Product(AfterTrade(p, t)) >= 2 * SCALE * Product(p) - RoundingTerm(p, t)
  {
    var bi, bo := if t.intoX then p.x else p.y, if t.intoX then p.y else p.x;
    if QuoteFor(p, t).Quoted? {
      var m := QuoteFor(p, t).amount;
      ProductOf(p, bi, bo);
      if t.givenIn {
        InKeepsProduct(bi, bo, t.amount);
        ProductOf(AfterTrade(p, t), bi + t.amount, bo - m);
      } else {
        OutKeepsProduct(bi, bo, t.amount);
        ProductOf(AfterTrade(p, t), bi + m, bo - t.amount);
      }
    }
  }

  function AfterTrades(p: Pool, ts: seq<PoolTrade>): Pool {
    if ts == [] then p else AfterTrade(AfterTrades(p, ts[..|ts| - 1]), ts[|ts| - 1])
  }

  function RoundingTerms(p: Pool, ts: seq<PoolTrade>): int {
    if ts == [] then 0
    else
      var n := |ts| - 1;
      RoundingTerms(p, ts[..n]) + RoundingTerm(AfterTrades(p, ts[..n]), ts[n])
  }

  /** Over any sequence of trades the product of the reserves falls by no more than the sum of the rounding terms. */
  lemma {:induction false} ProductOverTrades(p: Pool, ts: seq<PoolTrade>)
    ensures 2 * SCALE * Product(AfterTrades(p, ts)) >= 2 * SCALE * Product(p) - RoundingTerms(p, ts)
  {
    if ts != [] {
      var n := |ts| - 1;
      ProductOverTrades(p, ts[..n]);
      TradeKeepsProduct(AfterTrades(p, ts[..n]), ts[n]);
    }
  }
}
