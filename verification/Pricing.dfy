/** Prices of provider requests, in micros, from a rate card: bounded multiplication, division that
    rounds up, and the assembly of an AI price from its token terms. */
module Pricing {
  import opened Bounded
  import opened Wrappers

  /** Rust's integer division truncates toward zero. */
  function TruncatingDiv(a: int, d: int): int
    requires d > 0
  {
    if a >= 0 then a / d else -((-a) / d)
  }

  function CheckedI64(x: int): Option<I64> {
    if FitsI64(x) then Some(x) else None
  }

  function MultiplyU64(quantity: U64, rate: I64): Option<I64> {
    if FitsI128(quantity * rate) then CheckedI64(quantity * rate) else None
  }

  function MultiplyRatioCeil(quantity: U64, rate: I64, divisor: int): Option<I64>
    requires 0 < divisor
  {
    var value := quantity * rate;
    if !FitsI128(value) || !FitsI128(value + (divisor - 1)) then None
    else CheckedI64(TruncatingDiv(value + (divisor - 1), divisor))
  }

  // ---- Rounding ----

  /** `m` is the least integer whose multiple covers `v`. */
  predicate LeastCover(m: int, v: int, d: int) {
    m * d >= v && (m - 1) * d < v
  }

  lemma LeastCoverIsUnique(m: int, n: int, v: int, d: int)
    requires d > 0 && LeastCover(m, v, d) && LeastCover(n, v, d)
    ensures m == n
  {
    if m < n {
      MulMonotone(m, n - 1, d);
    } else if n < m {
      MulMonotone(n, m - 1, d);
    }
  }

  lemma MulMonotone(a: int, b: int, d: int)
    requires a <= b && d >= 0
    ensures a * d <= b * d
  {
    assert (b - a) * d >= 0;
  }

  lemma ProductBound(a: int, b: int, maxA: int, maxB: int)
    requires 0 <= a <= maxA && 0 <= b <= maxB
    ensures 0 <= a * b <= maxA * maxB
  {
    MulMonotone(a, maxA, b);
    MulMonotone(b, maxB, maxA);
    MulMonotone(0, a, b);
  }

  /** The 128-bit intermediate values of every price the code computes are in range. */
  lemma {:induction false} NeverOverflowsI128(quantity: U64, rate: I64, divisor: int)
    requires 0 < divisor <= 1_000_000
    ensures FitsI128(quantity * rate) && FitsI128(quantity * rate + (divisor - 1))
  {
    var r: int := if rate >= 0 then rate else 0 - rate as int;
    ProductBound(quantity, r, U64_MAX, 0x8000_0000_0000_0000);
    assert rate < 0 ==> quantity * rate == 0 - quantity * r;
  }

  lemma DivisionRoundsUp(v: int, d: int)
    requires d > 0 && v >= 0
    ensures LeastCover(TruncatingDiv(v + (d - 1), d), v, d)
  {
    var m := (v + (d - 1)) / d;
    assert v + (d - 1) == m * d + (v + (d - 1)) % d;
  }

  /** For a non-negative rate the quotient is the least one that covers the product, and it is
      missing exactly when that quotient does not fit in 64 bits. */
  lemma {:induction false} RatioRoundsUp(quantity: U64, rate: I64, divisor: int)
    requires 0 < divisor <= 1_000_000 && rate >= 0
    ensures var m := MultiplyRatioCeil(quantity, rate, divisor);
            && (m.Some? ==> m.value >= 0 && LeastCover(m.value, quantity * rate, divisor))
            && (m.None? <==> quantity * rate > I64_MAX * divisor)
  {
    NeverOverflowsI128(quantity, rate, divisor);
    ProductBound(quantity, rate, U64_MAX, I64_MAX);
    QuotientFits(quantity * rate, divisor);
  }

  lemma {:induction false} QuotientFits(v: int, d: int)
    requires d > 0 && v >= 0
    ensures var m := TruncatingDiv(v + (d - 1), d);
            m >= 0 && LeastCover(m, v, d) && (m > I64_MAX <==> v > I64_MAX * d)
  {
    DivisionRoundsUp(v, d);
    var m := TruncatingDiv(v + (d - 1), d);
    if m > I64_MAX {
      MulMonotone(I64_MAX, m - 1, d);
    } else {
      MulMonotone(m, I64_MAX, d);
    }
  }

  /** The result is the least cover of the product, and the only number that is. */
  lemma RatioIsTheLeastCover(quantity: U64, rate: I64, divisor: int, m: I64)
    requires 0 < divisor <= 1_000_000 && rate >= 0
    ensures MultiplyRatioCeil(quantity, rate, divisor) == Some(m) <==> LeastCover(m, quantity * rate, divisor)
  {
    RatioRoundsUp(quantity, rate, divisor);
    var result := MultiplyRatioCeil(quantity, rate, divisor);
    if LeastCover(m, quantity * rate, divisor) {
      MulMonotone(m, I64_MAX, divisor);
      LeastCoverIsUnique(result.value, m, quantity * rate, divisor);
    }
  }

  /** Why a stored rate must not be negative: over all rates the result rounds up if and only if the
      product is above `-divisor`, or one more than a multiple of it. */
  lemma RoundsUpIffNotNegative(quantity: U64, rate: I64, divisor: int)
    requires 2 <= divisor <= 1_000_000
    ensures var m := MultiplyRatioCeil(quantity, rate, divisor);
            m.Some? ==>
              (LeastCover(m.value, quantity * rate, divisor)
               <==> quantity * rate > -divisor || quantity * rate % divisor == 1)
  {
    QuotientRoundsUpIff(quantity * rate, divisor);
  }

  lemma {:induction false} QuotientRoundsUpIff(v: int, d: int)
    requires d >= 2
    ensures LeastCover(TruncatingDiv(v + (d - 1), d), v, d) <==> v > -d || v % d == 1
  {
    if v >= 0 {
      DivisionRoundsUp(v, d);
    } else if v > -d {
      assert TruncatingDiv(v + (d - 1), d) == 0 by {
        assert 0 <= v + (d - 1) < d;
        SmallQuotient(v + (d - 1), d);
      }
    } else {
      NegativeQuotient(v, d);
    }
  }

  lemma {:induction false} NegativeQuotient(v: int, d: int)
    requires d >= 2 && v <= -d
    ensures LeastCover(TruncatingDiv(v + (d - 1), d), v, d) <==> v % d == 1
  {
    var k, j := v / d, v % d;
    assert v == k * d + j && 0 <= j < d;
    var w := -(v + (d - 1));
    QuotientIs(w, d, -k - 1, 1 - j);
    assert (k + 1) * d == k * d + d && (k + 2) * d == k * d + 2 * d && (k - 1) * d == k * d - d;
  }

  lemma SmallQuotient(a: int, d: int)
    requires 0 <= a < d
    ensures a / d == 0
  {
  }

  /** Division by its defining equation, for a remainder that may be one block too low. */
  lemma {:induction false} QuotientIs(a: int, d: int, q: int, r: int)
    requires d >= 2 && a == q * d + r && -d < r < d && a >= 0
    ensures a / d == if r >= 0 then q else q - 1
  {
    var q' := if r >= 0 then q else q - 1;
    var r' := if r >= 0 then r else r + d;
    assert a == q' * d + r';
    assert (q' * d + r') / d == q' by {
      DivUnique(q' * d + r', d, q', r');
    }
  }

  lemma {:induction false} DivUnique(a: int, d: int, q: int, r: int)
    requires d > 0 && a == q * d + r && 0 <= r < d
    ensures a / d == q
  {
    var p := a / d;
    assert a == p * d + a % d;
    if p < q {
      MulMonotone(p, q - 1, d);
    } else if q < p {
      MulMonotone(q, p - 1, d);
    }
  }

  // ---- Pricing dispatches one by one ----

  function Sum(xs: seq<int>): int {
    if xs == [] then 0 else xs[0] + Sum(xs[1..])
  }

  predicate PricedSeparately(quantities: seq<U64>, prices: seq<I64>, rate: I64, divisor: int)
    requires divisor > 0
  {
    |quantities| == |prices|
    && forall i :: 0 <= i < |quantities| ==> MultiplyRatioCeil(quantities[i], rate, divisor) == Some(prices[i])
  }

  lemma {:induction false} SeparatePricesBracket(quantities: seq<U64>, prices: seq<I64>, rate: I64, divisor: int)
    requires 0 < divisor <= 1_000_000 && rate >= 0 && PricedSeparately(quantities, prices, rate, divisor)
    ensures Sum(quantities) >= 0
    ensures Sum(quantities) * rate <= Sum(prices) * divisor
         <= Sum(quantities) * rate + |quantities| * (divisor - 1)
  {
    if quantities == [] {
    } else {
      SeparatePricesBracket(quantities[1..], prices[1..], rate, divisor);
      RatioRoundsUp(quantities[0], rate, divisor);
      BracketStep(quantities[0], Sum(quantities[1..]), prices[0], Sum(prices[1..]), rate, divisor, |quantities| - 1);
    }
  }

  /** One more rounded-up price keeps the sum of prices within one divisor of the exact amount. */
  lemma BracketStep(q: int, qs: int, p: int, ps: int, rate: int, d: int, n: int)
    requires LeastCover(p, q * rate, d)
    requires qs * rate <= ps * d <= qs * rate + n * (d - 1)
    ensures (q + qs) * rate <= (p + ps) * d <= (q + qs) * rate + (n + 1) * (d - 1)
  {
    assert (q + qs) * rate == q * rate + qs * rate;
    assert (p + ps) * d == p * d + ps * d;
    assert (p - 1) * d == p * d - d;
    assert (n + 1) * (d - 1) == n * (d - 1) + (d - 1);
  }

  lemma {:induction false} BracketBounds(s: int, n: int, m: int, v: int, d: int)
    requires d > 0 && n > 0 && LeastCover(m, v, d) && v <= s * d <= v + n * (d - 1)
    ensures m <= s <= m + n - 1
  {
    if s < m {
      MulMonotone(s, m - 1, d);
    }
    assert (m + n) * d == m * d + n * d && n * (d - 1) == n * d - n;
    assert (m - 1) * d == m * d - d;
    if s > m + n - 1 {
      MulMonotone(m + n, s, d);
    }
  }

  /** Pricing dispatches separately always covers the price of the combined quantity, and loses less
      than one micro per additional dispatch. */
  lemma {:induction false} SeparatePricesCoverCombined(quantities: seq<U64>, prices: seq<I64>, rate: I64, divisor: int)
    requires 0 < divisor <= 1_000_000 && rate >= 0 && PricedSeparately(quantities, prices, rate, divisor)
    requires quantities != [] && 0 <= Sum(quantities) <= U64_MAX
    ensures var combined := MultiplyRatioCeil(Sum(quantities), rate, divisor);
            && (combined.Some? ==> combined.value <= Sum(prices) <= combined.value + |quantities| - 1)
            && (combined.None? ==> Sum(prices) > I64_MAX)
  {
    SeparatePricesBracket(quantities, prices, rate, divisor);
    RatioRoundsUp(Sum(quantities), rate, divisor);
    var combined := MultiplyRatioCeil(Sum(quantities), rate, divisor);
    if combined.Some? {
      BracketBounds(Sum(prices), |quantities|, combined.value, Sum(quantities) * rate, divisor);
    } else if Sum(prices) <= I64_MAX {
      MulMonotone(Sum(prices), I64_MAX, divisor);
    }
  }

  // ---- Rate cards ----

  type Pricing = map<string, I64>

  function FirstRate(pricing: Pricing, keys: seq<string>): Option<I64> {
    if keys == [] then None
    else if keys[0] in pricing then Some(pricing[keys[0]])
    else FirstRate(pricing, keys[1..])
  }

  function PriceTokens(pricing: Pricing, tokens: U64, directKeys: seq<string>,
                       perMillionKeys: seq<string>): Option<I64> {
    var direct := FirstRate(pricing, directKeys);
    if direct.Some? then MultiplyU64(tokens, direct.value)
    else
      var rate := FirstRate(pricing, perMillionKeys);
      if rate.None? then None else MultiplyRatioCeil(tokens, rate.value, 1_000_000)
  }

  function PriceTts(pricing: Pricing, characters: Option<U64>): Option<I64> {
    if characters.None? then None
    else
      var direct := FirstRate(pricing, ["per_character_micros", "character_micros"]);
      if direct.Some? then MultiplyU64(characters.value, direct.value)
      else
        var rate := FirstRate(pricing, ["per_1000_characters_micros"]);
        if rate.None? then None else MultiplyRatioCeil(characters.value, rate.value, 1_000)
  }

  datatype Tokens = Tokens(
    input: Option<U64>,
    output: Option<U64>,
    cacheRead: Option<U64>,
    reasoning: Option<U64>)

  datatype TokenKind = Input | Output | CachedInput | Reasoning {

    function DirectKeys(): seq<string> {
      match this
      case Input => ["per_input_token_micros", "input_token_micros"]
      case Output => ["per_output_token_micros", "output_token_micros"]
      case CachedInput => ["per_cached_input_token_micros", "cached_input_token_micros"]
      case Reasoning => ["per_reasoning_token_micros", "reasoning_token_micros"]
    }

    function PerMillionKeys(): seq<string> {
      match this
      case Input => ["per_1m_input_tokens_micros"]
      case Output => ["per_1m_output_tokens_micros"]
      case CachedInput => ["per_1m_cached_input_tokens_micros"]
      case Reasoning => ["per_1m_reasoning_tokens_micros"]
    }

    /** The kind whose rate is charged when this one has no price of its own. */
    function Fallback(): TokenKind {
      match this
      case Input => Input
      case Output => Output
      case CachedInput => Input
      case Reasoning => Output
    }
  }

  function Price(pricing: Pricing, kind: TokenKind, tokens: U64): Option<I64> {
    PriceTokens(pricing, tokens, kind.DirectKeys(), kind.PerMillionKeys())
  }

  function OrElse(first: Option<I64>, second: Option<I64>): Option<I64> {
    if first.Some? then first else second
  }

  function Plus(total: Option<I64>, term: Option<I64>): Option<I64> {
    if total.None? || term.None? then None else Some(SaturatingAdd(total.value, term.value))
  }

  function CachedTokens(q: Tokens): U64
    requires q.input.Some?
  {
    Min(q.cacheRead.GetOr(0), q.input.value)
  }

  function PriceCharacterDetection(pricing: Pricing, q: Tokens): Option<I64> {
    if q.input.None? || q.output.None? then None
    else
      var cached := CachedTokens(q);
      var total := Plus(Price(pricing, Input, q.input.value - cached), Price(pricing, Output, q.output.value));
      var withCached :=
        if cached > 0 then
          Plus(total, OrElse(Price(pricing, CachedInput, cached), Price(pricing, Input, cached)))
        else total;
      if q.reasoning.GetOr(0) > 0 then
        Plus(withCached,
             OrElse(Price(pricing, Reasoning, q.reasoning.value), Price(pricing, Output, q.reasoning.value)))
      else withCached
  }

  // ---- The exact price ----

  /** A rate as the card states it: micros per token, or per million tokens. */
  datatype Rate = PerToken(micros: I64) | PerMillion(micros: I64)

  function StatedRate(pricing: Pricing, kind: TokenKind): Option<Rate> {
    var direct := FirstRate(pricing, kind.DirectKeys());
    var perMillion := FirstRate(pricing, kind.PerMillionKeys());
    if direct.Some? then Some(PerToken(direct.value))
    else if perMillion.Some? then Some(PerMillion(perMillion.value))
    else None
  }

  /** The first of two per-token prices that a card states, else its price per million. */
  function NamedRate(pricing: Pricing, first: string, second: string, million: string): Option<Rate> {
    if first in pricing then Some(PerToken(pricing[first]))
    else if second in pricing then Some(PerToken(pricing[second]))
    else if million in pricing then Some(PerMillion(pricing[million]))
    else None
  }

  /** The names under which a card states each kind's price. */
  lemma RatesAreNamed(pricing: Pricing)
    ensures StatedRate(pricing, Input)
         == NamedRate(pricing, "per_input_token_micros", "input_token_micros", "per_1m_input_tokens_micros")
    ensures StatedRate(pricing, Output)
         == NamedRate(pricing, "per_output_token_micros", "output_token_micros", "per_1m_output_tokens_micros")
    ensures StatedRate(pricing, CachedInput)
         == NamedRate(pricing, "per_cached_input_token_micros", "cached_input_token_micros",
                      "per_1m_cached_input_tokens_micros")
    ensures StatedRate(pricing, Reasoning)
         == NamedRate(pricing, "per_reasoning_token_micros", "reasoning_token_micros",
                      "per_1m_reasoning_tokens_micros")
  {
    FirstOfTwo(pricing, "per_input_token_micros", "input_token_micros", "per_1m_input_tokens_micros");
    FirstOfTwo(pricing, "per_output_token_micros", "output_token_micros", "per_1m_output_tokens_micros");
    FirstOfTwo(pricing, "per_cached_input_token_micros", "cached_input_token_micros",
               "per_1m_cached_input_tokens_micros");
    FirstOfTwo(pricing, "per_reasoning_token_micros", "reasoning_token_micros", "per_1m_reasoning_tokens_micros");
  }

  lemma {:induction false} FirstOfTwo(pricing: Pricing, first: string, second: string, million: string)
    ensures FirstRate(pricing, [first, second])
         == if first in pricing then Some(pricing[first])
            else if second in pricing then Some(pricing[second]) else None
    ensures FirstRate(pricing, [million]) == if million in pricing then Some(pricing[million]) else None
  {
    var both, last, one: seq<string> := [first, second], [second], [million];
    assert both[1..] == last && last[1..] == [] && one[1..] == [];
    assert FirstRate(pricing, last) == if second in pricing then Some(pricing[second]) else None;
  }

  /** The rate a kind should be charged at: its own when the card states one, else its fallback's. */
  function ProperRate(pricing: Pricing, kind: TokenKind): Option<Rate> {
    var own := StatedRate(pricing, kind);
    if own.Some? then own else StatedRate(pricing, kind.Fallback())
  }

  /** The exact price of some tokens at a rate, rounded up to a whole micro and not bounded. */
  function ExactTerm(rate: Rate, tokens: nat): int
    requires rate.micros >= 0
  {
    match rate
    case PerToken(r) => tokens * r
    case PerMillion(r) => (tokens * r + 999_999) / 1_000_000
  }

  predicate NonNegativeRates(pricing: Pricing) {
    forall key :: key in pricing ==> pricing[key] >= 0
  }

  lemma {:induction false} FirstRateIsStated(pricing: Pricing, keys: seq<string>)
    ensures var r := FirstRate(pricing, keys); r.Some? ==> exists key :: key in pricing && pricing[key] == r.value
  {
    if keys != [] && keys[0] !in pricing {
      FirstRateIsStated(pricing, keys[1..]);
    }
  }

  lemma StatedRateIsNonNegative(pricing: Pricing, kind: TokenKind)
    requires NonNegativeRates(pricing)
    ensures StatedRate(pricing, kind).Some? ==> StatedRate(pricing, kind).value.micros >= 0
  {
    FirstRateIsStated(pricing, kind.DirectKeys());
    FirstRateIsStated(pricing, kind.PerMillionKeys());
  }

  /** One term of the price: the exact amount when it fits, nothing when it does not or when the
      card states no rate. */
  lemma PriceIsExact(pricing: Pricing, kind: TokenKind, tokens: U64)
    requires NonNegativeRates(pricing)
    ensures var rate := StatedRate(pricing, kind);
            && (rate.None? ==> Price(pricing, kind, tokens).None?)
            && (rate.Some? ==>
                  && rate.value.micros >= 0
                  && ExactTerm(rate.value, tokens) >= 0
                  && Price(pricing, kind, tokens) == CheckedI64(ExactTerm(rate.value, tokens)))
  {
    StatedRateIsNonNegative(pricing, kind);
    var rate := StatedRate(pricing, kind);
    if rate.Some? {
      NeverOverflowsI128(tokens, rate.value.micros, 1_000_000);
      assert tokens * rate.value.micros >= 0;
    }
  }

  /** One token costs the price per token, and a million of them the price per million. */
  lemma UnitsCostTheirPrice(pricing: Pricing, kind: TokenKind)
    requires NonNegativeRates(pricing) && StatedRate(pricing, kind).Some?
    ensures match StatedRate(pricing, kind).value
            case PerToken(r) => Price(pricing, kind, 1) == Some(r)
            case PerMillion(r) => Price(pricing, kind, 1_000_000) == Some(r)
  {
    PriceIsExact(pricing, kind, 1);
    PriceIsExact(pricing, kind, 1_000_000);
    match StatedRate(pricing, kind).value
    case PerToken(r) =>
    case PerMillion(r) => MillionIsExact(r);
  }

  lemma MillionIsExact(r: int)
    requires r >= 0
    ensures (1_000_000 * r + 999_999) / 1_000_000 == r
  {
    QuotientIs(1_000_000 * r + 999_999, 1_000_000, r, 999_999);
  }

  /** How many tokens of a request are billed as each kind. */
  function Billed(q: Tokens, kind: TokenKind): U64
    requires q.input.Some? && q.output.Some?
  {
    match kind
    case Input => q.input.value - CachedTokens(q)
    case Output => q.output.value
    case CachedInput => CachedTokens(q)
    case Reasoning => q.reasoning.GetOr(0)
  }

  predicate Priceable(pricing: Pricing, q: Tokens) {
    && NonNegativeRates(pricing) && q.input.Some? && q.output.Some?
    && StatedRate(pricing, Input).Some? && StatedRate(pricing, Output).Some?
  }

  function Term(pricing: Pricing, q: Tokens, kind: TokenKind): int
    requires Priceable(pricing, q)
  {
    StatedRateIsNonNegative(pricing, kind);
    StatedRateIsNonNegative(pricing, kind.Fallback());
    ExactTerm(ProperRate(pricing, kind).value, Billed(q, kind))
  }

  function ExactPrice(pricing: Pricing, q: Tokens): int
    requires Priceable(pricing, q)
  {
    Term(pricing, q, Input) + Term(pricing, q, Output) + Term(pricing, q, CachedInput) + Term(pricing, q, Reasoning)
  }

  predicate TermsFit(pricing: Pricing, q: Tokens)
    requires Priceable(pricing, q)
  {
    && Term(pricing, q, Input) <= I64_MAX && Term(pricing, q, Output) <= I64_MAX
    && Term(pricing, q, CachedInput) <= I64_MAX && Term(pricing, q, Reasoning) <= I64_MAX
  }

  lemma TermsAreNonNegative(pricing: Pricing, q: Tokens, kind: TokenKind)
    requires Priceable(pricing, q)
    ensures Term(pricing, q, kind) >= 0
    ensures Billed(q, kind) == 0 ==> Term(pricing, q, kind) == 0
  {
    StatedRateIsNonNegative(pricing, kind);
    StatedRateIsNonNegative(pricing, kind.Fallback());
    ExactTermMonotone(ProperRate(pricing, kind).value, 0, Billed(q, kind));
  }

  /** Every input token is billed once: as cached input or as plain input, and the cached ones are
      never more than the provider reported as read from its cache. */
  lemma InputTokensAreBilledOnce(q: Tokens)
    requires q.input.Some? && q.output.Some?
    ensures Billed(q, Input) + Billed(q, CachedInput) == q.input.value
    ensures Billed(q, CachedInput) <= q.cacheRead.GetOr(0)
  {
  }

  // ---- What is really charged ----

  /** The same tokens at the fallback's rate. */
  function FallbackTerm(pricing: Pricing, q: Tokens, kind: TokenKind): int
    requires Priceable(pricing, q)
  {
    StatedRateIsNonNegative(pricing, kind.Fallback());
    ExactTerm(StatedRate(pricing, kind.Fallback()).value, Billed(q, kind))
  }

  /** The fallback is taken for a missing rate and also when a term overflows. */
  function Charged(pricing: Pricing, q: Tokens, kind: TokenKind): int
    requires Priceable(pricing, q)
  {
    if Term(pricing, q, kind) <= I64_MAX then Term(pricing, q, kind) else FallbackTerm(pricing, q, kind)
  }

  predicate ChargedFit(pricing: Pricing, q: Tokens)
    requires Priceable(pricing, q)
  {
    && Term(pricing, q, Input) <= I64_MAX && Term(pricing, q, Output) <= I64_MAX
    && Charged(pricing, q, CachedInput) <= I64_MAX && Charged(pricing, q, Reasoning) <= I64_MAX
  }

  function ChargedSum(pricing: Pricing, q: Tokens): int
    requires Priceable(pricing, q)
  {
    Term(pricing, q, Input) + Term(pricing, q, Output)
    + Charged(pricing, q, CachedInput) + Charged(pricing, q, Reasoning)
  }

  /** One term with a fallback. */
  lemma FallbackIsCharged(pricing: Pricing, q: Tokens, kind: TokenKind)
    requires Priceable(pricing, q)
    ensures Charged(pricing, q, kind) >= 0
    ensures OrElse(Price(pricing, kind, Billed(q, kind)), Price(pricing, kind.Fallback(), Billed(q, kind)))
         == CheckedI64(Charged(pricing, q, kind))
  {
    PriceIsExact(pricing, kind, Billed(q, kind));
    PriceIsExact(pricing, kind.Fallback(), Billed(q, kind));
  }

  /** One more checked term on a capped sum. */
  lemma PlusIsCapped(total: Option<I64>, fits: bool, sum: nat, term: nat)
    requires total == if fits then Some(Cap(sum)) else None
    ensures Plus(total, CheckedI64(term)) == if fits && term <= I64_MAX then Some(Cap(sum + term)) else None
  {
  }

  lemma {:induction false} PriceableIsCharged(pricing: Pricing, q: Tokens)
    requires Priceable(pricing, q)
    ensures PriceCharacterDetection(pricing, q)
         == if ChargedFit(pricing, q) then Some(Cap(ChargedSum(pricing, q))) else None
  {
    PriceIsExact(pricing, Input, Billed(q, Input));
    PriceIsExact(pricing, Output, Billed(q, Output));
    FallbackIsCharged(pricing, q, CachedInput);
    FallbackIsCharged(pricing, q, Reasoning);
    TermsAreNonNegative(pricing, q, CachedInput);
    TermsAreNonNegative(pricing, q, Reasoning);
    var input, output := Term(pricing, q, Input), Term(pricing, q, Output);
    var cached, reasoning := Charged(pricing, q, CachedInput), Charged(pricing, q, Reasoning);
    var fits := input <= I64_MAX;
    PlusIsCapped(CheckedI64(input), fits, input, output);
    var two := Plus(CheckedI64(input), CheckedI64(output));
    fits := fits && output <= I64_MAX;
    PlusIsCapped(two, fits, input + output, cached);
    var three := if Billed(q, CachedInput) > 0 then Plus(two, CheckedI64(cached)) else two;
    fits := fits && cached <= I64_MAX;
    PlusIsCapped(three, fits, input + output + cached, reasoning);
  }

  /** The price of any request on any non-negative card, in closed form: missing when the card or the
      request lacks something or a charged term does not fit, else the charged terms' sum, capped. */
  lemma {:induction false} PriceIsCharged(pricing: Pricing, q: Tokens)
    requires NonNegativeRates(pricing)
    ensures PriceCharacterDetection(pricing, q)
         == if Priceable(pricing, q) && ChargedFit(pricing, q) then Some(Cap(ChargedSum(pricing, q))) else None
  {
    if Priceable(pricing, q) {
      PriceableIsCharged(pricing, q);
    } else if q.input.Some? && q.output.Some? {
      PriceIsExact(pricing, Input, Billed(q, Input));
      PriceIsExact(pricing, Output, Billed(q, Output));
    }
  }

  lemma ChargedAtMostProper(pricing: Pricing, q: Tokens)
    requires Priceable(pricing, q) && ChargedFit(pricing, q)
    ensures 0 <= ChargedSum(pricing, q) <= ExactPrice(pricing, q)
    ensures ChargedSum(pricing, q) == ExactPrice(pricing, q) <==> TermsFit(pricing, q)
  {
    TermsAreNonNegative(pricing, q, Input);
    TermsAreNonNegative(pricing, q, Output);
    FallbackIsCharged(pricing, q, CachedInput);
    FallbackIsCharged(pricing, q, Reasoning);
  }

  /** The price is the exact sum of its rounded terms, capped, if and only if every term fits, or what
      is charged instead reaches the cap anyway. */
  lemma {:induction false} PriceIsExactIff(pricing: Pricing, q: Tokens)
    requires Priceable(pricing, q)
    ensures PriceCharacterDetection(pricing, q) == Some(Cap(ExactPrice(pricing, q)))
       <==> TermsFit(pricing, q) || (ChargedFit(pricing, q) && ChargedSum(pricing, q) >= I64_MAX)
  {
    PriceIsCharged(pricing, q);
    if ChargedFit(pricing, q) {
      ChargedAtMostProper(pricing, q);
    }
  }

  /** In particular whenever every single term fits. */
  lemma {:induction false} AiPriceIsExact(pricing: Pricing, q: Tokens)
    requires Priceable(pricing, q) && TermsFit(pricing, q)
    ensures PriceCharacterDetection(pricing, q) == Some(Cap(ExactPrice(pricing, q)))
  {
    PriceIsExactIff(pricing, q);
  }

  lemma {:induction false} ExactTermMonotone(rate: Rate, fewer: nat, more: nat)
    requires rate.micros >= 0 && fewer <= more
    ensures ExactTerm(rate, fewer) <= ExactTerm(rate, more)
  {
    MulMonotone(fewer, more, rate.micros);
    var a, b := fewer * rate.micros + 999_999, more * rate.micros + 999_999;
    assert a <= b ==> a / 1_000_000 <= b / 1_000_000;
  }

  lemma TermMonotone(pricing: Pricing, q: Tokens, more: Tokens, kind: TokenKind)
    requires Priceable(pricing, q) && Priceable(pricing, more) && Billed(q, kind) <= Billed(more, kind)
    ensures Term(pricing, q, kind) <= Term(pricing, more, kind)
  {
    StatedRateIsNonNegative(pricing, kind);
    StatedRateIsNonNegative(pricing, kind.Fallback());
    ExactTermMonotone(ProperRate(pricing, kind).value, Billed(q, kind), Billed(more, kind));
  }

  /** More input, output or reasoning tokens never make a request cheaper, as long as the terms of
      the larger request fit. */
  lemma {:induction false} AiPriceIsMonotone(pricing: Pricing, q: Tokens, more: Tokens)
    requires Priceable(pricing, q) && Priceable(pricing, more) && TermsFit(pricing, more)
    requires q.cacheRead == more.cacheRead
    requires q.input.value <= more.input.value && q.output.value <= more.output.value
    requires q.reasoning.GetOr(0) <= more.reasoning.GetOr(0)
    ensures var p, p' := PriceCharacterDetection(pricing, q), PriceCharacterDetection(pricing, more);
            p.Some? && p'.Some? && p.value <= p'.value
  {
    TermMonotone(pricing, q, more, Input);
    TermMonotone(pricing, q, more, Output);
    TermMonotone(pricing, q, more, CachedInput);
    TermMonotone(pricing, q, more, Reasoning);
    AiPriceIsExact(pricing, q);
    AiPriceIsExact(pricing, more);
  }

  /** The larger request's reasoning overflows its own rate, and the fallback charges it less than the
      smaller one. */
  predicate Undercut(pricing: Pricing, q: Tokens, more: Tokens)
    requires Priceable(pricing, q) && Priceable(pricing, more)
  {
    && Term(pricing, q, Reasoning) <= I64_MAX < Term(pricing, more, Reasoning)
    && FallbackTerm(pricing, more, Reasoning) < Term(pricing, q, Reasoning)
  }

  lemma ReasoningChargeIsMonotoneIff(pricing: Pricing, q: Tokens, more: Tokens)
    requires Priceable(pricing, q) && Priceable(pricing, more)
    requires q.reasoning.GetOr(0) <= more.reasoning.GetOr(0)
    ensures Charged(pricing, q, Reasoning) <= Charged(pricing, more, Reasoning) <==> !Undercut(pricing, q, more)
  {
    TermMonotone(pricing, q, more, Reasoning);
    StatedRateIsNonNegative(pricing, Output);
    ExactTermMonotone(StatedRate(pricing, Output).value, Billed(q, Reasoning), Billed(more, Reasoning));
  }

  /** More reasoning tokens never cost less, if and only if the fallback does not undercut them, or the
      price is capped anyway. */
  lemma {:induction false} ReasoningIsMonotoneIff(pricing: Pricing, q: Tokens, more: Tokens)
    requires Priceable(pricing, q) && Priceable(pricing, more)
    requires more == q.(reasoning := more.reasoning) && q.reasoning.GetOr(0) <= more.reasoning.GetOr(0)
    requires ChargedFit(pricing, q) && ChargedFit(pricing, more)
    ensures var p, p' := PriceCharacterDetection(pricing, q), PriceCharacterDetection(pricing, more);
            && p.Some? && p'.Some?
            && (p.value <= p'.value <==> !Undercut(pricing, q, more) || ChargedSum(pricing, more) >= I64_MAX)
  {
    PriceIsCharged(pricing, q);
    PriceIsCharged(pricing, more);
    ReasoningChargeIsMonotoneIff(pricing, q, more);
    SameOtherTerms(pricing, q, more);
  }

  lemma SameOtherTerms(pricing: Pricing, q: Tokens, more: Tokens)
    requires Priceable(pricing, q) && Priceable(pricing, more) && more == q.(reasoning := more.reasoning)
    ensures Charged(pricing, q, CachedInput) == Charged(pricing, more, CachedInput)
    ensures Term(pricing, q, Input) == Term(pricing, more, Input)
        && Term(pricing, q, Output) == Term(pricing, more, Output)
  {
  }

  /** The same for input tokens: the larger request's cached part overflows its own rate, and with the
      fallback for it both input terms together are less than the smaller request's. */
  predicate InputUndercut(pricing: Pricing, q: Tokens, more: Tokens)
    requires Priceable(pricing, q) && Priceable(pricing, more)
  {
    && Term(pricing, q, CachedInput) <= I64_MAX < Term(pricing, more, CachedInput)
    && FallbackTerm(pricing, more, CachedInput) + Term(pricing, more, Input)
       < Term(pricing, q, CachedInput) + Term(pricing, q, Input)
  }

  lemma {:induction false} FallbackMonotone(pricing: Pricing, q: Tokens, more: Tokens, kind: TokenKind)
    requires Priceable(pricing, q) && Priceable(pricing, more) && Billed(q, kind) <= Billed(more, kind)
    ensures FallbackTerm(pricing, q, kind) <= FallbackTerm(pricing, more, kind)
  {
    StatedRateIsNonNegative(pricing, kind.Fallback());
    ExactTermMonotone(StatedRate(pricing, kind.Fallback()).value, Billed(q, kind), Billed(more, kind));
  }

  lemma {:induction false} InputChargeIsMonotoneIff(pricing: Pricing, q: Tokens, more: Tokens)
    requires Priceable(pricing, q) && Priceable(pricing, more)
    requires q.cacheRead == more.cacheRead && q.input.value <= more.input.value
    ensures Charged(pricing, q, CachedInput) + Term(pricing, q, Input)
         <= Charged(pricing, more, CachedInput) + Term(pricing, more, Input)
       <==> !InputUndercut(pricing, q, more)
  {
    TermMonotone(pricing, q, more, Input);
    TermMonotone(pricing, q, more, CachedInput);
    FallbackMonotone(pricing, q, more, CachedInput);
  }

  /** More input tokens never cost less, if and only if the fallback does not undercut them, or the price is
      capped anyway. */
  lemma {:induction false} InputIsMonotoneIff(pricing: Pricing, q: Tokens, more: Tokens)
    requires Priceable(pricing, q) && Priceable(pricing, more)
    requires more == q.(input := more.input) && q.input.value <= more.input.value
    requires ChargedFit(pricing, q) && ChargedFit(pricing, more)
    ensures var p, p' := PriceCharacterDetection(pricing, q), PriceCharacterDetection(pricing, more);
            && p.Some? && p'.Some?
            && (p.value <= p'.value <==> !InputUndercut(pricing, q, more) || ChargedSum(pricing, more) >= I64_MAX)
  {
    PriceIsCharged(pricing, q);
    PriceIsCharged(pricing, more);
    InputChargeIsMonotoneIff(pricing, q, more);
    SameOutputTerms(pricing, q, more);
  }

  lemma SameOutputTerms(pricing: Pricing, q: Tokens, more: Tokens)
    requires Priceable(pricing, q) && Priceable(pricing, more) && more == q.(input := more.input)
    ensures Charged(pricing, q, Reasoning) == Charged(pricing, more, Reasoning)
    ensures Term(pricing, q, Output) == Term(pricing, more, Output)
  {
  }

  /** Output tokens have no fallback: as long as both prices exist, more of them never cost less. */
  lemma {:induction false} OutputIsMonotone(pricing: Pricing, q: Tokens, more: Tokens)
    requires NonNegativeRates(pricing)
    requires q.output.Some? && more.output.Some? && more == q.(output := more.output)
    requires q.output.value <= more.output.value
    ensures var p, p' := PriceCharacterDetection(pricing, q), PriceCharacterDetection(pricing, more);
            p'.Some? ==> p.Some? && p.value <= p'.value
  {
    PriceIsCharged(pricing, q);
    PriceIsCharged(pricing, more);
    if Priceable(pricing, more) && ChargedFit(pricing, more) {
      TermMonotone(pricing, q, more, Output);
      SameChargedTerms(pricing, q, more);
    }
  }

  lemma SameChargedTerms(pricing: Pricing, q: Tokens, more: Tokens)
    requires Priceable(pricing, q) && Priceable(pricing, more) && more == q.(output := more.output)
    ensures Charged(pricing, q, CachedInput) == Charged(pricing, more, CachedInput)
    ensures Charged(pricing, q, Reasoning) == Charged(pricing, more, Reasoning)
    ensures Term(pricing, q, Input) == Term(pricing, more, Input)
  {
  }

  /** Two cached input tokens that cost less than one. */
  lemma OverflowMakesMoreInputCheaper()
    ensures exists pricing: Pricing, q: Tokens, more: Tokens ::
              && Priceable(pricing, q) && q.input == Some(1) && more == q.(input := Some(2))
              && PriceCharacterDetection(pricing, q) == Some(0x4000_0000_0000_0000)
              && PriceCharacterDetection(pricing, more) == Some(2)
  {
    var pricing: Pricing := map["per_input_token_micros" := 1, "per_output_token_micros" := 0,
                                "per_cached_input_token_micros" := 0x4000_0000_0000_0000];
    var q := Tokens(Some(1), Some(0), Some(2), None);
    var more := q.(input := Some(2));
    assert StatedRate(pricing, Input) == Some(PerToken(1));
    assert StatedRate(pricing, Output) == Some(PerToken(0));
    assert Price(pricing, CachedInput, 1) == Some(0x4000_0000_0000_0000);
    assert Price(pricing, CachedInput, 2) == None;
    assert Price(pricing, Input, 2) == Some(2);
    assert PriceCharacterDetection(pricing, q) == Some(0x4000_0000_0000_0000);
    assert PriceCharacterDetection(pricing, more) == Some(2);
  }

  /** An undercut request: two reasoning tokens that cost less than one. */
  lemma OverflowMakesMoreTokensCheaper()
    ensures exists pricing: Pricing, q: Tokens, more: Tokens ::
              && Priceable(pricing, q) && q.reasoning == Some(1) && more == q.(reasoning := Some(2))
              && PriceCharacterDetection(pricing, q) == Some(0x4000_0000_0000_0000)
              && PriceCharacterDetection(pricing, more) == Some(2)
  {
    var pricing: Pricing := map["per_input_token_micros" := 0, "per_output_token_micros" := 1,
                                "per_reasoning_token_micros" := 0x4000_0000_0000_0000];
    var q := Tokens(Some(0), Some(0), None, Some(1));
    var more := q.(reasoning := Some(2));
    assert StatedRate(pricing, Input) == Some(PerToken(0));
    assert StatedRate(pricing, Output) == Some(PerToken(1));
    assert StatedRate(pricing, Reasoning) == Some(PerToken(0x4000_0000_0000_0000));
    assert Price(pricing, Reasoning, 1) == Some(0x4000_0000_0000_0000);
    assert Price(pricing, Reasoning, 2) == None;
    assert Price(pricing, Output, 2) == Some(2);
    assert PriceCharacterDetection(pricing, q) == Some(0x4000_0000_0000_0000);
    assert PriceCharacterDetection(pricing, more) == Some(2);
  }

  /** What a card states for synthesised characters. */
  datatype TtsRate = PerCharacter(micros: I64) | PerThousand(micros: I64)

  function StatedTtsRate(pricing: Pricing): Option<TtsRate> {
    var direct := FirstRate(pricing, ["per_character_micros", "character_micros"]);
    var perThousand := FirstRate(pricing, ["per_1000_characters_micros"]);
    if direct.Some? then Some(PerCharacter(direct.value))
    else if perThousand.Some? then Some(PerThousand(perThousand.value))
    else None
  }

  /** The price of synthesised characters on any non-negative card: exact per character, the least whole
      number of micros that covers them per thousand, and missing exactly when it does not fit or the
      card states neither rate. */
  lemma TtsPriceCoversCharacters(pricing: Pricing, characters: U64)
    requires NonNegativeRates(pricing)
    ensures var price := PriceTts(pricing, Some(characters));
            match StatedTtsRate(pricing)
            case None => price.None?
            case Some(PerCharacter(rate)) =>
              && (price.Some? ==> price.value == characters * rate)
              && (price.None? <==> characters * rate > I64_MAX)
            case Some(PerThousand(rate)) =>
              && (price.Some? ==> LeastCover(price.value, characters * rate, 1_000))
              && (price.None? <==> characters * rate > I64_MAX * 1_000)
  {
    FirstRateIsStated(pricing, ["per_character_micros", "character_micros"]);
    FirstRateIsStated(pricing, ["per_1000_characters_micros"]);
    match StatedTtsRate(pricing)
    case Some(PerCharacter(rate)) =>
      NeverOverflowsI128(characters, rate, 1_000);
      ProductBound(characters, rate, U64_MAX, I64_MAX);
    case Some(PerThousand(rate)) => RatioRoundsUp(characters, rate, 1_000);
    case None =>
  }
}
