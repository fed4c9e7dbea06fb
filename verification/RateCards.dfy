/** The prices a rate card may state. Cards are stored only after this validation, so the pricing theorems
    about non-negative rates hold for every card the service can price with. */
module RateCards {
  import opened Bounded
  import opened Wrappers
  import opened Accounting
  import P = Pricing

  const TTS_KEYS: set<string> := {
    "per_character_micros",
    "character_micros",
    "per_1000_characters_micros",
    "provider_credits_per_character_micros",
    "credits_per_character_micros"
  }

  const AI_KEYS: set<string> := {
    "per_input_token_micros",
    "input_token_micros",
    "per_1m_input_tokens_micros",
    "per_output_token_micros",
    "output_token_micros",
    "per_1m_output_tokens_micros",
    "per_cached_input_token_micros",
    "cached_input_token_micros",
    "per_1m_cached_input_tokens_micros",
    "per_reasoning_token_micros",
    "reasoning_token_micros",
    "per_1m_reasoning_tokens_micros"
  }

  datatype CardError = NoPrices | BadPrice(key: string)

  function AllowedKeys(workload: Workload): set<string> {
    match workload
    case Tts => TTS_KEYS
    case CharacterDetection => AI_KEYS
  }

  /** Whether pricing a request for a chapter analysis ever looks at a price. */
  predicate LookedUp(key: string) {
    exists kind: P.TokenKind :: key in kind.DirectKeys() || key in kind.PerMillionKeys()
  }

  /** Analysis cards may state exactly the prices that pricing looks up, speech cards those of characters and
      of provider credits. */
  lemma AllowedPricesAreUsed(key: string)
    ensures key in AllowedKeys(CharacterDetection) <==> LookedUp(key)
    ensures key in AllowedKeys(Tts) <==>
              || key == "per_character_micros" || key == "character_micros" || key == "per_1000_characters_micros"
              || key == "provider_credits_per_character_micros" || key == "credits_per_character_micros"
  {
    LooksUp(P.TokenKind.Input, key);
    LooksUp(P.TokenKind.Output, key);
    LooksUp(P.TokenKind.CachedInput, key);
    LooksUp(P.TokenKind.Reasoning, key);
    assert forall kind: P.TokenKind :: kind.Input? || kind.Output? || kind.CachedInput? || kind.Reasoning?;
  }

  lemma LooksUp(kind: P.TokenKind, key: string)
    ensures key in kind.DirectKeys() <==> key == kind.DirectKeys()[0] || key == kind.DirectKeys()[1]
    ensures key in kind.PerMillionKeys() <==> key == kind.PerMillionKeys()[0]
  {
  }

  /** A price of this workload that is not negative. */
  predicate GoodPrice(workload: Workload, pricing: P.Pricing, key: string)
    requires key in pricing
  {
    key in AllowedKeys(workload) && pricing[key] >= 0
  }

  /** Checks every price of a card before it is stored. Which bad price is named depends on the order of
      the map. */
  method ValidateRatePricing(workload: Workload, pricing: P.Pricing) returns (outcome: Result<(), CardError>)
    ensures outcome.Ok? <==> Accepted(workload, pricing)
    ensures outcome == Err(NoPrices) <==> pricing == map[]
    ensures outcome.Err? && outcome.error.BadPrice? ==>
              outcome.error.key in pricing && !GoodPrice(workload, pricing, outcome.error.key)
  {
    if pricing == map[] {
      return Err(NoPrices);
    }
    var rest := pricing.Keys;
    while rest != {}
      invariant rest <= pricing.Keys
      invariant forall key :: key in pricing && key !in rest ==> GoodPrice(workload, pricing, key)
      decreases |rest|
    {
      var key :| key in rest;
      if key !in AllowedKeys(workload) || pricing[key] < 0 {
        return Err(BadPrice(key));
      }
      rest := rest - {key};
    }
    return Ok(());
  }

  predicate Accepted(workload: Workload, pricing: P.Pricing) {
    pricing != map[] && forall key :: key in pricing ==> GoodPrice(workload, pricing, key)
  }

  /** Every rate an accepted card states for any kind of token is priced by the least whole number of
      micros that covers it, or is missing exactly when that does not fit. */
  lemma AcceptedRatesRoundUp(workload: Workload, pricing: P.Pricing, key: string, quantity: U64, divisor: int, m: I64)
    requires Accepted(workload, pricing) && key in pricing && 0 < divisor <= 1_000_000
    ensures P.MultiplyRatioCeil(quantity, pricing[key], divisor) == Some(m)
       <==> P.LeastCover(m, quantity * pricing[key], divisor)
    ensures P.MultiplyRatioCeil(quantity, pricing[key], divisor).None? <==> quantity * pricing[key] > I64_MAX * divisor
  {
    assert GoodPrice(workload, pricing, key);
    P.RatioIsTheLeastCover(quantity, pricing[key], divisor, m);
    P.RatioRoundsUp(quantity, pricing[key], divisor);
  }

  /** The price of any request on any accepted card is the capped sum of its charged terms, or missing;
      and it is the exact price if and only if every term fits or the cap is reached anyway. */
  lemma AcceptedCardsPriceRequests(pricing: P.Pricing, q: P.Tokens)
    requires Accepted(CharacterDetection, pricing)
    ensures P.NonNegativeRates(pricing)
    ensures P.PriceCharacterDetection(pricing, q)
         == if P.Priceable(pricing, q) && P.ChargedFit(pricing, q) then Some(Cap(P.ChargedSum(pricing, q))) else None
    ensures P.Priceable(pricing, q) ==>
              (P.PriceCharacterDetection(pricing, q) == Some(Cap(P.ExactPrice(pricing, q)))
               <==> P.TermsFit(pricing, q) || (P.ChargedFit(pricing, q) && P.ChargedSum(pricing, q) >= I64_MAX))
  {
    assert forall key :: key in pricing ==> GoodPrice(CharacterDetection, pricing, key);
    P.PriceIsCharged(pricing, q);
    if P.Priceable(pricing, q) {
      P.PriceIsExactIff(pricing, q);
    }
  }
}
