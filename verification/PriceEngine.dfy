/** The price of a stay, in minor units, from a property and a fee configuration. */
module PriceEngine {
  import opened Rounding
  import opened Wrappers

  /** A rate in ten-thousandths, as the database keeps it with four decimals. */
  type Rate = nat
  const ONE: nat := 10_000

  datatype Version = Host15InclusiveV1 | Historic(name: string)

  datatype Property = Property(nightlyPriceMinor: nat, cleaningFeeMinor: nat,
                               accommodationVatRate: Option<Rate>, cleaningVatRate: Option<Rate>)

  datatype FeeConfig = FeeConfig(version: Version, guestServiceFeeRate: Rate, hostCommissionRate: Rate, taxRate: Rate)

  datatype PriceBreakdown = PriceBreakdown(
    nights: int, accommodationMinor: int, cleaningMinor: int, guestServiceFeeMinor: int, taxesMinor: int,
    guestTotalMinor: int, hostCommissionMinor: int, hostPayoutMinor: int, hostRevenueMinor: int, feeConfigVersion: Version)

  datatype PriceError = NightsNotPositive | VatUnconfigured

  function AtRate(amountMinor: int, rate: Rate): int {
    Round(amountMinor * rate, ONE)
  }

  /** `calculatePrice`. */
  function CalculatePrice(property: Property, nights: int, feeConfig: FeeConfig): Result<PriceBreakdown, PriceError> {
    if nights <= 0 then Err(NightsNotPositive)
    else
      var accommodationMinor := property.nightlyPriceMinor * nights;
      var cleaningMinor := property.cleaningFeeMinor;
      var guestServiceFeeMinor := AtRate(accommodationMinor, feeConfig.guestServiceFeeRate);
      var launch := feeConfig.version == Host15InclusiveV1;
      if launch && (property.accommodationVatRate.None? || property.cleaningVatRate.None?) then Err(VatUnconfigured)
      else
        var taxesMinor :=
          if launch
          then AtRate(accommodationMinor, property.accommodationVatRate.value) + AtRate(cleaningMinor, property.cleaningVatRate.value)
          else AtRate(accommodationMinor + cleaningMinor, feeConfig.taxRate);
        var hostCommissionMinor := AtRate(accommodationMinor, feeConfig.hostCommissionRate);
        Ok(PriceBreakdown(
             nights, accommodationMinor, cleaningMinor, guestServiceFeeMinor, taxesMinor,
             accommodationMinor + cleaningMinor + guestServiceFeeMinor + taxesMinor,
             hostCommissionMinor,
             accommodationMinor + cleaningMinor + (if launch then taxesMinor else 0) - hostCommissionMinor,
             hostCommissionMinor + guestServiceFeeMinor,
             feeConfig.version))
  }

  lemma AtRateRange(amountMinor: int, rate: Rate)
    requires amountMinor >= 0
    ensures 0 <= AtRate(amountMinor, rate)
    ensures rate <= ONE ==> AtRate(amountMinor, rate) <= amountMinor
  {}

  /**
   * What the guest pays goes to the host and to HOST, penny for penny, under launch pricing;
   * under historic pricing the taxes are all that neither gets. Nobody's share is negative as long
   * as the commission is at most the whole accommodation price.
   */
  lemma WhoGetsWhat(property: Property, nights: int, feeConfig: FeeConfig)
    requires CalculatePrice(property, nights, feeConfig).Ok?
    ensures var price := CalculatePrice(property, nights, feeConfig).value;
            && price.guestTotalMinor - (price.hostPayoutMinor + price.hostRevenueMinor) ==
               (if feeConfig.version == Host15InclusiveV1 then 0 else price.taxesMinor)
            && price.guestTotalMinor == price.accommodationMinor + price.cleaningMinor + price.guestServiceFeeMinor + price.taxesMinor
            && price.accommodationMinor >= 0 && price.guestServiceFeeMinor >= 0 && price.taxesMinor >= 0 && price.hostRevenueMinor >= 0
            && (feeConfig.hostCommissionRate <= ONE ==> price.hostPayoutMinor >= price.cleaningMinor)
  {
    var price := CalculatePrice(property, nights, feeConfig).value;
    var a, c := price.accommodationMinor, price.cleaningMinor;
    assert property.nightlyPriceMinor * nights >= 0;
    AtRateRange(a, feeConfig.guestServiceFeeRate);
    AtRateRange(a, feeConfig.hostCommissionRate);
    if feeConfig.version == Host15InclusiveV1 {
      AtRateRange(a, property.accommodationVatRate.value);
      AtRateRange(c, property.cleaningVatRate.value);
    } else {
      AtRateRange(a + c, feeConfig.taxRate);
    }
  }

  // ----- every line by what it is for

  /** `line` is the minor unit nearest to this rate, in ten-thousandths, of the amount, the greater one of two. */
  predicate NearestAtRate(line: int, amountMinor: int, rate: Rate) {
    2 * amountMinor * rate - 10_000 < 20_000 * line <= 2 * amountMinor * rate + 10_000
  }

  lemma AtRateIsNearest(amountMinor: int, rate: Rate)
    ensures NearestAtRate(AtRate(amountMinor, rate), amountMinor, rate)
  {
    RoundBounds(amountMinor * rate, ONE);
  }

  lemma PriceOrError(property: Property, nights: int, feeConfig: FeeConfig)
    ensures var result := CalculatePrice(property, nights, feeConfig);
            var unconfigured := feeConfig.version == Host15InclusiveV1 && (property.accommodationVatRate.None? || property.cleaningVatRate.None?);
            && (result.Ok? <==> nights > 0 && !unconfigured)
            && (result == Err(NightsNotPositive) <==> nights <= 0)
            && (result == Err(VatUnconfigured) <==> nights > 0 && unconfigured)
            && (result.Ok? ==> result.value.nights == nights && result.value.feeConfigVersion == feeConfig.version)
  {}

  /** Cleaning costs the same for any stay; fee, taxes and commission are each the nearest minor unit at their own rate. */
  lemma EveryLineAtItsRate(property: Property, nights: int, feeConfig: FeeConfig)
    requires CalculatePrice(property, nights, feeConfig).Ok?
    ensures var price := CalculatePrice(property, nights, feeConfig).value;
            && price.cleaningMinor == property.cleaningFeeMinor
            && NearestAtRate(price.guestServiceFeeMinor, price.accommodationMinor, feeConfig.guestServiceFeeRate)
            && NearestAtRate(price.hostCommissionMinor, price.accommodationMinor, feeConfig.hostCommissionRate)
            && (if feeConfig.version == Host15InclusiveV1
                then exists onAccommodation, onCleaning ::
                       && price.taxesMinor == onAccommodation + onCleaning
                       && NearestAtRate(onAccommodation, price.accommodationMinor, property.accommodationVatRate.value)
                       && NearestAtRate(onCleaning, property.cleaningFeeMinor, property.cleaningVatRate.value)
                else NearestAtRate(price.taxesMinor, price.accommodationMinor + property.cleaningFeeMinor, feeConfig.taxRate))
            && price.hostRevenueMinor == price.hostCommissionMinor + price.guestServiceFeeMinor
  {
    var price := CalculatePrice(property, nights, feeConfig).value;
    AtRateIsNearest(price.accommodationMinor, feeConfig.guestServiceFeeRate);
    AtRateIsNearest(price.accommodationMinor, feeConfig.hostCommissionRate);
    hide AtRate, NearestAtRate;
    if feeConfig.version == Host15InclusiveV1 {
      AtRateIsNearest(price.accommodationMinor, property.accommodationVatRate.value);
      AtRateIsNearest(property.cleaningFeeMinor, property.cleaningVatRate.value);
    } else {
      AtRateIsNearest(price.accommodationMinor + property.cleaningFeeMinor, feeConfig.taxRate);
    }
  }

  /** One night costs the nightly price, and every further one adds it; whether a price is given does not depend on how many. */
  lemma OneMoreNight(property: Property, nights: int, feeConfig: FeeConfig)
    requires nights >= 0
    ensures var longer := CalculatePrice(property, nights + 1, feeConfig);
            && (longer.Ok? && nights == 0 ==> longer.value.accommodationMinor == property.nightlyPriceMinor)
            && (nights > 0 ==>
                  var shorter := CalculatePrice(property, nights, feeConfig);
                  && shorter.Ok? == longer.Ok?
                  && (longer.Ok? ==> longer.value.accommodationMinor == shorter.value.accommodationMinor + property.nightlyPriceMinor))
  {}

  // ----- one stay or two

  lemma NearestSum(x: int, y: int, z: int, a: int, b: int, rate: Rate)
    requires NearestAtRate(x, a, rate) && NearestAtRate(y, b, rate) && NearestAtRate(z, a + b, rate)
    ensures x + y - 1 <= z <= x + y + 1
  {
    assert 2 * (a + b) * rate == 2 * a * rate + 2 * b * rate;
  }

  lemma AccommodationIsAdditive(property: Property, m: int, n: int, feeConfig: FeeConfig)
    requires m > 0 && n > 0 && CalculatePrice(property, m + n, feeConfig).Ok?
    ensures CalculatePrice(property, m, feeConfig).Ok? && CalculatePrice(property, n, feeConfig).Ok?
    ensures CalculatePrice(property, m + n, feeConfig).value.accommodationMinor ==
            CalculatePrice(property, m, feeConfig).value.accommodationMinor + CalculatePrice(property, n, feeConfig).value.accommodationMinor
  {
    assert property.nightlyPriceMinor * (m + n) == property.nightlyPriceMinor * m + property.nightlyPriceMinor * n;
    hide AtRate;
  }

  /**
   * Under launch pricing a stay costs what it costs cut in two, but for one cleaning and its VAT and at
   * most one minor unit each for the guest fee and the VAT on the nights. HOST's commission differs by
   * one unit at most.
   */
  lemma OneStayOrTwo(property: Property, m: int, n: int, feeConfig: FeeConfig)
    requires m > 0 && n > 0 && feeConfig.version == Host15InclusiveV1 && CalculatePrice(property, m + n, feeConfig).Ok?
    ensures CalculatePrice(property, m, feeConfig).Ok? && CalculatePrice(property, n, feeConfig).Ok?
    ensures var a, b, ab := CalculatePrice(property, m, feeConfig).value, CalculatePrice(property, n, feeConfig).value,
                            CalculatePrice(property, m + n, feeConfig).value;
            && (exists cleaningVat | NearestAtRate(cleaningVat, property.cleaningFeeMinor, property.cleaningVatRate.value) ::
                  -2 <= ab.guestTotalMinor + property.cleaningFeeMinor + cleaningVat - a.guestTotalMinor - b.guestTotalMinor <= 2)
            && -1 <= ab.hostCommissionMinor - a.hostCommissionMinor - b.hostCommissionMinor <= 1
  {
    AccommodationIsAdditive(property, m, n, feeConfig);
    var a, b, ab := CalculatePrice(property, m, feeConfig).value, CalculatePrice(property, n, feeConfig).value,
                    CalculatePrice(property, m + n, feeConfig).value;
    var x, y := a.accommodationMinor, b.accommodationMinor;
    RatesAddUp(x, y, feeConfig.guestServiceFeeRate);
    RatesAddUp(x, y, feeConfig.hostCommissionRate);
    RatesAddUp(x, y, property.accommodationVatRate.value);
    var cleaningVat := AtRate(property.cleaningFeeMinor, property.cleaningVatRate.value);
    AtRateIsNearest(property.cleaningFeeMinor, property.cleaningVatRate.value);
    hide AtRate, NearestAtRate;
  }

  lemma RatesAddUp(x: int, y: int, rate: Rate)
    ensures AtRate(x, rate) + AtRate(y, rate) - 1 <= AtRate(x + y, rate) <= AtRate(x, rate) + AtRate(y, rate) + 1
  {
    AtRateIsNearest(x, rate);
    AtRateIsNearest(y, rate);
    AtRateIsNearest(x + y, rate);
    hide AtRate;
    NearestSum(AtRate(x, rate), AtRate(y, rate), AtRate(x + y, rate), x, y, rate);
  }
}
