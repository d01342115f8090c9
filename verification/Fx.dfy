/** Quotes, ceiling conversion and the checked order total (infinitemarkets/services/fx.py, checkout.py), in exact rationals. */
module Fx {
  import opened Wrappers

  type Currency = string

  const SAT: Currency := "SAT"
  const SAT_PER_BTC := 100_000_000.0
  const QUOTE_TTL := 300
  const INT64_MAX := 0x7fff_ffff_ffff_ffff

  datatype Quote = Quote(currency: Currency, perBtc: real, satPerMajor: real, providers: nat, observedAt: int, expiresAt: int)

  datatype Reason =
    | NoProvenance | NonPositive | Stale | AmountNegative | DecimalsNegative | CurrencyMismatch | CurrencyInvalid
    | NoQuote | ProviderFailed | ComponentNegative | TotalOverflow | TotalBelowOne

  function SatQuote(at: int): Quote {
    Quote(SAT, SAT_PER_BTC, 1.0, 1, at, at + QUOTE_TTL)
  }

  /** The rejection gate, in the order of its checks. */
  function UnusableBecause(q: Quote, now: int): Option<Reason> {
    if q.providers == 0 then Some(NoProvenance)
    else if q.perBtc <= 0.0 || q.satPerMajor <= 0.0 then Some(NonPositive)
    else if now >= q.expiresAt then Some(Stale)
    else None
  }

  // ---- Powers and ceilings ----

  function Pow10(n: nat): (r: real)
    ensures r >= 1.0
  {
    if n == 0 then 1.0 else 10.0 * Pow10(n - 1)
  }

  /** n * 10^k. */
  function Times(n: int, k: nat): real {
    n as real * Pow10(k)
  }

  /** n * 10^k, as an integer. */
  function Up(n: int, k: nat): int {
    if k == 0 then n else 10 * Up(n, k - 1)
  }

  /** x / 10^d. */
  function Down(x: real, d: nat): real {
    if d == 0 then x else Down(x, d - 1) / 10.0
  }

  lemma {:induction false} UpIsProduct(n: int, k: nat)
    ensures Up(n, k) as real == Times(n, k)
  {
    if k > 0 {
      UpIsProduct(n, k - 1);
    }
  }

  lemma {:induction false} UpKeepsSign(n: int, k: nat)
    ensures Up(n, k) < 0 <==> n < 0
  {
    if k > 0 {
      UpKeepsSign(n, k - 1);
    }
  }

  lemma {:induction false} DownIsQuotient(x: real, d: nat)
    ensures Down(x, d) == x / Pow10(d)
  {
    if d > 0 {
      DownIsQuotient(x, d - 1);
      var p := Pow10(d - 1);
      assert x / p == x / (10.0 * p) * 10.0;
    }
  }

  lemma {:induction false} DownKeepsSign(x: real, d: nat)
    requires x >= 0.0
    ensures Down(x, d) >= 0.0
  {
    if d > 0 {
      DownKeepsSign(x, d - 1);
    }
  }

  lemma {:induction false} DownOfTen(x: real, d: nat)
    ensures Down(10.0 * x, d + 1) == Down(x, d)
  {
    if d > 0 {
      DownOfTen(x, d - 1);
    }
  }

  lemma {:induction false} DownOfUp(n: int, k: nat, d: nat)
    ensures Down(Up(n, k) as real, d + k) == Down(n as real, d)
  {
    if k > 0 {
      DownOfUp(n, k - 1, d);
      DownOfTen(Up(n, k - 1) as real, d + k - 1);
    }
  }

  lemma {:induction false} DownAdds(x: real, a: nat, b: nat)
    ensures Down(Down(x, a), b) == Down(x, a + b)
  {
    if b > 0 {
      DownAdds(x, a, b - 1);
    }
  }

  /** ROUND_CEILING. */
  function Ceil(x: real): int {
    -((-x).Floor)
  }

  // ---- Conversion ----

  /** `major` units of the quote's currency, in satoshis, unrounded. */
  function PriceOf(major: real, q: Quote): real {
    major * q.satPerMajor
  }

  function ConvertLine(q: Quote, currency: Currency, amount: int, decimals: int, now: int): Result<int, Reason> {
    if currency != q.currency then Err(CurrencyMismatch)
    else if UnusableBecause(q, now).Some? then Err(UnusableBecause(q, now).value)
    else if amount < 0 then Err(AmountNegative)
    else if decimals < 0 then Err(DecimalsNegative)
    else Ok(Ceil(PriceOf(Down(amount as real, decimals), q)))
  }

  /** Fetched from somebody, at positive rates, and not yet expired. */
  predicate Usable(q: Quote, now: int) {
    q.providers > 0 && q.perBtc > 0.0 && q.satPerMajor > 0.0 && now < q.expiresAt
  }

  /** `sat` is the least whole number of satoshis that covers the exact price. */
  predicate LeastCover(sat: int, exact: real) {
    sat as real - 1.0 < exact <= sat as real
  }

  /** A conversion succeeds exactly on a usable quote of its own currency, and covers the price with the least whole amount. */
  lemma ConversionCovers(q: Quote, currency: Currency, amount: int, decimals: int, now: int)
    ensures
      var r := ConvertLine(q, currency, amount, decimals, now);
      && (r.Ok? <==> currency == q.currency && Usable(q, now) && amount >= 0 && decimals >= 0)
      && (r.Ok? ==> r.value >= 0 && LeastCover(r.value, amount as real / Pow10(decimals) * q.satPerMajor))
  {
    var r := ConvertLine(q, currency, amount, decimals, now);
    if r.Ok? {
      DownIsQuotient(amount as real, decimals);
      DownKeepsSign(amount as real, decimals);
      ProductNonNegative(Down(amount as real, decimals), q.satPerMajor);
    }
  }

  /** Each refusal has its own reason, and the earlier check wins. */
  lemma RefusalReasons(q: Quote, currency: Currency, amount: int, decimals: int, now: int)
    ensures
      var r := ConvertLine(q, currency, amount, decimals, now);
      && (r == Err(CurrencyMismatch) <==> currency != q.currency)
      && (currency == q.currency ==>
            && (r == Err(NoProvenance) <==> q.providers == 0)
            && (r == Err(NonPositive) <==> q.providers > 0 && !(q.perBtc > 0.0 && q.satPerMajor > 0.0))
            && (r == Err(Stale) <==>
                  q.providers > 0 && q.perBtc > 0.0 && q.satPerMajor > 0.0 && now >= q.expiresAt)
            && (r == Err(AmountNegative) <==> Usable(q, now) && amount < 0)
            && (r == Err(DecimalsNegative) <==> Usable(q, now) && amount >= 0 && decimals < 0))
  {
  }

  lemma ProductNonNegative(x: real, y: real)
    requires x >= 0.0 && y >= 0.0
    ensures x * y >= 0.0
  {
  }

  // ---- Components ----

  /** A line or shipping component: the decimal coefficient * 10^exponent in minor units, priced at `at`. */
  datatype Component = Component(currency: Currency, decimals: nat, coefficient: int, exponent: int, at: int)

  /** Negative exponents move into the currency decimals, so that the amount is an integer. */
  function ScaledAmount(c: Component): int {
    if c.exponent >= 0 then Up(c.coefficient, c.exponent) else c.coefficient
  }

  function ScaledDecimals(c: Component): nat {
    if c.exponent >= 0 then c.decimals else c.decimals + (-c.exponent)
  }

  /** The amount in major units, before any scaling. */
  function Major(c: Component): real {
    Down(if c.exponent >= 0 then Times(c.coefficient, c.exponent) else Down(c.coefficient as real, -c.exponent),
         c.decimals)
  }

  lemma DownTwice(x: real, a: nat, b: nat)
    ensures Down(Down(x, a), b) == x / Pow10(a) / Pow10(b)
  {
    DownIsQuotient(x, a);
    DownIsQuotient(Down(x, a), b);
  }

  lemma MajorIsQuotient(c: Component)
    ensures c.exponent >= 0 ==> Major(c) == Times(c.coefficient, c.exponent) / Pow10(c.decimals)
    ensures c.exponent < 0 ==> Major(c) == c.coefficient as real / Pow10(-c.exponent) / Pow10(c.decimals)
  {
    if c.exponent >= 0 {
      DownIsQuotient(Times(c.coefficient, c.exponent), c.decimals);
    } else {
      DownTwice(c.coefficient as real, -c.exponent, c.decimals);
    }
  }

  lemma MajorKeepsSign(c: Component)
    requires ScaledAmount(c) >= 0
    ensures Major(c) >= 0.0
  {
    ScalingKeepsMajor(c);
    DownKeepsSign(ScaledAmount(c) as real, ScaledDecimals(c));
  }

  lemma ScalingKeepsMajor(c: Component)
    ensures Down(ScaledAmount(c) as real, ScaledDecimals(c)) == Major(c)
  {
    if c.exponent >= 0 {
      UpIsProduct(c.coefficient, c.exponent);
    } else {
      DownAdds(c.coefficient as real, -c.exponent, c.decimals);
    }
  }

  /** Writing an amount with k more decimals changes no conversion. */
  lemma MoreDecimalsSameResult(q: Quote, currency: Currency, amount: int, decimals: nat, k: nat, now: int)
    ensures ConvertLine(q, currency, Up(amount, k), decimals + k, now) == ConvertLine(q, currency, amount, decimals, now)
  {
    UpKeepsSign(amount, k);
    DownOfUp(amount, k, decimals);
  }

  // ---- Totals ----

  function Sum(components: seq<int>): int {
    if components == [] then 0 else Sum(components[..|components| - 1]) + components[|components| - 1]
  }

  lemma {:induction false} PrefixSumAtMost(components: seq<int>, k: nat)
    requires k <= |components| && forall i :: 0 <= i < |components| ==> components[i] >= 0
    ensures 0 <= Sum(components[..k]) <= Sum(components)
    decreases |components|
  {
    if k == |components| {
      assert components[..k] == components;
      if k > 0 {
        PrefixSumAtMost(components[..k - 1], k - 1);
      }
    } else {
      assert components[..|components| - 1][..k] == components[..k];
      PrefixSumAtMost(components[..|components| - 1], k);
    }
  }

  /** The sum, exactly when it is one: no negative component and a sum in range, although every prefix is checked. */
  method CheckedTotalSat(components: seq<int>) returns (r: Result<int, Reason>)
    ensures r.Ok? <==> (forall i :: 0 <= i < |components| ==> components[i] >= 0) && 1 <= Sum(components) <= INT64_MAX
    ensures r.Ok? ==> r.value == Sum(components)
    ensures r == Err(TotalBelowOne) <==> forall i :: 0 <= i < |components| ==> components[i] == 0
    ensures r == Err(ComponentNegative) ==> exists i :: 0 <= i < |components| && components[i] < 0
    ensures r == Err(TotalOverflow) ==> exists k :: 0 <= k <= |components| && Sum(components[..k]) > INT64_MAX
  {
    var total := 0;
    for k := 0 to |components|
      invariant total == Sum(components[..k]) && 0 <= total <= INT64_MAX
      invariant forall i :: 0 <= i < k ==> components[i] >= 0
      invariant total == 0 <==> forall i :: 0 <= i < k ==> components[i] == 0
    {
      assert components[..k + 1][..k] == components[..k];
      if components[k] < 0 {
        return Err(ComponentNegative);
      }
      total := total + components[k];
      if total > INT64_MAX {
        assert Sum(components[..k + 1]) > INT64_MAX;
        if forall i :: 0 <= i < |components| ==> components[i] >= 0 {
          PrefixSumAtMost(components, k + 1);
        }
        return Err(TotalOverflow);
      }
    }
    assert components[..|components|] == components;
    r := if total < 1 then Err(TotalBelowOne) else Ok(total);
  }

  // ---- Quotes ----

  datatype ProviderValue = NotANumber | NotFinite | Rate(value: real)

  predicate Positive(v: ProviderValue) {
    v.Rate? && v.value > 0.0
  }

  function SumPositive(vs: seq<ProviderValue>): real {
    if vs == [] then 0.0
    else SumPositive(vs[..|vs| - 1]) + if Positive(vs[|vs| - 1]) then vs[|vs| - 1].value else 0.0
  }

  function CountPositive(vs: seq<ProviderValue>): nat {
    if vs == [] then 0 else CountPositive(vs[..|vs| - 1]) + if Positive(vs[|vs| - 1]) then 1 else 0
  }

  function ToUpper(c: char): char {
    if 'a' <= c <= 'z' then (c as int - 'a' as int + 'A' as int) as char else c
  }

  /** currency.upper(), on ASCII letters. */
  function Upper(s: string): string {
    seq(|s|, i requires 0 <= i < |s| => ToUpper(s[i]))
  }

  lemma {:induction false} UpperAt(s: string, k: nat)
    requires k < |s|
    ensures |Upper(s)| == |s|
    ensures s[k] in "abcdefghijklmnopqrstuvwxyz" ==> Upper(s)[k] in "ABCDEFGHIJKLMNOPQRSTUVWXYZ" && (s[k] as int) == Upper(s)[k] as int + 32
    ensures s[k] !in "abcdefghijklmnopqrstuvwxyz" ==> Upper(s)[k] == s[k]
  {
  }

  /** x added up n times. */
  function Repeated(n: nat, x: real): real {
    if n == 0 then 0.0 else Repeated(n - 1, x) + x
  }

  lemma {:induction false} RepeatedIsProduct(n: nat, x: real)
    ensures Repeated(n, x) == n as real * x
  {
    if n > 0 {
      RepeatedIsProduct(n - 1, x);
    }
  }

  /** The rates that survive the filter: how many, and their sum. */
  method PositiveRates(vs: seq<ProviderValue>, ghost low: real, ghost high: real) returns (n: nat, sum: real)
    requires forall v :: v in vs && Positive(v) ==> low <= v.value <= high
    ensures Repeated(n, low) <= sum <= Repeated(n, high) && sum == SumPositive(vs) && n == CountPositive(vs)
    ensures n == 0 <==> forall v :: v in vs ==> !Positive(v)
    ensures n > 0 ==> sum > 0.0
  {
    n, sum := 0, 0.0;
    for k := 0 to |vs|
      invariant Repeated(n, low) <= sum <= Repeated(n, high) && sum == SumPositive(vs[..k]) && n == CountPositive(vs[..k])
      invariant n == 0 <==> forall v :: v in vs[..k] ==> !Positive(v)
      invariant (n > 0 ==> sum > 0.0) && (n == 0 ==> sum == 0.0)
    {
      assert vs[..k + 1] == vs[..k] + [vs[k]] && vs[..k + 1][..k] == vs[..k];
      if Positive(vs[k]) {
        assert vs[k] in vs;
        n, sum := n + 1, sum + vs[k].value;
      }
    }
    assert vs[..|vs|] == vs;
  }

  /**
   * Filter, then the mean: a quote exists exactly when the provider answers with some positive rate and the code is
   * three letters; it lies between any bounds of those rates. `provided` is None when the provider fails.
   */
  method QuoteCurrency(
    currency: Currency, alphabetic: bool, provided: Option<seq<ProviderValue>>, at: int, ghost low: real, ghost high: real)
    returns (r: Result<Quote, Reason>)
    requires provided.Some? ==> forall v :: v in provided.value && Positive(v) ==> low <= v.value <= high
    ensures r == Err(ProviderFailed) <==> provided.None?
    ensures r == Err(NoProvenance) <==> provided.Some? && !exists v :: v in provided.value && v.Rate? && v.value > 0.0
    ensures r.Ok? <==>
      alphabetic && |currency| == 3 && provided.Some? && exists v :: v in provided.value && v.Rate? && v.value > 0.0
    ensures r.Ok? ==>
      && r.value.currency == Upper(currency)
      && r.value.providers == CountPositive(provided.value)
      && r.value.perBtc * r.value.providers as real == SumPositive(provided.value)
      && low <= r.value.perBtc <= high
      && r.value.perBtc * r.value.satPerMajor == 100_000_000.0
      && r.value.observedAt == at
      && forall now :: UnusableBecause(r.value, now).None? <==> now < at + 300
  {
    if provided.None? {
      return Err(ProviderFailed);
    }
    var vs := provided.value;
    var n, sum := PositiveRates(vs, low, high);
    if n == 0 {
      return Err(NoProvenance);
    }
    if !alphabetic || |currency| != 3 {
      return Err(CurrencyInvalid);
    }
    r := Ok(MeanQuote(Upper(currency), n, sum, at));
    MeanQuoteIsSound(Upper(currency), n, sum, at, low, high);
  }

  function MeanQuote(currency: Currency, n: nat, sum: real, at: int): Quote
    requires n > 0 && sum > 0.0
  {
    MeanIsPositive(n as real, sum);
    Quote(currency, sum / n as real, SAT_PER_BTC / (sum / n as real), n, at, at + QUOTE_TTL)
  }

  lemma MeanIsPositive(n: real, sum: real)
    requires n > 0.0 && sum > 0.0
    ensures sum / n > 0.0
  {
  }

  lemma MeanQuoteIsSound(currency: Currency, n: nat, sum: real, at: int, low: real, high: real)
    requires n > 0 && sum > 0.0 && Repeated(n, low) <= sum <= Repeated(n, high)
    ensures
      var q := MeanQuote(currency, n, sum, at);
      && low <= q.perBtc <= high && q.perBtc * n as real == sum
      && q.perBtc * q.satPerMajor == 100_000_000.0
      && q.observedAt == at
      && forall now :: UnusableBecause(q, now).None? <==> now < at + 300
  {
    RepeatedIsProduct(n, low);
    RepeatedIsProduct(n, high);
    MeanBetween(sum, n as real, low, high);
    var mean := sum / n as real;
    assert SAT_PER_BTC / mean > 0.0;
  }

  lemma MeanBetween(sum: real, n: real, low: real, high: real)
    requires n > 0.0 && sum > 0.0 && n * low <= sum <= n * high
    ensures sum / n > 0.0 && low <= sum / n <= high
  {
  }

  // ---- The cart ----

  function QuoteFor(provider: map<Currency, Quote>, satAt: int, currency: Currency): Option<Quote> {
    if currency == SAT then Some(SatQuote(satAt))
    else if currency in provider then Some(provider[currency])
    else None
  }

  function SatOf(provider: map<Currency, Quote>, satAt: int, c: Component): Result<int, Reason> {
    match QuoteFor(provider, satAt, c.currency)
    case None => Err(NoQuote)
    case Some(q) => ConvertLine(q, c.currency, ScaledAmount(c), ScaledDecimals(c), c.at)
  }

  /** A quote of SAT is one satoshi to the satoshi, for five minutes. */
  lemma SatQuoteIsIdentity(provider: map<Currency, Quote>, satAt: int, now: int)
    ensures
      var q := QuoteFor(provider, satAt, "SAT");
      && q.Some? && q.value.currency == "SAT" && q.value.observedAt == satAt && q.value.providers == 1
      && q.value.satPerMajor == 1.0 && q.value.perBtc * q.value.satPerMajor == SAT_PER_BTC
      && (Usable(q.value, now) <==> now < satAt + 300)
  {
  }

  /** A SAT amount without decimals. */
  predicate WholeSats(c: Component) {
    c.currency == SAT && c.decimals == 0 && c.exponent == 0
  }

  /** An integer amount of satoshis costs exactly that amount. */
  lemma SatsCostThemselves(provider: map<Currency, Quote>, satAt: int, amount: int, at: int)
    ensures
      SatOf(provider, satAt, Component("SAT", 0, amount, 0, at)) ==
        if at >= satAt + 300 then Err(Stale) else if amount < 0 then Err(AmountNegative) else Ok(amount)
  {
  }

  /** Ten to the exponent times the coefficient, over ten to the decimals, at the provider's rate, and rounded up once. */
  lemma ComponentIsCovered(provider: map<Currency, Quote>, satAt: int, c: Component)
    requires c.currency != "SAT"
    ensures
      var r := SatOf(provider, satAt, c);
      && (r == Err(NoQuote) <==> c.currency !in provider)
      && (r.Ok? <==>
            && c.currency in provider && provider[c.currency].currency == c.currency
            && Usable(provider[c.currency], c.at) && c.coefficient >= 0)
      && (r.Ok? && c.exponent >= 0 ==>
            LeastCover(r.value, Times(c.coefficient, c.exponent) / Pow10(c.decimals) * provider[c.currency].satPerMajor))
      && (r.Ok? && c.exponent < 0 ==>
            LeastCover(r.value, c.coefficient as real / Pow10(-c.exponent) / Pow10(c.decimals) * provider[c.currency].satPerMajor))
  {
    MajorIsQuotient(c);
    if c.exponent >= 0 {
      UpKeepsSign(c.coefficient, c.exponent);
    }
    if SatOf(provider, satAt, c).Ok? {
      ComponentIsTight(provider, satAt, c);
    }
  }

  predicate AllPriced(provider: map<Currency, Quote>, satAt: int, cs: seq<Component>) {
    forall i :: 0 <= i < |cs| ==> SatOf(provider, satAt, cs[i]).Ok?
  }

  function Sats(provider: map<Currency, Quote>, satAt: int, cs: seq<Component>): (r: seq<int>)
    requires AllPriced(provider, satAt, cs)
    ensures |r| == |cs|
  {
    seq(|cs|, i requires 0 <= i < |cs| => SatOf(provider, satAt, cs[i]).value)
  }

  /** The price of one component with no rounding at all. */
  function ExactOf(provider: map<Currency, Quote>, satAt: int, c: Component): real {
    var q := QuoteFor(provider, satAt, c.currency);
    if q.Some? then PriceOf(Major(c), q.value) else 0.0
  }

  function SumReal(xs: seq<real>): real {
    if xs == [] then 0.0 else SumReal(xs[..|xs| - 1]) + xs[|xs| - 1]
  }

  function Exact(provider: map<Currency, Quote>, satAt: int, cs: seq<Component>): real {
    SumReal(seq(|cs|, i requires 0 <= i < |cs| => ExactOf(provider, satAt, cs[i])))
  }

  lemma ComponentIsTight(provider: map<Currency, Quote>, satAt: int, c: Component)
    requires SatOf(provider, satAt, c).Ok?
    ensures 0.0 <= ExactOf(provider, satAt, c) <= SatOf(provider, satAt, c).value as real
    ensures SatOf(provider, satAt, c).value as real < ExactOf(provider, satAt, c) + 1.0
  {
    var q := QuoteFor(provider, satAt, c.currency).value;
    ConversionCovers(q, c.currency, ScaledAmount(c), ScaledDecimals(c), c.at);
    DownIsQuotient(ScaledAmount(c) as real, ScaledDecimals(c));
    ScalingKeepsMajor(c);
    MajorKeepsSign(c);
    ProductNonNegative(Major(c), q.satPerMajor);
  }

  lemma {:induction false} SumIsTight(sats: seq<int>, exacts: seq<real>)
    requires |sats| == |exacts|
    requires forall i :: 0 <= i < |sats| ==> exacts[i] <= sats[i] as real < exacts[i] + 1.0
    ensures SumReal(exacts) <= Sum(sats) as real
    ensures sats != [] ==> Sum(sats) as real < SumReal(exacts) + |sats| as real
  {
    if sats != [] {
      SumIsTight(sats[..|sats| - 1], exacts[..|exacts| - 1]);
    }
  }

  /** The order total covers the exact price and exceeds it by less than one satoshi per component. */
  lemma TotalIsTight(provider: map<Currency, Quote>, satAt: int, cs: seq<Component>)
    requires AllPriced(provider, satAt, cs)
    ensures Exact(provider, satAt, cs) <= Sum(Sats(provider, satAt, cs)) as real
    ensures cs != [] ==> Sum(Sats(provider, satAt, cs)) as real < Exact(provider, satAt, cs) + |cs| as real
    ensures forall i :: 0 <= i < |cs| ==> Sats(provider, satAt, cs)[i] >= 0
  {
    var exacts := seq(|cs|, i requires 0 <= i < |cs| => ExactOf(provider, satAt, cs[i]));
    var sats := Sats(provider, satAt, cs);
    forall i | 0 <= i < |cs| ensures 0.0 <= exacts[i] <= sats[i] as real < exacts[i] + 1.0 {
      ComponentIsTight(provider, satAt, cs[i]);
    }
    SumIsTight(sats, exacts);
  }

  function Coefficients(cs: seq<Component>): seq<int> {
    seq(|cs|, i requires 0 <= i < |cs| => cs[i].coefficient)
  }

  /** A cart priced in whole satoshis costs their plain sum. */
  lemma SatCartIsPlainSum(provider: map<Currency, Quote>, satAt: int, cs: seq<Component>)
    requires AllPriced(provider, satAt, cs) && forall i :: 0 <= i < |cs| ==> WholeSats(cs[i])
    ensures Sum(Sats(provider, satAt, cs)) == Sum(Coefficients(cs))
  {
    forall i | 0 <= i < |cs| ensures Sats(provider, satAt, cs)[i] == cs[i].coefficient {
      assert cs[i] == Component("SAT", 0, cs[i].coefficient, 0, cs[i].at);
      SatsCostThemselves(provider, satAt, cs[i].coefficient, cs[i].at);
    }
    assert Sats(provider, satAt, cs) == Coefficients(cs);
  }

  predicate UsableAt(provider: map<Currency, Quote>, satAt: int, cs: seq<Component>, end: int) {
    forall i :: 0 <= i < |cs| ==>
      QuoteFor(provider, satAt, cs[i].currency).Some? &&
      UnusableBecause(QuoteFor(provider, satAt, cs[i].currency).value, end).None?
  }

  datatype CartError = FxUnavailable | InvalidTotal

  datatype Priced = Priced(subtotal: int, shipping: int, total: int)

  lemma {:induction false} SumAppend(a: seq<int>, b: seq<int>)
    ensures Sum(a + b) == Sum(a) + Sum(b)
  {
    if b == [] {
      assert a + b == a;
    } else {
      assert (a + b)[..|a + b| - 1] == a + b[..|b| - 1];
      SumAppend(a, b[..|b| - 1]);
    }
  }

  predicate Agrees(quotes: map<Currency, Quote>, provider: map<Currency, Quote>, satAt: int) {
    forall c :: c in quotes ==> QuoteFor(provider, satAt, c) == Some(quotes[c])
  }

  function Currencies(cs: seq<Component>): set<Currency> {
    if cs == [] then {} else Currencies(cs[..|cs| - 1]) + {cs[|cs| - 1].currency}
  }

  lemma {:induction false} CurrencyOf(cs: seq<Component>, c: Currency)
    ensures c in Currencies(cs) <==> exists i :: 0 <= i < |cs| && cs[i].currency == c
  {
    if cs != [] {
      CurrencyOf(cs[..|cs| - 1], c);
      if i :| 0 <= i < |cs| && cs[i].currency == c {
        assert i == |cs| - 1 || cs[..|cs| - 1][i].currency == c;
      }
    }
  }

  lemma {:induction false} CurrenciesAppend(a: seq<Component>, b: seq<Component>)
    ensures Currencies(a + b) == Currencies(a) + Currencies(b)
  {
    if b == [] {
      assert a + b == a;
    } else {
      CurrenciesAppend(a, b[..|b| - 1]);
      assert (a + b)[..|a + b| - 1] == a + b[..|b| - 1];
    }
  }

  /** Fetch the quote at the currency's first component, then convert. */
  method PriceOne(known: map<Currency, Quote>, c: Component, provider: map<Currency, Quote>, satAt: int)
    returns (r: Result<int, Reason>, quotes: map<Currency, Quote>)
    requires Agrees(known, provider, satAt)
    ensures r == SatOf(provider, satAt, c)
    ensures r.Ok? ==> Agrees(quotes, provider, satAt) && quotes.Keys == known.Keys + {c.currency}
  {
    quotes := known;
    if c.currency !in quotes {
      var q := QuoteFor(provider, satAt, c.currency);
      if q.None? {
        return Err(NoQuote), quotes;
      }
      quotes := quotes[c.currency := q.value];
    }
    r := ConvertLine(quotes[c.currency], c.currency, ScaledAmount(c), ScaledDecimals(c), c.at);
  }

  /** These are the conversions of these components. */
  predicate Conversions(provider: map<Currency, Quote>, satAt: int, cs: seq<Component>, sats: seq<int>) {
    |sats| == |cs| && forall i :: 0 <= i < |cs| ==> SatOf(provider, satAt, cs[i]) == Ok(sats[i])
  }

  lemma CurrenciesSnoc(cs: seq<Component>, k: nat)
    requires k < |cs|
    ensures Currencies(cs[..k + 1]) == Currencies(cs[..k]) + {cs[k].currency}
  {
    assert cs[..k + 1][..k] == cs[..k];
  }

  lemma ConversionsSnoc(provider: map<Currency, Quote>, satAt: int, cs: seq<Component>, k: nat, sats: seq<int>, x: int)
    requires k < |cs| && Conversions(provider, satAt, cs[..k], sats) && SatOf(provider, satAt, cs[k]) == Ok(x)
    ensures Conversions(provider, satAt, cs[..k + 1], sats + [x]) && Sum(sats + [x]) == Sum(sats) + x
  {
    assert (sats + [x])[..k] == sats;
  }

  /** One quote per currency, fetched at its first component and reused. */
  method PriceEach(known: map<Currency, Quote>, cs: seq<Component>, provider: map<Currency, Quote>, satAt: int)
    returns (ok: bool, quotes: map<Currency, Quote>, sats: seq<int>, sum: int)
    requires Agrees(known, provider, satAt)
    ensures ok <==> AllPriced(provider, satAt, cs)
    ensures ok ==> Conversions(provider, satAt, cs, sats) && sum == Sum(sats)
    ensures ok ==> Agrees(quotes, provider, satAt) && quotes.Keys == known.Keys + Currencies(cs)
  {
    quotes, sats, sum := known, [], 0;
    for k := 0 to |cs|
      invariant Conversions(provider, satAt, cs[..k], sats) && sum == Sum(sats)
      invariant Agrees(quotes, provider, satAt) && quotes.Keys == known.Keys + Currencies(cs[..k])
    {
      CurrenciesSnoc(cs, k);
      var sat;
      sat, quotes := PriceOne(quotes, cs[k], provider, satAt);
      if sat.Err? {
        Unpriced(provider, satAt, cs, k);
        return false, quotes, sats, sum;
      }
      ConversionsSnoc(provider, satAt, cs, k, sats, sat.value);
      sats := sats + [sat.value];
      sum := sum + sat.value;
    }
    ok := true;
    PricedAll(provider, satAt, cs, sats);
  }

  lemma PricedAll(provider: map<Currency, Quote>, satAt: int, cs: seq<Component>, sats: seq<int>)
    requires Conversions(provider, satAt, cs[..|cs|], sats)
    ensures cs[..|cs|] == cs && Conversions(provider, satAt, cs, sats) && AllPriced(provider, satAt, cs)
  {
    assert cs[..|cs|] == cs;
  }

  lemma Unpriced(provider: map<Currency, Quote>, satAt: int, cs: seq<Component>, k: nat)
    requires k < |cs| && SatOf(provider, satAt, cs[k]).Err?
    ensures !AllPriced(provider, satAt, cs)
  {
  }

  lemma BothPriced(provider: map<Currency, Quote>, satAt: int, a: seq<Component>, b: seq<Component>)
    ensures AllPriced(provider, satAt, a + b) <==> AllPriced(provider, satAt, a) && AllPriced(provider, satAt, b)
  {
    if AllPriced(provider, satAt, a + b) {
      forall i | 0 <= i < |a| ensures SatOf(provider, satAt, a[i]).Ok? {
        assert (a + b)[i] == a[i];
      }
      forall i | 0 <= i < |b| ensures SatOf(provider, satAt, b[i]).Ok? {
        assert (a + b)[|a| + i] == b[i];
      }
    }
  }

  /** The conversions of lines and shipping are those of the whole cart, and their sum is tight. */
  lemma CartSats(
    provider: map<Currency, Quote>, satAt: int, a: seq<Component>, b: seq<Component>, x: seq<int>, y: seq<int>)
    requires Conversions(provider, satAt, a, x) && Conversions(provider, satAt, b, y)
    ensures AllPriced(provider, satAt, a) && Sats(provider, satAt, a) == x
    ensures AllPriced(provider, satAt, a + b) && Sats(provider, satAt, a + b) == x + y
    ensures Sum(x + y) == Sum(x) + Sum(y)
    ensures forall i :: 0 <= i < |x + y| ==> (x + y)[i] >= 0
    ensures Exact(provider, satAt, a + b) <= Sum(x + y) as real
    ensures a + b != [] ==> Sum(x + y) as real < Exact(provider, satAt, a + b) + (|a| + |b|) as real
  {
    assert Sats(provider, satAt, a) == x;
    assert Sats(provider, satAt, a + b) == x + y;
    SumAppend(x, y);
    TotalIsTight(provider, satAt, a + b);
  }

  lemma UsableQuotes(
    quotes: map<Currency, Quote>, provider: map<Currency, Quote>, satAt: int, cs: seq<Component>, end: int)
    requires Agrees(quotes, provider, satAt) && quotes.Keys == Currencies(cs)
    ensures UsableAt(provider, satAt, cs, end) <==> forall c :: c in quotes ==> UnusableBecause(quotes[c], end).None?
  {
    forall i | 0 <= i < |cs| ensures cs[i].currency in quotes {
      CurrencyOf(cs, cs[i].currency);
    }
    forall c | c in quotes ensures exists i :: 0 <= i < |cs| && cs[i].currency == c {
      CurrencyOf(cs, c);
    }
  }

  /** Lines, then shipping, then every quote again at `end`, then the checked total. */
  method PriceCart(lines: seq<Component>, shipping: seq<Component>, provider: map<Currency, Quote>, satAt: int, end: int)
    returns (r: Result<Priced, CartError>)
    ensures r == Err(FxUnavailable) <==> !AllPriced(provider, satAt, lines + shipping)
    ensures r.Ok? <==>
      && AllPriced(provider, satAt, lines + shipping) && UsableAt(provider, satAt, lines + shipping, end)
      && 1 <= Sum(Sats(provider, satAt, lines + shipping)) <= INT64_MAX
    ensures r.Ok? ==>
      && r.value.total == r.value.subtotal + r.value.shipping
      && AllPriced(provider, satAt, lines) && r.value.subtotal == Sum(Sats(provider, satAt, lines))
      && Exact(provider, satAt, lines + shipping) <= r.value.total as real
      && r.value.total as real < Exact(provider, satAt, lines + shipping) + (|lines| + |shipping|) as real
      && r.value.total == Sum(Sats(provider, satAt, lines + shipping))
    ensures r.Ok? && (forall i :: 0 <= i < |lines + shipping| ==> WholeSats((lines + shipping)[i])) ==>
      r.value.total == Sum(Coefficients(lines + shipping))
  {
    var all := lines + shipping;
    BothPriced(provider, satAt, lines, shipping);
    var priced, quotes, lineSats, subtotal := PriceEach(map[], lines, provider, satAt);
    if !priced {
      return Err(FxUnavailable);
    }
    var shippingSats, shippingSat;
    priced, quotes, shippingSats, shippingSat := PriceEach(quotes, shipping, provider, satAt);
    if !priced {
      return Err(FxUnavailable);
    }
    CartSats(provider, satAt, lines, shipping, lineSats, shippingSats);
    CurrenciesAppend(lines, shipping);
    UsableQuotes(quotes, provider, satAt, all, end);
    if exists c :: c in quotes && UnusableBecause(quotes[c], end).Some? {
      return Err(InvalidTotal);
    }
    if forall i :: 0 <= i < |all| ==> WholeSats(all[i]) {
      SatCartIsPlainSum(provider, satAt, all);
    }
    var total := CheckedTotalSat(lineSats + shippingSats);
    r := if total.Ok? then Ok(Priced(subtotal, shippingSat, total.value)) else Err(InvalidTotal);
  }
}
