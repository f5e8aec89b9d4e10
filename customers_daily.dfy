/** The daily customer file: a country draw loop that skips the excluded
    countries until it has `n` of them, then one row per admitted country,
    built column by column. The Faker and `random` draws are inputs: a
    stream of drawn country names and one `DailyDraw` per row. */
module CustomersDaily {
  import Text
  import Decimal
  import DataGenerator

  /** `get_excluded_countries()`. */
  const ExcludedCountries: seq<string> := ["Saudi Arabia", "Israel", "United Arab Emirates", "India"]

  const CurrencyMap: map<string, string> := map[
    "France" := "EUR", "Germany" := "EUR", "Italy" := "EUR", "Spain" := "EUR", "Belgium" := "EUR",
    "Netherlands" := "EUR", "United Kingdom" := "GBP", "Switzerland" := "CHF", "Austria" := "EUR",
    "Portugal" := "EUR", "Poland" := "PLN", "Sweden" := "SEK", "Denmark" := "DKK", "Finland" := "EUR",
    "Ireland" := "EUR", "Norway" := "NOK", "Luxembourg" := "EUR", "Czech Republic" := "CZK",
    "Slovakia" := "EUR", "Hungary" := "HUF", "USA" := "USD", "Canada" := "CAD", "Australia" := "AUD",
    "New Zealand" := "NZD", "Japan" := "JPY", "South Korea" := "KRW", "Brazil" := "BRL", "Mexico" := "MXN"]

  /** `currency_map.get(country, 'EUR')`: a three-letter code in every case. */
  function Currency(country: string): (cur: string)
    ensures |cur| == 3
    ensures country in CurrencyMap ==> cur == CurrencyMap[country]
    ensures country !in CurrencyMap ==> cur == "EUR"
  {
    if country in CurrencyMap then CurrencyMap[country] else "EUR"
  }

  /** The drawn names the loop keeps, in the order drawn: the reference
      for the loop below. */
  function Admitted(stream: seq<string>): (kept: seq<string>)
    ensures |kept| <= |stream|
    ensures forall i :: 0 <= i < |kept| ==> kept[i] !in ExcludedCountries && kept[i] in stream
  {
    if stream == [] then []
    else
      var prior := Admitted(stream[..|stream| - 1]);
      var last := stream[|stream| - 1];
      assert forall c :: c in stream[..|stream| - 1] ==> c in stream;
      if last in ExcludedCountries then prior else prior + [last]
  }

  /** Drawing more never changes what was kept: the names kept from a
      prefix of the stream start the names kept from the whole stream. */
  lemma {:induction false} AdmittedPrefix(stream: seq<string>, i: nat)
    requires i <= |stream|
    ensures Admitted(stream[..i]) <= Admitted(stream)
    decreases |stream| - i
  {
    if i < |stream| {
      AdmittedPrefix(stream, i + 1);
      assert stream[..i + 1][..i] == stream[..i];
    } else {
      assert stream[..i] == stream;
    }
  }

  /** Each draw adds at most one kept name. */
  lemma {:induction false} AdmittedGrowth(stream: seq<string>, i: nat)
    requires i <= |stream|
    ensures |Admitted(stream)| <= |Admitted(stream[..i])| + (|stream| - i)
    decreases |stream| - i
  {
    if i < |stream| {
      AdmittedGrowth(stream, i + 1);
      assert stream[..i + 1][..i] == stream[..i];
    } else {
      assert stream[..i] == stream;
    }
  }

  /** The `while len(valid_countries) < n` loop: it stops at the `n`-th
      admitted draw, so it keeps the first `n` admitted names. The stream
      must hold that many; otherwise the source loops for ever. */
  method ValidCountries(n: nat, stream: seq<string>) returns (valid: seq<string>)
    requires n <= |Admitted(stream)|
    ensures |valid| == n
    ensures valid == Admitted(stream)[..n]
    ensures forall i :: 0 <= i < n ==> valid[i] !in ExcludedCountries
  {
    valid := [];
    var i := 0;
    while |valid| < n
      invariant 0 <= i <= |stream| && |valid| <= n
      invariant valid == Admitted(stream[..i])
      decreases |stream| - i
    {
      AdmittedGrowth(stream, i);
      var c := stream[i];
      i := i + 1;
      if c !in ExcludedCountries {
        valid := valid + [c];
      }
      assert stream[..i][..i - 1] == stream[..i - 1];
    }
    AdmittedPrefix(stream, i);
  }

  /** `country[:2]`. */
  function Prefix2(country: string): (p: string)
    ensures |p| <= 2 && p <= country
  {
    if |country| >= 2 then country[..2] else country
  }

  /** `f"{cc}{random.randint(100000000, 999999999)}"` with
      `cc = country[:2].upper()`. */
  function DailyVat(country: string, number: nat): string
  {
    Text.Upper(Prefix2(country)) + Decimal.Dec(number)
  }

  /** The VAT is the country's first two characters upper-cased, then the
      nine digits of the drawn number. */
  lemma DailyVatShape(country: string, number: nat)
    requires 100000000 <= number <= 999999999
    ensures var vat := DailyVat(country, number); var k := |Prefix2(country)|;
      && |vat| == k + 9
      && vat[..k] == Text.Upper(Prefix2(country))
      && Decimal.AllDigits(vat[k..])
      && Decimal.Value(vat[k..]) == number
  {
    assert Decimal.Pow10(8) == 100000000 && Decimal.Pow10(9) == 1000000000;
    Decimal.DecLength(number, 9);
    Decimal.ValueOfDec(number);
    var vat := DailyVat(country, number);
    var k := |Prefix2(country)|;
    assert vat[k..] == Decimal.Dec(number);
  }

  /** The prefix is not the ISO code the bulk generator uses: a German
      customer's VAT starts `GE`, not `DE`. */
  lemma DailyVatPrefixIsNotTheCountryCode()
    ensures Text.Upper(Prefix2("Germany")) == "GE"
    ensures DataGenerator.CountryCode("Germany") == "DE"
  {
    assert Prefix2("Germany") == "Ge";
  }

  /** The draws behind one row, after its country. */
  datatype DailyDraw = DailyDraw(
    company: string, vatNumber: nat, address: string, postalCode: string, city: string,
    email: string, phone: string, industry: string, segment: nat, isActive: bool)

  predicate ValidDailyDraws(draws: seq<DailyDraw>)
  {
    forall i :: 0 <= i < |draws| ==>
      100000000 <= draws[i].vatNumber <= 999999999 && draws[i].segment < |DataGenerator.Segments|
  }

  /** The `data` dict: one list per column. */
  datatype CustomerColumns = CustomerColumns(
    customerId: seq<string>, companyName: seq<string>, vatNumber: seq<string>, address: seq<string>,
    postalCode: seq<string>, city: seq<string>, country: seq<string>, currency: seq<string>,
    email: seq<string>, phone: seq<string>, industry: seq<string>, createdAt: seq<string>,
    lastModified: seq<string>, customerSegment: seq<string>, isActive: seq<bool>,
    modificationHistory: seq<string>)

  /** All sixteen columns have `n` entries, as `pd.DataFrame(data)` needs. */
  predicate HasRows(data: CustomerColumns, n: nat)
  {
    && |data.customerId| == n && |data.companyName| == n && |data.vatNumber| == n
    && |data.address| == n && |data.postalCode| == n && |data.city| == n
    && |data.country| == n && |data.currency| == n && |data.email| == n
    && |data.phone| == n && |data.industry| == n && |data.createdAt| == n
    && |data.lastModified| == n && |data.customerSegment| == n && |data.isActive| == n
    && |data.modificationHistory| == n
  }

  /** The columns after the loop has appended the rows for the first `k`
      admitted countries. */
  function ColumnsUpTo(valid: seq<string>, draws: seq<DailyDraw>, startDate: string, k: nat): (data: CustomerColumns)
    requires k <= |valid| && k <= |draws| && ValidDailyDraws(draws)
    ensures HasRows(data, k)
    ensures data.country == valid[..k]
  {
    if k == 0 then CustomerColumns([], [], [], [], [], [], [], [], [], [], [], [], [], [], [], [])
    else
      var data := ColumnsUpTo(valid, draws, startDate, k - 1);
      var country := valid[k - 1];
      var d := draws[k - 1];
      assert valid[..k] == valid[..k - 1] + [country];
      data.(
        customerId := data.customerId + [DataGenerator.CustomerId(k)],
        companyName := data.companyName + [d.company],
        vatNumber := data.vatNumber + [DailyVat(country, d.vatNumber)],
        address := data.address + [d.address],
        postalCode := data.postalCode + [d.postalCode],
        city := data.city + [d.city],
        country := data.country + [country],
        currency := data.currency + [Currency(country)],
        email := data.email + [d.email],
        phone := data.phone + [d.phone],
        industry := data.industry + [d.industry],
        createdAt := data.createdAt + [startDate],
        lastModified := data.lastModified + [startDate],
        customerSegment := data.customerSegment + [DataGenerator.Segments[d.segment]],
        isActive := data.isActive + [d.isActive],
        modificationHistory := data.modificationHistory + ["[]"])
  }

  /** Row `i` has the identifier `C` + `zfill(i + 1, 6)`. */
  lemma {:induction false} ColumnsIdAt(valid: seq<string>, draws: seq<DailyDraw>, startDate: string, k: nat, i: nat)
    requires k <= |valid| && k <= |draws| && ValidDailyDraws(draws) && i < k
    ensures ColumnsUpTo(valid, draws, startDate, k).customerId[i] == DataGenerator.CustomerId(i + 1)
  {
    var data := ColumnsUpTo(valid, draws, startDate, k);
    var prev := ColumnsUpTo(valid, draws, startDate, k - 1);
    assert data.customerId == prev.customerId + [DataGenerator.CustomerId(k)];
    if i < k - 1 {
      ColumnsIdAt(valid, draws, startDate, k - 1, i);
      assert data.customerId[i] == prev.customerId[i];
    } else {
      assert data.customerId[i] == DataGenerator.CustomerId(k);
    }
  }

  /** Row `i` has its country's currency. */
  lemma {:induction false} ColumnsCurrencyAt(valid: seq<string>, draws: seq<DailyDraw>, startDate: string, k: nat, i: nat)
    requires k <= |valid| && k <= |draws| && ValidDailyDraws(draws) && i < k
    ensures ColumnsUpTo(valid, draws, startDate, k).currency[i] == Currency(valid[i])
  {
    var data := ColumnsUpTo(valid, draws, startDate, k);
    var prev := ColumnsUpTo(valid, draws, startDate, k - 1);
    assert data.currency == prev.currency + [Currency(valid[k - 1])];
    if i < k - 1 {
      ColumnsCurrencyAt(valid, draws, startDate, k - 1, i);
      assert data.currency[i] == prev.currency[i];
    } else {
      assert data.currency[i] == Currency(valid[k - 1]);
    }
  }

  /** Row `i` has its country's VAT number. */
  lemma {:induction false} ColumnsVatAt(valid: seq<string>, draws: seq<DailyDraw>, startDate: string, k: nat, i: nat)
    requires k <= |valid| && k <= |draws| && ValidDailyDraws(draws) && i < k
    ensures ColumnsUpTo(valid, draws, startDate, k).vatNumber[i] == DailyVat(valid[i], draws[i].vatNumber)
  {
    var data := ColumnsUpTo(valid, draws, startDate, k);
    var prev := ColumnsUpTo(valid, draws, startDate, k - 1);
    assert data.vatNumber == prev.vatNumber + [DailyVat(valid[k - 1], draws[k - 1].vatNumber)];
    if i < k - 1 {
      ColumnsVatAt(valid, draws, startDate, k - 1, i);
      assert data.vatNumber[i] == prev.vatNumber[i];
    } else {
      assert data.vatNumber[i] == DailyVat(valid[k - 1], draws[k - 1].vatNumber);
    }
  }

  /** Row `i` was created and last modified at the start date, has an
      empty history and one of the four segments. */
  lemma {:induction false} ColumnsFreshAt(valid: seq<string>, draws: seq<DailyDraw>, startDate: string, k: nat, i: nat)
    requires k <= |valid| && k <= |draws| && ValidDailyDraws(draws) && i < k
    ensures var data := ColumnsUpTo(valid, draws, startDate, k);
      && data.createdAt[i] == startDate && data.lastModified[i] == startDate
      && data.modificationHistory[i] == "[]"
      && data.customerSegment[i] in DataGenerator.Segments
  {
    var data := ColumnsUpTo(valid, draws, startDate, k);
    var prev := ColumnsUpTo(valid, draws, startDate, k - 1);
    assert data.createdAt == prev.createdAt + [startDate];
    assert data.lastModified == prev.lastModified + [startDate];
    assert data.modificationHistory == prev.modificationHistory + ["[]"];
    assert data.customerSegment == prev.customerSegment + [DataGenerator.Segments[draws[k - 1].segment]];
    if i < k - 1 {
      ColumnsFreshAt(valid, draws, startDate, k - 1, i);
    }
  }

  /** `generate_initial_b2b_customers(n, fake)` of the daily function: the
      country loop, then one appended entry per column and per country. */
  method GenerateInitialB2bCustomers(n: nat, countryDraws: seq<string>, draws: seq<DailyDraw>, startDate: string)
    returns (data: CustomerColumns)
    requires n <= |Admitted(countryDraws)|
    requires |draws| == n && ValidDailyDraws(draws)
    ensures HasRows(data, n)
    ensures data == ColumnsUpTo(Admitted(countryDraws)[..n], draws, startDate, n)
    ensures data.country == Admitted(countryDraws)[..n]
    ensures forall i :: 0 <= i < n ==> data.country[i] !in ExcludedCountries
  {
    var valid := ValidCountries(n, countryDraws);
    data := CustomerColumns([], [], [], [], [], [], [], [], [], [], [], [], [], [], [], []);
    var i := 0;
    while i < |valid|
      invariant 0 <= i <= n
      invariant data == ColumnsUpTo(valid, draws, startDate, i)
    {
      var country := valid[i];
      var d := draws[i];
      var cc := Text.Upper(Prefix2(country));
      data := data.(
        customerId := data.customerId + [DataGenerator.CustomerId(i + 1)],
        companyName := data.companyName + [d.company],
        vatNumber := data.vatNumber + [cc + Decimal.Dec(d.vatNumber)],
        address := data.address + [d.address],
        postalCode := data.postalCode + [d.postalCode],
        city := data.city + [d.city],
        country := data.country + [country],
        currency := data.currency + [Currency(country)],
        email := data.email + [d.email],
        phone := data.phone + [d.phone],
        industry := data.industry + [d.industry],
        createdAt := data.createdAt + [startDate],
        lastModified := data.lastModified + [startDate],
        customerSegment := data.customerSegment + [DataGenerator.Segments[d.segment]],
        isActive := data.isActive + [d.isActive],
        modificationHistory := data.modificationHistory + ["[]"]);
      i := i + 1;
    }
    assert valid[..n] == valid;
  }

  /** The daily identifiers are pairwise distinct. */
  lemma DailyIdsDistinct(i: nat, j: nat)
    requires i != j
    ensures DataGenerator.CustomerId(i + 1) != DataGenerator.CustomerId(j + 1)
  {
    if DataGenerator.CustomerId(i + 1) == DataGenerator.CustomerId(j + 1) {
      DataGenerator.CustomerIdInjective(i + 1, j + 1);
    }
  }
}
