/** The deterministic skeleton of the bulk generator: identifier formats,
    the country-code table, VAT numbers, the duplicate and history rules
    of the customer generator and its daily evolution, and the category
    structure of the product generator. Every random or Faker draw is an
    input: a `CustomerDraw` per generated customer, an `Edit` per modified
    or duplicated row, index samples for `random.sample` and
    `np.random.choice(..., replace=False)`. */
module DataGenerator {
  import opened Wrappers
  import Text
  import Decimal
  import History

  // ---------------------------------------------------------------------
  // Country codes and VAT numbers

  const CountryCodes: map<string, string> := map[
    "France" := "FR", "Germany" := "DE", "Italy" := "IT", "Spain" := "ES", "Belgium" := "BE",
    "Netherlands" := "NL", "United Kingdom" := "GB", "Switzerland" := "CH", "Austria" := "AT",
    "Portugal" := "PT", "Poland" := "PL", "Sweden" := "SE", "Denmark" := "DK", "Finland" := "FI",
    "Ireland" := "IE", "Norway" := "NO", "Luxembourg" := "LU", "Czech Republic" := "CZ",
    "Slovakia" := "SK", "Hungary" := "HU"]

  predicate IsCountryCode(cc: string)
  {
    |cc| == 2 && Text.IsAsciiUpper(cc[0]) && Text.IsAsciiUpper(cc[1])
  }

  /** `get_country_code`: the listed code, `"FR"` for any other name. */
  function CountryCode(country: string): (cc: string)
    ensures IsCountryCode(cc)
    ensures country in CountryCodes ==> cc == CountryCodes[country]
    ensures country !in CountryCodes ==> cc == "FR"
  {
    if country in CountryCodes then CountryCodes[country] else "FR"
  }

  /** `generate_vat_number(cc)`: the code followed by nine drawn digits. */
  function VatNumber(cc: string, digits: seq<nat>): (vat: string)
    requires |digits| == 9 && forall i :: 0 <= i < 9 ==> digits[i] <= 9
    ensures |vat| == |cc| + 9 && vat[..|cc|] == cc
    ensures Decimal.AllDigits(vat[|cc|..])
    ensures forall i :: 0 <= i < 9 ==> Decimal.DigitValue(vat[|cc| + i]) == digits[i]
  {
    cc + seq(9, i requires 0 <= i < 9 => Decimal.DigitChar(digits[i]))
  }

  // ---------------------------------------------------------------------
  // Customers

  const Segments: seq<string> := ["SME", "Mid-Market", "Enterprise", "Startup"]

  const CompanySuffixes: seq<string> := ["Inc", "LLC", "Ltd", "GmbH", "SAS"]

  /** One row of the customer frame; `history` is the list behind the
      `modification_history` column. */
  datatype Customer = Customer(
    customerId: string, companyName: string, vatNumber: string, address: string,
    postalCode: string, city: string, country: string, email: string, phone: string,
    industry: string, createdAt: string, lastModified: string, segment: string,
    isActive: bool, history: seq<History.Change>)

  /** The draws behind one generated customer. */
  datatype CustomerDraw = CustomerDraw(
    company: string, country: string, vatDigits: seq<nat>, address: string,
    postalCode: string, city: string, email: string, phone: string, industry: string,
    createdAt: string, segment: nat, isActive: bool)

  predicate ValidDraw(d: CustomerDraw)
  {
    && |d.vatDigits| == 9
    && (forall i :: 0 <= i < 9 ==> d.vatDigits[i] <= 9)
    && d.segment < |Segments|
  }

  predicate ValidDraws(draws: seq<CustomerDraw>)
  {
    forall i :: 0 <= i < |draws| ==> ValidDraw(draws[i])
  }

  /** `f"C{str(i).zfill(6)}"`. */
  function CustomerId(i: nat): string
  {
    "C" + Decimal.Padded(i, 6)
  }

  /** The identifier of the duplicate of the row at position `idx`. */
  function DupId(idx: nat): string
  {
    "DUP" + Decimal.Padded(idx, 6)
  }

  /** Distinct numbers give distinct customer identifiers. */
  lemma CustomerIdInjective(i: nat, j: nat)
    requires CustomerId(i) == CustomerId(j)
    ensures i == j
  {
    assert CustomerId(i)[1..] == Decimal.Padded(i, 6);
    assert CustomerId(j)[1..] == Decimal.Padded(j, 6);
    Decimal.PaddedInjective(i, j, 6);
  }

  /** Distinct positions give distinct duplicate identifiers. */
  lemma DupIdInjective(i: nat, j: nat)
    requires DupId(i) == DupId(j)
    ensures i == j
  {
    assert DupId(i)[3..] == Decimal.Padded(i, 6);
    assert DupId(j)[3..] == Decimal.Padded(j, 6);
    Decimal.PaddedInjective(i, j, 6);
  }

  /** A duplicate's number is its row position, one less than the number
      in the identifier of the customer it copies. */
  lemma DupIdNumbersItsOriginal(idx: nat)
    ensures Decimal.AllDigits(DupId(idx)[3..]) && Decimal.AllDigits(CustomerId(idx + 1)[1..])
    ensures Decimal.Value(DupId(idx)[3..]) + 1 == Decimal.Value(CustomerId(idx + 1)[1..])
  {
    assert DupId(idx)[3..] == Decimal.Padded(idx, 6);
    assert CustomerId(idx + 1)[1..] == Decimal.Padded(idx + 1, 6);
    Decimal.PaddedValue(idx, 6);
    Decimal.PaddedValue(idx + 1, 6);
  }

  /** The customer at position `i` of the initial frame. */
  function Original(i: nat, d: CustomerDraw, now: string): Customer
    requires ValidDraw(d)
  {
    Customer(
      CustomerId(i + 1), d.company, VatNumber(CountryCode(d.country), d.vatDigits), d.address,
      d.postalCode, d.city, d.country, d.email, d.phone, d.industry, d.createdAt, now,
      Segments[d.segment], d.isActive, [])
  }

  /** The frame built from the column comprehensions of
      `generate_initial_b2b_customers`, before any duplicate. */
  function InitialRows(draws: seq<CustomerDraw>, now: string): (rows: seq<Customer>)
    requires ValidDraws(draws)
    ensures |rows| == |draws|
    ensures forall i :: 0 <= i < |rows| ==> rows[i].customerId == CustomerId(i + 1)
    ensures forall i :: 0 <= i < |rows| ==> rows[i].history == [] && rows[i].lastModified == now
    ensures forall i :: 0 <= i < |rows| ==> rows[i].country == draws[i].country && rows[i].segment in Segments
    ensures forall i :: 0 <= i < |rows| ==>
      |rows[i].vatNumber| == 11 && rows[i].vatNumber[..2] == CountryCode(draws[i].country)
  {
    seq(|draws|, i requires 0 <= i < |draws| => Original(i, draws[i], now))
  }

  /** The initial identifiers are pairwise distinct. */
  lemma InitialIdsDistinct(draws: seq<CustomerDraw>, now: string, i: nat, j: nat)
    requires ValidDraws(draws)
    requires i < j < |draws|
    ensures InitialRows(draws, now)[i].customerId != InitialRows(draws, now)[j].customerId
  {
    if CustomerId(i + 1) == CustomerId(j + 1) {
      CustomerIdInjective(i + 1, j + 1);
    }
  }

  /** A sample of `count` positions out of `0 .. n-1`, without repetition. */
  predicate IsSample(sample: seq<nat>, n: nat)
  {
    && (forall j :: 0 <= j < |sample| ==> sample[j] < n)
    && (forall j, k :: 0 <= j < k < |sample| ==> sample[j] != sample[k])
  }

  /** The draws behind one change: which field (`random.random() < 0.5` or
      `random.choice(['address', 'company_name'])`), the timestamp, the
      new address, or the new company name and the index of its suffix. */
  datatype Edit = Edit(onAddress: bool, at: string, address: string, company: string, suffix: nat)

  predicate ValidEdit(e: Edit)
  {
    e.suffix < |CompanySuffixes|
  }

  predicate ValidEdits(edits: seq<Edit>)
  {
    forall j :: 0 <= j < |edits| ==> ValidEdit(edits[j])
  }

  /** A company name with one of the legal-form suffixes. */
  predicate HasCompanySuffix(name: string)
  {
    exists k :: 0 <= k < |CompanySuffixes| && Text.EndsWith(name, " " + CompanySuffixes[k])
  }

  /** `d` is `c` with one field changed, `address` or `company_name`,
      `last_modified` set to the change's date and that one change
      appended to the history; nothing else differs. */
  predicate RecordsOneChange(c: Customer, d: Customer)
  {
    && |d.history| == |c.history| + 1
    && d.history[..|c.history|] == c.history
    && var ch := d.history[|c.history|];
       && ch.date == d.lastModified
       && ((&& ch.field == "address"
            && ch.oldValue == Some(c.address) && ch.newValue == d.address
            && d == c.(address := d.address, lastModified := d.lastModified, history := d.history))
        || (&& ch.field == "company_name"
            && ch.oldValue == Some(c.companyName) && ch.newValue == d.companyName
            && HasCompanySuffix(d.companyName)
            && d == c.(companyName := d.companyName, lastModified := d.lastModified, history := d.history)))
  }

  /** The row after one change: the loop bodies of the duplicate and
      modification passes. */
  function Edited(c: Customer, e: Edit): Customer
    requires ValidEdit(e)
  {
    if e.onAddress then
      var ch := History.Change(e.at, "address", Some(c.address), e.address);
      c.(address := e.address, lastModified := e.at, history := c.history + [ch])
    else
      var name := e.company + " " + CompanySuffixes[e.suffix];
      var ch := History.Change(e.at, "company_name", Some(c.companyName), name);
      c.(companyName := name, lastModified := e.at, history := c.history + [ch])
  }

  /** A change touches one field and `last_modified`, and appends exactly
      one entry, dated at the new `last_modified`, to the history. */
  lemma EditedRecordsOneChange(c: Customer, e: Edit)
    requires ValidEdit(e)
    ensures RecordsOneChange(c, Edited(c, e))
    ensures Edited(c, e).lastModified == e.at
  {
    var d := Edited(c, e);
    assert d.history[..|c.history|] == c.history;
    if !e.onAddress {
      assert Text.EndsWith(d.companyName, " " + CompanySuffixes[e.suffix]);
    }
  }

  /** A duplicate, whose identifier is rewritten after the change, differs
      from its source row in that identifier and in the one change. */
  lemma DuplicateRecordsOneChange(c: Customer, e: Edit, id: string)
    requires ValidEdit(e)
    ensures RecordsOneChange(c.(customerId := id), Edited(c, e).(customerId := id))
  {
    assert Edited(c, e).(customerId := id) == Edited(c.(customerId := id), e);
    EditedRecordsOneChange(c.(customerId := id), e);
  }

  /** One pass of the duplicate loop of `generate_initial_b2b_customers`:
      the change is recorded in a fresh history, then the identifier is
      rewritten. */
  method Duplicate(row: Customer, e: Edit, id: string) returns (d: Customer)
    requires ValidEdit(e)
    ensures d == Edited(row.(history := []), e).(customerId := id)
  {
    d := row;
    var hist: seq<History.Change> := [];
    if e.onAddress {
      hist := hist + [History.Change(e.at, "address", Some(d.address), e.address)];
      d := d.(address := e.address);
    } else {
      var name := e.company + " " + CompanySuffixes[e.suffix];
      hist := hist + [History.Change(e.at, "company_name", Some(d.companyName), name)];
      d := d.(companyName := name);
    }
    d := d.(lastModified := e.at, history := hist, customerId := id);
  }

  /** `generate_initial_b2b_customers`: `n` originals, then one duplicate per
      sampled position `idx`, with one change recorded in a fresh history
      and the identifier `DUP` + `zfill(idx, 6)`. */
  method GenerateInitialB2bCustomers(draws: seq<CustomerDraw>, now: string, sample: seq<nat>, edits: seq<Edit>)
    returns (df: seq<Customer>)
    requires ValidDraws(draws)
    requires IsSample(sample, |draws|)
    requires |edits| == |sample| && ValidEdits(edits)
    ensures |df| == |draws| + |sample|
    ensures df[..|draws|] == InitialRows(draws, now)
    ensures forall j :: 0 <= j < |sample| ==>
      df[|draws| + j] == Edited(df[sample[j]], edits[j]).(customerId := DupId(sample[j]))
    ensures forall j :: 0 <= j < |sample| ==>
      df[|draws| + j].customerId == DupId(sample[j]) && |df[|draws| + j].history| == 1
  {
    var base := InitialRows(draws, now);
    var duplicates := seq(|sample|, j requires 0 <= j < |sample| => base[sample[j]]);
    var j := 0;
    while j < |sample|
      invariant 0 <= j <= |sample| && |duplicates| == |sample|
      invariant forall k :: 0 <= k < j ==>
        duplicates[k] == Edited(base[sample[k]], edits[k]).(customerId := DupId(sample[k]))
      invariant forall k :: j <= k < |sample| ==> duplicates[k] == base[sample[k]]
    {
      assert duplicates[j].(history := []) == duplicates[j];
      var row := Duplicate(duplicates[j], edits[j], DupId(sample[j]));
      duplicates := duplicates[j := row];
      j := j + 1;
    }
    df := base + duplicates;
    assert df[..|draws|] == base;
  }

  /** Every duplicate of the initial frame is its source row with a new
      identifier and one recorded change, its only history entry. */
  lemma InitialDuplicatesRecordOneChange(df: seq<Customer>, n: nat, sample: seq<nat>, edits: seq<Edit>, j: nat)
    requires |df| == n + |sample| && IsSample(sample, n) && |edits| == |sample| && ValidEdits(edits)
    requires forall i :: 0 <= i < n ==> df[i].history == []
    requires forall j :: 0 <= j < |sample| ==>
      df[n + j] == Edited(df[sample[j]], edits[j]).(customerId := DupId(sample[j]))
    requires j < |sample|
    ensures RecordsOneChange(df[sample[j]].(customerId := DupId(sample[j])), df[n + j])
    ensures df[n + j].history == [df[n + j].history[0]]
    ensures df[n + j].history[0].field in {"address", "company_name"}
  {
    DuplicateRecordsOneChange(df[sample[j]], edits[j], DupId(sample[j]));
  }

  /** The draws behind one customer added by `evolve_customers`. */
  datatype NewCustomerDraw = NewCustomerDraw(number: nat, details: CustomerDraw)

  predicate ValidNewDraws(news: seq<NewCustomerDraw>)
  {
    forall k :: 0 <= k < |news| ==> 100000 <= news[k].number <= 999999 && ValidDraw(news[k].details)
  }

  /** `f"NEW{random.randint(100000, 999999)}"`. */
  function NewId(number: nat): string
  {
    "NEW" + Decimal.Dec(number)
  }

  /** A new customer's identifier is `NEW` and six digits. */
  lemma NewIdShape(number: nat)
    requires 100000 <= number <= 999999
    ensures |NewId(number)| == 9 && NewId(number)[..3] == "NEW"
    ensures Decimal.AllDigits(NewId(number)[3..]) && Decimal.Value(NewId(number)[3..]) == number
  {
    assert Decimal.Pow10(5) == 100000 && Decimal.Pow10(6) == 1000000;
    Decimal.DecLength(number, 6);
    Decimal.ValueOfDec(number);
    assert NewId(number)[3..] == Decimal.Dec(number);
  }

  /** A new customer: created and last modified now, with one `created`
      entry in its history. */
  function NewCustomer(d: NewCustomerDraw, now: string): (c: Customer)
    requires ValidDraw(d.details)
    ensures c.customerId == NewId(d.number)
    ensures c.createdAt == now && c.lastModified == now
    ensures c.history == [History.Change(now, "created", None, "created")]
  {
    var x := d.details;
    Customer(
      NewId(d.number), x.company, VatNumber(CountryCode(x.country), x.vatDigits), x.address,
      x.postalCode, x.city, x.country, x.email, x.phone, x.industry, now, now,
      Segments[x.segment], x.isActive, [History.Change(now, "created", None, "created")])
  }

  /** The loop collecting `new_clients`. */
  method NewClients(news: seq<NewCustomerDraw>, now: string) returns (clients: seq<Customer>)
    requires ValidNewDraws(news)
    ensures |clients| == |news|
    ensures forall k :: 0 <= k < |news| ==> clients[k] == NewCustomer(news[k], now)
  {
    clients := [];
    var k := 0;
    while k < |news|
      invariant 0 <= k <= |news| && |clients| == k
      invariant forall q :: 0 <= q < k ==> clients[q] == NewCustomer(news[q], now)
    {
      clients := clients + [NewCustomer(news[k], now)];
      k := k + 1;
    }
  }

  /** The modification pass: the row at each sampled position gets one
      change; every other row is left as it was. */
  method ModifyRows(rows: seq<Customer>, modified: seq<nat>, edits: seq<Edit>) returns (out: seq<Customer>)
    requires IsSample(modified, |rows|) && |edits| == |modified| && ValidEdits(edits)
    ensures |out| == |rows|
    ensures forall j :: 0 <= j < |modified| ==> out[modified[j]] == Edited(rows[modified[j]], edits[j])
    ensures forall i :: 0 <= i < |rows| && i !in modified ==> out[i] == rows[i]
  {
    out := rows;
    var j := 0;
    while j < |modified|
      invariant 0 <= j <= |modified| && |out| == |rows|
      invariant forall q :: 0 <= q < j ==> out[modified[q]] == Edited(rows[modified[q]], edits[q])
      invariant forall i :: 0 <= i < |rows| && i !in modified[..j] ==> out[i] == rows[i]
    {
      var idx := modified[j];
      assert idx !in modified[..j];
      out := out[idx := Edited(out[idx], edits[j])];
      assert modified[..j + 1] == modified[..j] + [idx];
      j := j + 1;
    }
    assert modified[..j] == modified;
  }

  /** The duplicate pass of `evolve_customers`: each sampled row, with one
      more change, is appended under `DUP` + `zfill(idx, 6)` + `_` + `day`. */
  method AppendDuplicates(rows: seq<Customer>, sample: seq<nat>, edits: seq<Edit>, day: string)
    returns (out: seq<Customer>)
    requires IsSample(sample, |rows|) && |edits| == |sample| && ValidEdits(edits)
    ensures |out| == |rows| + |sample| && out[..|rows|] == rows
    ensures forall j :: 0 <= j < |sample| ==>
      out[|rows| + j] == Edited(rows[sample[j]], edits[j]).(customerId := DupId(sample[j]) + "_" + day)
    ensures forall j :: 0 <= j < |sample| ==>
      out[|rows| + j] == Edited(out[sample[j]], edits[j]).(customerId := DupId(sample[j]) + "_" + day)
  {
    var duplicates := seq(|sample|, q requires 0 <= q < |sample| => rows[sample[q]]);
    var j := 0;
    while j < |sample|
      invariant 0 <= j <= |sample| && |duplicates| == |sample|
      invariant forall q :: 0 <= q < j ==>
        duplicates[q] == Edited(rows[sample[q]], edits[q]).(customerId := DupId(sample[q]) + "_" + day)
      invariant forall q :: j <= q < |sample| ==> duplicates[q] == rows[sample[q]]
    {
      duplicates := duplicates[j := Edited(duplicates[j], edits[j]).(customerId := DupId(sample[j]) + "_" + day)];
      j := j + 1;
    }
    out := rows + duplicates;
    assert out[..|rows|] == rows;
    assert forall j :: 0 <= j < |sample| ==> out[sample[j]] == rows[sample[j]];
  }

  /** The frame after the new customers are appended. */
  function Grown(df: seq<Customer>, news: seq<NewCustomerDraw>, now: string): (g: seq<Customer>)
    requires ValidNewDraws(news)
    ensures |g| == |df| + |news| && g[..|df|] == df
    ensures forall k :: 0 <= k < |news| ==> g[|df| + k] == NewCustomer(news[k], now)
  {
    df + seq(|news|, k requires 0 <= k < |news| => NewCustomer(news[k], now))
  }

  /** `evolve_customers(df, day)`: appends the new customers, applies one
      change to each sampled row of the grown frame, then appends one
      duplicate per second sample. */
  method EvolveCustomers(
    df: seq<Customer>, day: string, now: string, news: seq<NewCustomerDraw>,
    modified: seq<nat>, modEdits: seq<Edit>, dupSample: seq<nat>, dupEdits: seq<Edit>)
    returns (out: seq<Customer>)
    requires ValidNewDraws(news)
    requires IsSample(modified, |df| + |news|) && |modEdits| == |modified| && ValidEdits(modEdits)
    requires IsSample(dupSample, |df| + |news|) && |dupEdits| == |dupSample| && ValidEdits(dupEdits)
    ensures |out| == |df| + |news| + |dupSample|
    ensures forall k :: 0 <= k < |news| ==> out[|df| + k].customerId == NewId(news[k].number)
    ensures forall j :: 0 <= j < |modified| ==>
      out[modified[j]] == Edited(Grown(df, news, now)[modified[j]], modEdits[j])
    ensures forall i :: 0 <= i < |df| + |news| && i !in modified ==> out[i] == Grown(df, news, now)[i]
    ensures forall j :: 0 <= j < |dupSample| ==>
      out[|df| + |news| + j] == Edited(out[dupSample[j]], dupEdits[j]).(customerId := DupId(dupSample[j]) + "_" + day)
  {
    var newClients := NewClients(news, now);
    var grown := df + newClients;
    assert grown == Grown(df, news, now);
    var rows := ModifyRows(grown, modified, modEdits);
    ModifiedKeepsIds(grown, modified, modEdits, rows);
    out := AppendDuplicates(rows, dupSample, dupEdits, day);
    forall k | 0 <= k < |news|
      ensures out[|df| + k].customerId == NewId(news[k].number)
    {
      assert out[|df| + k] == rows[|df| + k];
    }
  }

  /** Modifying rows never changes an identifier. */
  lemma ModifiedKeepsIds(rows: seq<Customer>, modified: seq<nat>, edits: seq<Edit>, out: seq<Customer>)
    requires |edits| == |modified| && ValidEdits(edits) && |out| == |rows|
    requires forall j :: 0 <= j < |modified| ==> modified[j] < |rows| && out[modified[j]] == Edited(rows[modified[j]], edits[j])
    requires forall i :: 0 <= i < |rows| && i !in modified ==> out[i] == rows[i]
    ensures forall i :: 0 <= i < |rows| ==> out[i].customerId == rows[i].customerId
  {
    forall i | 0 <= i < |rows| ensures out[i].customerId == rows[i].customerId {
      if i in modified {
        var j :| 0 <= j < |modified| && modified[j] == i;
        assert out[i] == Edited(rows[i], edits[j]);
      }
    }
  }

  /** Evolution never removes a row: every row of the old frame keeps its
      identifier, and its history gains at most one entry at the end. */
  lemma EvolveKeepsHistories(df: seq<Customer>, news: seq<NewCustomerDraw>, now: string,
                             modified: seq<nat>, modEdits: seq<Edit>, out: seq<Customer>, i: nat)
    requires ValidNewDraws(news)
    requires IsSample(modified, |df| + |news|) && |modEdits| == |modified| && ValidEdits(modEdits)
    requires |out| >= |df| + |news|
    requires forall j :: 0 <= j < |modified| ==>
      out[modified[j]] == Edited(Grown(df, news, now)[modified[j]], modEdits[j])
    requires forall i :: 0 <= i < |df| + |news| && i !in modified ==> out[i] == Grown(df, news, now)[i]
    requires i < |df|
    ensures out[i].customerId == df[i].customerId
    ensures df[i].history <= out[i].history && |out[i].history| <= |df[i].history| + 1
  {
    var g := Grown(df, news, now);
    assert g[i] == df[i];
    if i in modified {
      var j :| 0 <= j < |modified| && modified[j] == i;
      EditedRecordsOneChange(g[i], modEdits[j]);
    }
  }

  // ---------------------------------------------------------------------
  // Products

  const Categories: seq<string> := [
    "Electronics", "Clothing", "Home", "Garden", "Sports", "Food",
    "Beauty", "Toys", "Books", "Automotive"]

  const Subcategories: map<string, seq<string>> := map[
    "Electronics" := ["Smartphones", "Computers", "TV", "Audio", "Accessories"],
    "Clothing" := ["Men", "Women", "Kids", "Shoes", "Accessories"],
    "Home" := ["Furniture", "Decoration", "Kitchen", "Appliances", "Bedding"],
    "Garden" := ["Tools", "Plants", "Outdoor Furniture", "Pool", "BBQ"],
    "Sports" := ["Fitness", "Cycling", "Swimming", "Running", "Team Sports"],
    "Food" := ["Grocery", "Drinks", "Fresh", "Frozen", "Organic"],
    "Beauty" := ["Face Care", "Body Care", "Makeup", "Perfume", "Hair"],
    "Toys" := ["Board Games", "Stuffed Animals", "Construction", "Educational", "Outdoor"],
    "Books" := ["Novels", "Comics", "Children", "Cooking", "Self-Help"],
    "Automotive" := ["Accessories", "Maintenance", "Spare Parts", "Tires", "Car Electronics"]]

  const ProductSuffixes: seq<string> := ["Pro", "Plus", "Max", "Lite", "Go"]

  /** `fake.word().capitalize() + " " + random.choice(suffixes)`: the
      capitalised word, a space and the suffix. */
  function ProductName(word: string, suffix: nat): (name: string)
    requires suffix < |ProductSuffixes|
    ensures |name| > |word| && name[..|word|] == Text.Capitalize(word)
    ensures Text.EndsWith(name, " " + ProductSuffixes[suffix])
  {
    var name := Text.Capitalize(word) + " " + ProductSuffixes[suffix];
    assert name[|name| - |" " + ProductSuffixes[suffix]|..] == " " + ProductSuffixes[suffix];
    name
  }

  /** Every category has a list of five subcategories. */
  lemma SubcategoryTable()
    ensures forall k :: 0 <= k < |Categories| ==>
      Categories[k] in Subcategories && |Subcategories[Categories[k]]| == 5
  {
    forall k | 0 <= k < |Categories|
      ensures Categories[k] in Subcategories && |Subcategories[Categories[k]]| == 5
    {
      if k == 0 {} else if k == 1 {} else if k == 2 {} else if k == 3 {} else if k == 4 {}
      else if k == 5 {} else if k == 6 {} else if k == 7 {} else if k == 8 {} else {}
    }
  }

  /** The draws behind one product: category and subcategory indices, the
      word and suffix index of its name, stock flag and creation date. */
  datatype ProductDraw = ProductDraw(category: nat, subcategory: nat, word: string, suffix: nat, inStock: bool, createdAt: string)

  predicate ValidProductDraws(draws: seq<ProductDraw>)
  {
    forall i :: 0 <= i < |draws| ==>
      draws[i].category < |Categories| && draws[i].subcategory < 5 && draws[i].suffix < |ProductSuffixes|
  }

  datatype Product = Product(productId: string, productName: string, category: string, subcategory: string, inStock: bool, createdAt: string)

  /** `f"P{str(i).zfill(5)}"`. */
  function ProductId(i: nat): string
  {
    "P" + Decimal.Padded(i, 5)
  }

  lemma ProductIdInjective(i: nat, j: nat)
    requires ProductId(i) == ProductId(j)
    ensures i == j
  {
    assert ProductId(i)[1..] == Decimal.Padded(i, 5);
    assert ProductId(j)[1..] == Decimal.Padded(j, 5);
    Decimal.PaddedInjective(i, j, 5);
  }

  /** The category loop of `generate_products(n)`: per draw, a category
      and a subcategory from that category's own list. */
  method CategoryColumns(draws: seq<ProductDraw>) returns (categoryList: seq<string>, subcategoryList: seq<string>)
    requires ValidProductDraws(draws)
    ensures |categoryList| == |draws| && |subcategoryList| == |draws|
    ensures forall q :: 0 <= q < |draws| ==>
      && categoryList[q] == Categories[draws[q].category]
      && categoryList[q] in Subcategories
      && subcategoryList[q] == Subcategories[categoryList[q]][draws[q].subcategory]
      && subcategoryList[q] in Subcategories[categoryList[q]]
  {
    SubcategoryTable();
    categoryList := [];
    subcategoryList := [];
    var i := 0;
    while i < |draws|
      invariant 0 <= i <= |draws| && |categoryList| == i && |subcategoryList| == i
      invariant forall q :: 0 <= q < i ==> categoryList[q] == Categories[draws[q].category]
      invariant forall q :: 0 <= q < i ==>
        categoryList[q] in Subcategories && subcategoryList[q] == Subcategories[categoryList[q]][draws[q].subcategory]
    {
      var cat := Categories[draws[i].category];
      categoryList := categoryList + [cat];
      subcategoryList := subcategoryList + [Subcategories[cat][draws[i].subcategory]];
      i := i + 1;
    }
  }

  /** `generate_products(n)` without its prices, costs and weights: one row
      per draw, each subcategory drawn from its own category's list. */
  method GenerateProducts(draws: seq<ProductDraw>) returns (rows: seq<Product>)
    requires ValidProductDraws(draws)
    ensures |rows| == |draws|
    ensures forall i :: 0 <= i < |rows| ==> rows[i].productId == ProductId(i + 1)
    ensures forall i :: 0 <= i < |rows| ==>
      && rows[i].category == Categories[draws[i].category]
      && rows[i].category in Subcategories
      && rows[i].subcategory == Subcategories[rows[i].category][draws[i].subcategory]
      && rows[i].subcategory in Subcategories[rows[i].category]
    ensures forall i :: 0 <= i < |rows| ==>
      rows[i].productName == ProductName(draws[i].word, draws[i].suffix)
  {
    var categoryList, subcategoryList := CategoryColumns(draws);
    rows := seq(|draws|, q requires 0 <= q < |draws| =>
      Product(ProductId(q + 1), ProductName(draws[q].word, draws[q].suffix),
              categoryList[q], subcategoryList[q], draws[q].inStock, draws[q].createdAt));
  }
}
