/** The daily supplier file: `n` suppliers with identifiers `S` +
    `zfill(i, 6)`, and on Tuesdays a sample of them duplicated, each
    duplicate with one recorded change and the identifier `DUP` +
    `zfill(idx, 6)`. The weekday of the file's date and every random or
    Faker draw are inputs. */
module SuppliersDaily {
  import opened Wrappers
  import Text
  import Decimal
  import History
  import DataGenerator

  const SupplierServices: seq<string> := [
    "Transport", "Equipment", "Cleaning", "Security", "Consulting", "IT",
    "Catering", "Maintenance", "Construction", "Telecom", "Marketing", "HR", "Logistics"]

  /** The suffixes a duplicate's new company name may take. */
  const LegalForms: seq<string> := ["SAS", "SARL", "SA", "GmbH", "Ltd"]

  /** `date.weekday()` of a Tuesday (Monday is 0). */
  const Tuesday: nat := 1

  /** `generate_supplier_id(i)`. */
  function SupplierId(i: nat): string
  {
    "S" + Decimal.Padded(i, 6)
  }

  /** Below a million the identifier has exactly seven characters. */
  lemma SupplierIdLength(i: nat)
    requires 1 <= i < 1000000
    ensures |SupplierId(i)| == 7
  {
    assert Decimal.Pow10(6) == 1000000;
    Decimal.PaddedLength(i, 6);
  }

  /** Distinct numbers give distinct supplier identifiers. */
  lemma SupplierIdInjective(i: nat, j: nat)
    requires SupplierId(i) == SupplierId(j)
    ensures i == j
  {
    assert SupplierId(i)[1..] == Decimal.Padded(i, 6);
    assert SupplierId(j)[1..] == Decimal.Padded(j, 6);
    Decimal.PaddedInjective(i, j, 6);
  }

  datatype Supplier = Supplier(
    supplierId: string, companyName: string, serviceType: string, address: string,
    postalCode: string, city: string, country: string, email: string, phone: string,
    createdAt: string, lastModified: string, isActive: bool, history: seq<History.Change>)

  /** The draws behind one supplier. */
  datatype SupplierDraw = SupplierDraw(
    company: string, service: nat, address: string, postalCode: string, city: string,
    country: string, email: string, phone: string, isActive: bool)

  predicate ValidSupplierDraws(draws: seq<SupplierDraw>)
  {
    forall i :: 0 <= i < |draws| ==> draws[i].service < |SupplierServices|
  }

  predicate ValidSupplierEdits(edits: seq<DataGenerator.Edit>)
  {
    forall j :: 0 <= j < |edits| ==> edits[j].suffix < |LegalForms|
  }

  /** The frame of the column comprehensions, before any duplicate. */
  function BaseSuppliers(draws: seq<SupplierDraw>, date: string): (rows: seq<Supplier>)
    requires ValidSupplierDraws(draws)
    ensures |rows| == |draws|
    ensures forall i :: 0 <= i < |rows| ==> rows[i].supplierId == SupplierId(i + 1)
    ensures forall i :: 0 <= i < |rows| ==>
      rows[i].createdAt == date && rows[i].lastModified == date && rows[i].history == []
    ensures forall i :: 0 <= i < |rows| ==> rows[i].serviceType in SupplierServices
  {
    seq(|draws|, i requires 0 <= i < |draws| =>
      var d := draws[i];
      Supplier(SupplierId(i + 1), d.company, SupplierServices[d.service], d.address, d.postalCode,
               d.city, d.country, d.email, d.phone, date, date, d.isActive, []))
  }

  /** A company name with one of the legal forms as suffix. */
  predicate HasLegalForm(name: string)
  {
    exists k :: 0 <= k < |LegalForms| && Text.EndsWith(name, " " + LegalForms[k])
  }

  /** `d` is `c` with one change to `address` or `company_name`, dated at
      `d`'s `last_modified` and appended to the history; nothing else
      differs. */
  predicate RecordsOneChange(c: Supplier, d: Supplier)
  {
    && |d.history| == |c.history| + 1
    && d.history[..|c.history|] == c.history
    && var ch := d.history[|c.history|];
       && ch.date == d.lastModified
       && ((&& ch.field == "address"
            && ch.oldValue == Some(c.address) && ch.newValue == d.address
            && d == c.(address := d.address, lastModified := d.lastModified, history := d.history))
        || (&& ch.field == "company_name"
            && ch.oldValue == Some(c.companyName) && ch.newValue == d.companyName
            && HasLegalForm(d.companyName)
            && d == c.(companyName := d.companyName, lastModified := d.lastModified, history := d.history)))
  }

  /** A supplier after one change. */
  function Edited(c: Supplier, e: DataGenerator.Edit): Supplier
    requires e.suffix < |LegalForms|
  {
    if e.onAddress then
      var ch := History.Change(e.at, "address", Some(c.address), e.address);
      c.(address := e.address, lastModified := e.at, history := c.history + [ch])
    else
      var name := e.company + " " + LegalForms[e.suffix];
      var ch := History.Change(e.at, "company_name", Some(c.companyName), name);
      c.(companyName := name, lastModified := e.at, history := c.history + [ch])
  }

  lemma EditedRecordsOneChange(c: Supplier, e: DataGenerator.Edit)
    requires e.suffix < |LegalForms|
    ensures RecordsOneChange(c, Edited(c, e))
    ensures Edited(c, e).lastModified == e.at
  {
    var d := Edited(c, e);
    assert d.history[..|c.history|] == c.history;
    if !e.onAddress {
      assert Text.EndsWith(d.companyName, " " + LegalForms[e.suffix]);
    }
  }

  /** One pass of the duplicate loop: the change is recorded in a fresh
      history, then the identifier is rewritten. */
  method Duplicate(row: Supplier, e: DataGenerator.Edit, id: string) returns (d: Supplier)
    requires e.suffix < |LegalForms|
    ensures d == Edited(row.(history := []), e).(supplierId := id)
  {
    d := row;
    var hist: seq<History.Change> := [];
    if e.onAddress {
      hist := hist + [History.Change(e.at, "address", Some(d.address), e.address)];
      d := d.(address := e.address);
    } else {
      var name := e.company + " " + LegalForms[e.suffix];
      hist := hist + [History.Change(e.at, "company_name", Some(d.companyName), name)];
      d := d.(companyName := name);
    }
    d := d.(lastModified := e.at, history := hist, supplierId := id);
  }

  /** `generate_suppliers(n, duplicate_rate, date)`: on a Tuesday the
      sampled rows are duplicated and appended; on any other day the frame
      is exactly the `n` generated rows. */
  method GenerateSuppliers(
    draws: seq<SupplierDraw>, date: string, weekday: nat,
    sample: seq<nat>, edits: seq<DataGenerator.Edit>)
    returns (df: seq<Supplier>)
    requires ValidSupplierDraws(draws) && weekday < 7
    requires weekday == Tuesday ==>
      DataGenerator.IsSample(sample, |draws|) && |edits| == |sample| && ValidSupplierEdits(edits)
    ensures weekday != Tuesday ==> df == BaseSuppliers(draws, date)
    ensures weekday == Tuesday ==> |df| == |draws| + |sample| && df[..|draws|] == BaseSuppliers(draws, date)
    ensures weekday == Tuesday ==> forall j :: 0 <= j < |sample| ==>
      df[|draws| + j] == Edited(df[sample[j]], edits[j]).(supplierId := DataGenerator.DupId(sample[j]))
  {
    df := BaseSuppliers(draws, date);
    if weekday == Tuesday {
      var base := df;
      var duplicates := seq(|sample|, j requires 0 <= j < |sample| => base[sample[j]]);
      var j := 0;
      while j < |sample|
        invariant 0 <= j <= |sample| && |duplicates| == |sample|
        invariant forall k :: 0 <= k < j ==>
          duplicates[k] == Edited(base[sample[k]], edits[k]).(supplierId := DataGenerator.DupId(sample[k]))
        invariant forall k :: j <= k < |sample| ==> duplicates[k] == base[sample[k]]
      {
        assert duplicates[j].(history := []) == duplicates[j];
        var row := Duplicate(duplicates[j], edits[j], DataGenerator.DupId(sample[j]));
        duplicates := duplicates[j := row];
        j := j + 1;
      }
      df := df + duplicates;
      assert df[..|draws|] == base;
    }
  }

  /** Off Tuesdays no identifier is a duplicate's: each is `S` + digits. */
  lemma NoDuplicateIdsOffTuesday(draws: seq<SupplierDraw>, date: string, i: nat)
    requires ValidSupplierDraws(draws) && i < |draws|
    ensures !Text.StartsWith(BaseSuppliers(draws, date)[i].supplierId, "DUP")
    ensures Text.StartsWith(BaseSuppliers(draws, date)[i].supplierId, "S")
  {
    var id := BaseSuppliers(draws, date)[i].supplierId;
    assert id[0] == 'S';
  }

  /** On a Tuesday each duplicate is its source supplier with the
      identifier `DUP` + `zfill(idx, 6)` and one recorded change, its only
      history entry. */
  lemma TuesdayDuplicatesRecordOneChange(df: seq<Supplier>, n: nat, sample: seq<nat>, edits: seq<DataGenerator.Edit>, j: nat)
    requires |df| == n + |sample| && DataGenerator.IsSample(sample, n)
    requires |edits| == |sample| && ValidSupplierEdits(edits)
    requires forall i :: 0 <= i < n ==> df[i].history == []
    requires forall j :: 0 <= j < |sample| ==>
      df[n + j] == Edited(df[sample[j]], edits[j]).(supplierId := DataGenerator.DupId(sample[j]))
    requires j < |sample|
    ensures df[n + j].supplierId == DataGenerator.DupId(sample[j])
    ensures RecordsOneChange(df[sample[j]].(supplierId := df[n + j].supplierId), df[n + j])
    ensures df[n + j].history == [df[n + j].history[0]]
    ensures df[n + j].history[0].field in {"address", "company_name"}
  {
    var c := df[sample[j]];
    var id := DataGenerator.DupId(sample[j]);
    assert Edited(c, edits[j]).(supplierId := id) == Edited(c.(supplierId := id), edits[j]);
    EditedRecordsOneChange(c.(supplierId := id), edits[j]);
  }
}
