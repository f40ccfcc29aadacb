/**
 * Synthesis of receipts: each receipt picks a project, a date, one of the vendors near that
 * project's client and an amount; writing keeps a fixed set of columns, with the client
 * column only in the answer key. The random draws are nondeterministic choices here.
 */
module ReceiptSynthesis {
  import opened Wrappers
  import opened Calendar
  import opened OrderedDicts
  import opened GeneratorRecords

  /** The errors Python raises on the way: `random.choice` of an empty list, a missing key. */
  datatype GenerationError =
    | EmptyProjectList            // IndexError from random.choice(projects)
    | UnknownClient(client: string)   // KeyError from the client-to-vendors lookup
    | NoVendorNearby(client: string)  // IndexError from random.choice(vendors)

  /** `select_nearby_vendor`: a vendor chosen at random from the client's list. */
  method SelectNearbyVendor(vendorsByClient: PyDict<string, seq<Place>>, client: string)
    returns (r: Result<Place, GenerationError>)
    ensures client !in vendorsByClient.items ==> r == Failure(UnknownClient(client))
    ensures client in vendorsByClient.items && vendorsByClient.items[client] == [] ==>
      r == Failure(NoVendorNearby(client))
    ensures client in vendorsByClient.items && vendorsByClient.items[client] != [] ==>
      r.Success? && r.value in vendorsByClient.items[client]
  {
    if client !in vendorsByClient.items {
      return Failure(UnknownClient(client));
    }
    var vendors := vendorsByClient.items[client];
    if vendors == [] {
      return Failure(NoVendorNearby(client));
    }
    var k :| 0 <= k < |vendors|;
    return Success(vendors[k]);
  }

  /** The client has an entry with at least one vendor. */
  predicate HasVendors(vendorsByClient: PyDict<string, seq<Place>>, client: string) {
    client in vendorsByClient.items && vendorsByClient.items[client] != []
  }

  /** A receipt that names a project's client and a vendor near that client's project. */
  ghost predicate Attributable(
    rc: GeneratedReceipt, vendorsByClient: PyDict<string, seq<Place>>, projects: seq<ProjectRecord>)
  {
    && rc.amount >= 0.0
    && (exists p :: p in projects && p.client == rc.client)
    && rc.client in vendorsByClient.items
    && (exists v :: v in vendorsByClient.items[rc.client] &&
          v.name == rc.supplier && v.vicinity == rc.supplierAddress)
  }

  /** The error a project's client leads to, if it has no vendor to choose from. */
  ghost predicate ErrorFor(e: GenerationError, vendorsByClient: PyDict<string, seq<Place>>,
                           projects: seq<ProjectRecord>)
  {
    || (e == EmptyProjectList && projects == [])
    || (exists p :: p in projects && e == UnknownClient(p.client) &&
          p.client !in vendorsByClient.items)
    || (exists p :: p in projects && e == NoVendorNearby(p.client) &&
          p.client in vendorsByClient.items && vendorsByClient.items[p.client] == [])
  }

  /**
   * `generate_receipts`: `numReceipts` receipts, or the first error a draw runs into. The
   * date (`pick_date_for_receipt`, a gaussian offset from the contract date) may be any
   * date; the amount (`round(expovariate(7) * 4500, 2)`) is any non-negative number.
   */
  method GenerateReceipts(
    vendorsByClient: PyDict<string, seq<Place>>, projects: seq<ProjectRecord>, numReceipts: nat)
    returns (r: Result<seq<GeneratedReceipt>, GenerationError>)
    ensures r.Success? ==> |r.value| == numReceipts
    ensures r.Success? ==> forall rc :: rc in r.value ==> Attributable(rc, vendorsByClient, projects)
    ensures r.Failure? ==> numReceipts > 0 && ErrorFor(r.error, vendorsByClient, projects)
    ensures numReceipts > 0 && projects == [] ==> r == Failure(EmptyProjectList)
    ensures ((forall p :: p in projects ==> HasVendors(vendorsByClient, p.client)) &&
             (numReceipts == 0 || projects != [])) ==> r.Success?
  {
    var receipts: seq<GeneratedReceipt> := [];
    var i := 0;
    while i < numReceipts
      invariant 0 <= i <= numReceipts
      invariant |receipts| == i
      invariant projects == [] ==> i == 0
      invariant forall rc :: rc in receipts ==> Attributable(rc, vendorsByClient, projects)
    {
      if projects == [] {
        return Failure(EmptyProjectList);
      }
      var k :| 0 <= k < |projects|;
      var project := projects[k];
      var receiptDate: Date :| true;
      var vendor := SelectNearbyVendor(vendorsByClient, project.client);
      if vendor.Failure? {
        return Failure(vendor.error);
      }
      var amount: real :| amount >= 0.0;
      var receipt := GeneratedReceipt(
        receiptDate, vendor.value.name, vendor.value.vicinity, amount, project.client);
      assert Attributable(receipt, vendorsByClient, projects);
      receipts := receipts + [receipt];
      i := i + 1;
    }
    return Success(receipts);
  }

  /** A cell of a written receipt row. */
  datatype Cell = DateCell(date: Date) | TextCell(text: string) | AmountCell(amount: real)

  /**
   * The row projection of `write_receipts`: the header columns, and per receipt a row with
   * exactly those columns whose values are the receipt's own. The client column exists only
   * when `includeClients` holds (the answer key).
   */
  method WriteReceipts(receipts: seq<GeneratedReceipt>, includeClients: bool)
    returns (fieldNames: seq<string>, rows: seq<map<string, Cell>>)
    ensures fieldNames == ["Date", "Supplier", "Supplier Address", "Amount"] +
                          (if includeClients then ["Client"] else [])
    ensures |rows| == |receipts|
    ensures forall i :: 0 <= i < |rows| ==> rows[i].Keys == set f | f in fieldNames
    ensures forall i :: 0 <= i < |rows| ==>
      && rows[i].Keys == {"Date", "Supplier", "Supplier Address", "Amount"} +
                         (if includeClients then {"Client"} else {})
      && rows[i]["Date"] == DateCell(receipts[i].date)
      && rows[i]["Supplier"] == TextCell(receipts[i].supplier)
      && rows[i]["Supplier Address"] == TextCell(receipts[i].supplierAddress)
      && rows[i]["Amount"] == AmountCell(receipts[i].amount)
      && (includeClients ==> rows[i]["Client"] == TextCell(receipts[i].client))
  {
    fieldNames := ["Date", "Supplier", "Supplier Address", "Amount"];
    if includeClients {
      fieldNames := fieldNames + ["Client"];
    }
    ghost var columns := set f | f in fieldNames;
    assert columns == {"Date", "Supplier", "Supplier Address", "Amount"} +
                      (if includeClients then {"Client"} else {});
    rows := [];
    var i := 0;
    while i < |receipts|
      invariant 0 <= i <= |receipts|
      invariant |rows| == i
      invariant forall j :: 0 <= j < i ==>
        && rows[j].Keys == columns
        && rows[j]["Date"] == DateCell(receipts[j].date)
        && rows[j]["Supplier"] == TextCell(receipts[j].supplier)
        && rows[j]["Supplier Address"] == TextCell(receipts[j].supplierAddress)
        && rows[j]["Amount"] == AmountCell(receipts[j].amount)
        && (includeClients ==> rows[j]["Client"] == TextCell(receipts[j].client))
    {
      var receipt := receipts[i];
      var writeMe := map["Date" := DateCell(receipt.date),
                         "Supplier" := TextCell(receipt.supplier),
                         "Supplier Address" := TextCell(receipt.supplierAddress),
                         "Amount" := AmountCell(receipt.amount)];
      if includeClients {
        writeMe := writeMe["Client" := TextCell(receipt.client)];
      }
      rows := rows + [writeMe];
      i := i + 1;
    }
  }
}
