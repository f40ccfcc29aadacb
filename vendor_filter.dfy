/**
 * Which nearby places are used as vendors: a place qualifies when its vicinity starts with
 * a street number, and each client's list keeps the qualifying places in search order.
 */
module VendorFilter {
  import opened OrderedDicts
  import opened GeneratorRecords

  predicate IsDigit(c: char) {
    '0' <= c <= '9'
  }

  /** Length of the greedy match of `[0-9]+` at the start of `s` (0 when it does not match). */
  function LeadingDigits(s: string): (n: nat)
    ensures n <= |s|
    ensures forall i :: 0 <= i < n ==> IsDigit(s[i])
    ensures n == |s| || !IsDigit(s[n])
  {
    if s == [] || !IsDigit(s[0]) then 0 else 1 + LeadingDigits(s[1..])
  }

  /**
   * `re.match("^[0-9]+.*", address) is not None`: one or more leading digits, and then
   * `.*`, which matches the empty rest whatever follows.
   */
  function IsAddressValid(address: string): (ok: bool)
    ensures ok <==> |address| > 0 && IsDigit(address[0])
  {
    LeadingDigits(address) >= 1
  }

  lemma AddressExamples()
    ensures IsAddressValid("123 Main St")
    ensures !IsAddressValid("White Oak")
    ensures !IsAddressValid("")
  {
  }

  function IsVendorValid(vendor: Place): (ok: bool)
    ensures ok <==> |vendor.vicinity| > 0 && IsDigit(vendor.vicinity[0])
  {
    IsAddressValid(vendor.vicinity)
  }

  /** `list(filter(is_vendor_valid, places))` */
  function FilterValidVendors(places: seq<Place>): (kept: seq<Place>)
    ensures |kept| <= |places|
    ensures forall v :: v in kept <==> v in places && IsVendorValid(v)
  {
    if places == [] then []
    else (if IsVendorValid(places[0]) then [places[0]] else []) + FilterValidVendors(places[1..])
  }

  /** Filtering distributes over concatenation: the kept places stay in their relative order. */
  lemma {:induction false} FilterPreservesOrder(a: seq<Place>, b: seq<Place>)
    ensures FilterValidVendors(a + b) == FilterValidVendors(a) + FilterValidVendors(b)
  {
    if a != [] {
      assert (a + b)[0] == a[0];
      assert (a + b)[1..] == a[1..] + b;
      FilterPreservesOrder(a[1..], b);
    } else {
      assert a + b == b;
    }
  }

  /** Each place counts as often in the kept list as in the search result, if it qualifies. */
  lemma {:induction false} FilterMultiplicity(places: seq<Place>, v: Place)
    ensures multiset(FilterValidVendors(places))[v] ==
      if IsVendorValid(v) then multiset(places)[v] else 0
  {
    if places != [] {
      FilterMultiplicity(places[1..], v);
      assert places == [places[0]] + places[1..];
    }
  }

  /** The (client, vendors) assignments made for the projects in order. */
  function ClientEntries(projects: seq<ProjectRecord>, nearbyResults: seq<seq<Place>>)
    : seq<(string, seq<Place>)>
    requires |nearbyResults| == |projects|
  {
    seq(|projects|, i requires 0 <= i < |projects| =>
      (projects[i].client, FilterValidVendors(nearbyResults[i])))
  }

  /**
   * The loop of `fetch_hardware_nearby` without its two service calls: `nearbyResults[i]`
   * is what the nearby-places search returned for `projects[i]`, and each project's client
   * is mapped to the qualifying places.
   */
  method FetchHardwareNearby(projects: seq<ProjectRecord>, nearbyResults: seq<seq<Place>>)
    returns (vendorsByClient: PyDict<string, seq<Place>>)
    requires |nearbyResults| == |projects|
    ensures vendorsByClient == PutAll(Empty(), ClientEntries(projects, nearbyResults))
  {
    ghost var es := ClientEntries(projects, nearbyResults);
    vendorsByClient := Empty();
    var i := 0;
    while i < |projects|
      invariant 0 <= i <= |projects|
      invariant vendorsByClient == PutAll(Empty(), es[..i])
    {
      var nearby := FilterValidVendors(nearbyResults[i]);
      assert es[..i + 1] == es[..i] + [(projects[i].client, nearby)];
      PutAllAppend(Empty(), es[..i], (projects[i].client, nearby));
      vendorsByClient := Put(vendorsByClient, projects[i].client, nearby);
      i := i + 1;
    }
    assert es[..i] == es;
  }

  /** Every project's client gets an entry, and no other name does. */
  lemma FetchedClients(projects: seq<ProjectRecord>, nearbyResults: seq<seq<Place>>, c: string)
    requires |nearbyResults| == |projects|
    ensures c in PutAll(Empty(), ClientEntries(projects, nearbyResults)).items <==>
      exists p :: p in projects && p.client == c
  {
    var es := ClientEntries(projects, nearbyResults);
    PutAllKeys(Empty(), es, c);
    if exists p :: p in projects && p.client == c {
      var p :| p in projects && p.client == c;
      var i :| 0 <= i < |projects| && projects[i] == p;
      assert es[i].0 == c;
    }
    if exists i :: 0 <= i < |es| && es[i].0 == c {
      var i :| 0 <= i < |es| && es[i].0 == c;
      assert projects[i] in projects;
    }
  }

  /**
   * A client's vendor list is the filtered search result of its LAST project (a later
   * project of the same client overwrites an earlier one), and holds only qualifying places.
   */
  lemma FetchedVendors(projects: seq<ProjectRecord>, nearbyResults: seq<seq<Place>>, i: nat)
    requires |nearbyResults| == |projects|
    requires i < |projects|
    requires forall j :: i < j < |projects| ==> projects[j].client != projects[i].client
    ensures var d := PutAll(Empty(), ClientEntries(projects, nearbyResults));
      && projects[i].client in d.items
      && d.items[projects[i].client] == FilterValidVendors(nearbyResults[i])
      && forall v :: v in d.items[projects[i].client] ==> IsVendorValid(v)
  {
    var es := ClientEntries(projects, nearbyResults);
    LastKeyIndexAt(es, projects[i].client, i);
    PutAllValue(Empty(), es, projects[i].client);
  }
}
