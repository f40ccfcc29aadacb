/**
 * The distance lookup table of the generator: an index from every known address (project
 * sites, then vendor vicinities) to its coordinates, the dense table of distances between
 * every two indexed addresses, and its flattening into (Address1, Address2, kmApart) rows.
 * The distance formula is a parameter `dist`.
 */
module DistanceTableBuilder {
  import opened OrderedDicts
  import opened GeneratorRecords
  import opened DistanceCsv

  // ----- the address index (map_all_addresses_to_lat_long) -----

  /** The assignments of the project loop of `map_all_addresses_to_lat_long`, in order. */
  function ProjectEntries(projects: seq<ProjectRecord>): seq<(string, LatLng)>
  {
    seq(|projects|, i requires 0 <= i < |projects| => (projects[i].address, projects[i].latLong))
  }

  /** The assignments of the vendor loop for one client's places, in order. */
  function PlaceEntries(places: seq<Place>): seq<(string, LatLng)>
  {
    seq(|places|, i requires 0 <= i < |places| => (places[i].vicinity, places[i].location))
  }

  /** The vendor assignments for the first `n` clients, in the dictionary's order. */
  function VendorEntries(vendorsByClient: PyDict<string, seq<Place>>, n: nat): seq<(string, LatLng)>
    requires n <= |vendorsByClient.keys|
  {
    if n == 0 then []
    else
      var client := vendorsByClient.keys[n - 1];
      VendorEntries(vendorsByClient, n - 1) + PlaceEntries(vendorsByClient.items[client])
  }

  /** Every assignment `map_all_addresses_to_lat_long` makes, in the order it makes them. */
  function AddressEntries(vendorsByClient: PyDict<string, seq<Place>>, projects: seq<ProjectRecord>)
    : seq<(string, LatLng)>
  {
    ProjectEntries(projects) + VendorEntries(vendorsByClient, |vendorsByClient.keys|)
  }

  /** The first loop of `map_all_addresses_to_lat_long`: each project's address and coordinates. */
  method PutProjectLocations(index: PyDict<string, LatLng>, projects: seq<ProjectRecord>)
    returns (index': PyDict<string, LatLng>)
    ensures index' == PutAll(index, ProjectEntries(projects))
  {
    ghost var pes := ProjectEntries(projects);
    index' := index;
    var i := 0;
    while i < |projects|
      invariant 0 <= i <= |projects|
      invariant index' == PutAll(index, pes[..i])
    {
      PutAllPrefix(index, pes, i);
      index' := Put(index', projects[i].address, projects[i].latLong);
      i := i + 1;
    }
    assert pes[..i] == pes;
  }

  /** The inner loop of `map_all_addresses_to_lat_long`: one client's vendor locations. */
  method PutVendorLocations(index: PyDict<string, LatLng>, vendors: seq<Place>)
    returns (index': PyDict<string, LatLng>)
    ensures index' == PutAll(index, PlaceEntries(vendors))
  {
    ghost var ves := PlaceEntries(vendors);
    index' := index;
    var j := 0;
    while j < |vendors|
      invariant 0 <= j <= |vendors|
      invariant index' == PutAll(index, ves[..j])
    {
      PutAllPrefix(index, ves, j);
      index' := Put(index', vendors[j].vicinity, vendors[j].location);
      j := j + 1;
    }
    assert ves[..j] == ves;
  }

  /**
   * `map_all_addresses_to_lat_long`: every project address, then every vendor vicinity
   * client by client, mapped to its coordinates; a later assignment to an address wins.
   */
  method MapAllAddressesToLatLong(vendorsByClient: PyDict<string, seq<Place>>, projects: seq<ProjectRecord>)
    returns (index: PyDict<string, LatLng>)
    ensures index == PutAll(Empty(), AddressEntries(vendorsByClient, projects))
  {
    index := PutProjectLocations(Empty(), projects);
    ghost var projectIndex := index;
    var c := 0;
    while c < |vendorsByClient.keys|
      invariant 0 <= c <= |vendorsByClient.keys|
      invariant index == PutAll(projectIndex, VendorEntries(vendorsByClient, c))
    {
      var clientName := vendorsByClient.keys[c];
      VendorEntriesStep(projectIndex, vendorsByClient, c);
      index := PutVendorLocations(index, vendorsByClient.items[clientName]);
      c := c + 1;
    }
    PutAllConcat(Empty(), ProjectEntries(projects), VendorEntries(vendorsByClient, c));
  }

  lemma VendorEntriesStep(d: PyDict<string, LatLng>, vendorsByClient: PyDict<string, seq<Place>>, c: nat)
    requires c < |vendorsByClient.keys|
    ensures PutAll(d, VendorEntries(vendorsByClient, c + 1)) ==
      PutAll(PutAll(d, VendorEntries(vendorsByClient, c)), PlaceEntries(vendorsByClient.items[vendorsByClient.keys[c]]))
  {
    PutAllConcat(d, VendorEntries(vendorsByClient, c), PlaceEntries(vendorsByClient.items[vendorsByClient.keys[c]]));
  }

  /** The vendor assignments are exactly the (vicinity, location) pairs of the listed vendors. */
  lemma {:induction false} VendorEntriesMembers(
    vendorsByClient: PyDict<string, seq<Place>>, n: nat, e: (string, LatLng))
    requires n <= |vendorsByClient.keys|
    ensures e in VendorEntries(vendorsByClient, n) <==>
      exists j, v :: 0 <= j < n && v in vendorsByClient.items[vendorsByClient.keys[j]] &&
                     e == (v.vicinity, v.location)
  {
    if n > 0 {
      VendorEntriesMembers(vendorsByClient, n - 1, e);
      var vendors := vendorsByClient.items[vendorsByClient.keys[n - 1]];
      var pes := PlaceEntries(vendors);
      if e in pes {
        var i :| 0 <= i < |pes| && pes[i] == e;
        assert vendors[i] in vendors;
      }
      if exists v :: v in vendors && e == (v.vicinity, v.location) {
        var v :| v in vendors && e == (v.vicinity, v.location);
        var i :| 0 <= i < |vendors| && vendors[i] == v;
        assert pes[i] == e;
      }
    }
  }

  lemma VendorEntryKeys(vendorsByClient: PyDict<string, seq<Place>>, k: string)
    ensures var ves := VendorEntries(vendorsByClient, |vendorsByClient.keys|);
      (exists i :: 0 <= i < |ves| && ves[i].0 == k) <==>
      exists c, v :: c in vendorsByClient.items && v in vendorsByClient.items[c] && v.vicinity == k
  {
    var n := |vendorsByClient.keys|;
    var ves := VendorEntries(vendorsByClient, n);
    if exists c, v :: c in vendorsByClient.items && v in vendorsByClient.items[c] && v.vicinity == k {
      var c, v :| c in vendorsByClient.items && v in vendorsByClient.items[c] && v.vicinity == k;
      var j :| 0 <= j < n && vendorsByClient.keys[j] == c;
      VendorEntriesMembers(vendorsByClient, n, (v.vicinity, v.location));
    }
    if exists i :: 0 <= i < |ves| && ves[i].0 == k {
      var i :| 0 <= i < |ves| && ves[i].0 == k;
      VendorEntriesMembers(vendorsByClient, n, ves[i]);
    }
  }

  /** A key is assigned in a concatenation exactly when it is assigned in one of the parts. */
  lemma AssignedInConcat<K, V>(a: seq<(K, V)>, b: seq<(K, V)>, k: K)
    ensures (exists i :: 0 <= i < |a + b| && (a + b)[i].0 == k) <==>
      (exists i :: 0 <= i < |a| && a[i].0 == k) || (exists i :: 0 <= i < |b| && b[i].0 == k)
  {
    if exists i :: 0 <= i < |a + b| && (a + b)[i].0 == k {
      var i :| 0 <= i < |a + b| && (a + b)[i].0 == k;
      if i < |a| {
        assert (a + b)[i] == a[i];
      } else {
        assert (a + b)[i] == b[i - |a|];
      }
    }
    if exists i :: 0 <= i < |a| && a[i].0 == k {
      var i :| 0 <= i < |a| && a[i].0 == k;
      assert (a + b)[i] == a[i];
    }
    if exists i :: 0 <= i < |b| && b[i].0 == k {
      var i :| 0 <= i < |b| && b[i].0 == k;
      assert (a + b)[|a| + i] == b[i];
    }
  }

  lemma ProjectEntryKeys(projects: seq<ProjectRecord>, k: string)
    ensures var pes := ProjectEntries(projects);
      (exists i :: 0 <= i < |pes| && pes[i].0 == k) <==> exists p :: p in projects && p.address == k
  {
    var pes := ProjectEntries(projects);
    if exists i :: 0 <= i < |pes| && pes[i].0 == k {
      var i :| 0 <= i < |pes| && pes[i].0 == k;
      assert projects[i] in projects;
    }
    if exists p :: p in projects && p.address == k {
      var p :| p in projects && p.address == k;
      var i :| 0 <= i < |projects| && projects[i] == p;
      assert pes[i].0 == k;
    }
  }

  /** The index holds every project address and every vendor vicinity, and nothing else. */
  lemma IndexedAddresses(
    vendorsByClient: PyDict<string, seq<Place>>, projects: seq<ProjectRecord>, k: string)
    ensures k in PutAll(Empty(), AddressEntries(vendorsByClient, projects)).items <==>
      || (exists p :: p in projects && p.address == k)
      || (exists c, v :: c in vendorsByClient.items && v in vendorsByClient.items[c] && v.vicinity == k)
  {
    var pes := ProjectEntries(projects);
    var ves := VendorEntries(vendorsByClient, |vendorsByClient.keys|);
    PutAllKeys(Empty(), pes + ves, k);
    AssignedInConcat(pes, ves, k);
    ProjectEntryKeys(projects, k);
    VendorEntryKeys(vendorsByClient, k);
  }

  /**
   * Vendor locations are assigned after all project locations: the last vendor (in the
   * dictionary's order) with a given vicinity decides that address's coordinates, even
   * when a project or an earlier vendor has the same address.
   */
  lemma LastVendorWins(
    vendorsByClient: PyDict<string, seq<Place>>, projects: seq<ProjectRecord>, i: nat)
    requires var ves := VendorEntries(vendorsByClient, |vendorsByClient.keys|);
      i < |ves| && forall j :: i < j < |ves| ==> ves[j].0 != ves[i].0
    ensures var ves := VendorEntries(vendorsByClient, |vendorsByClient.keys|);
      var index := PutAll(Empty(), AddressEntries(vendorsByClient, projects));
      ves[i].0 in index.items && index.items[ves[i].0] == ves[i].1
  {
    var pes := ProjectEntries(projects);
    var ves := VendorEntries(vendorsByClient, |vendorsByClient.keys|);
    var es := pes + ves;
    assert es[|pes| + i] == ves[i];
    LastKeyIndexAt(es, ves[i].0, |pes| + i);
    PutAllValue(Empty(), es, ves[i].0);
  }

  /** A project address no vendor shares keeps the coordinates of its last project. */
  lemma ProjectLocationKept(
    vendorsByClient: PyDict<string, seq<Place>>, projects: seq<ProjectRecord>, i: nat)
    requires i < |projects|
    requires forall j :: i < j < |projects| ==> projects[j].address != projects[i].address
    requires forall c, v :: c in vendorsByClient.items && v in vendorsByClient.items[c] ==>
      v.vicinity != projects[i].address
    ensures var index := PutAll(Empty(), AddressEntries(vendorsByClient, projects));
      projects[i].address in index.items && index.items[projects[i].address] == projects[i].latLong
  {
    var pes := ProjectEntries(projects);
    var n := |vendorsByClient.keys|;
    var ves := VendorEntries(vendorsByClient, n);
    var es := pes + ves;
    var k := projects[i].address;
    forall j | i < j < |es| ensures es[j].0 != k {
      if j < |pes| {
        assert es[j] == pes[j];
      } else {
        assert es[j] == ves[j - |pes|];
        VendorEntriesMembers(vendorsByClient, n, es[j]);
      }
    }
    assert es[i] == pes[i];
    LastKeyIndexAt(es, k, i);
    PutAllValue(Empty(), es, k);
  }

  // ----- the dense distance table (compute_all_distances) -----

  /** `distances` holds, in the index's order, the distance from `origin` to every indexed address. */
  ghost predicate IsDistanceRow(
    distances: PyDict<string, real>, index: PyDict<string, LatLng>, origin: LatLng,
    dist: (LatLng, LatLng) -> real)
  {
    && distances.keys == index.keys
    && forall b :: b in index.items ==> b in distances.items && distances.items[b] == dist(origin, index.items[b])
  }

  /**
   * `t` has a row for every indexed address and, in each row, a distance to every indexed
   * address (itself included), computed from the two coordinates; both levels keep the
   * index's order.
   */
  ghost predicate IsDistanceTable(
    t: PyDict<string, PyDict<string, real>>, index: PyDict<string, LatLng>,
    dist: (LatLng, LatLng) -> real)
  {
    && t.keys == index.keys
    && RowsFit(t, index, dist)
  }

  /** Each row of `t` holds the distances from its own address's coordinates. */
  ghost predicate RowsFit(
    t: PyDict<string, PyDict<string, real>>, index: PyDict<string, LatLng>,
    dist: (LatLng, LatLng) -> real)
  {
    forall a :: a in t.items ==> a in index.items && IsDistanceRow(t.items[a], index, index.items[a], dist)
  }

  lemma AddRow(
    t: PyDict<string, PyDict<string, real>>, index: PyDict<string, LatLng>,
    dist: (LatLng, LatLng) -> real, a: string, distances: PyDict<string, real>)
    requires RowsFit(t, index, dist) && a !in t.items
    requires a in index.items && IsDistanceRow(distances, index, index.items[a], dist)
    ensures Put(t, a, distances).keys == t.keys + [a]
    ensures RowsFit(Put(t, a, distances), index, dist)
  {
  }

  /** Every distance `distances` holds is from `origin` to an indexed address's coordinates. */
  ghost predicate DistancesTo(
    distances: PyDict<string, real>, index: PyDict<string, LatLng>, origin: LatLng,
    dist: (LatLng, LatLng) -> real)
  {
    forall b :: b in distances.items ==> b in index.items && distances.items[b] == dist(origin, index.items[b])
  }

  lemma AddDistance(
    distances: PyDict<string, real>, index: PyDict<string, LatLng>, origin: LatLng,
    dist: (LatLng, LatLng) -> real, b: string)
    requires DistancesTo(distances, index, origin, dist) && b !in distances.items && b in index.items
    ensures Put(distances, b, dist(origin, index.items[b])).keys == distances.keys + [b]
    ensures DistancesTo(Put(distances, b, dist(origin, index.items[b])), index, origin, dist)
  {
  }

  /** The inner loop of `compute_all_distances`: the distances from one address's coordinates. */
  method DistancesFrom(index: PyDict<string, LatLng>, latLong1: LatLng, dist: (LatLng, LatLng) -> real)
    returns (distances: PyDict<string, real>)
    ensures IsDistanceRow(distances, index, latLong1, dist)
  {
    distances := Empty();
    var j := 0;
    while j < |index.keys|
      invariant 0 <= j <= |index.keys|
      invariant distances.keys == index.keys[..j]
      invariant DistancesTo(distances, index, latLong1, dist)
    {
      var address2 := index.keys[j];
      KeyNotEarlier(index, j);
      AddDistance(distances, index, latLong1, dist, address2);
      distances := Put(distances, address2, dist(latLong1, index.items[address2]));
      PrefixStep(index.keys, j);
      j := j + 1;
    }
    assert index.keys[..j] == index.keys;
  }

  method ComputeAllDistances(index: PyDict<string, LatLng>, dist: (LatLng, LatLng) -> real)
    returns (table: PyDict<string, PyDict<string, real>>)
    ensures IsDistanceTable(table, index, dist)
  {
    table := Empty();
    var i := 0;
    while i < |index.keys|
      invariant 0 <= i <= |index.keys|
      invariant table.keys == index.keys[..i]
      invariant RowsFit(table, index, dist)
    {
      var address1 := index.keys[i];
      var latLong1 := index.items[address1];
      var distances := DistancesFrom(index, latLong1, dist);
      KeyNotEarlier(index, i);
      AddRow(table, index, dist, address1, distances);
      table := Put(table, address1, distances);
      PrefixStep(index.keys, i);
      i := i + 1;
    }
    assert index.keys[..i] == index.keys;
  }

  /** With a symmetric distance function the table is symmetric. */
  lemma TableSymmetric(
    t: PyDict<string, PyDict<string, real>>, index: PyDict<string, LatLng>,
    dist: (LatLng, LatLng) -> real, a: string, b: string)
    requires IsDistanceTable(t, index, dist)
    requires forall p, q :: dist(p, q) == dist(q, p)
    requires a in t.items && b in t.items
    ensures b in t.items[a].items && a in t.items[b].items
    ensures t.items[a].items[b] == t.items[b].items[a]
  {
    assert IsDistanceRow(t.items[a], index, index.items[a], dist);
    assert IsDistanceRow(t.items[b], index, index.items[b], dist);
  }

  /** With a distance function that is zero from a point to itself, the diagonal is zero. */
  lemma TableDiagonalZero(
    t: PyDict<string, PyDict<string, real>>, index: PyDict<string, LatLng>,
    dist: (LatLng, LatLng) -> real, a: string)
    requires IsDistanceTable(t, index, dist)
    requires forall p :: dist(p, p) == 0.0
    requires a in t.items
    ensures a in t.items[a].items && t.items[a].items[a] == 0.0
  {
    assert IsDistanceRow(t.items[a], index, index.items[a], dist);
  }

  // ----- flattening into rows (main) and writing them (write_distance_lookup) -----

  datatype DistanceRow = DistanceRow(address1: string, address2: string, kmApart: real)

  /** The rows for the first `n` entries of one address's distances. */
  function InnerRows(address1: string, distances: PyDict<string, real>, n: nat): (rows: seq<DistanceRow>)
    requires n <= |distances.keys|
    ensures |rows| == n
  {
    if n == 0 then []
    else
      var address2 := distances.keys[n - 1];
      InnerRows(address1, distances, n - 1) + [DistanceRow(address1, address2, distances.items[address2])]
  }

  /** The rows for the first `n` addresses of the table. */
  function OuterRows(t: PyDict<string, PyDict<string, real>>, n: nat): seq<DistanceRow>
    requires n <= |t.keys|
  {
    if n == 0 then []
    else
      var address1 := t.keys[n - 1];
      OuterRows(t, n - 1) + InnerRows(address1, t.items[address1], |t.items[address1].keys|)
  }

  function TableRows(t: PyDict<string, PyDict<string, real>>): seq<DistanceRow> {
    OuterRows(t, |t.keys|)
  }

  /** The nested loop of `main` that turns the table into rows, in the table's order. */
  method FlattenTable(t: PyDict<string, PyDict<string, real>>) returns (rows: seq<DistanceRow>)
    ensures rows == TableRows(t)
  {
    rows := [];
    var i := 0;
    while i < |t.keys|
      invariant 0 <= i <= |t.keys|
      invariant rows == OuterRows(t, i)
    {
      var address1 := t.keys[i];
      var distances := t.items[address1];
      var j := 0;
      while j < |distances.keys|
        invariant 0 <= j <= |distances.keys|
        invariant rows == OuterRows(t, i) + InnerRows(address1, distances, j)
      {
        var address2 := distances.keys[j];
        rows := rows + [DistanceRow(address1, address2, distances.items[address2])];
        j := j + 1;
      }
      i := i + 1;
    }
  }

  lemma {:induction false} InnerRowsSound(
    address1: string, distances: PyDict<string, real>, n: nat, row: DistanceRow)
    requires n <= |distances.keys|
    requires row in InnerRows(address1, distances, n)
    ensures row.address1 == address1 && row.address2 in distances.items
    ensures row.kmApart == distances.items[row.address2]
  {
    if row !in InnerRows(address1, distances, n - 1) {
      assert row == DistanceRow(address1, distances.keys[n - 1], distances.items[distances.keys[n - 1]]);
    } else {
      InnerRowsSound(address1, distances, n - 1, row);
    }
  }

  lemma {:induction false} InnerRowsComplete(
    address1: string, distances: PyDict<string, real>, n: nat, j: nat)
    requires j < n <= |distances.keys|
    ensures DistanceRow(address1, distances.keys[j], distances.items[distances.keys[j]])
      in InnerRows(address1, distances, n)
  {
    if j < n - 1 {
      InnerRowsComplete(address1, distances, n - 1, j);
    }
  }

  /** Every row carries the distance the table holds for its two addresses. */
  lemma {:induction false} TableRowsSound(t: PyDict<string, PyDict<string, real>>, n: nat, row: DistanceRow)
    requires n <= |t.keys|
    requires row in OuterRows(t, n)
    ensures row.address1 in t.items && row.address2 in t.items[row.address1].items
    ensures row.kmApart == t.items[row.address1].items[row.address2]
  {
    var address1 := t.keys[n - 1];
    var inner := InnerRows(address1, t.items[address1], |t.items[address1].keys|);
    if row in inner {
      InnerRowsSound(address1, t.items[address1], |t.items[address1].keys|, row);
    } else {
      TableRowsSound(t, n - 1, row);
    }
  }

  /** Every entry of the table becomes a row. */
  lemma {:induction false} TableRowsComplete(
    t: PyDict<string, PyDict<string, real>>, n: nat, a: string, b: string)
    requires n <= |t.keys|
    requires a in t.keys[..n] && b in t.items[a].items
    ensures DistanceRow(a, b, t.items[a].items[b]) in OuterRows(t, n)
  {
    if t.keys[n - 1] == a {
      var j :| 0 <= j < |t.items[a].keys| && t.items[a].keys[j] == b;
      InnerRowsComplete(a, t.items[a], |t.items[a].keys|, j);
    } else {
      assert t.keys[..n] == t.keys[..n - 1] + [t.keys[n - 1]];
      TableRowsComplete(t, n - 1, a, b);
    }
  }

  /** When every address has `m` distances, the first `n` addresses give `n * m` rows. */
  lemma {:induction false} UniformRowCount(t: PyDict<string, PyDict<string, real>>, m: nat, n: nat)
    requires n <= |t.keys|
    requires forall a :: a in t.items ==> |t.items[a].keys| == m
    ensures |OuterRows(t, n)| == n * m
  {
    if n > 0 {
      UniformRowCount(t, m, n - 1);
      var address1 := t.keys[n - 1];
      assert address1 in t.items;
      MultiplicationStep(n, m);
    }
  }

  /** A dense table over `m` addresses flattens into exactly `m * m` rows. */
  lemma DenseRowCount(
    t: PyDict<string, PyDict<string, real>>, index: PyDict<string, LatLng>,
    dist: (LatLng, LatLng) -> real)
    requires IsDistanceTable(t, index, dist)
    ensures |TableRows(t)| == |index.keys| * |index.keys|
  {
    forall a | a in t.items ensures |t.items[a].keys| == |index.keys| {
      assert IsDistanceRow(t.items[a], index, index.items[a], dist);
    }
    UniformRowCount(t, |index.keys|, |t.keys|);
  }

  lemma MultiplicationStep(n: nat, m: nat)
    requires n > 0
    ensures (n - 1) * m + m == n * m
  {
  }

  /** `write_distance_lookup`: the header row, then each row with its distance as text. */
  function DistanceFile(rows: seq<DistanceRow>, fmt: real -> string): seq<CsvRow> {
    [Header] + seq(|rows|, i requires 0 <= i < |rows| =>
                     CsvRow(rows[i].address1, rows[i].address2, fmt(rows[i].kmApart)))
  }
}
