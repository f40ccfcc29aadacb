/**
 * The generator and the query service agree: a dense table written as `distances.csv` and
 * loaded back answers every lookup between two indexed addresses with the computed distance,
 * and rejects the others, provided that reading a written number gives the number back.
 */
module DistanceRoundTrip {
  import opened Wrappers
  import opened OrderedDicts
  import opened GeneratorRecords
  import opened DistanceCsv
  import opened DistanceTableBuilder
  import opened DistanceApi

  /** The table that reading the written rows back produces. */
  function Reloaded(rows: seq<DistanceRow>, fmt: real -> string, parse: string -> real): Table {
    Load(map[], DataRows(DistanceFile(rows, fmt)), parse)
  }

  /** Reading the file back yields one data row per written row. */
  lemma FileDataRows(rows: seq<DistanceRow>, fmt: real -> string)
    ensures var data := DataRows(DistanceFile(rows, fmt));
      && |data| == |rows|
      && forall i :: 0 <= i < |rows| ==>
           data[i] == CsvRow(rows[i].address1, rows[i].address2, fmt(rows[i].kmApart))
  {
  }

  /** An address is an Address1 key of the reloaded table iff some written row starts with it. */
  lemma ReloadedKeys(rows: seq<DistanceRow>, fmt: real -> string, parse: string -> real, a: string)
    ensures a in Reloaded(rows, fmt, parse) <==> exists i :: 0 <= i < |rows| && rows[i].address1 == a
  {
    var data := DataRows(DistanceFile(rows, fmt));
    FileDataRows(rows, fmt);
    LoadedKeys(map[], data, parse, a);
    if exists i :: 0 <= i < |rows| && rows[i].address1 == a {
      var i :| 0 <= i < |rows| && rows[i].address1 == a;
      assert data[i].address1 == a;
    }
  }

  /** A pair written, possibly several times, always with the same distance reads back as that distance. */
  lemma ReloadedEntry(
    rows: seq<DistanceRow>, fmt: real -> string, parse: string -> real, a: string, b: string, v: real)
    requires parse(fmt(v)) == v
    requires DistanceRow(a, b, v) in rows
    requires forall row :: row in rows && row.address1 == a && row.address2 == b ==> row.kmApart == v
    ensures var m := Reloaded(rows, fmt, parse);
      a in m && b in m[a] && m[a][b] == v
  {
    var data := DataRows(DistanceFile(rows, fmt));
    FileDataRows(rows, fmt);
    var k :| 0 <= k < |rows| && rows[k] == DistanceRow(a, b, v);
    assert data[k].address1 == a && data[k].address2 == b;
    var i := LastPairIndex(data, a, b);
    assert i >= k;
    LoadedEntry(map[], data, parse, a, b);
    assert rows[i] in rows;
  }

  /** A row of a dense table's flattening joins two indexed addresses with their distance. */
  lemma DenseRowSound(
    t: PyDict<string, PyDict<string, real>>, index: PyDict<string, LatLng>,
    dist: (LatLng, LatLng) -> real, row: DistanceRow)
    requires IsDistanceTable(t, index, dist)
    requires row in TableRows(t)
    ensures row.address1 in index.items && row.address2 in index.items
    ensures row.kmApart == dist(index.items[row.address1], index.items[row.address2])
  {
    TableRowsSound(t, |t.keys|, row);
    assert IsDistanceRow(t.items[row.address1], index, index.items[row.address1], dist);
  }

  /** Every two indexed addresses, in either order and with themselves, get a row. */
  lemma DenseRowComplete(
    t: PyDict<string, PyDict<string, real>>, index: PyDict<string, LatLng>,
    dist: (LatLng, LatLng) -> real, a: string, b: string)
    requires IsDistanceTable(t, index, dist)
    requires a in index.items && b in index.items
    ensures DistanceRow(a, b, dist(index.items[a], index.items[b])) in TableRows(t)
  {
    TableEntry(t, index, dist, a, b);
    EntryRow(t, a, b);
  }

  /** Every entry of a table has its row in the flattening. */
  lemma EntryRow(t: PyDict<string, PyDict<string, real>>, a: string, b: string)
    requires a in t.keys && b in t.items[a].items
    ensures DistanceRow(a, b, t.items[a].items[b]) in TableRows(t)
  {
    assert t.keys[..|t.keys|] == t.keys;
    TableRowsComplete(t, |t.keys|, a, b);
  }

  /** A dense table holds, for two indexed addresses, the distance between their coordinates. */
  lemma TableEntry(
    t: PyDict<string, PyDict<string, real>>, index: PyDict<string, LatLng>,
    dist: (LatLng, LatLng) -> real, a: string, b: string)
    requires IsDistanceTable(t, index, dist)
    requires a in index.items && b in index.items
    ensures a in t.keys && b in t.items[a].items
    ensures t.items[a].items[b] == dist(index.items[a], index.items[b])
  {
    assert a in t.items;
    assert IsDistanceRow(t.items[a], index, index.items[a], dist);
  }

  /**
   * The service, loading the file written from a dense table, answers every two indexed
   * addresses with their distance and rejects the rest, provided that each written
   * distance reads back as itself.
   */
  lemma WrittenTableReloads(
    t: PyDict<string, PyDict<string, real>>, index: PyDict<string, LatLng>,
    dist: (LatLng, LatLng) -> real, fmt: real -> string, parse: string -> real)
    requires IsDistanceTable(t, index, dist)
    requires forall a, b :: a in index.items && b in index.items ==>
      parse(fmt(dist(index.items[a], index.items[b]))) == dist(index.items[a], index.items[b])
    ensures var m := Reloaded(TableRows(t), fmt, parse);
      && (forall a, b :: a in index.items && b in index.items ==>
            Lookup(m, a, b) == Success(dist(index.items[a], index.items[b])))
      && (forall a, b :: a !in index.items ==> Lookup(m, a, b) == Failure(UnknownFirstAddress(a)))
      && (forall a, b :: a in index.items && b !in index.items ==>
            Lookup(m, a, b) == Failure(UnknownSecondAddress(b)))
  {
    var rows := TableRows(t);
    var m := Reloaded(rows, fmt, parse);
    forall a ensures a in m <==> a in index.items {
      ReloadedKeys(rows, fmt, parse, a);
      if a in index.items {
        DenseRowComplete(t, index, dist, a, a);
      }
      if exists i :: 0 <= i < |rows| && rows[i].address1 == a {
        var i :| 0 <= i < |rows| && rows[i].address1 == a;
        DenseRowSound(t, index, dist, rows[i]);
      }
    }
    forall a, b | a in index.items && b in index.items
      ensures b in m[a] && m[a][b] == dist(index.items[a], index.items[b])
    {
      var v := dist(index.items[a], index.items[b]);
      DenseRowComplete(t, index, dist, a, b);
      forall row | row in rows && row.address1 == a && row.address2 == b ensures row.kmApart == v {
        DenseRowSound(t, index, dist, row);
      }
      ReloadedEntry(rows, fmt, parse, a, b, v);
    }
  }
}
