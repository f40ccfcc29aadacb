/**
 * The distance query service: a table of distances loaded from the rows of a distances
 * file, keyed first by Address1 and then by Address2, and point lookups on it.
 */
module DistanceApi {
  import opened Wrappers
  import opened DistanceCsv

  type Table = map<string, map<string, real>>

  datatype LookupError =
    | UnknownFirstAddress(address: string)   // "does not recognize first address"
    | UnknownSecondAddress(address: string)  // "does not recognize second address"

  /** The reader is given the column names, so the file's header line comes back as a row and is skipped. */
  function DataRows(lines: seq<CsvRow>): seq<CsvRow> {
    if lines == [] then [] else lines[1..]
  }

  /** One row of the loading loop: create the Address1 entry when missing, then set its Address2 entry. */
  function Store(m: Table, row: CsvRow, parse: string -> real): Table {
    var inner := if row.address1 in m then m[row.address1] else map[];
    m[row.address1 := inner[row.address2 := parse(row.kmApart)]]
  }

  /** The table after storing `rows` in order, starting from `m`. */
  function Load(m: Table, rows: seq<CsvRow>, parse: string -> real): Table {
    if rows == [] then m
    else Store(Load(m, rows[..|rows| - 1], parse), rows[|rows| - 1], parse)
  }

  /** The position of the last row for the pair (a1, a2), or -1 when there is none. */
  function LastPairIndex(rows: seq<CsvRow>, a1: string, a2: string): (i: int)
    ensures -1 <= i < |rows|
    ensures i >= 0 ==> rows[i].address1 == a1 && rows[i].address2 == a2
    ensures forall j :: i < j < |rows| ==> rows[j].address1 != a1 || rows[j].address2 != a2
  {
    if rows == [] then -1
    else if rows[|rows| - 1].address1 == a1 && rows[|rows| - 1].address2 == a2 then |rows| - 1
    else LastPairIndex(rows[..|rows| - 1], a1, a2)
  }

  /** The Address1 keys after loading are the old ones and the Address1 of every row. */
  lemma {:induction false} LoadedKeys(m: Table, rows: seq<CsvRow>, parse: string -> real, a1: string)
    ensures a1 in Load(m, rows, parse) <==>
      a1 in m || exists i :: 0 <= i < |rows| && rows[i].address1 == a1
  {
    if rows != [] {
      var init := rows[..|rows| - 1];
      LoadedKeys(m, init, parse, a1);
      if exists i :: 0 <= i < |init| && init[i].address1 == a1 {
        var i :| 0 <= i < |init| && init[i].address1 == a1;
        assert rows[i] == init[i];
      }
      if exists i :: 0 <= i < |rows| && rows[i].address1 == a1 {
        var i :| 0 <= i < |rows| && rows[i].address1 == a1;
        if i < |init| {
          assert init[i] == rows[i];
        }
      }
    }
  }

  /**
   * A pair holds the distance of its last row; later rows overwrite earlier ones. A pair
   * that no row names keeps its old presence and value.
   */
  lemma {:induction false} LoadedEntry(m: Table, rows: seq<CsvRow>, parse: string -> real, a1: string, a2: string)
    ensures var r, i := Load(m, rows, parse), LastPairIndex(rows, a1, a2);
      i >= 0 ==> a1 in r && a2 in r[a1] && r[a1][a2] == parse(rows[i].kmApart)
    ensures var r, i := Load(m, rows, parse), LastPairIndex(rows, a1, a2);
      i < 0 ==>
        && ((a1 in r && a2 in r[a1]) <==> (a1 in m && a2 in m[a1]))
        && (a1 in m && a2 in m[a1] ==> r[a1][a2] == m[a1][a2])
  {
    if rows != [] {
      var init := rows[..|rows| - 1];
      LoadedEntry(m, init, parse, a1, a2);
      var last := rows[|rows| - 1];
      if last.address1 != a1 || last.address2 != a2 {
        assert LastPairIndex(rows, a1, a2) == LastPairIndex(init, a1, a2);
        var i := LastPairIndex(init, a1, a2);
        if i >= 0 {
          assert rows[i] == init[i];
        }
      }
    }
  }

  /**
   * `get_distance`: the first address must be an Address1 key; the second must be an
   * Address1 key too and have an entry under the first.
   */
  function Lookup(m: Table, a1: string, a2: string): (r: Result<real, LookupError>)
    ensures r == Failure(UnknownFirstAddress(a1)) <==> a1 !in m
    ensures a1 in m ==> (r == Failure(UnknownSecondAddress(a2)) <==> a2 !in m || a2 !in m[a1])
    ensures r.Success? <==> a1 in m && a2 in m && a2 in m[a1]
    ensures r.Success? ==> r.value == m[a1][a2]
  {
    if a1 !in m then Failure(UnknownFirstAddress(a1))
    else if a2 !in m || a2 !in m[a1] then Failure(UnknownSecondAddress(a2))
    else Success(m[a1][a2])
  }

  /**
   * A file holding only the row (A, B, 5.0) does not serve the pair (A, B): B never occurs
   * as an Address1, so the second address is reported unknown. The reverse row makes it
   * servable.
   */
  lemma SecondAddressMustBeFirstColumnKey(parse: string -> real)
    ensures var m := Load(map[], DataRows([Header, CsvRow("A", "B", "5.0")]), parse);
      && Lookup(m, "A", "B") == Failure(UnknownSecondAddress("B"))
      && Lookup(m, "A", "C") == Failure(UnknownSecondAddress("C"))
      && Lookup(m, "B", "A") == Failure(UnknownFirstAddress("B"))
    ensures var m := Load(map[], DataRows([Header, CsvRow("A", "B", "5.0"), CsvRow("B", "A", "5.0")]), parse);
      Lookup(m, "A", "B") == Success(parse("5.0"))
  {
    var rows := [CsvRow("A", "B", "5.0")];
    assert DataRows([Header, CsvRow("A", "B", "5.0")]) == rows;
    assert rows[..0] == [];
    var rows2 := [CsvRow("A", "B", "5.0"), CsvRow("B", "A", "5.0")];
    assert DataRows([Header, CsvRow("A", "B", "5.0"), CsvRow("B", "A", "5.0")]) == rows2;
    assert rows2[..1] == rows;
  }

  class DistanceAPI {
    var addrToAddrToDistances: Table

    /** `__init__`: an empty table, then `initialize` with the file's rows. */
    constructor (lines: seq<CsvRow>, parse: string -> real)
      ensures addrToAddrToDistances == Load(map[], DataRows(lines), parse)
    {
      addrToAddrToDistances := map[];
      new;
      Initialize(lines, parse);
    }

    /** `initialize`: stores every row after the header, in file order, into the current table. */
    method Initialize(lines: seq<CsvRow>, parse: string -> real)
      modifies this
      ensures addrToAddrToDistances == Load(old(addrToAddrToDistances), DataRows(lines), parse)
    {
      var rows := DataRows(lines);
      var i := 0;
      while i < |rows|
        invariant 0 <= i <= |rows|
        invariant addrToAddrToDistances == Load(old(addrToAddrToDistances), rows[..i], parse)
      {
        var row := rows[i];
        if row.address1 !in addrToAddrToDistances {
          addrToAddrToDistances := addrToAddrToDistances[row.address1 := map[]];
        }
        addrToAddrToDistances := addrToAddrToDistances[row.address1 :=
          addrToAddrToDistances[row.address1][row.address2 := parse(row.kmApart)]];
        assert rows[..i + 1][..i] == rows[..i];
        i := i + 1;
      }
      assert rows[..i] == rows;
    }

    /**
     * `get_distance`: reads the table and changes nothing. The early returns follow the
     * source's two raises; `Lookup` states the same outcome as a value.
     */
    method GetDistance(address1: string, address2: string) returns (r: Result<real, LookupError>)
      ensures r == Lookup(addrToAddrToDistances, address1, address2)
    {
      if address1 !in addrToAddrToDistances {
        return Failure(UnknownFirstAddress(address1));
      }
      if address2 !in addrToAddrToDistances || address2 !in addrToAddrToDistances[address1] {
        return Failure(UnknownSecondAddress(address2));
      }
      return Success(addrToAddrToDistances[address1][address2]);
    }
  }
}
