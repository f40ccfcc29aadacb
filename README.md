# accounting-receipts: distance lookup and receipt generation, in Dafny

The repository prepares data for a bookkeeping exercise. Students get a set of
hardware-store receipts and must match each one to the construction project it
was bought for. The generator does the following:

- finds the hardware stores near each project site;
- drops stores whose address has no street number;
- invents receipts for randomly chosen projects and nearby stores;
- writes them with and without the client column;
- writes a dense table of distances between every two known addresses.

A small query service loads that table back and answers point lookups. Three
record classes describe projects, vendors and receipts.

This project models those parts as follows:

- **Dictionaries.** The generator's dictionaries (clients to vendors, the address
  index, the distance table and its rows) are `OrderedDicts.PyDict` values: a map
  together with the insertion order of its keys. A present key keeps its position
  when it is reassigned. Order matters there, because it fixes the order of the
  written rows and decides which of two equal keys wins. The query service's
  table (`DistanceApi.Table`) and the receipt rows handed to the CSV writer are
  plain `map`s, because nothing reads their order.
- **Loops.** The generator's loops are methods, each proved against a
  specification:
  - The fetch loop (`FetchHardwareNearby`) and the address-index loops
    (`PutProjectLocations`, `PutVendorLocations`, `MapAllAddressesToLatLong`)
    are proved equal to a fold of the assignments they make (`PutAll`). Lemmas
    state what that fold holds.
  - The distance loops (`DistancesFrom`, `ComputeAllDistances`) are proved to
    build a dense table (`IsDistanceRow`, `IsDistanceTable`).
  - The flattening loop (`FlattenTable`) is proved equal to the row function
    `TableRows`, whose rows lemmas describe.
  - `GenerateReceipts` and `WriteReceipts` state what they produce directly in
    their postconditions.
- **Query service.** `DistanceApi.DistanceAPI` is a class whose table field is
  filled row by row.
- **Records.** Projects and vendors are values. `Receipt` is a class, because
  `set_project` updates it in place.
- **Round trip.** `DistanceRoundTrip` ties the two halves together. A dense table,
  flattened and written by the generator and loaded by the service, answers
  every lookup between two indexed addresses with the computed distance. It
  rejects every other lookup.

External inputs become parameters:

- the places search result for each project (`nearbyResults`);
- the geocoded coordinates of each project (`ProjectRecord.latLong`);
- the distance formula (`dist`);
- number formatting (`fmt`) and number parsing (`parse`);
- the interpreter's string hash (`strHash`).

Random draws are nondeterministic choices.

A lookup also needs its second address to be an Address1 key
(distance_api.py:29-30). A table loaded from the single row (A, B, 5.0)
therefore answers (A, B) with the second-address error for B.
`DistanceApi.SecondAddressMustBeFirstColumnKey` proves this. On the dense tables
that the generator writes, every address is an Address1 key, so the extra check
never fires there (`DistanceRoundTrip.WrittenTableReloads`).

## Model

| member | source | states |
|---|---|---|
| VendorFilter.LeadingDigits | data/receipt-generator.py:103 | length of the greedy `[0-9]+` match at the start: every character before it is a digit, and the next one (if any) is not |
| VendorFilter.IsAddressValid | data/receipt-generator.py:103-116 | an address is accepted iff it is non-empty and starts with an ASCII digit |
| VendorFilter.AddressExamples | data/receipt-generator.py:98-116 | "123 Main St" is accepted; "White Oak" and "" are rejected |
| VendorFilter.IsVendorValid | data/receipt-generator.py:88-95 | a place qualifies iff its vicinity starts with a digit |
| VendorFilter.FilterValidVendors | data/receipt-generator.py:81-82 | the kept places are exactly the qualifying places of the search result, and there are no more of them than were found |
| VendorFilter.FilterPreservesOrder | data/receipt-generator.py:82 | filtering distributes over concatenation, so kept places keep their relative order |
| VendorFilter.FilterMultiplicity | data/receipt-generator.py:82 | a qualifying place is kept exactly as often as it was found; a non-qualifying one never is |
| VendorFilter.FetchHardwareNearby | data/receipt-generator.py:65-85 | the loop builds exactly the dictionary that those assignments give, in order |
| VendorFilter.FetchedClients | data/receipt-generator.py:69-84 | the clients with an entry are exactly the clients of the projects |
| VendorFilter.FetchedVendors | data/receipt-generator.py:84 | a client's list is the filtered result of its last project (later projects overwrite earlier ones) and holds only qualifying places |
| ReceiptSynthesis.SelectNearbyVendor | data/receipt-generator.py:158-170 | an unknown client is a key error; an empty list is an index error; otherwise the vendor is a member of the client's list |
| ReceiptSynthesis.GenerateReceipts | data/receipt-generator.py:119-155 | on success, exactly `numReceipts` receipts, each naming some project's client and a vendor (name and vicinity) from that client's list with a non-negative amount. Failure happens only for a positive count, with the error of an empty project list or of a project whose client has no vendor. An empty project list always fails for a positive count; a project list where every client has vendors always succeeds |
| ReceiptSynthesis.WriteReceipts | data/receipt-generator.py:198-218 | the header is Date, Supplier, Supplier Address, Amount, then Client iff `includeClients`; one row per receipt, whose keys are exactly the header's columns and whose values are copied from the receipt |
| OrderedDicts.PutAllConcat | data/receipt-generator.py:221-235 | assigning two runs of entries one after the other is assigning their concatenation |
| OrderedDicts.PutAllValue | data/receipt-generator.py:226 | after a run of dictionary assignments, a key holds the value of its last assignment; a key never assigned keeps its old presence and value |
| OrderedDicts.PutAllKeys | data/receipt-generator.py:226 | after a run of assignments, the keys are the old keys plus every assigned key |
| OrderedDicts.LastKeyIndex | data/receipt-generator.py:226 | the position of the last assignment to a key: it assigns that key, and no later entry does |
| DistanceTableBuilder.PutProjectLocations | data/receipt-generator.py:225-226 | the first loop's dictionary is the fold of the project assignments |
| DistanceTableBuilder.PutVendorLocations | data/receipt-generator.py:230-231 | one client's vendor loop is the fold of its vendor assignments |
| DistanceTableBuilder.MapAllAddressesToLatLong | data/receipt-generator.py:221-235 | the index is the fold of all project assignments followed by all vendor assignments, client by client |
| DistanceTableBuilder.VendorEntriesMembers | data/receipt-generator.py:229-231 | the vendor assignments are exactly the (vicinity, location) pairs of the listed vendors |
| DistanceTableBuilder.VendorEntryKeys | data/receipt-generator.py:229-231 | an address is assigned by the vendor loop iff some listed vendor has it as vicinity |
| DistanceTableBuilder.ProjectEntryKeys | data/receipt-generator.py:225-226 | an address is assigned by the project loop iff some project has it |
| DistanceTableBuilder.IndexedAddresses | data/receipt-generator.py:221-235 | the index's keys are exactly the project addresses and the vendor vicinities |
| DistanceTableBuilder.LastVendorWins | data/receipt-generator.py:229-231 | the last vendor with a given vicinity decides its coordinates, even over a project or an earlier vendor at that address |
| DistanceTableBuilder.ProjectLocationKept | data/receipt-generator.py:225-226 | a project address that no vendor shares holds the coordinates of its last project |
| DistanceTableBuilder.DistancesFrom | data/receipt-generator.py:245-247 | the inner loop gives, in index order, the distance from one address's coordinates to every indexed address, itself included |
| DistanceTableBuilder.ComputeAllDistances | data/receipt-generator.py:238-248 | the outer keys, and each row's keys, are exactly the index's keys in its order; each entry `[a][b]` is `dist(index[a], index[b])` |
| DistanceTableBuilder.TableSymmetric | data/receipt-generator.py:245-247 | with a symmetric distance function, `[a][b] == [b][a]` |
| DistanceTableBuilder.TableDiagonalZero | data/receipt-generator.py:245-247 | with a distance function that is zero on equal points, `[a][a] == 0` |
| DistanceTableBuilder.OuterRows | data/receipt-generator.py:31-36 | the rows of the first `n` outer keys, each key's rows in its inner order; `TableRowsSound`, `TableRowsComplete` and `UniformRowCount` state what they hold |
| DistanceTableBuilder.TableRows | data/receipt-generator.py:31-36 | the rows of the whole table, which `FlattenTable` produces; `TableRowsSound`, `TableRowsComplete` and `DenseRowCount` state what they hold |
| DistanceTableBuilder.InnerRows | data/receipt-generator.py:33-36 | the inner flattening loop makes one row per distance entry |
| DistanceTableBuilder.FlattenTable | data/receipt-generator.py:31-36 | the nested loop produces the table's rows, outer key by outer key, in dictionary order |
| DistanceTableBuilder.InnerRowsSound | data/receipt-generator.py:33-36 | a row of one address carries that address, a second address of its row, and the stored distance |
| DistanceTableBuilder.InnerRowsComplete | data/receipt-generator.py:33-36 | every entry of one address's distances becomes a row |
| DistanceTableBuilder.TableRowsSound | data/receipt-generator.py:31-36 | every flattened row's kmApart equals `table[Address1][Address2]` |
| DistanceTableBuilder.TableRowsComplete | data/receipt-generator.py:31-36 | every entry of the table becomes a flattened row |
| DistanceTableBuilder.UniformRowCount | data/receipt-generator.py:31-36 | when every address has `m` distances, `n` addresses give `n * m` rows |
| DistanceTableBuilder.DenseRowCount | data/receipt-generator.py:31-36 | a dense table over `m` addresses flattens into exactly `m * m` rows |
| DistanceApi.DataRows | distance_api.py:17 | the rows after the header line; `DistanceRoundTrip.FileDataRows` shows that this undoes the header the writer adds |
| DistanceApi.Store | distance_api.py:22-24 | one row of the loading loop: the Address1 entry is created when missing, then its Address2 entry is set; `LoadedKeys` and `LoadedEntry` state the effect of a run of rows |
| DistanceApi.Load | distance_api.py:18-24 | the table after storing the rows in order; `LoadedKeys` gives its Address1 keys and `LoadedEntry` the value of each pair |
| DistanceApi.LastPairIndex | distance_api.py:18-24 | the position of the last data row for an (Address1, Address2) pair: it names that pair, and no later row does |
| DistanceApi.LoadedKeys | distance_api.py:17-23 | after loading, the Address1 keys are the old keys plus the Address1 of every data row |
| DistanceApi.LoadedEntry | distance_api.py:22-24 | a pair holds the distance of its last data row; a pair no row names keeps its old presence and value |
| DistanceApi.Lookup | distance_api.py:26-33 | first-address error iff Address1 is not a key; for a known Address1, second-address error iff Address2 is not a key or has no entry under Address1; otherwise the stored distance |
| DistanceApi.SecondAddressMustBeFirstColumnKey | distance_api.py:22-33 | after loading only (A, B, 5.0), looking up (A, B) and (A, C) fails with the second-address error and (B, A) with the first-address error; adding the reverse row makes (A, B) answer 5.0 |
| DistanceApi.DistanceAPI.constructor | distance_api.py:7-9 | the table is what loading the file's data rows into an empty table gives |
| DistanceApi.DistanceAPI.Initialize | distance_api.py:11-24 | the header line is skipped, and the data rows are stored in file order into the current table |
| DistanceApi.DistanceAPI.GetDistance | distance_api.py:26-33 | the result is the lookup on the current table, which it leaves unchanged |
| DistanceTableBuilder.DistanceFile | data/receipt-generator.py:271-280 | the header row, then each flattened row with its distance written as text; `DistanceRoundTrip.FileDataRows` and `DistanceRoundTrip.WrittenTableReloads` state what reading it back gives |
| DistanceRoundTrip.FileDataRows | data/receipt-generator.py:271-280 | reading the written file back skips the header and yields one data row per written row, with the distance as text |
| DistanceRoundTrip.ReloadedKeys | distance_api.py:17-23 | an address is an Address1 key of the reloaded table iff some written row starts with it |
| DistanceRoundTrip.ReloadedEntry | distance_api.py:22-24 | a pair written with a single distance reads back as that distance, given that parsing that distance's text gives it back |
| DistanceRoundTrip.DenseRowSound | data/receipt-generator.py:31-36 | every row of a dense table joins two indexed addresses with the distance between their coordinates |
| DistanceRoundTrip.DenseRowComplete | data/receipt-generator.py:31-36 | every two indexed addresses, in either order and with themselves, get a row |
| DistanceRoundTrip.WrittenTableReloads | distance_api.py:26-33 | the service loading a dense table's file answers every two indexed addresses with their distance, given that each written distance reads back as itself; an unindexed first address gives the first-address error, and an unindexed second address gives the second-address error |
| ReceiptClasses.AddressHead | receipt_classes.py:26 | `split(',')[0]`: a prefix of the address with no comma that stops at the first comma or at the end |
| ReceiptClasses.AddressHeadUnique | receipt_classes.py:26 | those three properties determine the prefix |
| ReceiptClasses.ProjectStr | receipt_classes.py:23-29 | the string form (and repr) of a project; `ProjectStrShowsStreet` and `ProjectStrWholeAddress` state what it shows |
| ReceiptClasses.ProjectStrShowsStreet | receipt_classes.py:23-26 | a project whose address is `street,rest` is shown as `name for client at street` |
| ReceiptClasses.ProjectStrWholeAddress | receipt_classes.py:23-26 | an address without a comma is shown whole |
| ReceiptClasses.VendorEquals | receipt_classes.py:46-48 | vendors are equal iff both names and both addresses are equal |
| ReceiptClasses.VendorStr | receipt_classes.py:40-44 | the string form (and repr) of a vendor; `VendorStrSeparatesAddresses` and `VendorStrCollision` state what it distinguishes and what it does not |
| ReceiptClasses.VendorHash | receipt_classes.py:53-54 | the hash of the string form under the given string hash; `EqualVendorsHashAlike` states that it agrees with equality |
| ReceiptClasses.EqualVendorsHashAlike | receipt_classes.py:53-54 | equal vendors have equal strings and therefore equal hashes, under any string hash |
| ReceiptClasses.VendorStrSeparatesAddresses | receipt_classes.py:40-41 | two vendors with the same name and the same string are equal |
| ReceiptClasses.VendorStrCollision | receipt_classes.py:53-54 | two different vendors can share a string, and so a hash under any string hash, when a name contains " at " |
| ReceiptClasses.Receipt.constructor | receipt_classes.py:58-65 | a new receipt stores its date, vendor and amount unchanged and has no project |
| ReceiptClasses.Receipt.SetProject | receipt_classes.py:67-68 | sets the project and changes no other field |

## Left out

- Google Maps calls (`geocode`, `places_nearby`) and the API-key file are an external service and I/O. Their results are parameters: `nearbyResults`, and `ProjectRecord.latLong`.
- CSV file handling is I/O and is not modelled. This covers `load_projects_from_csv`, the writers in `write_receipts` and `write_distance_lookup`, and the reader in `DistanceAPI.initialize`. Only the row sequences they produce or consume are modelled.
- `float(km_apart)` and the writer's number formatting are the parameters `parse` and `fmt`. The `ValueError` that `float` raises on malformed text is not modelled.
- `pythagorean_distance` is floating point. It becomes the abstract parameter `dist`. Symmetry and a zero diagonal are assumed where a lemma needs them.
- `pick_date_for_receipt` and `parse_date` are library date arithmetic under a gaussian draw. The receipt date is any date.
- `round(random.expovariate(7) * 4500.0, 2)` is a random floating-point draw. The amount is any non-negative real.
- The statistical shape of the random choices cannot be verified. Each `random.choice` is a nondeterministic pick.
- The `print` calls are output only.
- `main`'s sequencing of the steps is not modelled, and neither is the default `num_receipts=500`; both are plain wiring.
- `Vendor.__cmp__` is dead in Python 3 and calls a `str.__cmp__` that does not exist.
- `__repr__` of Project, Vendor and Receipt returns `__str__`. Each string form is one function here (`ProjectStr`, `VendorStr`).
- `Receipt.__str__` formats a float to two decimals and prints a `datetime`, which is floating-point and library formatting.
- receipt-generator.py at the repository root is an older copy of the generation loop without the address filter. main.py holds an unimplemented matching exercise and CSV loading.
- DistanceTableBuilder.ComputeAllDistances: the source stores each row dictionary in the result before filling it, so the two share one object. The model builds each row first and then stores it. The final value is the same; the aliasing is not modelled.
- DistanceTableBuilder.MapAllAddressesToLatLong: the project loop and each client's vendor loop are separate helper methods, `PutProjectLocations` and `PutVendorLocations`. The order of assignments is unchanged.
- ReceiptSynthesis.GenerateReceipts: the receipt date is unconstrained and the amount is only non-negative. The source draws both from distributions.
