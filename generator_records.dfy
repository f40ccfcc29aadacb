/**
 * The string-keyed records of the receipt generator, as typed values: a coordinate, a
 * nearby place returned by the mapping service, a project row, and a generated receipt.
 */
module GeneratorRecords {
  import opened Calendar

  /** A `{"lat": ..., "lng": ...}` location. */
  datatype LatLng = LatLng(lat: real, lng: real)

  /** One result of a nearby-places search: its "name", "vicinity" and "geometry"/"location". */
  datatype Place = Place(name: string, vicinity: string, location: LatLng)

  /**
   * A row of the projects table with the fields the generator reads: "Client", "Address",
   * and the "lat_long" that geocoding the address attached to it.
   */
  datatype ProjectRecord = ProjectRecord(client: string, address: string, latLong: LatLng)

  /** The dictionary built for each receipt: Date, Supplier, Supplier Address, Amount, Client. */
  datatype GeneratedReceipt = GeneratedReceipt(
    date: Date, supplier: string, supplierAddress: string, amount: real, client: string)
}
