/** The rows of `distances.csv`: a header row, then one (Address1, Address2, kmApart) row each. */
module DistanceCsv {

  datatype CsvRow = CsvRow(address1: string, address2: string, kmApart: string)

  const Header: CsvRow := CsvRow("Address1", "Address2", "kmApart")
}
