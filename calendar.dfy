/** Calendar dates (Python `datetime` values). The model never does arithmetic on them. */
module Calendar {

  datatype Date = Date(year: int, month: int, day: int)
}
