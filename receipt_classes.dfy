/**
 * The typed records of the matching exercise: projects and vendors are values compared by
 * their fields; a receipt is an object whose project is unset until it is attributed.
 */
module ReceiptClasses {
  import opened Wrappers
  import opened Calendar

  datatype Project = Project(
    client: string, projectName: string, address: string,
    contractDate: Date, workStartDate: Date, workCompletionDate: Date)

  /** `address.split(',')[0]`: the address up to its first comma, or all of it when it has none. */
  function AddressHead(address: string): (head: string)
    ensures head <= address
    ensures ',' !in head
    ensures |head| == |address| || address[|head|] == ','
  {
    if address == [] || address[0] == ',' then []
    else [address[0]] + AddressHead(address[1..])
  }

  /** The three properties of `AddressHead` determine it. */
  lemma AddressHeadUnique(address: string, head: string)
    requires head <= address && ',' !in head
    requires |head| == |address| || address[|head|] == ','
    ensures head == AddressHead(address)
  {
  }

  /** `Project.__str__` (and `__repr__`). */
  function ProjectStr(p: Project): string {
    p.projectName + " for " + p.client + " at " + AddressHead(p.address)
  }

  /** A project is shown by its street line: the address up to the first comma. */
  lemma ProjectStrShowsStreet(p: Project, street: string, rest: string)
    requires ',' !in street
    requires p.address == street + "," + rest
    ensures ProjectStr(p) == p.projectName + " for " + p.client + " at " + street
  {
    assert p.address[|street|] == ',';
    AddressHeadUnique(p.address, street);
  }

  /** An address without a comma is shown whole. */
  lemma ProjectStrWholeAddress(p: Project)
    requires ',' !in p.address
    ensures ProjectStr(p) == p.projectName + " for " + p.client + " at " + p.address
  {
    AddressHeadUnique(p.address, p.address);
  }

  datatype Vendor = Vendor(name: string, address: string)

  /** `Vendor.__eq__`: same name and same address. */
  function VendorEquals(v: Vendor, other: Vendor): (eq: bool)
    ensures eq <==> v == other
  {
    v.name == other.name && v.address == other.address
  }

  /** `Vendor.__str__` (and `__repr__`). */
  function VendorStr(v: Vendor): string {
    v.name + " at " + v.address
  }

  /** `Vendor.__hash__`: the hash of the string form, under the interpreter's string hash. */
  function VendorHash(v: Vendor, strHash: string -> int): int {
    strHash(VendorStr(v))
  }

  /** Equal vendors have equal strings, hence equal hashes, as a hashed set or dict needs. */
  lemma EqualVendorsHashAlike(v: Vendor, w: Vendor, strHash: string -> int)
    requires VendorEquals(v, w)
    ensures VendorStr(v) == VendorStr(w)
    ensures VendorHash(v, strHash) == VendorHash(w, strHash)
  {
  }

  /** For one vendor name, the string form tells addresses apart. */
  lemma VendorStrSeparatesAddresses(v: Vendor, w: Vendor)
    requires v.name == w.name
    requires VendorStr(v) == VendorStr(w)
    ensures VendorEquals(v, w)
  {
    var prefix := v.name + " at ";
    assert VendorStr(v) == prefix + v.address && VendorStr(w) == prefix + w.address;
    assert v.address == VendorStr(v)[|prefix|..];
    assert w.address == VendorStr(w)[|prefix|..];
  }

  /** Different vendors can share a string form, and so a hash, when a name contains " at ". */
  lemma VendorStrCollision(strHash: string -> int)
    ensures !VendorEquals(Vendor("A at B", "C"), Vendor("A", "B at C"))
    ensures VendorStr(Vendor("A at B", "C")) == VendorStr(Vendor("A", "B at C"))
    ensures VendorHash(Vendor("A at B", "C"), strHash) == VendorHash(Vendor("A", "B at C"), strHash)
  {
  }

  class Receipt {
    var when: Date
    var vendor: Vendor
    var amount: real
    var project: Option<Project>

    /** `Receipt.__init__`: the given date, vendor and amount, and no project yet. */
    constructor (when: Date, vendor: Vendor, amount: real)
      ensures this.when == when && this.vendor == vendor && this.amount == amount
      ensures project == None
    {
      this.when := when;
      this.vendor := vendor;
      this.amount := amount;
      this.project := None;
    }

    /** `set_project`: records the project; date, vendor and amount stay as they were. */
    method SetProject(project: Option<Project>)
      modifies this`project
      ensures this.project == project
      ensures unchanged(this`when, this`vendor, this`amount)
    {
      this.project := project;
    }
  }
}
