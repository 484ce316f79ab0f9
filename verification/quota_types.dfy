/** The four fixed image quota classes and the value range a quota may take. */
module QuotaTypes {

  import opened Wrappers

  /** One countable or measurable resource dimension tracked per scope. */
  datatype QuotaClass =
    | TotalImagesNumber
    | TotalImagesSize
    | TotalSnapshotsNumber
    | TotalSnapshotsSize

  /** A quota value per class; a class missing from the map has no row. */
  type Limits = map<QuotaClass, int>

  /** A scope is a project or domain identifier, as Keystone reports it. */
  type Scope = string

  /** The value that means "not restricted". */
  const Unlimited: int := -1

  /** `sys.maxsize` on a 64-bit interpreter: the largest value the schema admits. */
  const MaxQuotaValue: int := 0x7FFF_FFFF_FFFF_FFFF

  /** Every quota class, in the order of the `quota_classes` list. */
  const QuotaClasses: seq<QuotaClass> :=
    [TotalImagesNumber, TotalImagesSize, TotalSnapshotsNumber, TotalSnapshotsSize]

  /** The wire name of a quota class. */
  function ClassName(c: QuotaClass): string {
    match c
    case TotalImagesNumber => "total_images_number"
    case TotalImagesSize => "total_images_size"
    case TotalSnapshotsNumber => "total_snapshots_number"
    case TotalSnapshotsSize => "total_snapshots_size"
  }

  /** The set of all wire names. */
  function ClassNames(): set<string> {
    set c: QuotaClass | c in QuotaClasses :: ClassName(c)
  }

  /** Every class occurs in the `quota_classes` list, and names tell classes apart. */
  lemma ClassNamesDistinct(c: QuotaClass, d: QuotaClass)
    ensures c in QuotaClasses
    ensures ClassName(c) == ClassName(d) <==> c == d
  {
  }

  /** The schema range of a quota value: an integer in [-1, sys.maxsize]. */
  predicate ValidQuotaValue(v: int) {
    Unlimited <= v <= MaxQuotaValue
  }

  /** True when the map has a row for every quota class. */
  predicate Complete(m: Limits) {
    forall c: QuotaClass :: c in m
  }

  /** A map with the same value for every class. */
  function Uniform(v: int): (m: Limits)
    ensures Complete(m)
    ensures forall c :: m[c] == v
  {
    AllClassesListed();
    map c: QuotaClass | c in QuotaClasses :: v
  }

  /** The `quota_classes` list names every class. */
  lemma AllClassesListed()
    ensures forall c: QuotaClass :: c in QuotaClasses
  {
    forall c: QuotaClass
      ensures c in QuotaClasses
    {
      ClassNamesDistinct(c, c);
    }
  }
}
