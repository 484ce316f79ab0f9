/**
  The quota tables as an explicit state record, and the database operations the
  quota code calls on it. How the database derives project defaults, aggregates
  usage or decides that a reservation does not fit is not shown in the modelled
  code, so those answers are tables of the record rather than computations.
*/
module QuotaStore {

  import opened Wrappers
  import opened QuotaTypes
  import opened Images

  /** Capacity held for one image in one quota class of one scope. */
  datatype Reservation = Reservation(
    image: ImageId,
    scope: Scope,
    cls: QuotaClass,
    amount: int,
    committed: bool)

  datatype Store = Store(
    quotas: map<Scope, Limits>,           // explicit limits, one row per (scope, class)
    classes: Limits,                       // the quota class defaults
    defaults: map<Option<Scope>, Limits>,  // the answer of quotas_get_defaults per parent domain
    usage: map<Scope, Limits>,             // the answer of quota_get_usage per scope
    reservations: map<nat, Reservation>,   // reservations by id
    nextId: nat)                           // every id in use is below this one

  /** Reservation ids are allocated below `nextId`, so fresh ids never collide. */
  predicate Valid(st: Store) {
    forall id :: id in st.reservations ==> id < st.nextId
  }

  /** Reported usages are never negative. */
  predicate UsageNonNegative(st: Store) {
    forall s, c :: s in st.usage && c in st.usage[s] ==> st.usage[s][c] >= 0
  }

  /** Every explicit limit lies in the schema range, as the quota API only writes such values. */
  predicate QuotasInRange(st: Store) {
    forall s, c :: s in st.quotas && c in st.quotas[s] ==> ValidQuotaValue(st.quotas[s][c])
  }

  /** quotas_get: the explicit limits of a scope, empty when it has none. */
  function QuotasGet(st: Store, scope: Scope): Limits {
    if scope in st.quotas then st.quotas[scope] else map[]
  }

  /** quotas_set: upserts one row per class of `q`; rows of other classes and scopes stay. */
  function QuotasSet(st: Store, scope: Scope, q: Limits): (r: Store)
    ensures forall c :: c in q ==> c in QuotasGet(r, scope) && QuotasGet(r, scope)[c] == q[c]
    ensures forall c :: c !in q && c in QuotasGet(st, scope) ==>
              c in QuotasGet(r, scope) && QuotasGet(r, scope)[c] == QuotasGet(st, scope)[c]
    ensures QuotasGet(r, scope).Keys == QuotasGet(st, scope).Keys + q.Keys
    ensures forall s :: s != scope ==> QuotasGet(r, s) == QuotasGet(st, s)
    ensures r.reservations == st.reservations && r.nextId == st.nextId
    ensures r.usage == st.usage && r.defaults == st.defaults && r.classes == st.classes
  {
    st.(quotas := st.quotas[scope := QuotasGet(st, scope) + q])
  }

  /** quotas_reset: drops every explicit limit of a scope. */
  function QuotasReset(st: Store, scope: Scope): (r: Store)
    ensures QuotasGet(r, scope) == map[]
    ensures forall s :: s != scope ==> QuotasGet(r, s) == QuotasGet(st, s)
    ensures r.reservations == st.reservations && r.usage == st.usage
  {
    st.(quotas := st.quotas - {scope})
  }

  /** quotas_get_defaults: the limits a project of the given parent domain starts from. */
  function QuotasGetDefaults(st: Store, parent: Option<Scope>): Limits {
    if parent in st.defaults then st.defaults[parent] else map[]
  }

  /** quota_get_usage: the usage of a scope per class; a class without usage is absent. */
  function QuotaGetUsage(st: Store, scope: Scope): Limits {
    if scope in st.usage then st.usage[scope] else map[]
  }

  /** quota_classes_set: upserts the default value of every class in `q`. */
  function QuotaClassesSet(st: Store, q: Limits): (r: Store)
    ensures forall c :: c in q ==> c in r.classes && r.classes[c] == q[c]
    ensures forall c :: c in st.classes && c !in q ==> c in r.classes && r.classes[c] == st.classes[c]
    ensures r.quotas == st.quotas && r.reservations == st.reservations
  {
    st.(classes := st.classes + q)
  }

  /** quota_get_reservartions is non-empty: some reservation is held for the image. */
  predicate HasReservations(st: Store, image: ImageId) {
    exists id :: id in st.reservations && st.reservations[id].image == image
  }

  /** The position of a class in `quota_classes`, used to number new reservations. */
  function ClassIndex(c: QuotaClass): (i: nat)
    ensures i < |QuotaClasses| && QuotaClasses[i] == c
  {
    match c
    case TotalImagesNumber => 0
    case TotalImagesSize => 1
    case TotalSnapshotsNumber => 2
    case TotalSnapshotsSize => 3
  }

  /** The id the next batch of reservations gives to class `c`. */
  function FreshId(st: Store, c: QuotaClass): nat {
    st.nextId + ClassIndex(c)
  }

  /** The ids of the reservations a batch for `applied` creates. */
  function FreshIds(st: Store, applied: Limits): set<nat> {
    set c | c in applied :: FreshId(st, c)
  }

  /** The reservations a batch for `applied` adds, keyed by their fresh ids. */
  function FreshReservations(st: Store, image: ImageId, scope: Scope, applied: Limits): map<nat, Reservation> {
    map c | c in applied :: FreshId(st, c) := Reservation(image, scope, c, applied[c], false)
  }

  /**
    quota_create_reservations, once the database has accepted the request: one
    uncommitted reservation per applied class, under fresh ids; nothing else changes.
  */
  function CreateReservations(st: Store, image: ImageId, scope: Scope, applied: Limits): (r: Store)
    requires Valid(st)
    ensures Valid(r)
    ensures r.nextId > st.nextId
    ensures forall id :: id in st.reservations ==> id in r.reservations && r.reservations[id] == st.reservations[id]
    ensures forall c :: c in applied ==>
              FreshId(st, c) !in st.reservations &&
              FreshId(st, c) in r.reservations &&
              r.reservations[FreshId(st, c)] == Reservation(image, scope, c, applied[c], false)
    ensures r.reservations.Keys == st.reservations.Keys + FreshIds(st, applied)
    ensures r.quotas == st.quotas && r.usage == st.usage && r.defaults == st.defaults && r.classes == st.classes
  {
    var added := FreshReservations(st, image, scope, applied);
    assert added.Keys == FreshIds(st, applied);
    assert forall c :: c in applied ==> added[FreshId(st, c)] == Reservation(image, scope, c, applied[c], false) by {
      forall c | c in applied
        ensures added[FreshId(st, c)] == Reservation(image, scope, c, applied[c], false)
      {
        assert forall d :: FreshId(st, d) == FreshId(st, c) ==> d == c by {
          forall d | FreshId(st, d) == FreshId(st, c) ensures d == c {
            assert QuotaClasses[ClassIndex(d)] == d;
          }
        }
      }
    }
    st.(reservations := st.reservations + added, nextId := st.nextId + |QuotaClasses|)
  }

  /** quota_commit_reservations: the reservations with the given ids become committed usage. */
  function CommitReservations(st: Store, ids: set<nat>): (r: Store)
    ensures r.reservations.Keys == st.reservations.Keys
    ensures forall id :: id in st.reservations && id in ids ==>
              r.reservations[id] == st.reservations[id].(committed := true)
    ensures forall id :: id in st.reservations && id !in ids ==> r.reservations[id] == st.reservations[id]
    ensures r.quotas == st.quotas && r.nextId == st.nextId && r.usage == st.usage
  {
    var rs := map id | id in st.reservations ::
      if id in ids then st.reservations[id].(committed := true) else st.reservations[id];
    st.(reservations := rs)
  }

  /** quota_delete_reservations: the reservations with the given ids are dropped. */
  function DeleteReservations(st: Store, ids: set<nat>): (r: Store)
    ensures r.reservations.Keys == st.reservations.Keys - ids
    ensures forall id :: id in r.reservations ==> r.reservations[id] == st.reservations[id]
    ensures r.quotas == st.quotas && r.nextId == st.nextId && r.usage == st.usage
  {
    st.(reservations := st.reservations - ids)
  }

  /** quota_clear_reservations: every reservation of the image is dropped, committed or not. */
  function ClearReservations(st: Store, image: ImageId): (r: Store)
    ensures !HasReservations(r, image)
    ensures forall id :: id in st.reservations && st.reservations[id].image != image ==>
              id in r.reservations && r.reservations[id] == st.reservations[id]
    ensures forall id :: id in r.reservations ==> id in st.reservations
    ensures r.quotas == st.quotas && r.nextId == st.nextId && r.usage == st.usage
  {
    var rs := map id | id in st.reservations && st.reservations[id].image != image :: st.reservations[id];
    st.(reservations := rs)
  }
}
