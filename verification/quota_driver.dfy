/**
  The quota driver of glance/common/quota.py: it normalises an image into quota
  metadata, decides whether an image operation reserves capacity, releases it or
  does nothing, and brackets the protected operation with enter/exit semantics.
  The bracket is a transformer of the quota store; the protected operation is
  represented by its outcome only.
*/
module QuotaDriver {

  import opened Wrappers
  import opened QuotaTypes
  import opened Images
  import opened Failures
  import opened QuotaStore
  import opened Identity

  /** The fixed record convert_proxy_to_metadata builds. */
  datatype Metadata = Metadata(
    size: int,
    isPublic: bool,
    owner: Option<string>,
    imageType: Option<string>,
    status: Status,
    location: Location)

  /** The `image_type` property as the metadata carries it: absent when there are no properties. */
  function ImageTypeOf(props: map<string, string>): (r: Option<string>)
    ensures r.Some? <==> props != map[] && "image_type" in props
    ensures r.Some? ==> r.value == props["image_type"]
  {
    if props != map[] && "image_type" in props then Some(props["image_type"]) else None
  }

  /** convert_proxy_to_metadata. */
  function ConvertProxyToMetadata(img: Image): (m: Metadata)
    ensures img.size.None? ==> m.size == 0
    ensures img.size.Some? ==> m.size == img.size.value
    ensures m.isPublic <==> img.visibility == Some(Public)
    ensures img.visibility.None? ==> !m.isPublic
    ensures |img.locations| == 0 ==> m.location == Location(None)
    ensures |img.locations| > 0 ==> m.location == img.locations[0]
    ensures m.owner == img.owner && m.status == img.status
    ensures m.imageType.Some? <==> "image_type" in img.extraProperties
    ensures m.imageType.Some? ==> m.imageType.value == img.extraProperties["image_type"]
  {
    Metadata(
      img.size.GetOr(0),
      img.visibility.Some? && img.visibility.value == Public,
      img.owner,
      ImageTypeOf(img.extraProperties),
      img.status,
      if |img.locations| > 0 then img.locations[0] else Location(None))
  }

  /** True when `s` begins with `p`. */
  predicate StartsWith(s: string, p: string) {
    |p| <= |s| && s[..|p|] == p
  }

  /**
    The size classes are charged only for bytes this service stores itself: the
    size is non-zero and the location url is non-empty and not an http reference.
  */
  predicate SizeCharged(size: int, url: Option<string>) {
    size != 0 && Truthy(url) && !StartsWith(url.value, "http")
  }

  /** True when the image is a snapshot. */
  predicate IsSnapshot(imageType: Option<string>) {
    imageType == Some("snapshot")
  }

  /** The quantities QuotaReservationManager.__init__ charges, per class. */
  function AppliedQuotas(size: int, url: Option<string>, imageType: Option<string>): (q: Limits)
    ensures TotalImagesNumber in q && q[TotalImagesNumber] == 1
    ensures TotalImagesSize in q <==> SizeCharged(size, url)
    ensures TotalSnapshotsNumber in q <==> IsSnapshot(imageType)
    ensures TotalSnapshotsSize in q <==> IsSnapshot(imageType) && SizeCharged(size, url)
    ensures forall c :: c in q && (c == TotalImagesSize || c == TotalSnapshotsSize) ==> q[c] == size
    ensures forall c :: c in q && (c == TotalImagesNumber || c == TotalSnapshotsNumber) ==> q[c] == 1
  {
    var base := map[TotalImagesNumber := 1];
    var withSize := if SizeCharged(size, url) then base[TotalImagesSize := size] else base;
    if IsSnapshot(imageType) then
      var snap := withSize[TotalSnapshotsNumber := 1];
      if SizeCharged(size, url) then snap[TotalSnapshotsSize := size] else snap
    else withSize
  }

  /** The image counterpart of a class: snapshots are charged on top of images. */
  function ImageCounterpart(c: QuotaClass): QuotaClass {
    match c
    case TotalSnapshotsNumber => TotalImagesNumber
    case TotalSnapshotsSize => TotalImagesSize
    case _ => c
  }

  /** A snapshot amount never exceeds the image amount charged with it, and no size is charged for a zero size. */
  lemma SnapshotChargeWithinImageCharge(size: int, url: Option<string>, imageType: Option<string>, c: QuotaClass)
    requires c in AppliedQuotas(size, url, imageType)
    ensures ImageCounterpart(c) in AppliedQuotas(size, url, imageType)
    ensures AppliedQuotas(size, url, imageType)[c] == AppliedQuotas(size, url, imageType)[ImageCounterpart(c)]
    ensures AppliedQuotas(size, url, imageType)[c] != 0
  {
  }

  /** The context manager a quota decision yields. */
  datatype Manager =
    | Noop                                                // noop()
    | ReleaseManager(image: ImageId)                      // release_manager(context, image_id)
    | Reserve(image: ImageId, scope: Scope, applied: Limits)  // QuotaReservationManager

  /** QuotaReservationManager.__init__: the owner is the scope charged. */
  function NewReservationManager(image: ImageId, meta: Metadata, owner: Scope): (m: Manager)
    ensures m.Reserve? && m.image == image && m.scope == owner
    ensures m.applied == AppliedQuotas(meta.size, meta.location.url, meta.imageType)
  {
    Reserve(image, owner, AppliedQuotas(meta.size, meta.location.url, meta.imageType))
  }

  /** QuotaDriver.update: watches the transitions of an active image between private and public. */
  function Update(st: Store, image: ImageId, meta: Metadata): (m: Manager)
    ensures m.Reserve? <==>
      meta.status == Active && !meta.isPublic && Truthy(meta.owner) && !HasReservations(st, image)
    ensures m.ReleaseManager? <==>
      meta.status == Active && meta.isPublic && Truthy(meta.owner) && HasReservations(st, image)
    ensures m.Reserve? ==> m == NewReservationManager(image, meta, meta.owner.value)
    ensures m.ReleaseManager? ==> m.image == image
  {
    var active := meta.status == Active;
    var has := HasReservations(st, image);
    if active && !meta.isPublic && Truthy(meta.owner) && !has then
      NewReservationManager(image, meta, meta.owner.value)
    else if active && meta.isPublic && Truthy(meta.owner) && has then
      ReleaseManager(image)
    else
      Noop
  }

  /** The owner QuotaDriver.activate charges: the image owner, else the request's tenant. */
  function ActivationOwner(meta: Metadata, tenant: Option<string>): Option<string> {
    if Truthy(meta.owner) then meta.owner else tenant
  }

  /** QuotaDriver.activate: reserves for a non-public image with an owner and no reservation yet. */
  function Activate(st: Store, tenant: Option<string>, image: ImageId, meta: Metadata): (m: Manager)
    ensures m.Reserve? <==>
      !meta.isPublic && Truthy(ActivationOwner(meta, tenant)) && !HasReservations(st, image)
    ensures !m.ReleaseManager?
    ensures m.Reserve? ==> m == NewReservationManager(image, meta, ActivationOwner(meta, tenant).value)
  {
    var owner := ActivationOwner(meta, tenant);
    if !meta.isPublic && Truthy(owner) && !HasReservations(st, image) then
      NewReservationManager(image, meta, owner.value)
    else
      Noop
  }

  /** QuotaDriver.release: the manager used when an image is deleted. */
  function Release(image: ImageId): (m: Manager)
    ensures m.ReleaseManager? && m.image == image
  {
    ReleaseManager(image)
  }

  /** The reserve and the release case of `Update` never both apply. */
  lemma UpdateCasesExclusive(st: Store, image: ImageId, meta: Metadata)
    ensures !(meta.status == Active && !meta.isPublic && Truthy(meta.owner) && !HasReservations(st, image) &&
              meta.status == Active && meta.isPublic && Truthy(meta.owner) && HasReservations(st, image))
    ensures Update(st, image, meta).Noop? <==>
      meta.status != Active || !Truthy(meta.owner) || meta.isPublic != HasReservations(st, image)
  {
  }

  // ---------------------------------------------------------------------------
  // The bracket: __enter__ and __exit__
  // ---------------------------------------------------------------------------

  /** What __enter__ leaves: the store and the ids of the reservations it created, or the error it raised. */
  datatype Entered =
    | Entered(store: Store, handle: set<nat>)
    | EnterFailed(store: Store, error: Failure)

  /** The limits QuotaReservationManager.__enter__ works with: explicit ones, else the parent domain's defaults. */
  function EnterLimits(st: Store, ks: Keystone, scope: Scope): Limits {
    if QuotasGet(st, scope) != map[] then QuotasGet(st, scope)
    else QuotasGetDefaults(st, ParentDomain(ks, scope))
  }

  /**
    __enter__: materialises the scope's limits from the parent domain's defaults when
    the scope has none, then creates the reservations unless the database refuses
    them (`accepted` false), which raises ProjectQuotaFull. `ks` holds Keystone's
    answers. Noop and release managers do nothing on entry.
  */
  function Enter(st: Store, ks: Keystone, m: Manager, accepted: bool): (e: Entered)
    requires Valid(st)
    ensures Valid(e.store)
    ensures !m.Reserve? ==> e == Entered(st, {})
    ensures m.Reserve? ==> QuotasGet(e.store, m.scope) == EnterLimits(st, ks, m.scope)
    ensures m.Reserve? ==> forall s :: s != m.scope ==> QuotasGet(e.store, s) == QuotasGet(st, s)
    ensures m.Reserve? && !accepted ==> e.EnterFailed? && e.error == ProjectQuotaFull
    ensures e.EnterFailed? ==> e.store.reservations == st.reservations && e.store.nextId == st.nextId
    ensures m.Reserve? && accepted ==> e.Entered? && e.handle == FreshIds(st, m.applied)
    ensures e.Entered? ==> forall id :: id in e.handle ==> id !in st.reservations
    ensures e.Entered? && m.Reserve? ==> forall c :: c in m.applied ==>
              FreshId(st, c) in e.store.reservations &&
              e.store.reservations[FreshId(st, c)] == Reservation(m.image, m.scope, c, m.applied[c], false)
    ensures e.Entered? ==> e.store.reservations.Keys == st.reservations.Keys + e.handle
    ensures e.Entered? ==> forall id :: id in st.reservations ==> e.store.reservations[id] == st.reservations[id]
  {
    match m
    case Reserve(image, scope, applied) => EnterReservation(st, ks, image, scope, applied, accepted)
    case _ => Entered(st, {})
  }

  /** __enter__ of QuotaReservationManager. */
  function EnterReservation(st: Store, ks: Keystone, image: ImageId, scope: Scope,
                            applied: Limits, accepted: bool): (e: Entered)
    requires Valid(st)
    ensures Valid(e.store)
    ensures QuotasGet(e.store, scope) == EnterLimits(st, ks, scope)
    ensures forall s :: s != scope ==> QuotasGet(e.store, s) == QuotasGet(st, s)
    ensures !accepted ==> e == EnterFailed(e.store, ProjectQuotaFull)
    ensures !accepted ==> e.store.reservations == st.reservations && e.store.nextId == st.nextId
    ensures accepted ==> e.Entered? && e.handle == FreshIds(st, applied)
    ensures e.Entered? ==> forall id :: id in e.handle ==> id !in st.reservations
    ensures e.Entered? ==> forall c :: c in applied ==>
              FreshId(st, c) in e.store.reservations &&
              e.store.reservations[FreshId(st, c)] == Reservation(image, scope, c, applied[c], false)
    ensures e.Entered? ==> e.store.reservations.Keys == st.reservations.Keys + e.handle
    ensures e.Entered? ==> forall id :: id in st.reservations ==> e.store.reservations[id] == st.reservations[id]
  {
    var materialised := MaterialiseLimits(st, ks, scope);
    if !accepted then EnterFailed(materialised, ProjectQuotaFull)
    else
      var created := CreateReservations(materialised, image, scope, applied);
      CreatedOverMaterialised(st, materialised, image, scope, applied);
      Entered(created, FreshIds(st, applied))
  }

  /**
    Creating reservations after the limits were materialised adds the same
    fresh ids to the same reservations as it would have on the original store.
  */
  lemma CreatedOverMaterialised(st: Store, m: Store, image: ImageId, scope: Scope, applied: Limits)
    requires Valid(st) && m.reservations == st.reservations && m.nextId == st.nextId
    ensures Valid(m)
    ensures var r := CreateReservations(m, image, scope, applied);
      && Valid(r)
      && (forall id :: id in FreshIds(st, applied) ==> id !in st.reservations)
      && (forall c :: c in applied ==>
            FreshId(st, c) in r.reservations &&
            r.reservations[FreshId(st, c)] == Reservation(image, scope, c, applied[c], false))
      && r.reservations.Keys == st.reservations.Keys + FreshIds(st, applied)
      && (forall id :: id in st.reservations ==> r.reservations[id] == st.reservations[id])
  {
    assert FreshIds(m, applied) == FreshIds(st, applied);
    assert forall c :: FreshId(m, c) == FreshId(st, c);
  }

  /** The first half of __enter__: a scope without explicit limits gets its defaults written. */
  function MaterialiseLimits(st: Store, ks: Keystone, scope: Scope): (r: Store)
    ensures QuotasGet(r, scope) == EnterLimits(st, ks, scope)
    ensures forall s :: s != scope ==> QuotasGet(r, s) == QuotasGet(st, s)
    ensures r.reservations == st.reservations && r.nextId == st.nextId
  {
    if QuotasGet(st, scope) != map[] then st
    else
      var r := QuotasSet(st, scope, EnterLimits(st, ks, scope));
      assert QuotasGet(r, scope) == EnterLimits(st, ks, scope);
      r
  }

  /**
    __exit__ for each manager. `raised` is the error the protected operation raised,
    if any; `commitError` is the error quota_commit_reservations raises, if any.
    Returns the store and the error that leaves the bracket.
  */
  function Exit(st: Store, m: Manager, handle: set<nat>, raised: Option<Failure>, commitError: Option<Failure>)
    : (r: (Store, Option<Failure>))
    requires Valid(st)
    ensures Valid(r.0)
    ensures raised.Some? ==> r.1 == raised
    ensures m.Reserve? && raised.None? ==> r.1 == commitError
    ensures !m.Reserve? && raised.None? ==> r.1.None?
    ensures m.Reserve? && r.1.Some? ==> r.0 == DeleteReservations(st, handle)
    ensures m.Reserve? && r.1.None? ==> r.0 == CommitReservations(st, handle)
    ensures m.ReleaseManager? && raised.None? ==> r.0 == ClearReservations(st, m.image)
    ensures m.ReleaseManager? && raised.Some? ==> r.0 == st
    ensures m.Noop? ==> r.0 == st
  {
    match m
    case Reserve(_, _, _) =>
      if raised.Some? then (DeleteReservations(st, handle), raised)
      else if commitError.None? then (CommitReservations(st, handle), None)
      else (DeleteReservations(st, handle), commitError)
    case ReleaseManager(image) =>
      if raised.Some? then (st, raised) else (ClearReservations(st, image), None)
    case Noop => (st, raised)
  }

  /** The store after a `with manager:` block, and the error that leaves it. */
  datatype Bracketed = Bracketed(store: Store, error: Option<Failure>)

  /** A whole `with` block: enter, the protected operation (by its outcome), exit. */
  function Bracket(st: Store, ks: Keystone, m: Manager, accepted: bool,
                   raised: Option<Failure>, commitError: Option<Failure>): (b: Bracketed)
    requires Valid(st)
    ensures Valid(b.store)
  {
    match Enter(st, ks, m, accepted)
    case EnterFailed(s, e) => Bracketed(s, Some(e))
    case Entered(s, handle) =>
      var (s', err) := Exit(s, m, handle, raised, commitError);
      Bracketed(s', err)
  }

  /**
    No reservation survives an error: whenever a reservation bracket ends in an
    error (refused creation, failed operation or failed commit), the reservations
    are exactly those before it.
  */
  lemma {:induction false} NoReservationSurvivesError(st: Store, ks: Keystone, image: ImageId,
                                                      scope: Scope, applied: Limits, accepted: bool,
                                                      raised: Option<Failure>, commitError: Option<Failure>)
    requires Valid(st)
    requires Bracket(st, ks, Reserve(image, scope, applied), accepted, raised, commitError).error.Some?
    ensures Bracket(st, ks, Reserve(image, scope, applied), accepted, raised, commitError).store.reservations
            == st.reservations
  {
    var m := Reserve(image, scope, applied);
    var e := Enter(st, ks, m, accepted);
    if e.Entered? {
      assert Bracket(st, ks, m, accepted, raised, commitError).store == DeleteReservations(e.store, e.handle);
      DeletingHandleRestores(st, e.store, e.handle);
    } else {
      assert Bracket(st, ks, m, accepted, raised, commitError).store == e.store;
    }
  }

  /** Deleting the reservations a batch added gives back the reservations held before it. */
  lemma DeletingHandleRestores(before: Store, during: Store, handle: set<nat>)
    requires during.reservations.Keys == before.reservations.Keys + handle
    requires forall id :: id in handle ==> id !in before.reservations
    requires forall id :: id in before.reservations ==> during.reservations[id] == before.reservations[id]
    ensures DeleteReservations(during, handle).reservations == before.reservations
  {
    var after := DeleteReservations(during, handle);
    assert after.reservations.Keys == before.reservations.Keys;
  }

  /**
    The same for any manager `activate` can yield: a bracket it opens that ends in an
    error leaves the reservations as they were.
  */
  lemma ActivationErrorKeepsReservations(st: Store, ks: Keystone, m: Manager, accepted: bool,
                                         raised: Option<Failure>, commitError: Option<Failure>)
    requires Valid(st) && !m.ReleaseManager?
    requires Bracket(st, ks, m, accepted, raised, commitError).error.Some?
    ensures Bracket(st, ks, m, accepted, raised, commitError).store.reservations == st.reservations
  {
    if m.Reserve? {
      NoReservationSurvivesError(st, ks, m.image, m.scope, m.applied, accepted, raised, commitError);
    }
  }

  /** The error leaving a reservation bracket is the one raised inside it, else the commit's. */
  lemma ErrorPropagates(st: Store, ks: Keystone, image: ImageId, scope: Scope, applied: Limits,
                        raised: Option<Failure>, commitError: Option<Failure>)
    requires Valid(st)
    ensures raised.Some? ==>
      Bracket(st, ks, Reserve(image, scope, applied), true, raised, commitError).error == raised
    ensures raised.None? ==>
      Bracket(st, ks, Reserve(image, scope, applied), true, raised, commitError).error == commitError
    ensures Bracket(st, ks, Reserve(image, scope, applied), false, raised, commitError).error
            == Some(ProjectQuotaFull)
  {
  }

  /**
    A bracket that completes commits exactly the applied quantities: every
    reservation held before is kept, and one committed reservation per applied
    class is added for the image and scope; the image then holds reservations.
  */
  lemma {:induction false} CompletedBracketCommits(st: Store, ks: Keystone, image: ImageId,
                                                   scope: Scope, applied: Limits, accepted: bool,
                                                   raised: Option<Failure>, commitError: Option<Failure>)
    requires Valid(st)
    requires Bracket(st, ks, Reserve(image, scope, applied), accepted, raised, commitError).error.None?
    ensures var after := Bracket(st, ks, Reserve(image, scope, applied), accepted, raised, commitError).store;
      && after.reservations.Keys == st.reservations.Keys + FreshIds(st, applied)
      && (forall id :: id in st.reservations ==> after.reservations[id] == st.reservations[id])
      && (forall c :: c in applied ==>
            after.reservations[FreshId(st, c)] == Reservation(image, scope, c, applied[c], true))
      && (applied != map[] ==> HasReservations(after, image))
  {
    var m := Reserve(image, scope, applied);
    var e := Enter(st, ks, m, accepted);
    assert e.Entered? && e.handle == FreshIds(st, applied);
    assert Bracket(st, ks, m, accepted, raised, commitError).store == CommitReservations(e.store, e.handle);
    CommittingBatch(st, e.store, image, scope, applied);
  }

  /** Committing a batch marks exactly its reservations committed and keeps the rest. */
  lemma CommittingBatch(before: Store, during: Store, image: ImageId, scope: Scope, applied: Limits)
    requires during.reservations.Keys == before.reservations.Keys + FreshIds(before, applied)
    requires forall id :: id in FreshIds(before, applied) ==> id !in before.reservations
    requires forall id :: id in before.reservations ==> during.reservations[id] == before.reservations[id]
    requires forall c :: c in applied ==>
               FreshId(before, c) in during.reservations &&
               during.reservations[FreshId(before, c)] == Reservation(image, scope, c, applied[c], false)
    ensures var after := CommitReservations(during, FreshIds(before, applied));
      && after.reservations.Keys == before.reservations.Keys + FreshIds(before, applied)
      && (forall id :: id in before.reservations ==> after.reservations[id] == before.reservations[id])
      && (forall c :: c in applied ==>
            after.reservations[FreshId(before, c)] == Reservation(image, scope, c, applied[c], true))
      && (applied != map[] ==> HasReservations(after, image))
  {
    var after := CommitReservations(during, FreshIds(before, applied));
    if applied != map[] {
      var c :| c in applied;
      assert FreshId(before, c) in FreshIds(before, applied);
      assert after.reservations[FreshId(before, c)].image == image;
    }
  }

  /**
    After entering, the charged scope has explicit limits: its own if it had any,
    else the parent domain's defaults, written to the store; whatever the outcome.
  */
  lemma EnterMaterialisesLimits(st: Store, ks: Keystone, image: ImageId, scope: Scope,
                                applied: Limits, accepted: bool, raised: Option<Failure>, commitError: Option<Failure>)
    requires Valid(st)
    ensures var after := Bracket(st, ks, Reserve(image, scope, applied), accepted, raised, commitError).store;
      && (QuotasGet(st, scope) != map[] ==> QuotasGet(after, scope) == QuotasGet(st, scope))
      && (QuotasGet(st, scope) == map[] ==>
            QuotasGet(after, scope) ==
            QuotasGetDefaults(st, ParentDomain(ks, scope)))
  {
  }

  /** release_manager clears the image's reservations only when the block completes normally. */
  lemma ReleaseOnlyOnSuccess(st: Store, ks: Keystone, image: ImageId, accepted: bool,
                             raised: Option<Failure>, commitError: Option<Failure>)
    requires Valid(st)
    ensures raised.None? ==>
      !HasReservations(Bracket(st, ks, Release(image), accepted, raised, commitError).store, image)
    ensures raised.Some? ==>
      Bracket(st, ks, Release(image), accepted, raised, commitError) == Bracketed(st, raised)
  {
  }

  /**
    Activation never charges twice: once an activation bracket has completed, a
    second activation of the same image decides to do nothing.
  */
  lemma {:induction false} ActivateIsNotRepeated(st: Store, ks: Keystone, tenant: Option<string>,
                                                 image: ImageId, meta: Metadata, accepted: bool,
                                                 commitError: Option<Failure>)
    requires Valid(st)
    requires Bracket(st, ks, Activate(st, tenant, image, meta), accepted, None, commitError).error.None?
    ensures Activate(Bracket(st, ks, Activate(st, tenant, image, meta), accepted, None, commitError).store,
                     tenant, image, meta).Noop?
  {
    var m := Activate(st, tenant, image, meta);
    var after := Bracket(st, ks, m, accepted, None, commitError).store;
    if m.Reserve? {
      CompletedBracketCommits(st, ks, image, m.scope, m.applied, accepted, None, commitError);
      assert TotalImagesNumber in m.applied;
      assert HasReservations(after, image);
    }
  }

  /**
    Publishing then un-publishing an active image re-charges it: the release
    decided by `Update` for the public image leaves no reservation, so `Update`
    for the same image made private again decides to reserve.
  */
  lemma {:induction false} PublishReleasesThenPrivateReserves(st: Store, ks: Keystone,
                                                              image: ImageId, meta: Metadata)
    requires Valid(st)
    requires meta.status == Active && meta.isPublic && Truthy(meta.owner) && HasReservations(st, image)
    ensures Update(st, image, meta).ReleaseManager?
    ensures var after := Bracket(st, ks, Update(st, image, meta), true, None, None).store;
      Update(after, image, meta.(isPublic := false)).Reserve?
  {
    var after := Bracket(st, ks, Update(st, image, meta), true, None, None).store;
    assert after == ClearReservations(st, image);
  }
}
