/**
  ImageDataController of glance/api/v2/image_data.py: the upload state machine
  with its quota bracket and best-effort compensation, and the download check.
  The external calls an upload makes (repository reads and saves, the byte
  write, the reservation request, the commit) are given by an `UploadScript`
  of their outcomes; the state they act on is threaded as a `System` record.
*/
module ImageData {

  import opened Wrappers
  import opened QuotaTypes
  import opened Images
  import opened Failures
  import opened QuotaStore
  import opened Identity
  import opened QuotaDriver

  /** The state an upload acts on. */
  datatype System = System(
    images: map<ImageId, Image>,  // what the image repository has saved
    backend: set<ImageId>,        // images whose bytes the backing store holds
    staging: set<ImageId>,        // images whose bytes the staging store holds
    quota: Store)                 // the quota tables

  /** Every saved image is stored under its own id. */
  predicate WellKeyed(images: map<ImageId, Image>) {
    forall k :: k in images ==> images[k].id == k
  }

  /**
    image_repo.save(image, from_state): `fault` is an error the save raises
    regardless of state; otherwise it fails with ImageNotFound for an unknown
    image and with Conflict when the saved status is not `fromState`.
  */
  function Save(sys: System, img: Image, fromState: Option<Status>, fault: Option<Failure>): (r: Result<System, Failure>)
    ensures r.Ok? <==> fault.None? && img.id in sys.images &&
                       (fromState.None? || sys.images[img.id].status == fromState.value)
    ensures r.Ok? ==> r.value == sys.(images := sys.images[img.id := img])
    ensures fault.Some? ==> r == Err(fault.value)
    ensures fault.None? && img.id !in sys.images ==> r == Err(ImageNotFound)
    ensures r.Err? && fault.None? && img.id in sys.images ==> r.error == Conflict
  {
    if fault.Some? then Err(fault.value)
    else if img.id !in sys.images then Err(ImageNotFound)
    else if fromState.Some? && sys.images[img.id].status != fromState.value then Err(Conflict)
    else Ok(sys.(images := sys.images[img.id := img]))
  }

  /** Saves `img` with a new status, logging and swallowing any failure of the save. */
  function SaveWithStatus(sys: System, img: Option<Image>, status: Status, fault: Option<Failure>): (r: System)
    ensures img.Some? && fault.None? && img.value.id in sys.images ==>
              r == sys.(images := sys.images[img.value.id := img.value.(status := status)])
    ensures img.None? || fault.Some? || img.value.id !in sys.images ==> r == sys
  {
    if img.None? then sys
    else
      match Save(sys, img.value.(status := status), None, fault)
      case Ok(s) => s
      case Err(_) => sys
  }

  /**
    ImageDataController._restore: puts the image back to `queued`. It raises
    nothing: a failing save is logged and swallowed, and only the image's
    record may change.
  */
  function Restore(sys: System, img: Option<Image>, fault: Option<Failure>): (r: System)
    ensures img.Some? && fault.None? && img.value.id in sys.images ==>
              img.value.id in r.images && r.images[img.value.id] == img.value.(status := Queued)
    ensures forall id :: id in sys.images && (img.None? || id != img.value.id) ==>
              id in r.images && r.images[id] == sys.images[id]
    ensures r.images.Keys == sys.images.Keys
    ensures r.backend == sys.backend && r.staging == sys.staging && r.quota == sys.quota
  {
    SaveWithStatus(sys, img, Queued, fault)
  }

  /** ImageDataController._delete: marks the image `killed`, swallowing a failing save. */
  function Kill(sys: System, img: Option<Image>, fault: Option<Failure>): (r: System)
    ensures img.Some? && fault.None? && img.value.id in sys.images ==>
              img.value.id in r.images && r.images[img.value.id] == img.value.(status := Killed)
    ensures forall id :: id in sys.images && (img.None? || id != img.value.id) ==>
              id in r.images && r.images[id] == sys.images[id]
    ensures r.images.Keys == sys.images.Keys
    ensures r.backend == sys.backend && r.staging == sys.staging && r.quota == sys.quota
  {
    SaveWithStatus(sys, img, Killed, fault)
  }

  /**
    ImageDataController._unstage: deletes the staged bytes, ignoring that they
    are already gone, and then restores the image whatever the deletion did.
    Any other deletion error still leaves it, after the restore.
  */
  function Unstage(sys: System, img: Image, deleteFault: Option<Failure>, restoreFault: Option<Failure>)
    : (r: (System, Option<Failure>))
    ensures r.0 == Restore(if deleteFault.None? then sys.(staging := sys.staging - {img.id}) else sys,
                           Some(img), restoreFault)
    ensures r.1.Some? <==> deleteFault.Some? && deleteFault != Some(StoreNotFound)
    ensures r.1.Some? ==> r.1 == deleteFault
  {
    var deleted := if deleteFault.None? then sys.(staging := sys.staging - {img.id}) else sys;
    var escaping := if deleteFault == Some(StoreNotFound) then None else deleteFault;
    (Restore(deleted, Some(img), restoreFault), escaping)
  }

  /** The staged bytes of an unstaged image are gone unless their deletion failed, and it is back to `queued`. */
  lemma UnstageAlwaysRestores(sys: System, img: Image, deleteFault: Option<Failure>)
    requires img.id in sys.images
    ensures var r := Unstage(sys, img, deleteFault, None);
      && r.0.images[img.id].status == Queued
      && (deleteFault.None? ==> img.id !in r.0.staging)
      && (deleteFault == Some(StoreNotFound) ==> r.1.None?)
  {
  }

  // ---------------------------------------------------------------------------
  // Upload
  // ---------------------------------------------------------------------------

  /** The result of image.set_data: the stored location, size and checksum, or the error raised. */
  datatype DataOutcome =
    | Written(location: Location, size: int, checksum: Option<string>)
    | WriteFailed(error: Failure)

  /** The outcome of every external call the body of an upload makes, in call order. */
  datatype UploadScript = UploadScript(
    getFault: Option<Failure>,         // image_repo.get raises, beyond a missing image
    statusFault: Option<Failure>,      // setting status 'saving' raises (an invalid transition)
    refresher: bool,                   // a token refresher was built (registry data API)
    queuedSaveFault: Option<Failure>,  // the save guarded by from_state='queued' raises
    data: DataOutcome,                 // image.set_data
    reservationAccepted: bool,         // quota_create_reservations accepts the request
    savingSaveFault: Option<Failure>,  // the save guarded by from_state='saving' raises
    retrySaveFault: Option<Failure>,   // the same save, retried after a token refresh, raises
    commitFault: Option<Failure>)      // quota_commit_reservations raises

  /**
    How a controller call ends: it returns normally (for upload the serializer
    then answers 204), raises an HTTP error, or re-raises a non-HTTP error unchanged.
  */
  datatype Response = Completed | HttpError(code: int) | Reraised(error: Failure)

  /** What a controller call leaves: the state and how the call ended. */
  datatype Outcome = Outcome(sys: System, response: Response)

  /** An exception in flight: a domain or store error, or an HTTP error raised by a handler. */
  datatype Exc = Fail(failure: Failure) | Http(code: int)

  /** An exception leaving the outer `try` body, with the state and the image variable at that point. */
  datatype Escape = Escape(sys: System, exc: Exc, image: Option<Image>)

  /** The image after a successful set_data: its one location, size, checksum and status `active`. */
  function Stored(img: Image, location: Location, size: int, checksum: Option<string>): Image {
    img.(status := Active, locations := [location], size := Some(size), checksum := checksum)
  }

  /**
    The final save, guarded by from_state='saving'. On NotAuthenticated it is
    retried once after refreshing the token, but only when a refresher exists.
  */
  function SaveSaving(sys: System, img: Image, s: UploadScript): (r: (System, Option<Failure>))
    ensures r.1.None? <==> img.id in sys.images && sys.images[img.id].status == Saving &&
                           (s.savingSaveFault.None? ||
                            (s.savingSaveFault == Some(NotAuthenticated) && s.refresher && s.retrySaveFault.None?))
    ensures r.1.None? ==> r.0 == sys.(images := sys.images[img.id := img])
    ensures r.1.Some? ==> r.0 == sys
    ensures s.savingSaveFault.Some? && s.savingSaveFault != Some(NotAuthenticated) ==> r.1 == s.savingSaveFault
    ensures s.savingSaveFault == Some(NotAuthenticated) && !s.refresher ==> r.1 == Some(NotAuthenticated)
    ensures s.savingSaveFault == Some(NotAuthenticated) && s.refresher && s.retrySaveFault.Some? ==>
              r.1 == s.retrySaveFault
  {
    match Save(sys, img, Some(Saving), s.savingSaveFault)
    case Ok(sys') => (sys', None)
    case Err(e) =>
      if e == NotAuthenticated && s.refresher then
        match Save(sys, img, Some(Saving), s.retrySaveFault)
        case Ok(sys') => (sys', None)
        case Err(e') => (sys, Some(e'))
      else (sys, Some(e))
  }

  /**
    Lines 138-158: the `with` block of QuotaDriver.activate around the final
    save. `img` is the image after set_data, whose bytes `sys` already holds.
  */
  function ActivatedSave(sys: System, tenant: Option<string>, ks: Keystone, img: Image,
                         s: UploadScript): (r: Result<System, (System, Failure)>)
    requires Valid(sys.quota)
    ensures Valid(if r.Ok? then r.value.quota else r.error.0.quota)
    ensures r.Err? ==> r.error.0.quota.reservations == sys.quota.reservations
    ensures r.Err? ==> r.error.0.images.Keys == sys.images.Keys
    ensures r.Ok? ==> img.id in sys.images && sys.images[img.id].status == Saving
    ensures r.Ok? ==> r.value.images == sys.images[img.id := img]
    ensures (if r.Ok? then r.value.backend else r.error.0.backend) == sys.backend
    ensures (if r.Ok? then r.value.staging else r.error.0.staging) == sys.staging
  {
    var m := Activate(sys.quota, tenant, img.id, ConvertProxyToMetadata(img));
    match Enter(sys.quota, ks, m, s.reservationAccepted)
    case EnterFailed(q, e) => Err((sys.(quota := q), e))
    case Entered(q, handle) =>
      var (sys4, raised) := SaveSaving(sys.(quota := q), img, s);
      var (q5, err) := Exit(sys4.quota, m, handle, raised, s.commitFault);
      if err.Some? then
        ActivationErrorKeepsReservations(sys.quota, ks, m, s.reservationAccepted, raised, s.commitFault);
        Err((sys4.(quota := q5), err.value))
      else Ok(sys4.(quota := q5))
  }

  /**
    Lines 135-158: the queued-guarded save, the byte write, and the final save
    inside the quota bracket. An error comes back with the state and the image
    object as they were when it was raised.
  */
  function InnerBody(sys: System, tenant: Option<string>, ks: Keystone, img: Image, s: UploadScript)
    : (r: Result<System, (System, Failure, Image)>)
    requires Valid(sys.quota)
    ensures Valid(if r.Ok? then r.value.quota else r.error.0.quota)
    ensures r.Err? ==> r.error.0.quota.reservations == sys.quota.reservations
    ensures r.Err? ==> r.error.0.images.Keys == sys.images.Keys && r.error.2.id == img.id
    ensures r.Ok? ==> img.id in sys.images && sys.images[img.id].status == Queued && s.data.Written? &&
                      r.value.images == sys.images[img.id := Stored(img, s.data.location, s.data.size, s.data.checksum)] &&
                      r.value.backend == sys.backend + {img.id}
  {
    match Save(sys, img, Some(Queued), s.queuedSaveFault)
    case Err(e) => Err((sys, e, img))
    case Ok(sys1) =>
      match s.data
      case WriteFailed(e) => Err((sys1, e, img))
      case Written(location, size, checksum) =>
        var img2 := Stored(img, location, size, checksum);
        match ActivatedSave(sys1.(backend := sys1.backend + {img.id}), tenant, ks, img2, s)
        case Err((sys', e)) => Err((sys', e, img2))
        case Ok(sys') => Ok(sys')
  }

  /**
    The inner handlers (lines 159-188): an image that vanished or changed under
    the upload answers 410 and an expired token 401; both delete the bytes
    written. Other errors pass through unchanged.
  */
  function InnerHandlers(sys: System, e: Failure, img: Image): (x: Escape)
    ensures x.image == Some(img)
    ensures e in {StoreNotFound, ImageNotFound, Conflict} ==> x.exc == Http(410) && img.id !in x.sys.backend
    ensures e == NotAuthenticated ==> x.exc == Http(401) && img.id !in x.sys.backend
    ensures e !in {StoreNotFound, ImageNotFound, Conflict, NotAuthenticated} ==> x == Escape(sys, Fail(e), Some(img))
    ensures x.sys.images == sys.images && x.sys.quota == sys.quota && x.sys.staging == sys.staging
  {
    if e in {StoreNotFound, ImageNotFound, Conflict} then
      Escape(sys.(backend := sys.backend - {img.id}), Http(410), Some(img))
    else if e == NotAuthenticated then
      Escape(sys.(backend := sys.backend - {img.id}), Http(401), Some(img))
    else Escape(sys, Fail(e), Some(img))
  }

  /** The outer `try` body (lines 112-188): the repository read, the move to `saving`, and the inner part. */
  function UploadBody(sys: System, tenant: Option<string>, ks: Keystone, id: ImageId, s: UploadScript)
    : (r: Result<System, Escape>)
    requires Valid(sys.quota) && WellKeyed(sys.images)
    ensures Valid(if r.Ok? then r.value.quota else r.error.sys.quota)
    ensures r.Err? ==> r.error.sys.quota.reservations == sys.quota.reservations
    ensures r.Err? ==> r.error.sys.images.Keys == sys.images.Keys
    ensures r.Err? && r.error.image.Some? ==> r.error.image.value.id == id
    ensures r.Ok? ==> id in sys.images && sys.images[id].status == Queued && s.data.Written? &&
                      r.value.images == sys.images[id := Stored(sys.images[id], s.data.location, s.data.size, s.data.checksum)] &&
                      r.value.backend == sys.backend + {id}
  {
    if s.getFault.Some? then Err(Escape(sys, Fail(s.getFault.value), None))
    else if id !in sys.images then Err(Escape(sys, Fail(ImageNotFound), None))
    else if s.statusFault.Some? then Err(Escape(sys, Fail(s.statusFault.value), Some(sys.images[id])))
    else
      var img := sys.images[id].(status := Saving);
      match InnerBody(sys, tenant, ks, img, s)
      case Ok(sys') =>
        assert Stored(img, s.data.location, s.data.size, s.data.checksum)
            == Stored(sys.images[id], s.data.location, s.data.size, s.data.checksum);
        Ok(sys')
      case Err((sys', e, img')) => Err(InnerHandlers(sys', e, img'))
  }

  /** The errors whose handler restores the image to `queued`, with the status code it answers. */
  function RestoringCode(f: Failure): Option<int> {
    match f
    case ValueError => Some(400)
    case StoreAddDisabled => Some(410)
    case StorageFull => Some(413)
    case StorageQuotaFull => Some(413)
    case ImageSizeLimitExceeded => Some(413)
    case StorageWriteDenied => Some(503)
    case _ => None
  }

  /** The errors whose handler answers without touching the image, with their status code. */
  function PassiveCode(f: Failure): Option<int> {
    match f
    case InvalidStatusTransition => Some(409)
    case Forbidden => Some(403)
    case NotFound => Some(404)
    case ImageNotFound => Some(404)
    case _ => None
  }

  /**
    The outer handlers (lines 189-281), in their order: compensate where the
    source does, then answer. `compensation` is the error the compensating save
    raises, if any; compensation itself never raises.
  */
  function OuterHandlers(x: Escape, id: ImageId, compensation: Option<Failure>): (r: Outcome)
    ensures r.sys.quota == x.sys.quota && r.sys.staging == x.sys.staging
    ensures r.sys.images.Keys == x.sys.images.Keys
    ensures !r.response.Completed?
  {
    var sys := x.sys;
    match x.exc
    case Http(code) =>
      if code == 410 then Outcome(sys, HttpError(410))
      else Outcome(Restore(sys, x.image, compensation), HttpError(code))
    case Fail(f) =>
      if f == ProjectQuotaFull then
        // the handler reads the image's id and first location: without them it raises anew
        if x.image.None? || |x.image.value.locations| == 0 then Outcome(sys, Reraised(Unexpected))
        else
          var cleaned := sys.(backend := sys.backend - {x.image.value.id});
          if id in cleaned.images then
            Outcome(Restore(cleaned, Some(cleaned.images[id]), compensation), HttpError(403))
          else Outcome(cleaned, Reraised(ImageNotFound))
      else if RestoringCode(f).Some? then
        Outcome(Restore(sys, x.image, compensation), HttpError(RestoringCode(f).value))
      else if PassiveCode(f).Some? then
        Outcome(sys, HttpError(PassiveCode(f).value))
      else if f == SignatureVerification then
        Outcome(Kill(sys, x.image, compensation), HttpError(400))
      else
        Outcome(Restore(sys, x.image, compensation), Reraised(f))
  }

  /**
    ImageDataController.upload. `tenant` is the request's tenant, `ks`
    Keystone's answers, `compensation` the error a compensating
    save raises, if any.
  */
  function Upload(sys: System, tenant: Option<string>, ks: Keystone, id: ImageId,
                  s: UploadScript, compensation: Option<Failure>): (r: Outcome)
    requires Valid(sys.quota) && WellKeyed(sys.images)
    ensures Valid(r.sys.quota)
    ensures r.sys.images.Keys == sys.images.Keys
    ensures r.response.Completed? ==> id in sys.images && sys.images[id].status == Queued && s.data.Written?
    ensures r.response.Completed? ==>
              && r.sys.images == sys.images[id := Stored(sys.images[id], s.data.location, s.data.size, s.data.checksum)]
              && r.sys.images[id].status == Active
              && r.sys.backend == sys.backend + {id}
    ensures !r.response.Completed? ==> r.sys.quota.reservations == sys.quota.reservations
  {
    match UploadBody(sys, tenant, ks, id, s)
    case Ok(sys') => Outcome(sys', Completed)
    case Err(x) => OuterHandlers(x, id, compensation)
  }

  // ---------------------------------------------------------------------------
  // Properties of upload
  // ---------------------------------------------------------------------------

  /** A script in which every call up to the byte write succeeds. */
  predicate ReachesWrite(s: UploadScript) {
    s.getFault.None? && s.statusFault.None? && s.queuedSaveFault.None?
  }

  /**
    The answer and final status for an error raised by the byte write, as a table
    independent of the handler code: `None` for the status means the image stays
    `saving`.
  */
  function WriteFailureTable(f: Failure): (Response, Option<Status>) {
    match f
    case ValueError => (HttpError(400), Some(Queued))
    case StoreAddDisabled => (HttpError(410), Some(Queued))
    case StorageFull => (HttpError(413), Some(Queued))
    case StorageQuotaFull => (HttpError(413), Some(Queued))
    case ImageSizeLimitExceeded => (HttpError(413), Some(Queued))
    case StorageWriteDenied => (HttpError(503), Some(Queued))
    case SignatureVerification => (HttpError(400), Some(Killed))
    case NotAuthenticated => (HttpError(401), Some(Queued))
    case ImageNotFound => (HttpError(410), None)
    case StoreNotFound => (HttpError(410), None)
    case Conflict => (HttpError(410), None)
    case InvalidStatusTransition => (HttpError(409), None)
    case Forbidden => (HttpError(403), None)
    case NotFound => (HttpError(404), None)
    case ProjectQuotaFull => (HttpError(403), Some(Queued))  // raised by the reservation, see QuotaFullRestoresQueued
    case Duplicate => (Reraised(Duplicate), Some(Queued))
    case BadStoreUri => (Reraised(BadStoreUri), Some(Queued))
    case TypeError => (Reraised(TypeError), Some(Queued))
    case Unexpected => (Reraised(Unexpected), Some(Queued))
  }

  /**
    Every error the byte write of a queued image can raise ends as the table
    says: the answer, and the image restored to `queued`, killed, or left in
    `saving`, provided the compensating save itself goes through.
  */
  lemma WriteFailureOutcome(sys: System, tenant: Option<string>, ks: Keystone, id: ImageId,
                            s: UploadScript)
    requires Valid(sys.quota) && WellKeyed(sys.images)
    requires ReachesWrite(s) && s.data.WriteFailed?
    requires id in sys.images && sys.images[id].status == Queued
    requires s.data.error != ProjectQuotaFull || |sys.images[id].locations| > 0
    ensures var r := Upload(sys, tenant, ks, id, s, None);
      && r.response == WriteFailureTable(s.data.error).0
      && r.sys.images[id].status == WriteFailureTable(s.data.error).1.GetOr(Saving)
      && r.sys.quota == sys.quota
  {
    var f := s.data.error;
    var img := sys.images[id].(status := Saving);
    var sys1 := sys.(images := sys.images[id := img]);
    assert InnerBody(sys, tenant, ks, img, s) == Err((sys1, f, img));
    var x := InnerHandlers(sys1, f, img);
    assert UploadBody(sys, tenant, ks, id, s) == Err(x);
    assert Upload(sys, tenant, ks, id, s, None) == OuterHandlers(x, id, None);
    HandledWriteFailure(sys1, f, img);
  }

  /** The handlers turn a byte-write error on a `saving` image into the table's answer and status. */
  lemma HandledWriteFailure(sys: System, f: Failure, img: Image)
    requires img.id in sys.images && sys.images[img.id] == img && img.status == Saving
    requires f != ProjectQuotaFull || |img.locations| > 0
    ensures var r := OuterHandlers(InnerHandlers(sys, f, img), img.id, None);
      && r.response == WriteFailureTable(f).0
      && r.sys.images[img.id].status == WriteFailureTable(f).1.GetOr(Saving)
      && r.sys.quota == sys.quota
  {
  }

  /**
    Compensation never masks the original error: how an upload ends does not
    depend on whether its compensating save succeeds.
  */
  lemma CompensationNeverMasks(sys: System, tenant: Option<string>, ks: Keystone, id: ImageId,
                               s: UploadScript, c1: Option<Failure>, c2: Option<Failure>)
    requires Valid(sys.quota) && WellKeyed(sys.images)
    ensures Upload(sys, tenant, ks, id, s, c1).response == Upload(sys, tenant, ks, id, s, c2).response
  {
  }

  /**
    A refused reservation (ProjectQuotaFull) answers 403: the stored bytes are
    deleted, the image is back to `queued`, and no reservation is held.
  */
  lemma QuotaFullRestoresQueued(sys: System, tenant: Option<string>, ks: Keystone, id: ImageId,
                                s: UploadScript)
    requires Valid(sys.quota) && WellKeyed(sys.images)
    requires ReachesWrite(s) && s.data.Written? && !s.reservationAccepted
    requires id in sys.images && sys.images[id].status == Queued
    requires Activate(sys.quota, tenant, id,
                      ConvertProxyToMetadata(Stored(sys.images[id], s.data.location, s.data.size, s.data.checksum))).Reserve?
    ensures var r := Upload(sys, tenant, ks, id, s, None);
      && r.response == HttpError(403)
      && id !in r.sys.backend
      && r.sys.images[id].status == Queued
      && r.sys.quota.reservations == sys.quota.reservations
  {
    var img := sys.images[id].(status := Saving);
    var img2 := Stored(img, s.data.location, s.data.size, s.data.checksum);
    assert img2 == Stored(sys.images[id], s.data.location, s.data.size, s.data.checksum);
    var sys1 := sys.(images := sys.images[id := img]);
    var sys2 := sys1.(backend := sys1.backend + {id});
    var m := Activate(sys2.quota, tenant, id, ConvertProxyToMetadata(img2));
    var e := Enter(sys2.quota, ks, m, false);
    assert e.EnterFailed? && e.error == ProjectQuotaFull;
    assert InnerBody(sys, tenant, ks, img, s) == Err((sys2.(quota := e.store), ProjectQuotaFull, img2));
    var x := Escape(sys2.(quota := e.store), Fail(ProjectQuotaFull), Some(img2));
    assert UploadBody(sys, tenant, ks, id, s) == Err(x);
    assert Upload(sys, tenant, ks, id, s, None) == OuterHandlers(x, id, None);
  }

  /**
    An expired token on the final save is retried exactly once when a refresher
    exists: a successful retry completes the upload and a second expiry answers
    401; without a refresher the upload answers 401 at once. A 401 deletes the
    bytes and restores the image to `queued`.
  */
  lemma TokenRefreshRetriesOnce(sys: System, tenant: Option<string>, ks: Keystone, id: ImageId,
                                s: UploadScript)
    requires Valid(sys.quota) && WellKeyed(sys.images)
    requires ReachesWrite(s) && s.data.Written? && s.reservationAccepted && s.commitFault.None?
    requires s.savingSaveFault == Some(NotAuthenticated)
    requires id in sys.images && sys.images[id].status == Queued
    ensures var r := Upload(sys, tenant, ks, id, s, None);
      && (s.refresher && s.retrySaveFault.None? ==> r.response == Completed)
      && (!s.refresher || s.retrySaveFault == Some(NotAuthenticated) ==>
            r.response == HttpError(401) && id !in r.sys.backend && r.sys.images[id].status == Queued)
  {
    var img := sys.images[id].(status := Saving);
    var img2 := Stored(img, s.data.location, s.data.size, s.data.checksum);
    var sys1 := sys.(images := sys.images[id := img]);
    var sys2 := sys1.(backend := sys1.backend + {id});
    var m := Activate(sys2.quota, tenant, id, ConvertProxyToMetadata(img2));
    var e := Enter(sys2.quota, ks, m, true);
    assert e.Entered?;
    var (sys4, raised) := SaveSaving(sys2.(quota := e.store), img2, s);
    var (q5, err) := Exit(sys4.quota, m, e.handle, raised, None);
    if !s.refresher || s.retrySaveFault == Some(NotAuthenticated) {
      assert raised == Some(NotAuthenticated) && err == raised;
      assert InnerBody(sys, tenant, ks, img, s) == Err((sys4.(quota := q5), NotAuthenticated, img2));
      var x := InnerHandlers(sys4.(quota := q5), NotAuthenticated, img2);
      assert UploadBody(sys, tenant, ks, id, s) == Err(x);
      assert Upload(sys, tenant, ks, id, s, None) == OuterHandlers(x, id, None);
    } else if s.retrySaveFault.None? {
      assert raised.None?;
      assert InnerBody(sys, tenant, ks, img, s).Ok?;
    }
  }

  /**
    An image deleted or changed under the upload, which the queued-guarded save
    reports as ImageNotFound or Conflict, answers 410 Gone: its bytes are
    deleted and nothing else changes.
  */
  lemma ConcurrentChangeIsGone(sys: System, tenant: Option<string>, ks: Keystone, id: ImageId,
                               s: UploadScript, compensation: Option<Failure>)
    requires Valid(sys.quota) && WellKeyed(sys.images)
    requires s.getFault.None? && s.statusFault.None? && id in sys.images
    requires s.queuedSaveFault == Some(ImageNotFound) || s.queuedSaveFault == Some(Conflict)
    ensures Upload(sys, tenant, ks, id, s, compensation)
            == Outcome(sys.(backend := sys.backend - {id}), HttpError(410))
  {
    var img := sys.images[id].(status := Saving);
    assert InnerBody(sys, tenant, ks, img, s) == Err((sys, s.queuedSaveFault.value, img));
  }

  /**
    A completed upload of an image that is not public and has an owner (its own
    or the request's tenant) leaves the image charged: it holds reservations,
    newly committed or already there.
  */
  lemma CompletedPrivateUploadIsCharged(sys: System, tenant: Option<string>, ks: Keystone,
                                        id: ImageId, s: UploadScript, compensation: Option<Failure>)
    requires Valid(sys.quota) && WellKeyed(sys.images)
    requires Upload(sys, tenant, ks, id, s, compensation).response.Completed?
    ensures var r := Upload(sys, tenant, ks, id, s, compensation);
      var meta := ConvertProxyToMetadata(r.sys.images[id]);
      !meta.isPublic && Truthy(ActivationOwner(meta, tenant)) ==> HasReservations(r.sys.quota, id)
  {
    var img := sys.images[id].(status := Saving);
    var img2 := Stored(img, s.data.location, s.data.size, s.data.checksum);
    var sys1 := sys.(images := sys.images[id := img]);
    var sys2 := sys1.(backend := sys1.backend + {id});
    var body := UploadBody(sys, tenant, ks, id, s);
    var inner := InnerBody(sys, tenant, ks, img, s);
    assert body.Ok? && inner.Ok? && body.value == inner.value;
    assert Save(sys, img, Some(Queued), s.queuedSaveFault) == Ok(sys1);
    assert inner == Ok(ActivatedSave(sys2, tenant, ks, img2, s).value);
    ActivatedSaveCharges(sys2, tenant, ks, img2, s);
  }

  /**
    An activation bracket that completes leaves a private image with an owner
    holding reservations: newly committed, or the ones it already had.
  */
  lemma ActivatedSaveCharges(sys: System, tenant: Option<string>, ks: Keystone, img: Image,
                             s: UploadScript)
    requires Valid(sys.quota)
    requires ActivatedSave(sys, tenant, ks, img, s).Ok?
    ensures var meta := ConvertProxyToMetadata(img);
      !meta.isPublic && Truthy(ActivationOwner(meta, tenant)) ==>
        HasReservations(ActivatedSave(sys, tenant, ks, img, s).value.quota, img.id)
  {
    var m := Activate(sys.quota, tenant, img.id, ConvertProxyToMetadata(img));
    var (sys4, raised) := SaveSaving(sys, img, s);
    var b := Bracket(sys.quota, ks, m, s.reservationAccepted, raised, s.commitFault);
    assert ActivatedSave(sys, tenant, ks, img, s).value.quota == b.store;
    if m.Reserve? {
      CompletedBracketCommits(sys.quota, ks, img.id, m.scope, m.applied, s.reservationAccepted, raised,
                              s.commitFault);
      assert TotalImagesNumber in m.applied;
    }
  }

  // ---------------------------------------------------------------------------
  // Stage
  // ---------------------------------------------------------------------------

  /** The outcome of every external call the body of `stage` makes, in call order. */
  datatype StageScript = StageScript(
    getFault: Option<Failure>,         // image_repo.get raises, beyond a missing image
    statusFault: Option<Failure>,      // setting status 'uploading' raises (an invalid transition)
    queuedSaveFault: Option<Failure>,  // the save guarded by from_state='queued' raises
    addFault: Option<Failure>,         // staging_store.add raises
    deleteFault: Option<Failure>)      // staging_store.delete, called by _unstage, raises

  /**
    The nested `_build_staging_store` (lines 291-305), given the number of
    arguments it is called with: it declares one parameter, so any other count
    raises TypeError; a staging store that cannot be configured raises BadStoreUri.
  */
  function BuildStagingStore(arguments: nat, configured: bool): (r: Option<Failure>)
    ensures r.None? <==> arguments == 1 && configured
    ensures arguments != 1 ==> r == Some(TypeError)
  {
    if arguments != 1 then Some(TypeError)
    else if !configured then Some(BadStoreUri)
    else None
  }

  /** The `try` body of `stage` (lines 309-318): read, move to `uploading`, guarded save, write to staging. */
  function StageBody(sys: System, id: ImageId, s: StageScript): (r: Result<System, Escape>)
    requires WellKeyed(sys.images)
    ensures r.Ok? <==> s.getFault.None? && id in sys.images && s.statusFault.None? && s.queuedSaveFault.None? &&
                       sys.images[id].status == Queued && s.addFault.None?
    ensures r.Ok? ==> r.value == sys.(images := sys.images[id := sys.images[id].(status := Uploading)],
                                      staging := sys.staging + {id})
    ensures r.Err? ==> r.error.sys.images.Keys == sys.images.Keys && r.error.sys.staging == sys.staging
    ensures r.Err? ==> r.error.sys.quota == sys.quota && r.error.sys.backend == sys.backend
    ensures r.Err? ==> (r.error.image.Some? <==> s.getFault.None? && id in sys.images)
    ensures r.Err? && r.error.image.Some? ==> r.error.image.value.id == id
  {
    if s.getFault.Some? then Err(Escape(sys, Fail(s.getFault.value), None))
    else if id !in sys.images then Err(Escape(sys, Fail(ImageNotFound), None))
    else if s.statusFault.Some? then Err(Escape(sys, Fail(s.statusFault.value), Some(sys.images[id])))
    else
      var img := sys.images[id].(status := Uploading);
      match Save(sys, img, Some(Queued), s.queuedSaveFault)
      case Err(e) => Err(Escape(sys, Fail(e), Some(img)))
      case Ok(sys1) =>
        if s.addFault.None? then Ok(sys1.(staging := sys1.staging + {id}))
        // a Duplicate is turned into HTTPConflict inside the body; the restore after that raise is never reached
        else if s.addFault == Some(Duplicate) then Err(Escape(sys1, Http(409), Some(img)))
        else Err(Escape(sys1, Fail(s.addFault.value), Some(img)))
  }

  /**
    The handlers of `stage` (lines 320-356). `writeDeniedUnstages` says whether
    the StorageWriteDenied handler calls _unstage with its staging store.
  */
  function StageHandlers(x: Escape, s: StageScript, compensation: Option<Failure>, writeDeniedUnstages: bool)
    : (r: Outcome)
    ensures r.sys.quota == x.sys.quota && r.sys.backend == x.sys.backend
    ensures r.sys.images.Keys == x.sys.images.Keys
    ensures !r.response.Completed?
  {
    var sys := x.sys;
    match x.exc
    case Http(code) => Outcome(Restore(sys, x.image, compensation), HttpError(code))
    case Fail(f) =>
      if f in {StorageFull, StorageQuotaFull, ImageSizeLimitExceeded} || (f == StorageWriteDenied && writeDeniedUnstages) then
        if x.image.None? then Outcome(sys, Reraised(Unexpected))  // _unstage reads the image's id
        else
          var (sys', escaping) := Unstage(sys, x.image.value, s.deleteFault, compensation);
          if escaping.Some? then Outcome(sys', Reraised(escaping.value))
          else Outcome(sys', HttpError(if f == StorageWriteDenied then 503 else 413))
      else if f == StorageWriteDenied then
        // _unstage called without its staging store raises TypeError before doing anything
        Outcome(sys, Reraised(TypeError))
      else Outcome(Restore(sys, x.image, compensation), Reraised(f))
  }

  /** `stage` once a staging store exists. */
  function StageWithStore(sys: System, id: ImageId, s: StageScript, compensation: Option<Failure>,
                          writeDeniedUnstages: bool): (r: Outcome)
    requires WellKeyed(sys.images)
    ensures r.response.Completed? <==> StageBody(sys, id, s).Ok?
    ensures r.response.Completed? ==> r.sys == StageBody(sys, id, s).value
    ensures r.sys.quota == sys.quota && r.sys.backend == sys.backend
  {
    match StageBody(sys, id, s)
    case Ok(sys') => Outcome(sys', Completed)
    case Err(x) => StageHandlers(x, s, compensation, writeDeniedUnstages)
  }

  /**
    ImageDataController.stage as written: `_build_staging_store` is called with
    no argument, so nothing after it runs. (Its StorageWriteDenied handler, which
    calls _unstage without the staging store, is `StageWithStore` with
    `writeDeniedUnstages` false.)
  */
  function StageAsWritten(sys: System, id: ImageId, s: StageScript, compensation: Option<Failure>,
                          configured: bool): (r: Outcome)
    requires WellKeyed(sys.images)
    ensures r == Outcome(sys, Reraised(TypeError))
  {
    // the builder called with no argument always raises, before the `try` of `stage` begins
    Outcome(sys, Reraised(BuildStagingStore(0, configured).value))
  }

  /**
    ImageDataController.stage as evidently intended: the staging store is built,
    and every storage error of the write unstages.
  */
  function Stage(sys: System, id: ImageId, s: StageScript, compensation: Option<Failure>,
                 configured: bool): (r: Outcome)
    requires WellKeyed(sys.images)
    ensures r.response.Completed? <==> configured && StageBody(sys, id, s).Ok?
    ensures r.response.Completed? ==>
              r.sys == sys.(images := sys.images[id := sys.images[id].(status := Uploading)],
                            staging := sys.staging + {id})
    ensures !configured ==> r == Outcome(sys, Reraised(BadStoreUri))
    ensures r.sys.quota == sys.quota && r.sys.backend == sys.backend
  {
    var build := BuildStagingStore(1, configured);
    if build.Some? then Outcome(sys, Reraised(build.value))
    else StageWithStore(sys, id, s, compensation, true)
  }

  /**
    As written, `stage` never stages: even with a configured staging store and
    every call succeeding, it raises TypeError and changes nothing, where the
    intended version moves the image to `uploading` with its bytes staged.
  */
  lemma StageAlwaysRaisesTypeError(sys: System, id: ImageId)
    requires WellKeyed(sys.images) && id in sys.images && sys.images[id].status == Queued
    ensures var s := StageScript(None, None, None, None, None);
      && StageAsWritten(sys, id, s, None, true) == Outcome(sys, Reraised(TypeError))
      && Stage(sys, id, s, None, true).response == Completed
      && id in Stage(sys, id, s, None, true).sys.staging
  {
  }

  /**
    With the staging store built, a StorageWriteDenied write still escapes as
    TypeError and leaves the image saved as `uploading`, where the intended
    handler unstages it, restores it to `queued` and answers 503.
  */
  lemma WriteDeniedSkipsUnstage(sys: System, id: ImageId)
    requires WellKeyed(sys.images) && id in sys.images && sys.images[id].status == Queued
    ensures var s := StageScript(None, None, None, Some(StorageWriteDenied), None);
      && StageWithStore(sys, id, s, None, false).response == Reraised(TypeError)
      && StageWithStore(sys, id, s, None, false).sys.images[id].status == Uploading
      && Stage(sys, id, s, None, true).response == HttpError(503)
      && Stage(sys, id, s, None, true).sys.images[id].status == Queued
  {
  }

  /**
    A failed stage of an existing image leaves it `queued` whatever went wrong,
    as long as the compensating calls go through: `uploading` never persists
    after an error.
  */
  lemma FailedStageRestoresQueued(sys: System, id: ImageId, s: StageScript)
    requires WellKeyed(sys.images) && id in sys.images && s.getFault.None?
    requires !Stage(sys, id, s, None, true).response.Completed?
    ensures Stage(sys, id, s, None, true).sys.images[id].status == Queued
  {
    var x := StageBody(sys, id, s).error;
    assert Stage(sys, id, s, None, true) == StageHandlers(x, s, None, true);
  }

  // ---------------------------------------------------------------------------
  // Download
  // ---------------------------------------------------------------------------

  /**
    ImageDataController.download: an unknown image answers 404 and a
    deactivated one 403 unless the caller is an administrator.
  */
  function DownloadImage(sys: System, id: ImageId, isAdmin: bool): (r: Result<Image, int>)
    ensures r.Ok? <==> id in sys.images && (sys.images[id].status != Deactivated || isAdmin)
    ensures r.Ok? ==> r.value == sys.images[id]
    ensures r.Err? ==> r.error == (if id !in sys.images then 404 else 403)
  {
    if id !in sys.images then Err(404)
    else if sys.images[id].status == Deactivated && !isAdmin then Err(403)
    else Ok(sys.images[id])
  }
}
