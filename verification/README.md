# Glance image quotas and image data, in Dafny

This project models the image-quota feature of a Glance fork, together with the
image-data controller that triggers it, and proves properties of the model.

- **Quota driver** (`glance/common/quota.py`). It turns an image into a fixed
  metadata record and decides whether an image operation reserves capacity,
  releases it or does nothing. It computes the quantities charged per quota
  class. It brackets the protected operation: on entry it materialises the
  scope's limits and creates reservations; on exit it commits them, or deletes
  them on an error or a failed commit.
- **Quota API** (`glance/api/v2/quotas.py`). It validates request bodies against
  the four quota classes and the value range [-1, sys.maxsize]. It derives a
  scope's effective limits. It negotiates a new set of limits against per-class
  bounds: for a project these come from the parent domain and the project's
  usage; for a domain, from its child projects. It reports a project's usage.
- **Image data** (`glance/api/v2/image_data.py`). The upload state machine
  (queued → saving → active) runs inside the quota bracket. Each failure kind
  maps to a final status and an answer, with best-effort compensation that never
  raises. The model also covers the staging path, the download permission check,
  and the download serializer's range arithmetic and headers.

The model is functional. The quota tables form one `QuotaStore.Store` record
that every operation threads explicitly. An upload or a stage is a pure function
of the state and of a script: the script lists the outcome of each external call
(repository reads and saves, the byte write, reservation creation, the commit).
Keystone is a record of the project-to-domain map, the set of domains and each
domain's projects.

Files, one module each: `wrappers.dfy` (Option, Result, Python truthiness),
`quota_types.dfy` (the four classes, the value range), `failures.dfy` (exception
kinds), `images.dfy` (the image record), `quota_store.dfy` (the quota tables and
database calls), `identity.dfy` (Keystone's answers about scopes), `quota_driver.dfy`, `quota_api.dfy`, `decimal.dfy` (integer
rendering for headers), `download.dfy` and `image_data.dfy`.

The serializer receives webob's parsed `Range`, whose end is exclusive (the
comment at `glance/api/v2/image_data.py:403-406`); `Download.ResolveRange`
takes the end as exclusive.

## Model

| member | source | states |
|---|---|---|
| QuotaTypes.ClassNamesDistinct | glance/api/v2/quotas.py:35-36 | every class is in the quota_classes list and the four class names are pairwise distinct |
| QuotaTypes.Uniform | glance/api/v2/quotas.py:156-157 | a map holding one value has a row for every quota class |
| QuotaStore.QuotasSet | glance/common/quota.py:136 | quotas_set upserts exactly the given classes of one scope; other classes, other scopes and the reservations stay |
| QuotaStore.QuotasReset | glance/api/v2/quotas.py:227 | quotas_reset leaves the scope without explicit limits and other scopes untouched |
| QuotaStore.QuotaClassesSet | glance/api/v2/quotas.py:115-116 | quota_classes_set upserts the given class defaults and keeps the others |
| QuotaStore.ClassIndex | glance/api/v2/quotas.py:35-36 | each class has its own position in the class list |
| QuotaStore.CreateReservations | glance/common/quota.py:137-139 | an accepted reservation request adds one uncommitted reservation per applied class, under fresh ids, and keeps every existing reservation |
| QuotaStore.CommitReservations | glance/common/quota.py:150 | commit marks exactly the given reservations committed and changes nothing else |
| QuotaStore.DeleteReservations | glance/common/quota.py:146 | delete drops exactly the given reservations |
| QuotaStore.ClearReservations | glance/common/quota.py:102-104 | after clearing, the image holds no reservation; reservations of other images stay |
| QuotaDriver.ImageTypeOf | glance/common/quota.py:31-37 | the image type is read only when the properties are non-empty and contain it |
| QuotaDriver.ConvertProxyToMetadata | glance/common/quota.py:28-40 | size None becomes 0; is_public holds only for visibility public, so absent visibility is not public; no locations gives the empty location; owner and status are copied; the image type is present exactly when the extra properties carry image_type, and is its value |
| QuotaDriver.AppliedQuotas | glance/common/quota.py:112-123 | total_images_number is always 1; a size class is charged, with the size, exactly when the size is non-zero and the url is non-empty and not http; snapshot classes appear exactly for image_type snapshot |
| QuotaDriver.SnapshotChargeWithinImageCharge | glance/common/quota.py:115-123 | every snapshot amount is charged with an equal image amount, and no charged amount is zero |
| QuotaDriver.NewReservationManager | glance/common/quota.py:112-126 | a reservation manager charges its owner with the applied quantities of the metadata |
| QuotaDriver.Update | glance/common/quota.py:51-69 | update reserves exactly for an active, non-public, owned image without reservations, and releases exactly for an active, public, owned image with reservations |
| QuotaDriver.UpdateCasesExclusive | glance/common/quota.py:59-69 | the reserve and release cases of update never both apply, and update does nothing exactly when neither applies |
| QuotaDriver.Activate | glance/common/quota.py:72-87 | activate reserves exactly for a non-public image whose owner (or else the request tenant) is non-empty and that has no reservation; it never releases |
| QuotaDriver.Release | glance/common/quota.py:89-92 | release always yields the release manager of the image |
| QuotaDriver.Enter | glance/common/quota.py:128-142 | entry materialises the scope's limits and either creates the fresh reservations or, when refused, raises ProjectQuotaFull with the reservations unchanged; noop and release managers change nothing |
| QuotaDriver.EnterReservation | glance/common/quota.py:128-142 | the same for a reservation manager |
| QuotaDriver.CreatedOverMaterialised | glance/common/quota.py:128-139 | writing the default limits first does not change which fresh reservation ids the batch gets nor what they hold |
| QuotaDriver.MaterialiseLimits | glance/common/quota.py:129-136 | a scope without explicit limits gets the parent domain's defaults written; other scopes and reservations stay |
| QuotaDriver.Exit | glance/common/quota.py:101-157 | an error in the block deletes the created reservations and propagates; otherwise they are committed, and a failed commit deletes them and re-raises; release clears only after a normal block |
| QuotaDriver.Bracket | glance/common/quota.py:128-157 | a whole bracket preserves the reservation id invariant |
| QuotaDriver.NoReservationSurvivesError | glance/common/quota.py:137-157 | a reservation bracket ending in any error leaves exactly the reservations held before it, the reservation deletes being taken to succeed |
| QuotaDriver.DeletingHandleRestores | glance/common/quota.py:144-157 | deleting exactly the reservations a batch added gives back the reservations held before it |
| QuotaDriver.ActivationErrorKeepsReservations | glance/common/quota.py:72-157 | the same for every manager activate can return |
| QuotaDriver.ErrorPropagates | glance/common/quota.py:144-157 | the error leaving the bracket is the block's error, else the commit's; a refused request leaves as ProjectQuotaFull |
| QuotaDriver.CompletedBracketCommits | glance/common/quota.py:137-151 | a completed bracket keeps the old reservations and adds one committed reservation per applied class |
| QuotaDriver.CommittingBatch | glance/common/quota.py:148-151 | committing a batch marks each of its reservations committed, keeps all others, and leaves the image holding reservations when the batch is non-empty |
| QuotaDriver.EnterMaterialisesLimits | glance/common/quota.py:129-136 | after a bracket, the scope has its own limits or the parent domain's defaults, whatever the outcome |
| QuotaDriver.ReleaseOnlyOnSuccess | glance/common/quota.py:101-104 | release clears the image's reservations after a normal block and changes nothing after an error |
| QuotaDriver.ActivateIsNotRepeated | glance/common/quota.py:72-87 | after a completed activation bracket, activating the same image again does nothing |
| QuotaDriver.PublishReleasesThenPrivateReserves | glance/common/quota.py:51-69 | publishing an image releases its reservations, so making it private again reserves anew |
| QuotaApi.GetDomain | glance/api/v2/quotas.py:119-127 | a project resolves to its parent domain and a domain to None; a scope that is neither is a BadRequest |
| QuotaApi.CheckAllClassesPresent | glance/api/v2/quotas.py:52-59 | a request passes exactly when it names every quota class |
| QuotaApi.DeserializeClassMap | glance/api/v2/quotas.py:52-91 | a body is accepted exactly when present, naming every class, with every value in [-1, sys.maxsize]; the result holds exactly those values |
| QuotaApi.AcceptedValuesInRange | glance/api/v2/quotas.py:272-279 | every accepted value lies in [-1, sys.maxsize] |
| QuotaApi.SetQuotaClasses | glance/api/v2/quotas.py:111-117 | setting class defaults returns the stored defaults, which include the values set, and leaves limits and reservations alone |
| QuotaApi.SetThenGetQuotaClasses | glance/api/v2/quotas.py:101-117 | reading the defaults after a full set returns exactly the values set |
| QuotaApi.GetQuotas | glance/api/v2/quotas.py:129-150 | the explicit limits win; else a project reads its domain's defaults and a domain reads -1 for every class; an unknown scope without explicit limits is a BadRequest |
| QuotaApi.DeleteQuotas | glance/api/v2/quotas.py:224-227 | delete leaves the scope without explicit limits and other scopes untouched |
| QuotaApi.DeleteUndoesSet | glance/api/v2/quotas.py:129-227 | for a scope without explicit limits, set followed by delete restores its effective limits |
| QuotaApi.ChildLimitFloor | glance/api/v2/quotas.py:177-184 | the domain minimum from child limits is never negative |
| QuotaApi.ChildLimitFloorIsUpperBound | glance/api/v2/quotas.py:177-184 | the domain minimum is at least every child's explicit limit |
| QuotaApi.ChildLimitFloorIsAttained | glance/api/v2/quotas.py:177-184 | the domain minimum is 0 or some child's explicit limit |
| QuotaApi.TotalChildUsageCoversChild | glance/api/v2/quotas.py:186-192 | the summed usage is at least each child's usage and non-negative |
| QuotaApi.DomainMinimumCoversChildren | glance/api/v2/quotas.py:174-199 | a domain's minimum covers every child's limit, every child's usage and their total usage |
| QuotaApi.ComputeDomainMinimum | glance/api/v2/quotas.py:174-199 | the two-pass loop computes, per class, the larger of the child limit floor and the summed child usage |
| QuotaApi.LargestChildLimits | glance/api/v2/quotas.py:179-184 | the first pass yields, per class, the largest explicit child limit, 0 when no child has one |
| QuotaApi.SumChildUsages | glance/api/v2/quotas.py:187-192 | the second pass yields, per class, the sum of the child projects' usages |
| QuotaApi.SetQuotas | glance/api/v2/quotas.py:152-222 | a request is written only when the scope resolves and every class lies within its bounds; a rejection leaves the store unchanged; success returns the limits stored |
| QuotaApi.UnlimitedAlwaysAccepted | glance/api/v2/quotas.py:202-205 | -1 passes validation for every class of any scope |
| QuotaApi.ProjectRequestAcceptedIff | glance/api/v2/quotas.py:160-205 | a project request passes exactly when each value is -1 or lies between the usage and the domain's explicit limit |
| QuotaApi.DomainRequestBelowChildRejected | glance/api/v2/quotas.py:174-205 | a domain request setting a real limit below a child's limit or usage is refused |
| QuotaApi.SetThenGetQuotas | glance/api/v2/quotas.py:129-222 | after a full set, get_quotas returns exactly the request |
| QuotaApi.QuotaUsage | glance/api/v2/quotas.py:229-246 | usage is Forbidden for a domain; for a project every class is reported, with usage 0 when absent |
| QuotaApi.UsageLimitsAgreeWithGetQuotas | glance/api/v2/quotas.py:238-246 | the limits the usage report gives a project are those get_quotas returns |
| Decimal.NatToStringRoundTrip | glance/api/v2/image_data.py:447-470 | the decimal digits printed for a number read back as that number |
| Decimal.ReadIntRoundTrip | glance/api/v2/image_data.py:447-470 | a printed integer, signed or not, reads back exactly and leaves the rest of the text |
| Decimal.ReadNatRoundTrip | glance/api/v2/image_data.py:447-470 | the digits of a number followed by a non-digit read back as that number and the untouched rest |
| Decimal.ReadNegativeRoundTrip | glance/api/v2/image_data.py:447-470 | a minus sign followed by the digits of n reads back as -n |
| Decimal.ReadNonNegativeRoundTrip | glance/api/v2/image_data.py:447-470 | the digits of n without a sign read back as n |
| Decimal.ReadIntAlone | glance/api/v2/image_data.py:470 | a Content-Length value holds exactly the number it was printed from, with nothing after it |
| Download.ResolveRange | glance/api/v2/image_data.py:398-433 | with start >= 0 the offset is start; a suffix within the image starts size+start bytes in, else at 0; an exclusive end inside the image gives chunk end-offset and last byte end-1, else chunk size-offset and last byte size-1; a content range reads from its start to its stop-1 |
| Download.ResolvedRangeInsideImage | glance/api/v2/image_data.py:398-433 | every satisfiable range reads a non-empty run of bytes inside the image |
| Download.SuffixRangeSelectsTail | glance/api/v2/image_data.py:411-421 | "bytes=-n" reads the last n bytes, or the whole image when n is at least its size |
| Download.ContentRangeRoundTrip | glance/api/v2/image_data.py:447-450 | the Content-Range value names exactly the first byte, last byte and size it was built from |
| Download.ReadIntAfterRoundTrip | glance/api/v2/image_data.py:447-450 | a number printed after the "-" or "/" separator reads back after that separator |
| Download.SerializeDownload | glance/api/v2/image_data.py:433-470 | a read error gives 204, 503, 400 or 403; otherwise any range gives 206 and a Content-Range and reads the resolved offset and chunk, while no range reads from offset 0 with no chunk size; Content-MD5 is sent exactly when the checksum is non-empty, and then carries that checksum |
| Download.HeadersDescribeTheRead | glance/api/v2/image_data.py:433-470 | a partial answer has Content-Length last-first+1 and a Content-Range naming the offset and size; a full answer has Content-Length size and no Content-Range |
| Download.FullHeaders | glance/api/v2/image_data.py:451-452 | a read without a range answers 200 with Content-Length the image size and no Content-Range |
| Download.PartialHeaders | glance/api/v2/image_data.py:446-450 | a ranged read answers 206 with a Content-Range naming the offset, the last byte read and the size, and Content-Length the chunk |
| Download.ChunkHeaders | glance/api/v2/image_data.py:446-470 | headers built from a chunk of n bytes from offset to last describe exactly that chunk, whatever the image size |
| Download.FirstFiveBytesOfTen | glance/api/v2/image_data.py:403-406 | "bytes=0-4" of a 10-byte image reads 5 bytes from 0 and answers "bytes 0-4/10" |
| Download.LastTwoBytesOfTen | glance/api/v2/image_data.py:411-415 | "bytes=-2" of a 10-byte image reads 2 bytes from 8 and answers "bytes 8-9/10" |
| ImageData.Save | glance/api/v2/image_data.py:135-140 | a guarded save succeeds exactly when the saved status is the expected one; an injected fault is raised as given, an unknown image raises ImageNotFound, and a status mismatch raises Conflict |
| ImageData.Restore | glance/api/v2/image_data.py:56-71 | restore puts the image back to queued when its save succeeds, never raises, and touches no other image |
| ImageData.Kill | glance/api/v2/image_data.py:90-104 | the same, with status killed |
| ImageData.Unstage | glance/api/v2/image_data.py:73-88 | unstage deletes the staged bytes, ignores a missing file, always restores, and lets any other deletion error escape |
| ImageData.UnstageAlwaysRestores | glance/api/v2/image_data.py:73-88 | after unstage the image is queued, whatever the deletion did, when the compensating save goes through |
| ImageData.SaveSaving | glance/api/v2/image_data.py:139-148 | the final save succeeds exactly when the image is still saving and the first try succeeds, or NotAuthenticated was followed by a successful retry with a refresher |
| ImageData.ActivatedSave | glance/api/v2/image_data.py:137-158 | the final save inside the activation bracket stores the image or leaves the reservations as they were |
| ImageData.InnerBody | glance/api/v2/image_data.py:135-158 | the inner body completes only for a queued image whose bytes were written, which is then stored and its bytes kept; an error leaves the reservations as they were |
| ImageData.InnerHandlers | glance/api/v2/image_data.py:159-188 | a vanished or changed image answers 410 and an expired token 401, both deleting the bytes; other errors pass on unchanged |
| ImageData.UploadBody | glance/api/v2/image_data.py:112-188 | the try body completes only for a queued image, ending with it active and its bytes stored |
| ImageData.OuterHandlers | glance/api/v2/image_data.py:189-281 | no handler completes the upload or touches the quota tables |
| ImageData.Upload | glance/api/v2/image_data.py:106-281 | an upload completes only from queued and ends active with its bytes stored; a failed upload leaves the reservations as they were |
| ImageData.WriteFailureOutcome | glance/api/v2/image_data.py:159-281 | each error of the byte write ends with the answer and final status of the handler table: restored to queued (400, 410, 413, 503, 401, re-raised), killed (400) or left saving (404, 403, 409, 410); the restore and kill happen when the compensating save goes through |
| ImageData.HandledWriteFailure | glance/api/v2/image_data.py:159-281 | the inner and outer handlers turn each byte-write error on a saving image into the answer and final status of the independent table when the compensating save goes through, leaving the quota tables alone |
| ImageData.CompensationNeverMasks | glance/api/v2/image_data.py:56-281 | the answer of an upload does not depend on whether a compensating save fails |
| ImageData.QuotaFullRestoresQueued | glance/api/v2/image_data.py:189-198 | a refused reservation answers 403, deletes the bytes and holds no reservation, and restores queued when the compensating save goes through |
| ImageData.TokenRefreshRetriesOnce | glance/api/v2/image_data.py:139-188 | an expired token is retried once with a refresher; a second expiry or no refresher answers 401, deletes the bytes and restores queued when the compensating save goes through |
| ImageData.ConcurrentChangeIsGone | glance/api/v2/image_data.py:135-175 | an image deleted or changed under the upload answers 410, its bytes deleted and nothing else changed |
| ImageData.CompletedPrivateUploadIsCharged | glance/api/v2/image_data.py:137-158 | a completed upload of a non-public image with an owner leaves it holding reservations |
| ImageData.ActivatedSaveCharges | glance/api/v2/image_data.py:138-158 | an activation bracket that completes for a non-public image with an owner leaves it holding reservations |
| ImageData.BuildStagingStore | glance/api/v2/image_data.py:291-305 | the builder succeeds only with its one argument and a configured staging store |
| ImageData.StageBody | glance/api/v2/image_data.py:309-318 | the stage body completes exactly for a queued image whose staging write succeeds, leaving it uploading with its bytes staged |
| ImageData.StageHandlers | glance/api/v2/image_data.py:320-356 | no stage handler completes the call or touches the quota tables |
| ImageData.StageWithStore | glance/api/v2/image_data.py:309-356 | stage with a staging store completes exactly when its body does |
| ImageData.StageAsWritten | glance/api/v2/image_data.py:307 | as written, every stage raises TypeError and changes nothing |
| ImageData.Stage | glance/api/v2/image_data.py:284-356 | with the builder fixed, stage completes exactly when its body does, leaving the image uploading with its bytes staged; an unconfigured staging store raises BadStoreUri |
| ImageData.StageAlwaysRaisesTypeError | glance/api/v2/image_data.py:307 | even with every call succeeding, stage as written raises TypeError where the intended one stages the image |
| ImageData.WriteDeniedSkipsUnstage | glance/api/v2/image_data.py:344-350 | a denied staging write escapes as TypeError with the image left uploading, where the intended handler restores queued and answers 503 |
| ImageData.FailedStageRestoresQueued | glance/api/v2/image_data.py:320-356 | with the handlers intended, every failed stage of an image that is found leaves it queued when the compensating save goes through, whatever the staging delete does |
| ImageData.DownloadImage | glance/api/v2/image_data.py:358-372 | download finds the image, answers 404 when it is missing and 403 when it is deactivated and the caller is no administrator |

## Left out

- QuotaDriver.Exit: the database calls `quota_delete_reservations`, `quota_clear_reservations`, `quotas_get` and `quotas_set` are taken to succeed (only the commit may fail, as `commitError`). In the code, a delete that raises replaces the error of the block or of the commit, and its batch stays uncommitted in the table until the reservation's lease expires; QuotaDriver.NoReservationSurvivesError holds under this assumption.
- glance/db/sqlalchemy/api.py is not part of this model. Its answers are tables of `QuotaStore.Store`: `quotas_get_defaults`, `quota_get_usage`, and reservation creation, which is a boolean outcome. The threshold at which creation raises ProjectQuotaFull is not modelled.
- QuotaStore.QuotasSet: modelled as an upsert of one row per (scope, class), as the tables' unique constraint suggests; the database code itself is not shown.
- Reservation expiry, leases, concurrency and transaction atomicity are not modelled.
- Keystone (`ProjectUtils.get_domain`, `is_domain`, `get_projects`) is the `Identity.Keystone` record, which the API, the driver and the upload all take. A scope for which `is_domain` returns neither True nor False is not modelled.
- Policy enforcement, content-type checks, the JSON schema machinery, serialisation, logging and message texts are left out. This includes the "not restricted" display of any maximum that is not positive, at glance/api/v2/quotas.py:213-214.
- QuotaApi.SetQuotas: request keys outside the four quota classes cannot be represented, so the KeyError such a key raises in the validation loop is not modelled.
- The body-missing check of `_get_request_body` appears only as an absent body in `QuotaApi.DeserializeClassMap`.
- glance_store I/O is represented only by its outcomes. This covers set_data, staging add and delete, get_data, and safe_delete_from_backend. Failures of the cleanup calls `image.delete()` and `safe_delete_from_backend` are not modelled.
- The effect of `image.delete()` (image_data.py:169, 182) on the image proxy is not modelled: the proxy keeps its status, so the later re-queue of the 401 path is modelled as a save that may fail only through the compensation fault.
- The token refresher is an opaque flag. Building it and releasing its resources (errors logged and swallowed) are left out.
- ImageData.Upload: the error from a failed `image.status = 'queued'` inside `_restore` is folded into the compensating save's outcome.
- The effect of set_data on the image (one location, the size, the checksum, status active) is taken from the domain layer, which is not part of this model.
- The domain layer's status-transition rules are not computed. They appear only as the script's `statusFault`, the error raised when setting a status.
- Download range parsing and the 416 answer for unsatisfiable ranges happen in glance/common/wsgi.py, which is not part of this model; ranges arrive parsed.
- glance/api/v1/router.py (routing table) and the quota table migration are not modelled.
- The dead `self._restore(image_repo, image)` after the `raise` at glance/api/v2/image_data.py:318 has no behaviour. The outer handler restores the image anyway (`ImageData.StageHandlers`).

## Findings

| source | as written | input that shows it | evidently intended | confidence | as-written member | corrected member |
|---|---|---|---|---|---|---|
| glance/api/v2/image_data.py:291, 307 | the nested `_build_staging_store(self)` is called with no argument, so every stage raises TypeError before its `try` | any stage request, e.g. a queued image whose staging write would succeed | build the staging store and stage the image (status uploading, bytes staged) | not executed | ImageData.StageAsWritten, ImageData.StageAlwaysRaisesTypeError | ImageData.Stage |
| glance/api/v2/image_data.py:348 | the StorageWriteDenied handler calls `_unstage(image_repo, image)` without the staging store, raising TypeError; the image stays saved as uploading | a queued image whose staging write raises StorageWriteDenied | unstage, restore the image to queued and answer 503 | not executed | ImageData.StageWithStore, ImageData.WriteDeniedSkipsUnstage | ImageData.Stage, ImageData.FailedStageRestoresQueued |
