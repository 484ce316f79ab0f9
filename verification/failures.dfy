/** The exception kinds the quota bracket and the image-data controller tell apart. */
module Failures {

  /** One kind of raised error, named after the exception class that carries it. */
  datatype Failure =
    | ImageNotFound            // exception.ImageNotFound, a kind of exception.NotFound
    | NotFound                 // any other exception.NotFound
    | StoreNotFound            // glance_store.NotFound
    | Conflict                 // exception.Conflict, e.g. a failed from_state guard
    | NotAuthenticated         // exception.NotAuthenticated
    | ProjectQuotaFull         // exception.ProjectQuotaFull, raised by reservation creation
    | ValueError               // Python's ValueError
    | StoreAddDisabled         // glance_store.StoreAddDisabled
    | InvalidStatusTransition  // exception.InvalidImageStatusTransition
    | Forbidden                // exception.Forbidden
    | StorageFull              // glance_store.StorageFull
    | StorageQuotaFull         // exception.StorageQuotaFull
    | ImageSizeLimitExceeded   // exception.ImageSizeLimitExceeded
    | StorageWriteDenied       // glance_store.StorageWriteDenied
    | SignatureVerification    // cursive's SignatureVerificationError
    | Duplicate                // glance_store.Duplicate
    | BadStoreUri              // exception.BadStoreUri
    | TypeError                // Python's TypeError
    | Unexpected               // any other Exception
}
