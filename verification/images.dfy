/** The image record as the image-data controller and the quota driver see it. */
module Images {

  import opened Wrappers

  type ImageId = string

  /** The lifecycle status of an image. */
  datatype Status =
    | Queued
    | Saving
    | Active
    | Killed
    | Deleted
    | PendingDelete
    | Deactivated
    | Uploading
    | Importing

  datatype Visibility = Public | Private | Shared | Community

  /** One entry of an image's `locations` list; only its url matters here. */
  datatype Location = Location(url: Option<string>)

  /** The image proxy. A field that a proxy may lack is an `Option`. */
  datatype Image = Image(
    id: ImageId,
    status: Status,
    size: Option<int>,
    visibility: Option<Visibility>,
    owner: Option<string>,
    extraProperties: map<string, string>,
    locations: seq<Location>,
    checksum: Option<string>)
}
