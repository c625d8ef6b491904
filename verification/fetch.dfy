/**
 * The parts of the Fetch2 download library the Android code reads: download
 * statuses, requests and the download records the library reports. The
 * library itself (its queue, network and storage) is not part of this model.
 */
module Fetch {

  datatype Status =
    | NoStatus | Queued | Downloading | Paused | Completed | Cancelled | Failed | Removed | Deleted | Added

  /** A request as the plugin builds it; `id` is the number the library derives for it. */
  datatype Request = Request(id: int, url: string, file: string, headers: map<string, string>)

  /** One download as the library reports it to listeners and to the notification manager. */
  datatype Download = Download(
    id: int,
    requestId: int,
    url: string,
    status: Status,
    group: int,
    progress: int,
    etaInMilliSeconds: int,
    downloadedBytesPerSecond: int,
    total: int,
    downloaded: int,
    namespace: string)
}
