/** The records the storage package and the background script exchange
    (packages/storage/lib/types.ts). They carry no behaviour. */
module StorageTypes {

  /** Where on the site a video listing was found. */
  datatype VideoKind = Homepage | Sidebar | Search

  /** A detected video as the content script reports it. The page
      element it came from does not survive cross-context messaging and
      is not part of this record. */
  datatype VideoData = VideoData(
    videoId: string,
    title: string,
    thumbnail: string,
    channel: string,
    channelId: string,
    views: string,
    videoType: string,
    kind: VideoKind)

  /** A video the filtering service flagged, with the time it was
      flagged as an ISO-8601 string. */
  datatype BlockedVideoDetails = BlockedVideoDetails(
    videoId: string,
    title: string,
    channel: string,
    channelId: string,
    thumbnail: string,
    videoType: string,
    detectedAt: string)
}
