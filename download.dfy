/** The per-transfer record of one preview download. */
module Downloads {
  import opened Optional

  /** An opaque handle on the platform's download task. */
  datatype DownloadTask = DownloadTask(taskIdentifier: nat)

  /** The platform's opaque blob for continuing a paused transfer. */
  type ResumeData = seq<bv8>

  /** State of one download; the source URL identifies it. */
  class Download {
    var url: string
    var isDownloading: bool
    var progress: real
    var downloadTask: Option<DownloadTask>
    var resumeData: Option<ResumeData>

    /** A new record for `url`: not downloading, no progress, no task, no resume data. */
    constructor (url: string)
      ensures this.url == url
      ensures !isDownloading
      ensures progress == 0.0
      ensures downloadTask.None? && resumeData.None?
    {
      this.url := url;
      isDownloading := false;
      progress := 0.0;
      downloadTask := None;
      resumeData := None;
    }
  }
}
