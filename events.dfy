/**
 * The progress dictionaries exchanged between the downloader, the clipper, the worker
 * and the window, keyed by their 'status' entry.
 */
module Events {
  datatype Event =
    | Info(message: string)                         // {'status': 'info', 'message': …}
    | Downloading(percent: real, totalBytes: nat)   // {'status': 'downloading', 'percent': …, 'total_bytes': …}
    | FinishedDownload(filepath: string)            // {'status': 'finished_download', 'filepath': …}
    | Clipping(message: string)                     // {'status': 'clipping', 'message': …}
    | Finished(message: string)                     // {'status': 'finished', 'message': …}
    | Error(message: string)                        // {'status': 'error', 'error' or 'message': …}

  /** The statuses after which a job reports nothing more. */
  predicate IsTerminal(e: Event) {
    e.Finished? || e.Error?
  }

  /** An exception raised inside a background stage, as far as the handlers tell them apart. */
  datatype Fault = FileNotFound | OtherFault(text: string)
}
