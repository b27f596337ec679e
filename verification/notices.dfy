/** The status messages the watcher hands to its callback (the GUI's log
    pane). Exception texts are not modelled, only which message is sent. */
module Notices {

  datatype Notice =
    | LogPathSet(path: string)          // "log file set: {path}"; the path may be the text "None"
    | NewLogPath(path: string)          // "new log file path: {path}"
    | LatestLogFound(path: string)      // "found the newest Power.log: {path}"
    | WaitingForGame                    // "waiting for the game to start..."
    | LogsDirMissing(installPath: string)
    | NoLogFolders
    | HandError
    | FieldError
    | GraveError
    | AllCardsError
    | TransientError                    // "temporary error... retrying"
    | WatcherStopped

  /** The message, if there is a callback to receive it (`if self.callback: self.callback(...)`). */
  function Say(hasCallback: bool, n: Notice): seq<Notice>
  {
    if hasCallback then [n] else []
  }
}
