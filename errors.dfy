/** The errors that travel through the pipeline. */
module Errors {

  /**
   * `Message` is an error produced by a collaborator outside the model
   * (the package loader, the regular-expression compiler, the template
   * engine or the code formatter), known only by its text.
   * `LoadingPackages` is `ErrLoadingPackages`.
   * `Formatting` is a `*FormatterError`: the formatter's own error and the
   * unformatted code.
   * `Panic` is a Go run-time panic, with the runtime's message.
   */
  datatype Error =
    | Message(text: string)
    | LoadingPackages
    | Formatting(OrigErr: Error, Code: string)
    | Panic(reason: string)
}
