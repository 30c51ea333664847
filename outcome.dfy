/**
 * Outcomes the library-namespace engine treats as fatal: the source stops the
 * process with LOG_ALWAYS_FATAL_IF. The model keeps them as a distinguished
 * result so that contracts can say exactly when the process would die.
 */
module Outcome {

  datatype FatalError =
    | BothVendorAndProduct          // the dex path names both the vendor and the product partition
    | NamespaceAlreadyExists        // Create was called for a class loader that already has a namespace
    | PreloadFailed(soname: string) // Initialize could not dlopen a default public library

  /** A computation that either yields a value or dies on a fatal error. */
  datatype Checked<+T> = Ok(value: T) | Fatal(error: FatalError)
}
