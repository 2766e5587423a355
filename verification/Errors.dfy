/** The error values of the flash driver, the transfer layer and the container parser. */
module Errors {
  import opened Bits

  datatype Error =
    | Nil
    | ErrInvalidOffsetSize
    | ErrInvalidPage
    | ErrInvalidPageRange
    | ErrInvalidPageSize
    | ErrOperationNOK
    | ErrUnsupported
    | ErrNotReady(status: u8)
    | ErrIo                    // the bus, the USB link or the underlying reader or writer failed
    | ErrCanceled
    | ErrDeadlineExceeded
    | ErrEOF
    | ErrUnexpectedEOF
    | ErrInvalidHead
    | ErrInvalidCrc
    | ErrDecompress
    | ErrInvalidULength
    | ErrInvalidEndOfBlob
    | ErrNesting               // a nesting bound of the model was reached
    | ErrInvalidRoot
    | ErrDuplicateMetadata
    | ErrMetadataChildren
    | ErrMetadataFormat
    | ErrDuplicateAsset
    | ErrAssetChildren
    | ErrInvalidBufferForByteswap
    | ErrCannotDetectByteswap
    | ErrInvalidCompletion
    | ErrTransferFailed
    | Panic                    // a slice bounds panic of the Go runtime

  /** What a context may report. */
  type ContextError = e: Error | e.Nil? || e.ErrCanceled? || e.ErrDeadlineExceeded? witness Nil

  /** What a driver operation may report: neither a panic nor a verdict on a whole transfer. */
  type DriverError = e: Error | e != Panic && e != ErrTransferFailed witness Nil
}
