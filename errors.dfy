/**
 * The failures the card layer reports. Go wraps each failure in a message string; the model keeps only
 * which failure it is. `IndexOutOfRange` stands for a Go run-time panic on an unguarded index or slice.
 */
module Errors {

  /** Failures of the TLV and BER parsers (card/cardErrors, card/ber.go and the tree operations). */
  datatype ParseError =
    | InvalidLength          // `ErrInvalidLength`, and `ERROR_INVALID_LENGTH` of card/ber.go
    | InvalidFormat          // `ErrInvalidFormat`: the indefinite length form 0x80
    | EmptyData              // card/card.go `checkParseTLVData`
    | TagNotFound            // `access` on a path the tree does not have
    | AddIntoPrimitive       // `add` into a leaf
    | TypesDontMatch         // `add` of a leaf onto a constructed node or the reverse
    | TagsDontMatch          // `Merge` of trees with different root tags
    | IndexOutOfRange        // Go would panic reading past the end of the input

  /** Failures of the per-family card readers. */
  datatype CardError =
    | TransportError         // `Transmit` returned an error
    | BadStatusCode          // READ BINARY answered with fewer than two bytes
    | FileTooShort
    | InvalidFileHeader
    | HeaderOutOfRange       // Go would panic reading a file header
    | NotSelected            // a SELECT was not answered with 90 00
    | UnknownCardType
    | CardNotResponsive
    | OldPinNotValid
    | NewPinNotValid
    | VerifyFailed
    | ChangeFailed
    | StatusFailed           // `Status` of the card failed
    | Parse(cause: ParseError)
}
