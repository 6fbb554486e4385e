/**
 * The cached value. In the repository a `ByteView` wraps a private byte slice
 * that is cloned on the way in and on the way out. Here the payload is an
 * immutable Dafny sequence, so a copy and its original are the same value.
 */
module ByteViews {

  newtype byte = b: int | 0 <= b < 256

  datatype ByteView = ByteView(b: seq<byte>)

  /** The zero value `ByteView{}` that `Group.Get` returns alongside an error. */
  const Empty: ByteView := ByteView([])
}
