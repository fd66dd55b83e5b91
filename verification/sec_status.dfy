/** Result codes of Apple's Security framework, as declared in SecBase.h.
    Every keychain call returns one of these as an `OSStatus`, a signed
    32-bit integer. Only the codes this layer or its tests name appear here. */
module SecStatus {

  /** A signed 32-bit integer, the width of `OSStatus`. */
  newtype int32 = x: int | -0x8000_0000 <= x < 0x8000_0000

  type OSStatus = int32

  /** errSecSuccess: the call completed. */
  const Success: OSStatus := 0
  /** errSecItemNotFound: no item matches the query. */
  const ItemNotFound: OSStatus := -25300
  /** errSecDuplicateItem: an item with the same identity already exists. */
  const DuplicateItem: OSStatus := -25299
  /** errSecParam: a query attribute is missing or has the wrong type. */
  const Param: OSStatus := -50
  /** errSecBadReq: bad parameter or invalid state for the operation. */
  const BadReq: OSStatus := -909
  /** errSecInternalError: an internal error occurred. */
  const InternalError: OSStatus := -67671
  /** errSecMemoryError: a memory error occurred. */
  const MemoryError: OSStatus := -67672
}
