/** The typed requests and results the adapters accept and produce. The
    Swift sources declare several of these twice; this is one record per
    operation. */
module Domain {
  import opened SecItem

  /** A new item: namespace, key within it, and the secret bytes. */
  datatype WriteParams = WriteParams(application: string, identifier: string, secure: seq<byte>)

  datatype ReadParams = ReadParams(application: string, identifier: string)

  datatype ReadResult = ReadResult(secure: seq<byte>)

  /** A replacement secret for an existing item. */
  datatype UpdateParams = UpdateParams(application: string, identifier: string, security: seq<byte>)

  /** The delete request also carries a textual secret, which deleting
      does not use. */
  datatype DeleteParams = DeleteParams(application: string, identifier: string, security: string)

  datatype ListParams = ListParams(application: string)

  /** One listed item, its secret decoded as text. */
  datatype ListResult = ListResult(application: string, identifier: string, security: string)
}
