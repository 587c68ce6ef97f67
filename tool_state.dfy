/** What every tool page shows and produces: its status, and the files it hands
    to the browser for download. */
module ToolState {
  import opened PdfLib

  /** The status a tool shows after a handler has run. (The intermediate
      "processing" status lasts only while a handler runs and is not modelled.) */
  datatype Status = Idle | Success | Error

  /** What a download carries: a saved document of the PDF library, or the
      bytes an external routine returned. */
  datatype Payload = Pdf(doc: Saved) | Bytes(data: seq<bv8>)

  /** One file handed to the browser, with the name it is saved under. */
  datatype Download = Download(name: string, payload: Payload)
}
