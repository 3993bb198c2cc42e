/**
 * The part of `net/http`'s response writer the catalog handler uses, as a
 * recording object: the headers added, the status written, and what was
 * served as the body.
 */
module Http {
  import opened Outcomes
  import opened Catalog

  datatype Header = Header(key: string, value: string)

  /** What the handler sent as the body: nothing, a generated document, or a file of the tree. */
  datatype Body =
    | NoBody
    | Content(name: string, modTime: Time, doc: Document)
    | FileAt(path: string)

  const StatusOK := 200
  const StatusNotFound := 404

  class ResponseWriter {
    var headers: seq<Header>
    var status: Option<int>
    var body: Body

    /** A writer as the server hands it to a handler: nothing written yet. */
    constructor ()
      ensures headers == [] && status == None && body == NoBody
    {
      headers := [];
      status := None;
      body := NoBody;
    }

    /** `w.Header().Add(key, value)`. */
    method AddHeader(key: string, value: string)
      modifies this
      ensures headers == old(headers) + [Header(key, value)]
      ensures status == old(status) && body == old(body)
    {
      headers := headers + [Header(key, value)];
    }

    /** `w.WriteHeader(code)`: only the first status written counts. */
    method WriteHeader(code: int)
      modifies this
      ensures status == if old(status).None? then Some(code) else old(status)
      ensures headers == old(headers) && body == old(body)
    {
      if status.None? {
        status := Some(code);
      }
    }

    /** `http.ServeContent`: an OK status, unless one was written, and the document as the body. */
    method ServeContent(name: string, modTime: Time, doc: Document)
      modifies this
      ensures status == if old(status).None? then Some(StatusOK) else old(status)
      ensures body == Content(name, modTime, doc)
      ensures headers == old(headers)
    {
      if status.None? {
        status := Some(StatusOK);
      }
      body := Content(name, modTime, doc);
    }

    /** `http.ServeFile`: an OK status, unless one was written, and the file at `path` as the body. */
    method ServeFile(path: string)
      modifies this
      ensures status == if old(status).None? then Some(StatusOK) else old(status)
      ensures body == FileAt(path)
      ensures headers == old(headers)
    {
      if status.None? {
        status := Some(StatusOK);
      }
      body := FileAt(path);
    }
  }
}
