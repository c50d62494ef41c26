/** The text req_pack prints for a request (request.c). */
module PackSpec {
  import opened Text
  import opened RequestSpec

  const CRLF := "\r\n"
  const LENGTH := "Content-Length"

  function VerbName(m: Method): string {
    match m
    case GET => "GET"
    case HEAD => "HEAD"
    case POST => "POST"
    case OTHER => "OTHER"
  }

  function FirstText(l: ReqLine): string {
    VerbName(l.verb) + " " + l.uri + " " + l.version + CRLF
  }

  function FieldText(key: string, val: string): string {
    key + ": " + val + CRLF
  }

  function HdrsText(hdrs: seq<Hdr>): string {
    if hdrs == [] then "" else FieldText(hdrs[0].key, hdrs[0].val) + HdrsText(hdrs[1..])
  }

  function FieldsText(h: ReqHead): string {
    FieldText("Host", h.host) + FieldText(LENGTH, Dec(h.clen)) + HdrsText(h.hdrs)
  }

  function PackText(v: ReqVal): string {
    FirstText(v.line) + FieldsText(v.head) + CRLF
  }
}
