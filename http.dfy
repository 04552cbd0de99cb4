/** HTTP headers as the servlet container and Spring's HttpHeaders expose them. */
module Http {
  import opened Wrappers
  import opened Text

  /** One header: its name and its values in order. */
  datatype Header = Header(name: string, values: seq<string>)

  const CorrelationIdHeader := "correlation-id"

  /** HttpStatus: its value and its name. */
  datatype HttpStatus = HttpStatus(value: int, name: string)

  const Ok := HttpStatus(200, "OK")
  const BadRequest := HttpStatus(400, "BAD_REQUEST")

  /** A ResponseEntity: status, the headers added in order (a value may be
      null), and a possibly-null body. */
  datatype ResponseEntity<T> = ResponseEntity(status: int, headers: seq<(string, Option<string>)>, body: Option<T>)

  predicate Named(h: Header, name: string) {
    EqualsIgnoreCase(h.name, name)
  }

  /** getHeader(name) / getFirst(name), looked up header by header. */
  function FirstHeaderValue(headers: seq<Header>, name: string): Option<string> {
    if |headers| == 0 then None
    else if Named(headers[0], name) && |headers[0].values| > 0 then Some(headers[0].values[0])
    else FirstHeaderValue(headers[1..], name)
  }

  /** Names are matched without regard to case, and the answer is the first
      value of the first matching header that has one; null when no matching
      header has a value. */
  lemma {:induction false} FirstHeaderValueSpec(headers: seq<Header>, name: string)
    ensures var r := FirstHeaderValue(headers, name);
            (r.None? <==> forall i :: 0 <= i < |headers| && Named(headers[i], name) ==> |headers[i].values| == 0) &&
            (r.Some? ==>
               exists i :: 0 <= i < |headers| && Named(headers[i], name) && |headers[i].values| > 0 &&
                           r.value == headers[i].values[0] &&
                           forall k :: 0 <= k < i && Named(headers[k], name) ==> |headers[k].values| == 0)
    decreases |headers|
  {
    if |headers| > 0 && !(Named(headers[0], name) && |headers[0].values| > 0) {
      var tail := headers[1..];
      FirstHeaderValueSpec(tail, name);
      assert forall i :: 1 <= i < |headers| ==> headers[i] == tail[i - 1];
      var r := FirstHeaderValue(tail, name);
      if r.Some? {
        var i :| 0 <= i < |tail| && Named(tail[i], name) && |tail[i].values| > 0 &&
                 r.value == tail[i].values[0] &&
                 forall k :: 0 <= k < i && Named(tail[k], name) ==> |tail[k].values| == 0;
        assert headers[i + 1] == tail[i];
        forall k | 0 <= k < i + 1 && Named(headers[k], name)
          ensures |headers[k].values| == 0
        {
          if k > 0 {
            assert headers[k] == tail[k - 1];
          }
        }
      }
    }
  }
}
