/** The body length cap shared by the inbound filter and the audit log service. */
module Truncation {
  import opened Wrappers

  const MaxBodyLength: nat := 10000
  const TruncatedMarker: string := "... [TRUNCATED]"

  /** A body longer than the cap becomes its first MaxBodyLength characters
      followed by the marker; a body within the cap is kept as it is. */
  function Truncate(body: string): (r: string)
    ensures |r| <= MaxBodyLength + |TruncatedMarker|
    ensures |body| <= MaxBodyLength ==> r == body
    ensures |body| > MaxBodyLength ==>
              |r| == MaxBodyLength + |TruncatedMarker| &&
              r[..MaxBodyLength] == body[..MaxBodyLength] && r[MaxBodyLength..] == TruncatedMarker
  {
    if |body| > MaxBodyLength then body[..MaxBodyLength] + TruncatedMarker else body
  }

  /** The same rule on a nullable body: null stays null. */
  function TruncateBody(body: Option<string>): (r: Option<string>)
    ensures r.None? <==> body.None?
    ensures r.Some? ==> r.value == Truncate(body.value)
  {
    match body
    case None => None
    case Some(b) => Some(Truncate(b))
  }

  /** Truncating an already truncated body changes nothing. */
  lemma TruncateIdempotent(body: string)
    ensures Truncate(Truncate(body)) == Truncate(body)
  {
    if |body| > MaxBodyLength {
      var once := Truncate(body);
      assert once[..MaxBodyLength] == body[..MaxBodyLength];
    }
  }

  lemma TruncateBodyIdempotent(body: Option<string>)
    ensures TruncateBody(TruncateBody(body)) == TruncateBody(body)
  {
    if body.Some? {
      TruncateIdempotent(body.value);
    }
  }
}
