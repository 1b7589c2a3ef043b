/**
 * The correlation id each service attaches to an inbound request, shared by
 * both services' request middleware.
 */
module Correlation {
  import opened Wrappers

  /**
   * The request's correlation id: the `x-correlation-id` header when it is
   * present and non-empty (an empty header is falsy), otherwise the freshly
   * generated `freshId`.
   */
  function RequestCorrelationId(header: Option<string>, freshId: string): (id: string)
    ensures header.Some? && header.value != "" ==> id == header.value
    ensures header.None? || header.value == "" ==> id == freshId
  {
    if header.Some? && header.value != "" then header.value else freshId
  }

  /**
   * The id is never empty when the generator's ids are not, and a caller that
   * sends back the id the service echoed in its response header keeps that
   * same id, whatever fresh id the service would have generated.
   */
  lemma RequestCorrelationIdStable(header: Option<string>, freshId: string, otherFreshId: string)
    requires freshId != ""
    ensures RequestCorrelationId(header, freshId) != ""
    ensures var id := RequestCorrelationId(header, freshId);
            RequestCorrelationId(Some(id), otherFreshId) == id
  {
  }
}
