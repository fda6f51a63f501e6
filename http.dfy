/**
 * The JSON responses the Next.js route handlers answer with: a status, a body that is
 * either a page envelope or an `{ error }` object, and an optional `Cache-Control` header.
 */
module HttpResponses {
  import opened Wrappers
  import opened PaperTypes

  datatype Body = PageBody(page: PapersResponse) | ErrorBody(error: string)

  datatype Response = Response(status: nat, body: Body, cacheControl: Option<string>)

  /** The header that lets a CDN keep a listing for five minutes and serve it stale for ten. */
  const EdgeCaching: string := "public, s-maxage=300, stale-while-revalidate=600"

  /** `NextResponse.json(page, { headers })` for a page that may be cached at the edge. */
  function EdgeCachedPage(page: PapersResponse): Response {
    Response(200, PageBody(page), Some(EdgeCaching))
  }

  /** `NextResponse.json({ error }, { status })`. */
  function ErrorResponse(error: string, status: nat): Response {
    Response(status, ErrorBody(error), None)
  }
}
