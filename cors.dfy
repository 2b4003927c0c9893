/** The CORS `origin` callback of the API server. */
module Cors {
  import opened Domain

  const AllowedOrigins: seq<string> := ["https://bnb-frontend-black.vercel.app", "http://localhost:3000"]

  /** The origin to echo in Access-Control-Allow-Origin, or None to refuse. */
  function AllowOrigin(origin: Option<string>): (r: Option<string>)
    ensures r.Some? ==> r == origin && r.value in AllowedOrigins
    ensures origin.Some? && origin.value in AllowedOrigins ==> r == origin
    ensures origin.None? || origin.value == "" ==> r.None?
  {
    if origin.None? || origin.value == "" then None
    else if origin.value in AllowedOrigins then origin
    else None
  }

  /** Preview deployments are not matched: only the two listed origins get through. */
  lemma PreviewOriginRefused()
    ensures AllowOrigin(Some("https://bnb-frontend-black-git-main.vercel.app")) == None
  {
  }
}
