/** Configuration of the HTTP node and its validation. */
module HttpParams {
  import opened Wrappers
  import opened Strings
  import opened Nodes

  const DEFAULT_METHOD: string := "GET"
  const URL_EMPTY: string := "URL cannot be empty"

  datatype HttpParams = HttpParams(url: string, httpMethod: string)

  /** Builds the parameters from the configured fields; an absent method becomes GET. */
  function FromConfig(url: string, httpMethod: Option<string>): (p: HttpParams)
    ensures p.url == url
    ensures httpMethod.None? ==> p.httpMethod == DEFAULT_METHOD
    ensures httpMethod.Some? ==> p.httpMethod == httpMethod.value
  {
    HttpParams(url, httpMethod.GetOr(DEFAULT_METHOD))
  }

  /** Rejects a URL that is empty after trimming; the method is never checked. */
  function Validate(p: HttpParams): (r: Result<(), NodeError>)
    ensures r.Err? <==> AllWhitespace(p.url)
    ensures r.Err? ==> r.error == InvalidConfig(URL_EMPTY)
  {
    TrimEmptyIffBlank(p.url);
    if Trim(p.url) == [] then Err(InvalidConfig(URL_EMPTY)) else Ok(())
  }

  /** Any URL holding a non-whitespace character passes, whatever the method. */
  lemma NonBlankUrlPasses(url: string, httpMethod: string, i: nat)
    requires i < |url| && !IsWhitespace(url[i])
    ensures Validate(HttpParams(url, httpMethod)).Ok?
  {
  }

  /** The method has no influence on the verdict. */
  lemma MethodIgnored(p: HttpParams, m: string)
    ensures Validate(p.(httpMethod := m)) == Validate(p)
  {
  }
}
