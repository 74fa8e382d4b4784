/**
 * The front end's API configuration: the base URL, taken from the build
 * environment, and `getApiUrl`, which joins it with an endpoint path.
 */
module ApiConfig {
  import opened Wrappers

  const DefaultBaseUrl: string := "http://localhost:5000"

  /** `VITE_API_URL || 'http://localhost:5000'`: unset and empty both fall back. */
  function ApiBaseUrl(env: Option<string>): (base: string)
    ensures env.Some? && env.value != "" ==> base == env.value
    ensures env.None? || env.value == "" ==> base == DefaultBaseUrl
    ensures base != ""
  {
    if env.Some? && env.value != "" then env.value else DefaultBaseUrl
  }

  predicate StartsWithSlash(s: string) {
    |s| > 0 && s[0] == '/'
  }

  /** `getApiUrl`: drop one leading slash of the endpoint, then join with a single slash. */
  function GetApiUrl(env: Option<string>, endpoint: string): (url: string)
    ensures StartsWithSlash(endpoint) ==> url == ApiBaseUrl(env) + endpoint
    ensures !StartsWithSlash(endpoint) ==> url == ApiBaseUrl(env) + "/" + endpoint
  {
    var clean := if StartsWithSlash(endpoint) then endpoint[1..] else endpoint;
    assert StartsWithSlash(endpoint) ==> endpoint == "/" + endpoint[1..];
    ApiBaseUrl(env) + "/" + clean
  }

  /** Whatever the endpoint, the URL is the base, one slash, then the endpoint without one leading slash. */
  lemma UrlShape(env: Option<string>, endpoint: string)
    ensures var url := GetApiUrl(env, endpoint);
            var base := ApiBaseUrl(env);
            && url[..|base|] == base
            && url[|base|] == '/'
            && (if StartsWithSlash(endpoint) then "/" + url[|base| + 1..] == endpoint else url[|base| + 1..] == endpoint)
  {
  }

  /** A leading slash makes no difference. */
  lemma LeadingSlashIgnored(env: Option<string>, endpoint: string)
    requires !StartsWithSlash(endpoint)
    ensures GetApiUrl(env, "/" + endpoint) == GetApiUrl(env, endpoint)
  {
    assert StartsWithSlash("/" + endpoint);
  }

  /** Only one leading slash is dropped: `"//x"` keeps the other. */
  lemma OnlyOneSlashDropped(env: Option<string>, endpoint: string)
    ensures GetApiUrl(env, "//" + endpoint) == ApiBaseUrl(env) + "//" + endpoint
  {
    assert StartsWithSlash("//" + endpoint);
  }
}
