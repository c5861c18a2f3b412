/** The API base URL of the front end (MODXX/src/api/axiosInstance.js): the
    configured VITE_API_URL, or a local default, normalised so that it ends
    in exactly one "/api/v1/". */
module AxiosInstance {
  import opened Common

  const DefaultUrl: string := "http://localhost:5000/api/v1"
  const ApiSuffix: string := "/api/v1"

  predicate IsSlash(c: char) { c == '/' }

  /** `url.replace(/\/+$/, "")`: every trailing '/' removed. */
  function StripTrailingSlashes(url: string): (r: string)
    ensures |r| <= |url| && r == url[..|r|]
    ensures forall i :: |r| <= i < |url| ==> url[i] == '/'
    ensures r != [] ==> r[|r| - 1] != '/'
  {
    TrimRight(url, IsSlash)
  }

  /** The normalised URL before its final '/'. */
  function WithSuffix(url: string): (r: string)
    ensures EndsWith(r, ApiSuffix)
  {
    var stripped := StripTrailingSlashes(url);
    if EndsWith(stripped, ApiSuffix) then stripped else stripped + ApiSuffix
  }

  /** getBaseURL, with the build-time VITE_API_URL as a parameter (None when
      unset). An empty value is falsy and also selects the default. */
  function GetBaseURL(env: Option<string>): (r: string)
    ensures EndsWith(r, ApiSuffix + "/")
  {
    var url := if env.Some? && env.value != "" then env.value else DefaultUrl;
    EndsWithAppend(WithSuffix(url), ApiSuffix, "/");
    WithSuffix(url) + "/"
  }

  /** API_URL and its alias BASE_URL denote the same value. */
  function ApiUrl(env: Option<string>): string { GetBaseURL(env) }
  function BaseUrl(env: Option<string>): string { ApiUrl(env) }

  /** Without a configured URL the default is used as is. */
  lemma DefaultWhenUnset()
    ensures GetBaseURL(None) == DefaultUrl + "/"
    ensures GetBaseURL(Some("")) == DefaultUrl + "/"
  {
    assert StripTrailingSlashes(DefaultUrl) == DefaultUrl;
    assert EndsWith(DefaultUrl, ApiSuffix);
  }

  /** A configured URL already ending in "/api/v1" (after its trailing
      slashes are dropped) gets only the final '/'; any other configured URL
      gets "/api/v1/" appended. */
  lemma SuffixAddedOnlyWhenMissing(url: string)
    requires url != ""
    ensures var s := StripTrailingSlashes(url);
      GetBaseURL(Some(url)) == if EndsWith(s, ApiSuffix) then s + "/" else s + ApiSuffix + "/"
  {
  }

  /** The result ends in exactly one '/'. */
  lemma SingleTrailingSlash(env: Option<string>)
    ensures var r := GetBaseURL(env); |r| >= 2 && r[|r| - 1] == '/' && r[|r| - 2] != '/'
  {
    var url := if env.Some? && env.value != "" then env.value else DefaultUrl;
    var w := WithSuffix(url);
    assert w[|w| - 1] == w[|w| - 7..][6];
  }

  /** Stripping a single '/' after a non-slash character. */
  lemma StripOneSlash(u: string)
    requires u != [] && u[|u| - 1] != '/'
    ensures StripTrailingSlashes(u + "/") == u
  {
    assert (u + "/")[..|u|] == u;
  }

  /** Normalising a normalised URL changes nothing. */
  lemma Idempotent(env: Option<string>)
    ensures GetBaseURL(Some(GetBaseURL(env))) == GetBaseURL(env)
  {
    var url := if env.Some? && env.value != "" then env.value else DefaultUrl;
    var u := WithSuffix(url);
    var r := u + "/";
    assert r == GetBaseURL(env);
    assert u[|u| - 1] == u[|u| - 7..][6];
    StripOneSlash(u);
    assert StripTrailingSlashes(r) == u;
  }
}
