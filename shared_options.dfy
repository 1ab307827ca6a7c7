/** The connection options every command shares (`SharedOptions`): the server
    URL, completed with a scheme the first time it is read, the API key, read
    from the environment when a variable name is given, and a description that
    never shows the key. */
module SharedOptionsModel {
  import opened Lang

  const DEFAULT_SERVER_URL: string := "http://localhost:8081"

  /** Case-sensitive `String.startsWith`. */
  predicate StartsWith(s: string, prefix: string) {
    |prefix| <= |s| && s[..|prefix|] == prefix
  }

  /** The server URL after `getFullServerRootUrl`: a non-blank URL that does
      not start with "http" (case-sensitively) gets "http://" in front. */
  function FullServerRootUrl(url: JStr): (r: JStr)
    ensures IsBlank(url) ==> r == url
    ensures !IsBlank(url) ==> r.Str? && StartsWith(r.s, "http")
    ensures url.Str? && StartsWith(url.s, "http") ==> r == url
    ensures !IsBlank(url) && !StartsWith(url.s, "http") ==> r == Str("http://" + url.s)
  {
    if !IsBlank(url) && !StartsWith(url.s, "http") then
      var r := "http://" + url.s;
      assert r[..4] == "http";
      Str(r)
    else url
  }

  /** Reading the URL twice changes nothing more. */
  lemma FullServerRootUrlIdempotent(url: JStr)
    ensures FullServerRootUrl(FullServerRootUrl(url)) == FullServerRootUrl(url)
  {
    if !IsBlank(url) && !StartsWith(url.s, "http") {
      var r := "http://" + url.s;
      assert r[..4] == "http";
      assert !IsBlank(Str(r)) by { assert r[0] == 'h' && !IsWhitespace(r[0]); }
    }
  }

  /** The scheme test is case-sensitive: an upper-case scheme is prefixed
      once more. */
  lemma UpperCaseSchemeIsPrefixed()
    ensures FullServerRootUrl(Str("HTTP://host")) == Str("http://HTTP://host")
  {
    var u := "HTTP://host";
    assert u[0] == 'H' && !IsWhitespace(u[0]);
    assert u[..4] != "http" by { assert u[..4][0] == 'H'; }
  }

  /** `List.toString` for the unmatched options; an absent list prints "null". */
  function ListText(xs: Option<seq<string>>): (r: string)
    ensures xs.None? ==> r == "null"
    ensures xs.Some? ==> |r| >= 2 && r[0] == '[' && r[|r| - 1] == ']'
  {
    match xs
    case None => "null"
    case Some(items) => "[" + Joined(items) + "]"
  }

  /** The items separated by ", ". */
  function Joined(items: seq<string>): string {
    if items == [] then ""
    else if |items| == 1 then items[0]
    else items[0] + ", " + Joined(items[1..])
  }

  lemma PrefixOfConcat(a: string, b: string)
    ensures StartsWith(a + b, a)
  {
    assert (a + b)[..|a|] == a;
  }

  /** The description of the options: every field but the key, whose place
      reads "omitted". The key is not a parameter, so it cannot show. */
  function Describe(serverRootUrl: JStr, apiKeyEnvVariable: JStr, username: JStr,
                    unmatchedOptions: Option<seq<string>>): (r: string)
    ensures StartsWith(r, "SharedOptions{serverRootUrl='" + Show(serverRootUrl) + "', apiKey='omitted'")
    ensures |r| > 0 && r[|r| - 1] == '}'
  {
    var head := "SharedOptions{serverRootUrl='" + Show(serverRootUrl) + "', apiKey='omitted'";
    var tail := ", apiKeyEnvVariable='" + Show(apiKeyEnvVariable) + "'"
                + ", username='" + Show(username) + "'"
                + ", unmatchedOptions=" + ListText(unmatchedOptions) + "}";
    PrefixOfConcat(head, tail);
    head + tail
  }

  /** `SharedOptions`. */
  class SharedOptions {
    var serverRootUrl: JStr
    var apiKey: JStr
    var apiKeyEnvVariable: JStr
    var username: JStr
    var unmatchedOptions: Option<seq<string>>

    /** The option defaults: the local server URL, nothing else set. */
    constructor ()
      ensures serverRootUrl == Str(DEFAULT_SERVER_URL)
      ensures apiKey == Null && apiKeyEnvVariable == Null && username == Null && unmatchedOptions.None?
    {
      serverRootUrl := Str(DEFAULT_SERVER_URL);
      apiKey, apiKeyEnvVariable, username := Null, Null, Null;
      unmatchedOptions := None;
    }

    /** `getApiKeyValue`: the value of the named environment variable (null
        when it is not set) whenever a variable name was given, the key
        option otherwise. */
    function GetApiKeyValue(env: map<string, string>): (r: JStr)
      reads this
      ensures apiKeyEnvVariable.Null? ==> r == apiKey
      ensures apiKeyEnvVariable.Str? && apiKeyEnvVariable.s in env ==> r == Str(env[apiKeyEnvVariable.s])
      ensures apiKeyEnvVariable.Str? && apiKeyEnvVariable.s !in env ==> r == Null
    {
      match apiKeyEnvVariable
      case Null => apiKey
      case Str(name) => if name in env then Str(env[name]) else Null
    }

    /** `getFullServerRootUrl`: completes the stored URL in place and returns it. */
    method GetFullServerRootUrl() returns (url: JStr)
      modifies this`serverRootUrl
      ensures url == serverRootUrl == FullServerRootUrl(old(serverRootUrl))
    {
      if !IsBlank(serverRootUrl) && !StartsWith(serverRootUrl.s, "http") {
        serverRootUrl := Str("http://" + serverRootUrl.s);
      }
      url := serverRootUrl;
    }

    /** `toString`. */
    function ToString(): string
      reads this
    {
      Describe(serverRootUrl, apiKeyEnvVariable, username, unmatchedOptions)
    }
  }

  /** Two option sets that differ only in their key describe themselves alike. */
  lemma ToStringHidesApiKey(a: SharedOptions, b: SharedOptions)
    requires a.serverRootUrl == b.serverRootUrl && a.apiKeyEnvVariable == b.apiKeyEnvVariable
    requires a.username == b.username && a.unmatchedOptions == b.unmatchedOptions
    ensures a.ToString() == b.ToString()
  {
  }
}
