/**
 * `getPlayableUrl` of the frontend (frontend/src/App.jsx): on a page served
 * over https, a channel URL with the plain `http://` scheme cannot be played
 * directly (mixed content), so it is sent through the worker's
 * `/proxy?url=` endpoint; every other URL is played as it is.
 *
 * `encodeURIComponent` is a parameter: it yields `None` where the
 * JavaScript function throws, which the source's `catch` turns into `null`.
 */
module PlayableUrl {
  import opened JsString

  const ProxyPath := "/proxy?url="

  /** The lower-cased URL begins with `http://`. */
  predicate IsHttp(url: string) {
    StartsWith(ToLower(url), HttpScheme)
  }

  /** The link to the worker's proxy for an encoded URL. */
  function ProxyLink(apiBase: string, encoded: string): string {
    apiBase + ProxyPath + encoded
  }

  /**
   * The URL to hand to the player for `original` (`None` stands for `null`
   * and `undefined`), on a page that is or is not served over https.
   */
  function GetPlayableUrl(original: Option<string>, pageHttps: bool, apiBase: string,
                          encode: string -> Option<string>): (r: Option<string>)
    ensures r.Some? ==> original.Some? && original.value != []
    ensures r.Some? && r.value != original.value ==> IsHttp(original.value) && pageHttps
  {
    if original.None? || original.value == [] then None
    else
      var url := original.value;
      if IsHttp(url) && pageHttps then
        match encode(url)
        case None => None
        case Some(e) => Some(ProxyLink(apiBase, e))
      else Some(url)
  }

  /** A missing or empty URL has nothing to play. */
  lemma NothingToPlay(original: Option<string>, pageHttps: bool, apiBase: string,
                      encode: string -> Option<string>)
    requires original.None? || original.value == []
    ensures GetPlayableUrl(original, pageHttps, apiBase, encode) == None
  {
  }

  /** A URL that is not `http://`, or any URL on a page not served over https, is played unchanged. */
  lemma PlayedDirectly(url: string, pageHttps: bool, apiBase: string, encode: string -> Option<string>)
    requires url != [] && !(IsHttp(url) && pageHttps)
    ensures GetPlayableUrl(Some(url), pageHttps, apiBase, encode) == Some(url)
  {
  }

  /**
   * An `http://` URL on an https page whose encoding succeeds becomes exactly
   * the proxy link for that encoding, whatever decoder the server uses.
   */
  lemma ProxiedLink(url: string, apiBase: string, encode: string -> Option<string>)
    requires url != [] && IsHttp(url) && encode(url).Some?
    ensures GetPlayableUrl(Some(url), true, apiBase, encode) == Some(ProxyLink(apiBase, encode(url).value))
  {
  }

  /**
   * An `http://` URL on an https page goes through the proxy: the link is the
   * proxy path under the API base followed by the encoded URL, and decoding
   * its query gives back the original URL whenever `decode` undoes `encode`.
   */
  lemma ProxiedRoundTrip(url: string, apiBase: string, encode: string -> Option<string>,
                         decode: string -> string)
    requires url != [] && IsHttp(url)
    requires encode(url).Some? && decode(encode(url).value) == url
    ensures GetPlayableUrl(Some(url), true, apiBase, encode) == Some(ProxyLink(apiBase, encode(url).value))
    ensures var r := GetPlayableUrl(Some(url), true, apiBase, encode);
            && r.Some? && StartsWith(r.value, apiBase + ProxyPath)
            && decode(r.value[|apiBase + ProxyPath|..]) == url
  {
    var e := encode(url).value;
    var link := ProxyLink(apiBase, e);
    assert link[..|apiBase + ProxyPath|] == apiBase + ProxyPath;
    assert link[|apiBase + ProxyPath|..] == e;
  }

  /** An `http://` URL on an https page whose encoding fails yields nothing, as the `catch` does. */
  lemma EncodingFailure(url: string, apiBase: string, encode: string -> Option<string>)
    requires url != [] && IsHttp(url) && encode(url).None?
    ensures GetPlayableUrl(Some(url), true, apiBase, encode) == None
  {
  }

  lemma LowerPrefix(a: string, b: string, n: nat)
    requires n <= |a|
    ensures ToLower(a + b)[..n] == ToLower(a)[..n]
  {
    assert forall i :: 0 <= i < n ==> (a + b)[i] == a[i];
  }

  /**
   * A playable URL stays as it is when made playable again, as long as the
   * API base is not itself an `http://` address: the proxy link is then
   * never proxied a second time.
   */
  lemma PlayableStable(original: Option<string>, pageHttps: bool, apiBase: string,
                       encode: string -> Option<string>)
    requires !IsHttp(apiBase + ProxyPath)
    requires GetPlayableUrl(original, pageHttps, apiBase, encode).Some?
    ensures var r := GetPlayableUrl(original, pageHttps, apiBase, encode);
            GetPlayableUrl(r, pageHttps, apiBase, encode) == r
  {
    var r := GetPlayableUrl(original, pageHttps, apiBase, encode);
    var url := original.value;
    if IsHttp(url) && pageHttps {
      var e := encode(url).value;
      var p := apiBase + ProxyPath;
      assert r.value == p + e;
      LowerPrefix(p, e, |HttpScheme|);
      assert !IsHttp(r.value);
    }
  }
}
