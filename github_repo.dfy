/**
  `src/shared/utils/githubRepo.ts`: the `owner/repo` part of a GitHub
  repository address.
*/
module GitHubRepo {
  import opened Text

  const HttpsPrefix: string := "https://github.com/"
  const HttpPrefix: string := "http://github.com/"

  /** `s` begins with `prefix` when letters are compared without case (the
      `i` flag; both prefixes are ASCII, so ASCII case folding is exact). */
  predicate StartsWithNoCase(s: string, prefix: string) {
    |prefix| <= |s| && ToLower(s[..|prefix|]) == prefix
  }

  /** The first replace: `/^https?:\/\/github\.com\//i` removed once. */
  function StripHost(url: string): (r: string)
    ensures StartsWithNoCase(url, HttpsPrefix) ==> r == url[|HttpsPrefix|..]
    ensures StartsWithNoCase(url, HttpPrefix) ==> r == url[|HttpPrefix|..]
    ensures !StartsWithNoCase(url, HttpsPrefix) && !StartsWithNoCase(url, HttpPrefix) ==> r == url
  {
    PrefixesExclusive(url);
    if StartsWithNoCase(url, HttpsPrefix) then url[|HttpsPrefix|..]
    else if StartsWithNoCase(url, HttpPrefix) then url[|HttpPrefix|..]
    else url
  }

  /** The two prefixes never both apply: the fifth character is `s` in one
      and `:` in the other. */
  lemma PrefixesExclusive(url: string)
    ensures !(StartsWithNoCase(url, HttpsPrefix) && StartsWithNoCase(url, HttpPrefix))
  {
    if StartsWithNoCase(url, HttpsPrefix) {
      assert ToLowerChar(url[4]) == ToLower(url[..|HttpsPrefix|])[4] == 's';
      assert !StartsWithNoCase(url, HttpPrefix) by {
        assert ToLower(url[..|HttpPrefix|])[4] == ToLowerChar(url[4]);
      }
    }
  }

  /** The second replace: one trailing `/` removed. */
  function StripSlash(s: string): (r: string)
    ensures |s| > 0 && s[|s| - 1] == '/' ==> r == s[..|s| - 1]
    ensures (|s| == 0 || s[|s| - 1] != '/') ==> r == s
  {
    if |s| > 0 && s[|s| - 1] == '/' then s[..|s| - 1] else s
  }

  /** `getRepoDisplayName`: an address with neither a host prefix nor a
      trailing slash is kept as it is. */
  function GetRepoDisplayName(url: string): (r: string)
    ensures (!StartsWithNoCase(url, HttpsPrefix) && !StartsWithNoCase(url, HttpPrefix)
             && (|url| == 0 || url[|url| - 1] != '/')) ==> r == url
    ensures |r| <= |url|
  {
    StripSlash(StripHost(url))
  }

  /** The display name is a piece of the address: what is left between the
      removed host prefix (if any) and the removed slash (if any). */
  lemma DisplayNameIsInner(url: string) returns (i: nat)
    ensures var r := GetRepoDisplayName(url);
      i + |r| <= |url| && r == url[i..i + |r|]
  {
    var h := StripHost(url);
    var r := StripSlash(h);
    i := |url| - |h|;
    assert h == url[i..] by {
      if StartsWithNoCase(url, HttpsPrefix) {
        assert h == url[|HttpsPrefix|..];
      } else if StartsWithNoCase(url, HttpPrefix) {
        assert h == url[|HttpPrefix|..];
      }
    }
    assert r == h[..|r|];
    assert r == url[i..i + |r|];
  }

  /** The prefix goes once: a second copy after it stays. */
  lemma PrefixRemovedOnce(rest: string)
    requires |rest| > 0 && rest[|rest| - 1] != '/'
    ensures GetRepoDisplayName(HttpsPrefix + HttpsPrefix + rest) == HttpsPrefix + rest
  {
    var url := HttpsPrefix + HttpsPrefix + rest;
    assert url[..|HttpsPrefix|] == HttpsPrefix;
    assert ToLower(HttpsPrefix) == HttpsPrefix;
    assert url[|HttpsPrefix|..] == HttpsPrefix + rest;
    assert (HttpsPrefix + rest)[|HttpsPrefix + rest| - 1] == rest[|rest| - 1];
  }

  lemma DisplayNameExamples()
    ensures GetRepoDisplayName("https://github.com/owner/repo") == "owner/repo"
    ensures GetRepoDisplayName("HTTP://GitHub.com/owner/repo/") == "owner/repo"
  {
    var a := "https://github.com/owner/repo";
    assert a[..19] == HttpsPrefix;
    assert ToLower(HttpsPrefix) == HttpsPrefix;
    var b := "HTTP://GitHub.com/owner/repo/";
    assert ToLower(b[..18]) == HttpPrefix;
    assert b[4] == ':';
    assert !StartsWithNoCase(b, HttpsPrefix) by {
      assert ToLower(b[..19])[4] == ':';
    }
  }
}
