/**
  `src/shared/utils/getGitHubAvatar.ts`: the owner's avatar for a repository
  title of the form `owner/repo`.
*/
module GitHubAvatar {
  import opened Wrappers
  import opened Text

  /** The address GitHub serves a user's avatar at. */
  function AvatarUrl(user: string): string {
    "https://github.com/" + user + ".png"
  }

  /** What `split('/')` gives: a second piece exactly when there is a `/`,
      and a first piece that is the text before the first one. */
  lemma SplitOnSlash(s: string)
    ensures |Split(s, '/')| >= 2 <==> '/' in s
    ensures '/' in s ==> Split(s, '/')[0] == s[..IndexOf(s, '/')]
  {
    if '/' in s {
      SplitAtFirstSeparator(s, '/', IndexOf(s, '/'));
    } else {
      SplitWithoutSeparator(s, '/');
    }
  }

  /** `getGitHubAvatar`: no avatar for an empty title, for a title without a
      `/`, or when the part before the first `/` is blank; otherwise the
      avatar of that part, trimmed. What follows the first `/` is ignored. */
  function GetGitHubAvatar(repositoryTitle: string): (r: Option<string>)
    ensures repositoryTitle == "" ==> r.None?
    ensures '/' !in repositoryTitle ==> r.None?
    ensures '/' in repositoryTitle ==>
      var owner := repositoryTitle[..IndexOf(repositoryTitle, '/')];
      r == if IsBlank(owner) then None else Some(AvatarUrl(Trim(owner)))
  {
    if repositoryTitle == "" then None
    else
      var parts := Split(repositoryTitle, '/');
      SplitOnSlash(repositoryTitle);
      if |parts| < 2 then None
      else
        var username := Trim(parts[0]);
        TrimEmptyIffBlank(parts[0]);
        if username == "" then None
        else Some(AvatarUrl(username))
  }

  /** The text after the first `/` never changes the answer. */
  lemma RepoNameIgnored(owner: string, repo: string, other: string)
    requires '/' !in owner
    ensures GetGitHubAvatar(owner + "/" + repo) == GetGitHubAvatar(owner + "/" + other)
  {
    var a := owner + "/" + repo;
    var b := owner + "/" + other;
    IndexOfAt(a, '/', |owner|);
    IndexOfAt(b, '/', |owner|);
    assert a[..|owner|] == owner == b[..|owner|];
  }

  lemma AvatarExample()
    ensures GetGitHubAvatar(" a /b") == Some(AvatarUrl("a"))
    ensures GetGitHubAvatar("  /b") == None
    ensures GetGitHubAvatar("ab") == None
  {
    var t := " a /b";
    IndexOfAt(t, '/', 3);
    var owner := t[..3];
    assert owner == " a ";
    assert !IsBlank(owner) by { assert !IsJsSpace(owner[1]); }
    assert TrimStart(owner) == "a " by { assert owner[1..] == "a "; assert !IsJsSpace("a "[0]); }
    assert TrimEnd("a ") == "a" by { assert "a "[..1] == "a"; assert !IsJsSpace("a"[0]); }
    var u := "  /b";
    IndexOfAt(u, '/', 2);
    assert IsBlank(u[..2]) by { assert u[..2] == "  "; }
    assert '/' !in "ab" by { assert "ab"[0] != '/' && "ab"[1] != '/'; }
  }
}
