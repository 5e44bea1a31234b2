/**
  `src/shared/utils/getGitHubUserAvatar.ts`: a GitHub user's avatar.
*/
module GitHubUserAvatar {
  import opened Wrappers
  import opened Text
  import opened GitHubAvatar

  /** `getGitHubUserAvatar`: none for a blank name, otherwise the avatar of
      the trimmed name. */
  function GetGitHubUserAvatar(username: string): (r: Option<string>)
    ensures r.None? <==> IsBlank(username)
    ensures r.Some? ==> r.value == AvatarUrl(Trim(username))
  {
    TrimEmptyIffBlank(username);
    if username == "" then None
    else
      var trimmedUsername := Trim(username);
      if trimmedUsername == "" then None
      else Some(AvatarUrl(trimmedUsername))
  }

  /** Trimming the name first changes nothing. */
  lemma TrimmedNameSameAvatar(username: string)
    ensures GetGitHubUserAvatar(Trim(username)) == GetGitHubUserAvatar(username)
  {
    TrimIdempotent(username);
    TrimEmptyIffBlank(username);
    TrimEmptyIffBlank(Trim(username));
  }

  /** The name inside the address starts and ends with a non-space. */
  lemma EmbeddedNameIsTrimmed(username: string)
    requires !IsBlank(username)
    ensures var name := Trim(username);
      && name != ""
      && GetGitHubUserAvatar(username) == Some(AvatarUrl(name))
      && !IsJsSpace(name[0]) && !IsJsSpace(name[|name| - 1])
  {
    TrimEmptyIffBlank(username);
    TrimEnds(username);
  }
}
