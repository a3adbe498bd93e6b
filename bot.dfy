/** The `profile` slash command of bot.py. */
module Bot {
  import opened Wrappers
  import opened Decimal
  import opened WordPattern
  import opened GitHub
  import opened Discord

  const InvalidUsernameMessage := "Specified username is invalid."

  const EmbedColor := 0x2f3136

  /** The not-found text quotes the name verbatim between single quotes. */
  function NotFoundMessage(username: string): (m: string)
    ensures |m| == |username| + 13
    ensures m[0] == '\'' && m[1..|username| + 1] == username
    ensures m[|username| + 1..] == "' not found."
  {
    "'" + username + "' not found."
  }

  const SummaryFieldNames := ["Repos", "Followers", "Following"]

  /** The embed sent for a found user. */
  function SummaryCard(u: User): (c: Card)
    ensures c.title == u.name && c.description == u.bio
    ensures c.author == Some(Author(u.login, u.avatarUrl, u.htmlUrl))
    ensures |c.fields| == 3
    ensures forall i :: 0 <= i < 3 ==>
      c.fields[i].name == SummaryFieldNames[i] && IsDigitString(c.fields[i].value)
    ensures ParseDecimal(c.fields[0].value) == u.publicRepos
    ensures ParseDecimal(c.fields[1].value) == u.followers
    ensures ParseDecimal(c.fields[2].value) == u.following
    // each value is exactly `str(count)`: no empty string, no leading zero
    ensures c.fields[0].value == NatToString(u.publicRepos)
    ensures c.fields[1].value == NatToString(u.followers)
    ensures c.fields[2].value == NatToString(u.following)
  {
    ParseNatToString(u.publicRepos);
    ParseNatToString(u.followers);
    ParseNatToString(u.following);
    Card(u.name, u.bio, EmbedColor, Some(Author(u.login, u.avatarUrl, u.htmlUrl)),
         [EmbedField("Repos", NatToString(u.publicRepos)),
          EmbedField("Followers", NatToString(u.followers)),
          EmbedField("Following", NatToString(u.following))])
  }

  /**
   * The one reply to `/profile username`, given what the user lookup yields.
   * Nothing else about the service enters it.
   */
  function ProfileReply(isWord: WordClass, getUser: string -> UserLookup, username: string): (r: Reply)
    ensures !MatchesWordPattern(isWord, username) ==> r == Text(InvalidUsernameMessage)
    ensures MatchesWordPattern(isWord, username) && getUser(UserUrl(username)).HttpError? ==>
      r == Text("'" + username + "' not found.")
    ensures r.EmbedReply? <==>
      MatchesWordPattern(isWord, username) && getUser(UserUrl(username)).Found?
    ensures r.EmbedReply? ==> r.card == SummaryCard(getUser(UserUrl(username)).user)
  {
    if !MatchesWordPattern(isWord, username) then
      Text(InvalidUsernameMessage)
    else
      match getUser(UserUrl(username))
      case Found(u) => EmbedReply(SummaryCard(u))
      case HttpError(_) => Text(NotFoundMessage(username))
  }

  /**
   * `profile(interaction, username)`: sends exactly one reply, and returns the
   * URLs requested from the service on the way.
   */
  method Profile(isWord: WordClass, api: Api, username: string, response: InteractionResponse)
    returns (requested: seq<string>)
    requires response.sent == None
    modifies response
    ensures response.sent == Some(ProfileReply(isWord, api.getUser, username))
    ensures !MatchesWordPattern(isWord, username) ==> requested == []
  {
    requested := [];
    if !MatchesWordPattern(isWord, username) {
      response.SendMessage(Text(InvalidUsernameMessage));
      return;
    }
    var info;
    info, requested := SearchGitHubUser(isWord, api, username);
    if info.Some? {
      var user := info.value.user;
      var embed := new Embed(user.name, user.bio, EmbedColor);
      embed.SetAuthor(user.login, user.avatarUrl, user.htmlUrl);
      embed.AddField("Repos", NatToString(user.publicRepos));
      embed.AddField("Followers", NatToString(user.followers));
      embed.AddField("Following", NatToString(user.following));
      assert embed.Snapshot() == SummaryCard(user);
      response.SendMessage(EmbedReply(embed.Snapshot()));
    } else {
      response.SendMessage(Text(NotFoundMessage(username)));
    }
  }

  /** A name with a space or a slash never reaches the service. */
  lemma InvalidNameScenario(isWord: WordClass, api: Api)
    requires AgreesWithPythonOnAscii(isWord)
    ensures !MatchesWordPattern(isWord, "this user/doesnotexist")
    ensures ProfileReply(isWord, api.getUser, "this user/doesnotexist")
      == Text("Specified username is invalid.")
  {
    var s := "this user/doesnotexist";
    assert s[4] == ' ';
    NonWordCharRejects(isWord, s, 4);
  }

  /** `doesnotexist404` passes the username check. */
  lemma DoesNotExist404Accepted(isWord: WordClass)
    requires AgreesWithPythonOnAscii(isWord)
    ensures MatchesWordPattern(isWord, "doesnotexist404")
  {
    var s := "doesnotexist404";
    assert forall i :: 0 <= i < |s| ==> IsAsciiWordChar(s[i]);
    AsciiWordRunAccepted(isWord, s);
  }

  /** A well-formed name the service does not know gets the not-found text. */
  lemma NotFoundScenario(isWord: WordClass, api: Api)
    requires AgreesWithPythonOnAscii(isWord)
    requires api.getUser("https://api.github.com/users/doesnotexist404") == HttpError(404)
    ensures ProfileReply(isWord, api.getUser, "doesnotexist404")
      == Text("'doesnotexist404' not found.")
  {
    var s := "doesnotexist404";
    DoesNotExist404Accepted(isWord);
    assert UserUrl(s) == "https://api.github.com/users/doesnotexist404";
    assert NotFoundMessage(s) == "'doesnotexist404' not found.";
  }

  /** A found user is shown as the summary card of that user's record. */
  lemma FoundScenario(isWord: WordClass, api: Api, u: User)
    requires AgreesWithPythonOnAscii(isWord)
    requires api.getUser("https://api.github.com/users/torvalds") == Found(u)
    ensures ProfileReply(isWord, api.getUser, "torvalds") == EmbedReply(SummaryCard(u))
  {
    var s := "torvalds";
    assert forall i :: 0 <= i < |s| ==> IsAsciiWordChar(s[i]);
    AsciiWordRunAccepted(isWord, s);
    assert UserUrl(s) == "https://api.github.com/users/torvalds";
  }
}
