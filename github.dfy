/**
 * `search_github_user` of bot.py and the GitHub REST data it reads.
 *
 * The HTTP calls are not modelled; the service is a record of total
 * functions from a request URL to what the call yields.
 */
module GitHub {
  import opened Wrappers
  import opened WordPattern

  /** The fields of the `GET /users/{username}` JSON object the bot reads. */
  datatype User = User(
    login: string,
    name: Option<string>,        // JSON null becomes None
    bio: Option<string>,
    avatarUrl: string,
    htmlUrl: string,
    publicRepos: nat,
    followers: nat,
    following: nat,
    reposUrl: string,
    followersUrl: string,
    followingUrl: string)

  /** A decoded JSON document (numbers restricted to integers). */
  datatype Json =
    | Null
    | Bool(b: bool)
    | Number(n: int)
    | Str(s: string)
    | Array(elements: seq<Json>)
    | Object(members: map<string, Json>)

  /** A status for which `raise_for_status` raises `HTTPError`. */
  type HttpErrorStatus = s: int | 400 <= s < 600 witness 404

  /** What the user lookup yields once `raise_for_status` has run. */
  datatype UserLookup = Found(user: User) | HttpError(status: HttpErrorStatus)

  /**
   * The remote service: the user lookup, and the plain `GET ... .json()`
   * used for the three listing URLs (those calls never check the status).
   */
  datatype Api = Api(getUser: string -> UserLookup, getJson: string -> Json)

  /** The `info` dictionary: keys "user", "repos", "followers", "following". */
  datatype UserInfo = UserInfo(user: User, repos: Json, followers: Json, following: Json)

  const UsersEndpoint := "https://api.github.com/users/"

  /** The lookup URL: the users endpoint followed by the name, unescaped. */
  function UserUrl(username: string): (url: string)
    ensures |url| == |UsersEndpoint| + |username|
    ensures url[..|UsersEndpoint|] == UsersEndpoint && url[|UsersEndpoint|..] == username
  {
    UsersEndpoint + username
  }

  /**
   * `search_github_user(username)`: `info` is the returned dictionary or None,
   * and `requested` lists the URLs fetched, in order.
   */
  method SearchGitHubUser(isWord: WordClass, api: Api, username: string)
    returns (info: Option<UserInfo>, requested: seq<string>)
    // An invalid name returns None before any request is made.
    ensures !MatchesWordPattern(isWord, username) ==> info == None && requested == []
    // Otherwise the user lookup is the first request.
    ensures MatchesWordPattern(isWord, username) ==>
      |requested| >= 1 && requested[0] == UserUrl(username)
    // Any HTTP error on the lookup, 404 or not, returns None after that one request.
    ensures MatchesWordPattern(isWord, username) && api.getUser(UserUrl(username)).HttpError? ==>
      info == None && requested == [UserUrl(username)]
    // A found user is returned with the three listings fetched from its URLs.
    ensures MatchesWordPattern(isWord, username) && api.getUser(UserUrl(username)).Found? ==>
      var u := api.getUser(UserUrl(username)).user;
      && info == Some(UserInfo(u, api.getJson(u.reposUrl), api.getJson(u.followersUrl), api.getJson(u.followingUrl)))
      && requested == [UserUrl(username), u.reposUrl, u.followersUrl, u.followingUrl]
    ensures info.Some? <==>
      MatchesWordPattern(isWord, username) && api.getUser(UserUrl(username)).Found?
  {
    requested := [];
    if !MatchesWordPattern(isWord, username) {
      return None, requested;
    }
    var url := UserUrl(username);
    requested := requested + [url];
    var lookup := api.getUser(url);
    match lookup
    case HttpError(status) =>
      if status == 404 {
        return None, requested;
      }
      // the except block ends without a return: the call yields None
      info := None;
    case Found(user) =>
      var repos := api.getJson(user.reposUrl);
      requested := requested + [user.reposUrl];
      var followers := api.getJson(user.followersUrl);
      requested := requested + [user.followersUrl];
      var following := api.getJson(user.followingUrl);
      requested := requested + [user.followingUrl];
      info := Some(UserInfo(user, repos, followers, following));
  }
}
