# GitHub Profile Viewer: the `profile` command

A model of the Discord bot `bot.py`. The bot has one slash command,
`/profile username`. It checks the name against `^\w+$` and looks the user
up on the GitHub REST API. It then answers with one reply: a plain-text
message, or one embed summarising the profile.

Modules:

- `WordPattern` (`word_pattern.dfy`): what `re.match(r"^\w+$", s)` accepts.
  The `\w` class is a parameter `isWord: char -> bool`. The lemmas
  characterise the accepted names, including Python's rule that `$` also
  matches before one final newline. Facts about concrete names assume only
  that the class agrees with Python's `[A-Za-z0-9_]` on ASCII.
- `Decimal` (`decimal.dfy`): `str(n)` for a non-negative count, and its
  inverse `ParseDecimal`.
- `GitHub` (`github.dfy`): the user record, the lookup outcome (`Found` or
  `HttpError` with a status in 400..599, the statuses for which
  `raise_for_status` raises), and `search_github_user`. The method returns
  the dictionary (or None) and the list of URLs it requested.
- `Discord` (`discord.dfy`): `discord.Embed`, a class filled in place by
  `set_author` and `add_field`, and the interaction response, which can be
  sent once.
- `Bot` (`bot.dfy`): the summary card, the reply function `ProfileReply`,
  and the `profile` method that builds the embed step by step and sends it.

The HTTP service is a parameter: a record of total functions from a request
URL to the outcome of that request (`Api.getUser` for the user lookup,
`Api.getJson` for the three listing URLs). The bot reads the colour
constant `0x2f3136` as `Bot.EmbedColor`.

Behaviour of the code that the model keeps as it is:

- The pattern is `^\w+$`, so a name with a hyphen is rejected
  (`WordPattern.HyphenRejected`).
- Any HTTP error on the user lookup, not only 404, gives the not-found
  reply. The `except` block returns only for 404 and otherwise falls off
  the end of the function, which also yields None.
- The card title is the profile's `name`, which may be null. There is no
  fallback to `login` and no footer.
- The three listings are fetched and stored in the dictionary but never read.

## Model

| member | source | states |
|---|---|---|
| WordPattern.MatchesWordPattern | bot.py:27 | `re.match(r"^\w+$", s)`: some non-empty prefix is all word characters and `$` holds after it (at the end, or before one final newline); so a match starts with a word character, every character but the last is a word character, the last is a word character or `"\n"`, and every non-empty all-word name matches |
| WordPattern.WordPatternIff | bot.py:27 | `^\w+$` accepts a name exactly when it is a non-empty run of word characters, or such a run followed by one final `"\n"` |
| WordPattern.NonWordCharRejects | bot.py:64 | a non-word character anywhere rejects the name, except a newline in the last position |
| WordPattern.AsciiWordRunAccepted | bot.py:64 | a non-empty name of ASCII letters, digits and `_` is accepted |
| WordPattern.HyphenRejected | bot.py:64 | a name containing `-` is rejected |
| WordPattern.EmptyRejected | bot.py:27 | the empty name is rejected |
| WordPattern.TrailingNewline | bot.py:27 | a word run plus one `"\n"` is accepted; a word run plus two is rejected |
| Decimal.NatToString | bot.py:71-73 | `str(n)` is a non-empty digit string; it starts with `0` exactly when `n` is 0, and then it is `"0"` |
| Decimal.ParseNatToString | bot.py:71-73 | reading the decimal string back gives the count |
| Decimal.NatToStringInjective | bot.py:71-73 | distinct counts give distinct strings |
| GitHub.UserUrl | bot.py:31 | the lookup URL is `https://api.github.com/users/` followed by the name verbatim |
| GitHub.SearchGitHubUser | bot.py:26-41 | an invalid name gives None with no request; otherwise the user URL is requested first; any HTTP error (404 or another status) gives None after that one request; a found user gives the record plus the three listings, fetched from the user's `repos_url`, `followers_url` and `following_url` in that order |
| Discord.Embed.constructor | bot.py:69 | a new embed has the given title, description and colour, no author and no fields |
| Discord.Embed.SetAuthor | bot.py:70 | the author strip becomes (name, icon, url) and nothing else changes |
| Discord.Embed.AddField | bot.py:71-73 | one field is appended after the existing ones and nothing else changes |
| Discord.InteractionResponse.constructor | bot.py:62 | a new interaction has no reply yet |
| Discord.InteractionResponse.SendMessage | bot.py:74-76 | sending needs an unanswered interaction and records the one reply |
| Bot.NotFoundMessage | bot.py:76 | the not-found text is a single quote, the name verbatim, then `' not found.` |
| Bot.SummaryCard | bot.py:69-73 | title is `name`, description is `bio`, author is (`login`, `avatar_url`, `html_url`); exactly three fields named Repos, Followers, Following in that order, whose values are exactly `str` of `public_repos`, `followers`, `following` (digit strings without leading zeros that read back as the counts) |
| Bot.ProfileReply | bot.py:62-76 | invalid name gives exactly "Specified username is invalid."; an HTTP error on the lookup gives exactly `'<username>' not found.`; an embed is sent exactly when the name is valid and the user is found, and then it is the summary card of that user |
| Bot.Profile | bot.py:62-76 | sends exactly one reply, equal to `ProfileReply` of the lookup outcome only (the listing responses do not enter it); an invalid name makes no request |
| Bot.InvalidNameScenario | bot.py:64-66 | `this user/doesnotexist` fails the username check (so `Profile` makes no request) and gets "Specified username is invalid." |
| Bot.DoesNotExist404Accepted | bot.py:64 | `doesnotexist404` passes the username check |
| Bot.NotFoundScenario | bot.py:67-76 | `doesnotexist404` with a 404 lookup gets `'doesnotexist404' not found.` |
| Bot.FoundScenario | bot.py:67-74 | `torvalds` with a found record gets the summary card of that record |

## Left out

- Real HTTP calls (bot.py:31, 35-37) are replaced by the `Api` parameter. The service is assumed to answer the same URL the same way during one command.
- Exceptions other than `HTTPError` are not modelled: connection errors, JSON decoding errors, and a `KeyError` for a missing field. In the code they propagate out of `search_github_user` and the command sends no reply.
- The exact Unicode membership of `\w` is left abstract (the `isWord` parameter). Only its ASCII part is fixed, and only for the scenario lemmas.
- JSON numbers are integers, and the three counts are non-negative (`nat`). GitHub never sends negative counts, so `str` of a negative number is not modelled.
- Discord client setup, command-tree sync, `on_ready` presence and printing, and `client.run` (bot.py:43-58, 78) are transport plumbing.
- Credential loading from `keyring` (bot.py:23-24) is environment I/O.
- `async`/`await` scheduling is not modelled; each command runs to completion.
- Field `inline` flags and other Embed defaults of the chat library are not modelled.
