# youtube-irc-bot, modelled in Dafny

The bot sits in an IRC channel and answers three commands there.

- `!help` prints a usage line.
- `!status` lists the running `YouTube-` tmux sessions. The newest is listed first, each with its age as `Nm`, `NhNm` or `NdNhNm`.
- `!q <url>` resolves a YouTube user, channel or playlist URL to an archive folder. It then reports how many videos that folder holds.

This project restates that decision logic as pure Dafny functions and proves what it promises. It covers:

- command routing;
- the `!q` pipeline (URL checks, canonical URL, folder name, reply);
- session-line parsing and the status text;
- duration formatting;
- extraction of the user and channel identifier from a YouTube page;
- the small string utilities;
- `~` expansion in configuration paths;
- the configuration defaults.

Everything the bot reads from outside arrives as a parameter. The command handler takes these inputs in `Commands.World`:

- the tmux listing;
- the current time;
- the result of looking up a page's user;
- the archive listing.

Two more are parameters of the operations that use them: the home directory of `Config.ExpandTilde` and the grapheme segmentation of `Names.CreateNonHighlightingName`.

A Rust panic is the error case `Panic` of `Errors.Result`. It covers an `unwrap` of a missing value, an unparsable URL and a u64 subtraction that underflows, as it does in a build with overflow checks. This keeps every operation total and makes the aborting inputs visible in the contracts.

Modules, one per file:

- `Errors`: results, errors, `u64`.
- `Numbers`: decimal formatting and `u64` parsing.
- `Text`: `split`, `join`, `lines`, first-occurrence search.
- `Duration`: `duration_to_dhm`, `shorthand_duration`.
- `Http`: `parse_user`, `parse_channel` and their fetch wrappers.
- `Config`: `expand_tilde` and the defaults.
- `Names`: `utf8_truncate`, `create_non_highlighting_name`, `contains_unsafe_chars`.
- `Status`: session parsing and `get_status`.
- `Query`: `get_query`, `get_canonical_url`, `folder_for_url`.
- `Commands`: `handle_message`.

The regular expressions are restated as fixed patterns.

- The unescaped dots in `www.youtube.com` match any character but a newline.
- `[^"]+` also matches newlines.
- The first match is the leftmost one, and `.+?` takes the shortest filler.

Where the unit tests in src/message.rs contradict the code, the model follows the code. `test_folder_for_url` reads the folder from a `list` query key, but the code reads the `playlist` key; `Query.FolderOfListQuery` proves that such URLs name no folder. `test_get_canonical_url` expects `Option` results. The extension filter of `get_query` is modelled as written: `rsplitn(1, '.')` yields the whole file name, so only a file named exactly `mp4`, `webm`, `flv`, `mkv` or `video` is counted (`Query.VideoEntryIsWholeName`, `Query.DottedNameNotCounted`).

## Model

| member | source | states |
|---|---|---|
| Commands.HandleMessage | src/message.rs:17-52 | A non-PRIVMSG gets no reply. A PRIVMSG without a sender nickname panics. Only messages whose response target is the command channel are answered, and only in that channel. `!help` gets the usage text. `!status` gets the status text. `!q ` gets `user: reply` or `user: error: message`, and a panic while answering is passed on. Any other text gets nothing. |
| Commands.AnsweredExactly | src/message.rs:34-50 | A reply is sent if and only if the message is addressed to the command channel and is exactly `!help`, exactly `!status` with a status that does not panic, or starts with `!q ` with a query that does not panic. |
| Commands.InexactCommandsIgnored | src/message.rs:35-41 | `!help` or `!status` followed by anything more gets no reply: both match exactly. |
| Commands.PrivateMessagesIgnored | src/message.rs:31-34 | A message sent privately to the bot by a user is answered to that user, which is never the command channel, so it is ignored. |
| Commands.Argument | src/message.rs:43 | `splitn(2, ' ').last()` is the text after the first space, or the whole text when it has no space. |
| Commands.QueryArgument | src/message.rs:42-43 | The URL of a `!q ` command is everything after the three-character prefix. |
| Query.GetQuery | src/message.rs:82-112 | A URL not on `https://www.youtube.com/` fails with a message naming the URL. A `/watch?` URL fails as not implemented. Both outcomes are fixed before any lookup or listing. Canonicalisation errors are passed on. A URL with no folder fails with a message naming the canonical URL. When the canonical URL names a folder, the reply is `{folder} has {n} videos[, latest …]` built from the video entries of the folder's listing, and a listing error gives `Internal error listing files for {canonical}: {error}`. A successful reply is always of that form. |
| Query.OtherPathPanics | src/message.rs:89-144 | A YouTube URL whose path is not `/playlist`, `/user/…` or `/channel/…` becomes its bare path. That path cannot be parsed as a URL, so the query panics. |
| Query.UserQuery | src/message.rs:89-111 | A `/user/` URL whose user is found and whose folder lists fine is answered with the reply for that user's folder. |
| Query.GetCanonicalUrl | src/message.rs:116-141 | A `/playlist` URL is kept. A `/user/` URL becomes `https://www.youtube.com/user/{u}/videos` when a user is found and is an error otherwise. A `/channel/` URL becomes the same user URL when a user is found and is kept otherwise. Any other path becomes the bare path. Only user and channel URLs are looked up, and a failed lookup is passed on. |
| Query.FolderForUrl | src/message.rs:143-175 | Parsing fails (a panic) exactly for a string that is not a YouTube URL. Any folder returned is non-empty and made only of letters, digits, `-` and `_`. |
| Query.FolderRules | src/message.rs:145-174 | A `/playlist` URL gives the guarded `playlist` query value. A `/user/` or `/channel/` URL gives the guarded text between its second and third slash. Any other path gives no folder. |
| Query.FolderOfNamedUrl | src/message.rs:153-166 | `https://www.youtube.com/{user or channel}/{name}` followed by nothing or by more path names the folder `name` exactly when `name` passes the guard. |
| Query.FolderOfUserVideos | src/message.rs:126-158 | The canonical URL built for a user names that user's folder. |
| Query.FolderOfPlaylistUrl | src/message.rs:145-152 | `https://www.youtube.com/playlist?playlist={id}` names the folder `id` exactly when `id` passes the guard. |
| Query.FolderOfListQuery | src/message.rs:148 | `https://www.youtube.com/playlist?list={id}` names no folder, because only the `playlist` key is read. |
| Query.LastValue | src/message.rs:147-148 | A key is found if and only if some query pair has it. The value found is that of the last such pair, as when the pairs are collected into a map. |
| Query.ParseUrl | src/message.rs:117 | A string parses if and only if it starts with `https://www.youtube.com/`. The path starts with `/`, follows the host and runs up to the first `?` or `#`. A query is there exactly when a `?` ends the path, and it runs from there up to the first `#`. A bare path fails with a panic. |
| Query.ReadsAsUnique | src/message.rs:117 | The text after the host reads as only one path and query, so the parse is determined. |
| Query.VideoEntryIsWholeName | src/message.rs:98-104 | The listing filter accepts a name exactly when the whole name is one of `mp4`, `webm`, `flv`, `mkv`, `video`. |
| Query.DottedNameNotCounted | src/message.rs:101-102 | No file name containing a dot, such as `x.mp4`, is counted. |
| Query.VideoEntries | src/message.rs:98-105 | The kept entries are exactly the listed names that pass the filter, and there are no more of them than listed names. |
| Query.VideoEntriesCount | src/message.rs:98-106 | Each accepted name is kept as many times as it is listed, and no other name is kept, so `n` counts the accepted listing entries. |
| Query.VideoEntriesAppend | src/message.rs:98-105 | Filtering distributes over concatenation, so the kept entries stay in listing order. |
| Query.QueryReplyRoundTrip | src/message.rs:106-111 | A reply `{folder} has {n} videos[, latest {v}]` can be read back into the folder, the number of videos and the last video. The suffix is there exactly when n > 0. |
| Status.ParseSessionLine | src/message.rs:252-261 | A line panics exactly when it has no space or its part before the first space is not a u64. |
| Status.ParseLines | src/message.rs:250-263 | Parsing the listing panics exactly when one of its lines does. |
| Status.ParseListedLine | src/message.rs:253-261 | The line `"{created} {name}"` gives a session with the `YouTube-` prefix removed once when the name has that prefix, and nothing otherwise. |
| Status.ParseListing | src/message.rs:243-264 | The text of a tmux listing, one line per session, parses to exactly its `YouTube-` sessions in listing order. |
| Status.ParseListingExample | src/message.rs:250-262 | A two-line listing with one `YouTube-` session and one other session yields just the downloader. |
| Status.SortByStartTime | src/message.rs:204 | The sort orders sessions by ascending start time and is a permutation. |
| Status.SortStable | src/message.rs:204 | The sort is stable: sessions with the same start time keep their relative order. |
| Status.NewestFirst | src/message.rs:204-205 | Sorting and then reversing gives a permutation in descending start-time order. |
| Status.NewestFirstTies | src/message.rs:204-205 | Sessions that started at the same time come out in reverse listing order. |
| Status.Report | src/message.rs:203-209 | The report fails (a panic) exactly when some session started after now. Otherwise it is the `", "`-join of the `"id (age)"` entries of a newest-first permutation of the sessions. |
| Status.GetStatus | src/message.rs:200-211 | When tmux cannot be run, the error text is the reply. An unparsable listing panics. Otherwise the reply is the report on the parsed sessions. |
| Duration.ShorthandDuration | src/duration.rs:3-10 | When the start is not after now, the text reads back as days, hours and minutes that describe the elapsed seconds. |
| Duration.DurationRoundTrip | src/duration.rs:13-31 | The text of every u64 reads back as a duration that describes the seconds to the minute, in the form its range calls for. |
| Duration.MinutesRoundTrip | src/duration.rs:15-18 | Below 3600 seconds the text is `{secs/60}m`. |
| Duration.HoursRoundTrip | src/duration.rs:19-23 | From 3600 to 86399 seconds the text is `{h}h{m}m` with 1 ≤ h ≤ 23 and m < 60, and no subtraction underflows. |
| Duration.DaysRoundTrip | src/duration.rs:24-29 | From 86400 seconds on the text is `{d}d{h}h{m}m` with d ≥ 1, h < 24 and m < 60, and no subtraction underflows. |
| Duration.DaysArithmetic | src/duration.rs:24-29 | d·86400 + h·3600 + m·60 ≤ secs < that + 60, with the bounds on d, h and m. |
| Duration.HoursArithmetic | src/duration.rs:19-23 | h·3600 + m·60 ≤ secs < that + 60, with 1 ≤ h < 24 and m < 60. |
| Duration.DescribesUnique | src/duration.rs:13-31 | At most one duration describes a number of seconds, so the text is determined by the input. |
| Http.ParseUser | src/http.rs:55-61 | A user found is non-empty and quote-free, and follows the leftmost occurrence of the user-link pattern. None is returned exactly when the pattern occurs nowhere. |
| Http.ParseChannel | src/http.rs:63-75 | The `channelId` meta pattern wins whenever it occurs. Otherwise the first `ytplayer` match, with the shortest filler, is taken. None is returned exactly when neither pattern occurs. Any identifier is non-empty and quote-free. |
| Http.FirstQuoted | src/http.rs:57-59 | The capture returned is at the leftmost position where the pattern matches, and none is returned only when it matches nowhere. |
| Http.FirstPlayer | src/http.rs:66-71 | The `ytplayer` match returned starts leftmost, and among matches there it has the shortest filler. |
| Http.GetYoutubeUser | src/http.rs:18-22 | Only the fetch can fail. A fetched page gives `Ok`, and the user is missing exactly when the page has no user link. |
| Http.GetYoutubeChannel | src/http.rs:24-31 | A fetch error is passed on. A page without a channel identifier gives `Could not find channel identifier in {url}`. Any identifier returned is the one found in the page. |
| Config.ExpandTilde | src/config.rs:198-203 | With a home directory and a first component exactly `~`, the result is the home directory followed by the rest. Otherwise the path is unchanged. |
| Config.AbsoluteUnchanged | src/config.rs:199-201 | An absolute path is never expanded. |
| Config.ExpandTildeUnchangedExamples | src/config.rs:231-238 | `/` and `/abc/~def/ghi/` are unchanged. |
| Config.FusedTildeNotExpanded | src/config.rs:199 | A `~` fused into a longer first name, such as `~def/x`, is not expanded. |
| Config.ExpandTildeHomeExample | src/config.rs:239-242 | `~/` becomes the home directory itself. |
| Config.ExpandTildeNestedExample | src/config.rs:243-246 | `~/a/b/c/` becomes the home directory followed by `a`, `b` and `c`. |
| Config.StripPrefix | src/config.rs:199 | A path has a prefix exactly when its first components are that prefix, and then the prefix followed by the rest is the path. |
| Config.JoinPath | src/config.rs:200 | Joining an absolute path gives that path. Joining a relative path appends its components. |
| Config.DefaultParameters | src/config.rs:62-68 | `task_limit` is 34 and the command channel is `#youtubearchive`, which is a channel name. |
| Config.DefaultConf | src/config.rs:87-116 | The defaults have empty user limits and user highlights, the default parameters and the features switched off. |
| Names.Utf8Truncate | src/message.rs:287-293 | The result is a prefix of the string of at most n UTF-8 bytes. No longer prefix fits. |
| Names.ByteLenMonotone | src/message.rs:288-293 | A longer prefix never takes fewer bytes, so stopping at the first character that does not fit gives the longest fitting prefix. |
| Names.CreateNonHighlightingName | src/message.rs:276-285 | The result is the name with one U+200C inserted after its first grapheme. Removing it gives the name back. An empty name gives U+200C alone. |
| Names.NonHighlightingExamples | src/message.rs:315-320 | `""`, `foo` and `bar` give U+200C, `f` U+200C `oo` and `b` U+200C `ar`. |
| Names.ContainsUnsafeChars | src/message.rs:266-274 | True exactly when some character of the token is one of the other unsafe characters of section 2.2 of RFC 1738: braces, square brackets, the vertical bar, backslash, caret, tilde and backquote. |
| Names.UnsafeExamples | src/message.rs:323-328 | `http://z/` followed by a character is flagged exactly when that character is unsafe. `http://z.zzz/` is not flagged. |
| Numbers.ParseFormatted | src/message.rs:254 | The decimal text of any u64 parses back to it, as `parse::<u64>` does. |
| Text.JoinSplit | src/message.rs:251 | Joining the pieces of a split with the separator restores the string. |
| Text.LinesUnlines | src/message.rs:251 | `lines` reads back exactly the lines of a text in which each line ends with a newline. |

## Left out

- Sending to IRC and the IRC connection, including the panic of `send_privmsg(...).unwrap()`: these are network I/O. The model returns the message to send.
- The debug print of each message when the debug flag is set: it is console output only.
- Running `tmux`, `ts` and `get-youtube-page`, and decoding their output as UTF-8. Their output or error comes in as a parameter.
- The system clock: `shorthand_duration` takes "now" as a parameter.
- `parse_title` and the title handling in src/main.rs: they depend on an external HTML-entity decoder.
- Loading and writing the TOML configuration, `Rtd::from_args`, directory creation, and the IRC client settings inside `Conf::default`. These are file I/O and library configuration.
- The home-directory lookup: `expand_tilde` takes the home directory as an `Option`.
- Grapheme segmentation: `Names.CreateNonHighlightingName` takes the segmentation of the name as a parameter and checks only that it covers the name with non-empty clusters.
- `get_folder` in src/bin/get_folder.rs: it calls an API that is not part of this model.
- Query.ParseUrl: the URL library's normalisation is not modelled. It percent-encodes characters, resolves `.` and `..` segments, turns `\` into `/` in the path, removes tabs and newlines, and trims leading and trailing spaces and control characters. The trimming changes an outcome. A `/channel/` URL with a trailing space and no user is kept as it is. The library re-parses it without the space, but the model keeps the space in the folder candidate, so the guard rejects it and the query fails with `Could not get folder`. Nor are URLs on other hosts modelled: every string the handler parses either starts with `https://www.youtube.com/` or is a bare path.
- Query.QueryValue: query keys and values are not percent-decoded, and `+` is not read as a space.
- Status.GetStatus: a failure to run tmux is shown by its message text rather than by Rust's `Debug` rendering of the error value.
- Status.Report: the u64 subtraction `now - start` is modelled as a panic when the start is after now. That is what a build with overflow checks does. A release build wraps around instead and prints a very large age. The report also uses one `now` for every session, while the source reads the clock once per session.
- Query.GetQuery: a listing error is shown by its message text. That is what `{}` prints for the bot's own error type. A library error may print differently.
- Names.Utf8Truncate: `char` stands for a Unicode scalar value, with its UTF-8 length computed from its code point. The byte length of a string is not bounded by `usize`.
