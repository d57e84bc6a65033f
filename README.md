# spotify-player, modelled in Dafny

spotify-player is a small "what am I listening to" tool with four parts:

- **Playback controller page** (`src/App.tsx`). It obtains a Spotify access token from a token service. It then polls Spotify's currently-playing endpoint once a second and sends transport commands (play, pause, next, previous).
- **Token endpoint** (`src/web.ts`). It trades a stored refresh token for an access token and answers the page with CORS headers.
- **Now-playing server** (`server/server.tsx`). It turns Spotify's currently-playing answer into a small record: a shortened title, a link, the cover, aligned artist names and links, and the progress. On errors it returns a fallback record.
- **Widget script** (`client/script.js`). Once a second it fetches that record and writes it into the page, including an `m:ss / m:ss` progress text.

Each network exchange is a parameter of type `Http.Reply<T>`:

- `Threw(error)` is an exception raised outside the modelled code: the fetch rejecting or the JSON parse failing. `error` is that exception's message.
- `Answered(status, reason, data)` is an answer, whatever its status. `reason` stands for `errorData.error?.message || statusText` (the token endpoint uses `error_description` instead), and `data` is the parsed body.

A non-2xx answer is an `Answered` value. The model itself builds the error that the code throws on it, from the status and `reason` (`Playback.StatusError`, `TokenEndpoint.GetAccessToken`), and then takes the same path as a `Threw`.

The modules:

- **`NowPlaying`** gives `getNowPlaying` as functions. The two regular-expression replacements are a left-to-right scan (`Strip`), with `trim` and JavaScript's UTF-16 `length` written out.
- **`Widget`** gives the clock formatting as functions. Its `Page` class holds the elements that `fetchData` writes, and the artist links are built in a loop.
- **`TokenEndpoint`** is the request handler as one function.
- **`Playback.Controller`** is a class:
  - Its fields are the page's five state cells, the polling handle, and a ghost log of the requests it issued.
  - Each handler is one method, taking every answer it waits for as a parameter.
  - `Valid()` is its invariant: at most one interval is running, and it is the one the ref holds; an interval is held only while there is a token; and between handlers no command is in flight.
- **`Credentials` and `Text`** hold the shared pieces: the RFC 7617 user-pass text, and decimal text with its parser.

A closure that calls `fetchCurrentPlaying` reads the `message` of the render that created it. The model passes that value explicitly as `seen`:

- The interval callback reads the message captured when the interval was started, stored in `tickSeen`.
- A command's refresh poll reads the message shown when the button was clicked.
- The token effect's poll reads the current message.

## Model

| member | source | states |
|---|---|---|
| Text.IntStringReadsBack | client/script.js:36 | the text of an integer reads back as it: all digits for one that is not negative, `-` then the digits of the magnitude otherwise |
| Text.PadStartShape | client/script.js:36 | `padStart` gives at least the width, ends with the input, and has only the fill character before it |
| Text.NatString | client/script.js:36 | the decimal text of a number is non-empty and all digits; it starts with `0` only for zero, and is a single digit exactly below 10 |
| Text.ParseNatString | client/script.js:36 | reading the decimal text back gives the number |
| Credentials.UserPass | server/server.tsx:12 | the credential text is the id, one colon at position `|id|`, then the secret |
| Credentials.SplitUserPassRoundTrip | server/server.tsx:12 | splitting at the first colon, as section 2 of RFC 7617 prescribes, recovers id and secret whenever the id has no colon |
| Credentials.ColonInIdIsMisread | server/server.tsx:12 | an id containing a colon is read back wrongly (`a:b` and `c` come back as `a` and `b:c`) |
| NowPlaying.BasicCredentialRoundTrip | server/server.tsx:7-12 | an unset variable enters the template as `undefined`; the text reads back as the two values |
| NowPlaying.JsLength | server/server.tsx:57 | a string's UTF-16 length lies between its character count and twice it |
| NowPlaying.JsLengthSlices | server/server.tsx:57-58 | a slice is never longer in code units than the whole |
| NowPlaying.Trim | server/server.tsx:57-58 | `trim` returns the slice of the input after its leading white space; only white space is cut at either end; the result neither starts nor ends with white space and is never longer |
| NowPlaying.TrimIdempotent | server/server.tsx:57-58 | `trim` leaves a string unchanged iff it has no white space at either end; trimming twice equals trimming once |
| NowPlaying.Strip | server/server.tsx:57-58 | removing the groups never makes the text longer, in characters or in code units |
| NowPlaying.StripOnlyRemoves | server/server.tsx:57-58 | every character of the stripped text occurs in the original |
| NowPlaying.StripLeavesNoGroup | server/server.tsx:57-58 | after the scan no opener is followed by its closer |
| NowPlaying.StripKeepsGroupless | server/server.tsx:57-58 | text with no complete group is left as it is |
| NowPlaying.StripIdempotent | server/server.tsx:57-58 | stripping twice equals stripping once |
| NowPlaying.StripWithoutOpeners | server/server.tsx:57-58 | a name with no `[` (and, for the second pattern, no `(`) is unchanged |
| NowPlaying.StripPlainPrefix | server/server.tsx:57-58 | a prefix without openers passes through unchanged, whatever follows it |
| NowPlaying.StripSquareGroup | server/server.tsx:57-58 | one complete `[...]` group is removed entirely |
| NowPlaying.StripGroupAnywhere | server/server.tsx:57-58 | a complete `[...]` group at the head is dropped and the scan goes on with what follows, whatever that is |
| NowPlaying.ShortenedName | server/server.tsx:57-59 | a name of at most 30 code units is kept. Otherwise the result is one of two values: the name, when the bracket-only probe is at most 30; or the trimmed strip of both group kinds, when the probe is over 30. It is never longer than the name |
| NowPlaying.ShortProbeKeepsName | server/server.tsx:57-59 | when the bracket-only probe is within 30, the whole name is kept |
| NowPlaying.TrailingTagTitleKept | server/server.tsx:57-59 | a long title whose only `[...]` group is a trailing tag after a head of at most 30 is kept whole, tag included |
| NowPlaying.ArtistNames | server/server.tsx:53 | one name per artist, in order |
| NowPlaying.ArtistLinks | server/server.tsx:54 | one link per artist, in order, aligned with the names |
| NowPlaying.GetNowPlaying | server/server.tsx:29-76 | any throw gives `Error`; a status above 400 gives `Error (Forbidden)`; 204 gives `Currently Not Playing`; a body without item, cover or album artist gives `Error`. Every fallback carries the logo. A track is built exactly in the remaining case, with the title rule and aligned artists |
| NowPlaying.BadRequestIsNotForbidden | server/server.tsx:39-47 | status 400 is not an error: it is read as a track when the body allows |
| Widget.Minutes | client/script.js:34 | `Math.floor(ms / 60000)` is the whole number of minutes at or below `ms` |
| Widget.JsRemainder | client/script.js:35 | JavaScript's `%` equals the mathematical remainder for a non-negative dividend; for a negative one it lies in `(-b, 0]` and is the remainder of truncating division: `a == -((-a) / b) * b + r` |
| Widget.Seconds | client/script.js:35 | the seconds lie in `0..59`, or in `-60..0` for a negative time |
| Widget.ClockDecomposition | client/script.js:34-35 | `minutes*60000 + seconds*1000 <= ms < minutes*60000 + seconds*1000 + 1000` |
| Widget.ClockReadsBack | client/script.js:34-36 | a clock is the unpadded minutes, a colon, then exactly two digits of seconds; both parts read back as the numbers |
| Widget.TwoDigitSeconds | client/script.js:36 | seconds pad to exactly their two decimal digits |
| Widget.IntStringNoSpace | client/script.js:36 | a number's text has no space, padded or not |
| Widget.ClockNoSpace | client/script.js:34-36 | a clock has no space |
| Widget.ProgressTextSplits | client/script.js:36 | the text is the progress clock, ` / `, then the duration clock; its only spaces are the two around that slash, so ` / ` occurs only at the end of the first clock |
| Widget.ArtistNodes | client/script.js:15-25 | `2n-1` children for `n` artists: link `i` at `2i` carries name `i` and `artistLinks[i]`; a `, ` separator sits between neighbours |
| Widget.ArtistNodesSeparators | client/script.js:15-25 | exactly `n-1` separators, and the last child is a link |
| Widget.ServerRecordsLinkEveryArtist | client/script.js:15-18 | for a record the server built, every rendered link points to that artist's URL |
| Widget.Page.constructor | client/script.js:8-24 | before the first refresh every element the script writes is empty and the widget is hidden |
| Widget.Page.RenderArtists | client/script.js:15-25 | the loop builds exactly the `ArtistNodes` children |
| Widget.Page.Refresh | client/script.js:3-38 | a failed fetch changes nothing. A fallback record sets title, link and cover, and empties the artists (the container is cleared before `forEach` throws); bar, text and visibility are kept. A track sets everything; the bar moves only when the duration is positive |
| TokenEndpoint.AuthorizationReadsBack | src/web.ts:11-15 | once the guard has passed, the credential text sent to the token service reads back as the stored id and secret whenever the id has no colon |
| TokenEndpoint.GetAccessToken | src/web.ts:6-41 | missing credentials give the fixed error; the result is a token exactly on a 2xx answer; a throw passes through; a non-2xx answer gives `Spotify token error: <status> - <reason>` |
| TokenEndpoint.Handle | src/web.ts:43-66 | every answer carries the CORS headers and has status 200, 204, 405 or 500. OPTIONS gives 204 with no body; other non-GET methods give 405 `Method Not Allowed`. A GET gives 200 with only the token exactly when credentials are set and the answer is 2xx; otherwise it gives 500 `Failed to retrieve Spotify access token.` |
| TokenEndpoint.NonGetIgnoresTokenService | src/web.ts:51-57 | for a non-GET method the answer does not depend on the environment or the token service |
| TokenEndpoint.GetPassesTokenThrough | src/web.ts:59-61 | with credentials and a 2xx answer, the token reaches the body unchanged |
| Playback.TokenFailure | src/App.tsx:108-110 | the token failure message starts `Failed to obtain access token: ` |
| Playback.PollFailure | src/App.tsx:154-156 | the poll failure message starts `Failed to fetch current song: ` |
| Playback.CommandFailure | src/App.tsx:192-194 | the command failure message starts `Failed to send command: ` |
| Playback.CommandSent | src/App.tsx:181-190 | the success message is not a failure and is neither transient "no song" message |
| Playback.MessageAfterPoll | src/App.tsx:134-160 | an empty answer keeps the message when the captured one starts `Failed to`, and otherwise shows `No song is currently playing.`. A failure shows its error. A song clears the message only when the captured one is exactly one of the two "no song" texts |
| Playback.SongAfterPoll | src/App.tsx:134-153 | an empty answer clears the song; a body replaces it wholesale; a failure leaves it |
| Playback.FailureSurvivesEmptyPolls | src/App.tsx:134-140 | a `Failed to` message survives any number of empty polls that read it; any other message is replaced by the first |
| Playback.EmptyTickAfterTokenOverwrites | src/App.tsx:204-214 | an interval started after a new token captured the success text, so an empty tick overwrites whatever the page shows, a failed command's message included |
| Playback.CommandRefreshReadsClickedMessage | src/App.tsx:181-190 | after a successful command, an empty refresh keeps the success text iff the click-time message was a failure; a song erases it iff that message was a "no song" text |
| Playback.ToggleCommand | src/App.tsx:234-240 | `pause`/PUT iff a song is known and playing, otherwise `play`/PUT |
| Playback.Controller.PreviousEnabled | src/App.tsx:329 | `Previous` is enabled between handlers |
| Playback.Controller.NextEnabled | src/App.tsx:349 | `Next` is enabled exactly when `Previous` is |
| Playback.Controller.PlayPauseEnabled | src/App.tsx:339 | `Play`/`Pause` is enabled only when `Next` is; between handlers, exactly when a song is known |
| Playback.IdleButtons | src/App.tsx:329-349 | between handlers previous and next are enabled, and play/pause is enabled iff a song is known |
| Playback.Controller.constructor | src/App.tsx:76-82 | the initial cells: empty token and message, no song, not loading, authorising, no interval |
| Playback.Controller.StopPolling | src/App.tsx:119-122 | the held interval is stopped and the ref nulled |
| Playback.Controller.PollFailed | src/App.tsx:154-161 | a failing poll reports itself and stops polling |
| Playback.Controller.ReceivePoll | src/App.tsx:127-163 | the poll answer sets message, song and interval as `MessageAfterPoll` and `SongAfterPoll` say; only a failure stops polling |
| Playback.Controller.FetchCurrentPlaying | src/App.tsx:116-164 | without a token it nulls the interval, shows `Access token is not available. Please obtain it first.`, keeps the song and issues no request. With a token it issues exactly one poll and applies the answer |
| Playback.Controller.Tick | src/App.tsx:212-214 | a tick polls once, reading the message the interval captured |
| Playback.Controller.AccessTokenChanged | src/App.tsx:204-229 | the old interval is stopped. With a token, one poll is issued and a fresh interval held unless that poll fails. Without one, no interval runs, the song is cleared and the captured message is kept |
| Playback.Controller.FetchAccessToken | src/App.tsx:84-114 | the token is stored only from a 2xx answer carrying a non-empty one. Every other outcome leaves the token and shows `Failed to obtain access token: ...`, a missing URL without any request. `isAuthLoading` ends false |
| Playback.Controller.ObtainToken | src/App.tsx:200-229 | a rejected token answer keeps the token and shows `Failed to obtain access token: ...`. An accepted token equal to the old one shows `Access Token obtained successfully!`. In both cases song, interval and the interval's captured message are untouched. A changed token runs the effect: one poll, reading the success text, and a new interval |
| Playback.Controller.SendPlayerCommand | src/App.tsx:166-198 | without a token only the message changes. With one, 204 or any 2xx shows `Command "<endpoint>" sent successfully!` and issues exactly one poll; a failure shows `Failed to send command: ...`, issues no poll and leaves the interval. Between handlers nothing is loading |
| Playback.Controller.HandleNext | src/App.tsx:232 | sends `next` by POST, with the whole outcome of `SendPlayerCommand`: no token changes only the message; success shows `Command "next" sent successfully!`, issues the refresh poll and applies its answer; failure shows `Failed to send command: ...` and leaves song and interval |
| Playback.Controller.HandlePrevious | src/App.tsx:233 | the same for `previous` by POST |
| Playback.Controller.HandlePlayPauseToggle | src/App.tsx:234-240 | the same for the command `ToggleCommand` chooses from the song held at the click, by PUT |

## Left out

- Network, environment and library calls are not modelled. `fetch`, `response.json()`, `Deno.env`, `import.meta.env`, `Buffer` base64 encoding, `querystring.stringify` and `Response.json` become parameters or plain records, because they are foreign code. The JSON texts of the bodies are records, not strings.
- Timer timing and React scheduling are not modelled. A handler runs atomically: its answers arrive before the next handler starts, so `isLoading` is never seen true between handlers. Overlapping polls and commands are out of scope, because the code has no ordering guard and interleavings are not the point of the model. The `message` captured by a closure is modelled, as described above.
- `console.error` logging, because it is output only.
- The percentage of the progress bar (client/script.js:29-30), because it is floating point. Only its `duration_ms > 0` guard is kept, as `barFrom`.
- Rendering, theme, styling and class lists (src/App.tsx:19-73 and the JSX apart from the three `disabled` props; client/script.js:19-20), because they are presentation only.
- `let url = web();` in client/script.js:1, because it calls a function no file defines. The widget's fetch is the `record` parameter.
- The page's initial HTML values, because the HTML is not part of this model. `Widget.Page.constructor` starts from empty values.
- Seek, volume, shuffle, repeat, the device list, a shared-secret gate and non-overlapping polls are not implemented in the code, so the model has none of them.
- Widget.Page.Refresh: the widget's response is assumed to be a record the server produced; other JSON shapes are not modelled. Its failed fetch is `None`.
- NowPlaying.GetNowPlaying: the token request's outcome is not a separate input. A failed token exchange shows up as the playback request's answer, usually a status above 400.
- Text.NatString: times and statuses are unbounded integers. JavaScript numbers are doubles, and their `toString` switches to exponent notation from 1e21 on; no millisecond value or status comes near that range, so the model writes every value in plain digits.
- Widget.Seconds: the behaviour for a negative time is stated only as a range, because the sources never produce one.
