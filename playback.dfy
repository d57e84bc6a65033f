/** The playback controller page: it obtains an access token, polls the
    currently-playing endpoint once a second, and sends transport commands
    (play, pause, next, previous), keeping five state cells and one polling
    handle up to date. */
module Playback {
  import opened Http
  import opened Text

  // ---------------------------------------------------------------------
  // Values

  datatype Item = Item(name: string, artistNames: seq<string>)

  /** The parsed currently-playing body, as far as the page reads it. */
  datatype Song = Song(isPlaying: bool, item: Option<Item>)

  datatype Verb = Put | Post

  /** An outbound request, as the page issues it. */
  datatype Request = TokenRequest(url: string) | PollRequest | CommandRequest(endpoint: string, verb: Verb)

  // ---------------------------------------------------------------------
  // Messages

  const ObtainingToken := "Obtaining Spotify Access Token..."
  const TokenObtained := "Access Token obtained successfully!"
  const MissingApiUrl :=
    "Spotify Token API URL is not defined. Please check your .env file and ensure it uses VITE_ prefix."
  const TokenNotInResponse := "Access token not found in response from Val Town."
  const NoTokenForPoll := "Access token is not available. Please obtain it first."
  const NoTokenForCommand := "Access token is not available. Cannot send command."
  const NothingPlaying := "No song is currently playing."
  const FetchingSong := "Fetching current song..."
  const SendingCommand := "Sending command to Spotify player..."

  /** The prefix every failure message starts with. */
  const FailurePrefix := "Failed to"

  const TokenFailureHead := "Failed to obtain access token: "
  const TokenFailureTail := ". Please ensure your Val Town API is running and configured correctly."
  const PollFailureHead := "Failed to fetch current song: "
  const PollFailureTail := ". Make sure your token is valid and a song is playing on an active device."
  const CommandFailureHead := "Failed to send command: "
  const CommandFailureTail := ". Ensure an active device is available and connected to Spotify."
  const CommandSentHead := "Command \""
  const CommandSentTail := "\" sent successfully!"

  /** `${what}: ${status} - ${reason}`, the text of the errors thrown on a
      non-2xx answer. */
  function StatusError(what: string, status: int, reason: string): string {
    what + ": " + IntString(status) + " - " + reason
  }

  /** `head + error + tail` starts with `head`, and so with the failure
      prefix when `head` does. */
  lemma FramedStartsWith(head: string, error: string, tail: string)
    requires StartsWith(head, FailurePrefix)
    ensures StartsWith(head + error + tail, head) && StartsWith(head + error + tail, FailurePrefix)
  {
    assert (head + error + tail)[..|head|] == head;
    assert (head + error + tail)[..|FailurePrefix|] == head[..|FailurePrefix|];
  }

  function TokenFailure(error: string): (m: string)
    ensures StartsWith(m, TokenFailureHead) && StartsWith(m, FailurePrefix)
  {
    FramedStartsWith(TokenFailureHead, error, TokenFailureTail);
    TokenFailureHead + error + TokenFailureTail
  }

  function PollFailure(error: string): (m: string)
    ensures StartsWith(m, PollFailureHead) && StartsWith(m, FailurePrefix)
  {
    FramedStartsWith(PollFailureHead, error, PollFailureTail);
    PollFailureHead + error + PollFailureTail
  }

  function CommandFailure(error: string): (m: string)
    ensures StartsWith(m, CommandFailureHead) && StartsWith(m, FailurePrefix)
  {
    FramedStartsWith(CommandFailureHead, error, CommandFailureTail);
    CommandFailureHead + error + CommandFailureTail
  }

  function CommandSent(endpoint: string): (m: string)
    ensures !StartsWith(m, FailurePrefix)
    ensures m != NothingPlaying && m != FetchingSong
  {
    assert (CommandSentHead + endpoint + CommandSentTail)[0] == 'C';
    CommandSentHead + endpoint + CommandSentTail
  }

  // ---------------------------------------------------------------------
  // What one poll answer does

  /** A poll answer that ends in the `catch`: a throw, or a non-2xx status
      (204 is tested first and is 2xx). */
  predicate PollFails(reply: Reply<Song>) {
    reply.Threw? || !IsOk(reply.status)
  }

  predicate IsNoContent<T>(reply: Reply<T>) {
    reply.Answered? && reply.status == 204
  }

  /** The error text a failing poll carries into its message. */
  function PollError(reply: Reply<Song>): string
    requires PollFails(reply)
  {
    match reply
    case Threw(error) => error
    case Answered(status, reason, _) => StatusError("Error fetching current song", status, reason)
  }

  /** The message after a poll answer arrives. `shown` is the message on
      the page and `seen` the `message` the polling closure captured, which
      the two tests read: an empty answer keeps the page's message when
      `seen` is a failure and otherwise reports that nothing plays; a
      failure reports itself; a song clears the page's message only when
      `seen` is one of the two transient "no song" messages. */
  function MessageAfterPoll(shown: string, seen: string, reply: Reply<Song>): (after: string)
    ensures PollFails(reply) ==> StartsWith(after, PollFailureHead)
    ensures IsNoContent(reply) && StartsWith(seen, FailurePrefix) ==> after == shown
    ensures IsNoContent(reply) && !StartsWith(seen, FailurePrefix) ==> after == NothingPlaying
    ensures !PollFails(reply) && !IsNoContent(reply) ==>
      after == (if seen == NothingPlaying || seen == FetchingSong then "" else shown)
  {
    if PollFails(reply) then PollFailure(PollError(reply))
    else if reply.status == 204 then (if StartsWith(seen, FailurePrefix) then shown else NothingPlaying)
    else if seen == NothingPlaying || seen == FetchingSong then ""
    else shown
  }

  /** The song after a poll answer: cleared by an empty answer, replaced
      wholesale by a body, untouched by a failure. */
  function SongAfterPoll(before: Option<Song>, reply: Reply<Song>): (after: Option<Song>)
    ensures PollFails(reply) ==> after == before
    ensures IsNoContent(reply) ==> after == None
    ensures !PollFails(reply) && !IsNoContent(reply) ==> after == Some(reply.data)
  {
    if PollFails(reply) then before
    else if reply.status == 204 then None
    else Some(reply.data)
  }

  /** The message after `n` empty poll answers in a row, each poll reading
      the message on the page. */
  function AfterEmptyPolls(message: string, n: nat): string {
    if n == 0 then message
    else
      var shown := AfterEmptyPolls(message, n - 1);
      MessageAfterPoll(shown, shown, Answered(204, "", Song(false, None)))
  }

  /** A failure message, such as a failed command's, survives any number of
      empty polls that read it; any other message is replaced by the first
      one. */
  lemma {:induction false} FailureSurvivesEmptyPolls(message: string, n: nat)
    ensures StartsWith(message, FailurePrefix) ==> AfterEmptyPolls(message, n) == message
    ensures !StartsWith(message, FailurePrefix) && n > 0 ==> AfterEmptyPolls(message, n) == NothingPlaying
  {
    if n > 0 {
      FailureSurvivesEmptyPolls(message, n - 1);
      if !StartsWith(message, FailurePrefix) && n > 1 {
        assert NothingPlaying[0] != FailurePrefix[0];
      }
    }
  }

  /** The interval's callback captured the message of the render that
      started it, which after a new token is the success text: an empty
      tick therefore replaces whatever the page shows, a failed command's
      message included, by the "nothing playing" text. */
  lemma EmptyTickAfterTokenOverwrites(shown: string, reply: Reply<Song>)
    requires IsNoContent(reply)
    ensures MessageAfterPoll(shown, TokenObtained, reply) == NothingPlaying
  {
    assert TokenObtained[0] != FailurePrefix[0];
  }

  /** The refresh poll after a successful command reads the message of the
      click's render, `clicked`: an empty answer keeps the success text only
      when `clicked` was a failure, and a song erases it when `clicked` was a
      transient "no song" message. */
  lemma CommandRefreshReadsClickedMessage(endpoint: string, clicked: string, reply: Reply<Song>)
    ensures IsNoContent(reply) ==>
      (MessageAfterPoll(CommandSent(endpoint), clicked, reply) == CommandSent(endpoint) <==>
       StartsWith(clicked, FailurePrefix))
    ensures !PollFails(reply) && !IsNoContent(reply) ==>
      (MessageAfterPoll(CommandSent(endpoint), clicked, reply) == "" <==>
       (clicked == NothingPlaying || clicked == FetchingSong))
  {
    assert CommandSent(endpoint) != NothingPlaying;
    assert |CommandSent(endpoint)| > 0;
  }

  // ---------------------------------------------------------------------
  // Commands and buttons

  /** The command the play/pause button sends: pause when a song is known to
      be playing, play otherwise. */
  function ToggleCommand(song: Option<Song>): (command: (string, Verb))
    ensures command.1 == Put
    ensures command.0 == "pause" <==> song.Some? && song.value.isPlaying
    ensures command.0 == "play" <==> !(song.Some? && song.value.isPlaying)
  {
    if song.Some? && song.value.isPlaying then ("pause", Put) else ("play", Put)
  }

  /** A command answer that counts as success: 204, or any other 2xx. */
  predicate CommandSucceeds(reply: Reply<()>) {
    reply.Answered? && (reply.status == 204 || IsOk(reply.status))
  }

  /** The error text a failing command carries into its message. */
  function CommandError(endpoint: string, reply: Reply<()>): string
    requires !CommandSucceeds(reply)
  {
    match reply
    case Threw(error) => error
    case Answered(status, reason, _) => StatusError("Error with command \"" + endpoint + "\"", status, reason)
  }

  /** The answer to a token request that stores a token. */
  predicate TokenAccepted(apiUrl: string, reply: Reply<Option<string>>) {
    apiUrl != "" && reply.Answered? && IsOk(reply.status) && reply.data.Some? && reply.data.value != ""
  }

  /** The error text a failed token request carries into its message. */
  function TokenError(apiUrl: string, reply: Reply<Option<string>>): string
    requires !TokenAccepted(apiUrl, reply)
  {
    if apiUrl == "" then MissingApiUrl
    else match reply
      case Threw(error) => error
      case Answered(status, reason, _) =>
        if !IsOk(status) then StatusError("Error fetching access token", status, reason)
        else TokenNotInResponse
  }

  // ---------------------------------------------------------------------
  // The page

  class Controller {
    var accessToken: string
    var message: string
    var currentSong: Option<Song>
    var isLoading: bool
    var isAuthLoading: bool
    /** `pollingIntervalRef.current` */
    var pollingInterval: Option<nat>
    /** The id the browser gives the next interval (ids are positive). */
    var nextIntervalId: nat
    /** The intervals the browser is running. */
    ghost var runningIntervals: set<nat>
    /** Every request issued so far, in order. */
    ghost var sent: seq<Request>
    /** The `message` the running interval's callback closed over: the
        value in the render whose effect started it. */
    var tickSeen: string

    /** Between handlers: the only running interval is the one the ref holds,
        and one is held only while there is a token; no command is in flight. */
    ghost predicate Valid()
      reads this
    {
      && runningIntervals == HeldInterval()
      && 0 < nextIntervalId
      && (pollingInterval.Some? ==> 0 < pollingInterval.value < nextIntervalId && accessToken != "")
      && !isLoading
    }

    /** The buttons' `disabled` props, negated. */
    predicate PreviousEnabled()
      reads this
      ensures Valid() ==> PreviousEnabled()
    {
      !isLoading
    }

    predicate NextEnabled()
      reads this
      ensures NextEnabled() <==> PreviousEnabled()
    {
      !isLoading
    }

    predicate PlayPauseEnabled()
      reads this
      ensures PlayPauseEnabled() ==> NextEnabled()
      ensures Valid() ==> (PlayPauseEnabled() <==> currentSong.Some?)
    {
      !isLoading && currentSong.Some?
    }

    /** The state cells' initial values. */
    constructor ()
      ensures Valid()
      ensures accessToken == "" && message == "" && currentSong == None
      ensures !isLoading && isAuthLoading && pollingInterval == None && sent == []
    {
      accessToken, message, currentSong := "", "", None;
      isLoading, isAuthLoading := false, true;
      pollingInterval, nextIntervalId := None, 1;
      runningIntervals, sent, tickSeen := {}, [], "";
    }

    /** `clearInterval(pollingIntervalRef.current)` followed by nulling the ref. */
    method StopPolling()
      modifies this`pollingInterval, this`runningIntervals
      ensures pollingInterval == None && runningIntervals == old(runningIntervals) - old(HeldInterval())
    {
      if pollingInterval.Some? {
        runningIntervals := runningIntervals - {pollingInterval.value};
        pollingInterval := None;
      }
    }

    ghost function HeldInterval(): set<nat>
      reads this
    {
      if pollingInterval.Some? then {pollingInterval.value} else {}
    }

    /** The `catch` of `fetchCurrentPlaying`: report the error and stop the
        interval. */
    method PollFailed(error: string)
      requires Valid()
      modifies this`message, this`pollingInterval, this`runningIntervals
      ensures Valid()
      ensures message == PollFailure(error) && pollingInterval == None
    {
      message := PollFailure(error);
      StopPolling();
    }

    /** The part of `fetchCurrentPlaying` after the request: `reply`
        arrives, and the tests read `seen`, the message the closure holds. */
    method ReceivePoll(reply: Reply<Song>, seen: string)
      requires Valid() && accessToken != ""
      modifies this`message, this`currentSong, this`pollingInterval, this`runningIntervals
      ensures Valid()
      ensures message == MessageAfterPoll(old(message), seen, reply)
      ensures currentSong == SongAfterPoll(old(currentSong), reply)
      ensures pollingInterval == (if PollFails(reply) then None else old(pollingInterval))
    {
      match reply {
        case Threw(error) =>
          PollFailed(error);
        case Answered(status, reason, data) =>
          if status == 204 {
            currentSong := None;
            if !StartsWith(seen, FailurePrefix) {
              message := NothingPlaying;
            }
          } else if !IsOk(status) {
            PollFailed(StatusError("Error fetching current song", status, reason));
          } else {
            currentSong := Some(data);
            if seen == NothingPlaying || seen == FetchingSong {
              message := "";
            }
          }
      }
    }

    /** `fetchCurrentPlaying`, called from a closure that captured the
        message `seen`. Without a token it stops polling and issues nothing;
        otherwise it issues one poll and applies `reply`. */
    method FetchCurrentPlaying(reply: Reply<Song>, seen: string)
      requires Valid()
      modifies this`message, this`currentSong, this`pollingInterval, this`runningIntervals, this`sent
      ensures Valid()
      ensures old(accessToken) == "" ==>
        && pollingInterval == None && message == NoTokenForPoll
        && currentSong == old(currentSong) && sent == old(sent)
      ensures old(accessToken) != "" ==>
        && sent == old(sent) + [PollRequest]
        && message == MessageAfterPoll(old(message), seen, reply)
        && currentSong == SongAfterPoll(old(currentSong), reply)
        && pollingInterval == (if PollFails(reply) then None else old(pollingInterval))
    {
      if accessToken == "" {
        StopPolling();
        message := NoTokenForPoll;
        return;
      }
      sent := sent + [PollRequest];
      ReceivePoll(reply, seen);
    }

    /** One tick of the running interval: its callback reads the message it
        captured when the interval was started. */
    method Tick(reply: Reply<Song>)
      requires Valid() && pollingInterval.Some?
      modifies this`message, this`currentSong, this`pollingInterval, this`runningIntervals, this`sent
      ensures Valid()
      ensures sent == old(sent) + [PollRequest]
      ensures message == MessageAfterPoll(old(message), old(tickSeen), reply)
      ensures currentSong == SongAfterPoll(old(currentSong), reply)
      ensures pollingInterval == (if PollFails(reply) then None else old(pollingInterval))
    {
      FetchCurrentPlaying(reply, tickSeen);
    }

    /** The effect that runs when `accessToken` changes: the previous run's
        cleanup stops the interval; then, with a token, one immediate poll is
        issued and a new interval started before `pollReply` arrives; without
        one, the song is cleared. Both polls read the current message. */
    method AccessTokenChanged(pollReply: Reply<Song>)
      requires Valid()
      modifies this`message, this`currentSong, this`pollingInterval, this`runningIntervals, this`sent
      modifies this`nextIntervalId, this`tickSeen
      ensures Valid()
      ensures old(accessToken) == "" ==>
        && pollingInterval == None && runningIntervals == {} && currentSong == None
        && message == old(message) && sent == old(sent)
        && tickSeen == old(tickSeen) && nextIntervalId == old(nextIntervalId)
      ensures old(accessToken) != "" ==>
        && sent == old(sent) + [PollRequest] && tickSeen == old(message)
        && nextIntervalId == old(nextIntervalId) + 1
        && pollingInterval == (if PollFails(pollReply) then None else Some(old(nextIntervalId)))
        && message == MessageAfterPoll(old(message), old(message), pollReply)
        && currentSong == SongAfterPoll(old(currentSong), pollReply)
    {
      StopPolling();
      if accessToken != "" {
        sent := sent + [PollRequest];
        pollingInterval := Some(nextIntervalId);
        runningIntervals := {nextIntervalId};
        nextIntervalId := nextIntervalId + 1;
        tickSeen := message;
        ReceivePoll(pollReply, message);
      } else {
        currentSong := None;
      }
    }

    /** `fetchAccessToken`: `apiUrl` is the configured token URL (`""` when
        unset), `reply` the token endpoint's answer. A token is stored only
        from a 2xx answer that carries a non-empty one; every other outcome
        ends in the one `catch`, and the `finally` clears `isAuthLoading`. */
    method FetchAccessToken(apiUrl: string, reply: Reply<Option<string>>)
      requires Valid()
      modifies this`accessToken, this`isAuthLoading, this`message, this`sent
      ensures Valid()
      ensures !isAuthLoading
      ensures sent == old(sent) + (if apiUrl == "" then [] else [TokenRequest(apiUrl)])
      ensures TokenAccepted(apiUrl, reply) ==> accessToken == reply.data.value && message == TokenObtained
      ensures !TokenAccepted(apiUrl, reply) ==>
        accessToken == old(accessToken) && message == TokenFailure(TokenError(apiUrl, reply))
    {
      isAuthLoading := true;
      message := ObtainingToken;
      if apiUrl != "" {
        sent := sent + [TokenRequest(apiUrl)];
      }
      if TokenAccepted(apiUrl, reply) {
        accessToken := reply.data.value;
        message := TokenObtained;
      } else {
        message := TokenFailure(TokenError(apiUrl, reply));
      }
      isAuthLoading := false;
    }

    /** The mount effect: `fetchAccessToken`, then, when that changed the
        token, the token effect with `pollReply` as its poll's answer. */
    method ObtainToken(apiUrl: string, reply: Reply<Option<string>>, pollReply: Reply<Song>)
      requires Valid()
      modifies this`accessToken, this`isAuthLoading
      modifies this`message, this`currentSong, this`pollingInterval, this`runningIntervals, this`sent
      modifies this`nextIntervalId, this`tickSeen
      ensures Valid()
      ensures !isAuthLoading
      ensures !TokenAccepted(apiUrl, reply) ==>
        accessToken == old(accessToken) && message == TokenFailure(TokenError(apiUrl, reply))
      ensures TokenAccepted(apiUrl, reply) && reply.data.value == old(accessToken) ==>
        accessToken == old(accessToken) && message == TokenObtained
      ensures !TokenAccepted(apiUrl, reply) || reply.data.value == old(accessToken) ==>
        && currentSong == old(currentSong) && pollingInterval == old(pollingInterval)
        && runningIntervals == old(runningIntervals)
        && tickSeen == old(tickSeen) && nextIntervalId == old(nextIntervalId)
        && sent == old(sent) + (if apiUrl == "" then [] else [TokenRequest(apiUrl)])
      ensures TokenAccepted(apiUrl, reply) && reply.data.value != old(accessToken) ==>
        && accessToken == reply.data.value
        && sent == old(sent) + [TokenRequest(apiUrl), PollRequest] && tickSeen == TokenObtained
        && nextIntervalId == old(nextIntervalId) + 1
        && message == MessageAfterPoll(TokenObtained, TokenObtained, pollReply)
        && currentSong == SongAfterPoll(old(currentSong), pollReply)
        && pollingInterval == (if PollFails(pollReply) then None else Some(old(nextIntervalId)))
    {
      var before := accessToken;
      FetchAccessToken(apiUrl, reply);
      if accessToken != before {
        AccessTokenChanged(pollReply);
      }
    }

    /** `sendPlayerCommand`: `reply` is the command's answer and `pollReply`
        the answer to the poll a success triggers, which reads the message of
        the click's render. Without a token only the message changes. A
        success issues exactly one immediate poll; a failure issues none and
        leaves the interval alone. */
    method SendPlayerCommand(endpoint: string, verb: Verb, reply: Reply<()>, pollReply: Reply<Song>)
      requires Valid()
      modifies this`isLoading
      modifies this`message, this`currentSong, this`pollingInterval, this`runningIntervals, this`sent
      ensures Valid()
      ensures old(accessToken) == "" ==>
        && message == NoTokenForCommand && currentSong == old(currentSong)
        && pollingInterval == old(pollingInterval) && sent == old(sent)
      ensures old(accessToken) != "" && CommandSucceeds(reply) ==>
        && sent == old(sent) + [CommandRequest(endpoint, verb), PollRequest]
        && message == MessageAfterPoll(CommandSent(endpoint), old(message), pollReply)
        && currentSong == SongAfterPoll(old(currentSong), pollReply)
        && pollingInterval == (if PollFails(pollReply) then None else old(pollingInterval))
      ensures old(accessToken) != "" && !CommandSucceeds(reply) ==>
        && sent == old(sent) + [CommandRequest(endpoint, verb)]
        && message == CommandFailure(CommandError(endpoint, reply))
        && currentSong == old(currentSong) && pollingInterval == old(pollingInterval)
    {
      if accessToken == "" {
        message := NoTokenForCommand;
        return;
      }
      var clicked := message;
      isLoading := true;
      message := SendingCommand;
      sent := sent + [CommandRequest(endpoint, verb)];
      // 204 and any other 2xx report success; a throw and a non-2xx status
      // end in the `catch`
      if CommandSucceeds(reply) {
        message := CommandSent(endpoint);
      } else {
        message := CommandFailure(CommandError(endpoint, reply));
      }
      isLoading := false;
      if CommandSucceeds(reply) {
        FetchCurrentPlaying(pollReply, clicked);
      }
    }

    /** The next button. */
    method HandleNext(reply: Reply<()>, pollReply: Reply<Song>)
      requires Valid()
      modifies this`isLoading
      modifies this`message, this`currentSong, this`pollingInterval, this`runningIntervals, this`sent
      ensures Valid()
      ensures old(accessToken) == "" ==>
        && message == NoTokenForCommand && currentSong == old(currentSong)
        && pollingInterval == old(pollingInterval) && sent == old(sent)
      ensures old(accessToken) != "" && CommandSucceeds(reply) ==>
        && sent == old(sent) + [CommandRequest("next", Post), PollRequest]
        && message == MessageAfterPoll(CommandSent("next"), old(message), pollReply)
        && currentSong == SongAfterPoll(old(currentSong), pollReply)
        && pollingInterval == (if PollFails(pollReply) then None else old(pollingInterval))
      ensures old(accessToken) != "" && !CommandSucceeds(reply) ==>
        && sent == old(sent) + [CommandRequest("next", Post)]
        && message == CommandFailure(CommandError("next", reply))
        && currentSong == old(currentSong) && pollingInterval == old(pollingInterval)
    {
      SendPlayerCommand("next", Post, reply, pollReply);
    }

    /** The previous button. */
    method HandlePrevious(reply: Reply<()>, pollReply: Reply<Song>)
      requires Valid()
      modifies this`isLoading
      modifies this`message, this`currentSong, this`pollingInterval, this`runningIntervals, this`sent
      ensures Valid()
      ensures old(accessToken) == "" ==>
        && message == NoTokenForCommand && currentSong == old(currentSong)
        && pollingInterval == old(pollingInterval) && sent == old(sent)
      ensures old(accessToken) != "" && CommandSucceeds(reply) ==>
        && sent == old(sent) + [CommandRequest("previous", Post), PollRequest]
        && message == MessageAfterPoll(CommandSent("previous"), old(message), pollReply)
        && currentSong == SongAfterPoll(old(currentSong), pollReply)
        && pollingInterval == (if PollFails(pollReply) then None else old(pollingInterval))
      ensures old(accessToken) != "" && !CommandSucceeds(reply) ==>
        && sent == old(sent) + [CommandRequest("previous", Post)]
        && message == CommandFailure(CommandError("previous", reply))
        && currentSong == old(currentSong) && pollingInterval == old(pollingInterval)
    {
      SendPlayerCommand("previous", Post, reply, pollReply);
    }

    /** The play/pause button: the command is chosen from the song held when
        the button is pressed. */
    method HandlePlayPauseToggle(reply: Reply<()>, pollReply: Reply<Song>)
      requires Valid()
      modifies this`isLoading
      modifies this`message, this`currentSong, this`pollingInterval, this`runningIntervals, this`sent
      ensures Valid()
      ensures old(accessToken) == "" ==>
        && message == NoTokenForCommand && currentSong == old(currentSong)
        && pollingInterval == old(pollingInterval) && sent == old(sent)
      ensures old(accessToken) != "" && CommandSucceeds(reply) ==>
        && sent == old(sent) + [CommandRequest(ToggleCommand(old(currentSong)).0, Put), PollRequest]
        && message == MessageAfterPoll(CommandSent(ToggleCommand(old(currentSong)).0), old(message), pollReply)
        && currentSong == SongAfterPoll(old(currentSong), pollReply)
        && pollingInterval == (if PollFails(pollReply) then None else old(pollingInterval))
      ensures old(accessToken) != "" && !CommandSucceeds(reply) ==>
        && sent == old(sent) + [CommandRequest(ToggleCommand(old(currentSong)).0, Put)]
        && message == CommandFailure(CommandError(ToggleCommand(old(currentSong)).0, reply))
        && currentSong == old(currentSong) && pollingInterval == old(pollingInterval)
    {
      var command := ToggleCommand(currentSong);
      SendPlayerCommand(command.0, command.1, reply, pollReply);
    }
  }

  /** Between handlers no command is in flight, so previous and next are
      enabled, and play/pause is enabled exactly when a song is known. */
  lemma IdleButtons(c: Controller)
    requires c.Valid()
    ensures c.PreviousEnabled() && c.NextEnabled()
    ensures c.PlayPauseEnabled() <==> c.currentSong.Some?
    ensures c.PlayPauseEnabled() ==> c.NextEnabled()
  {
  }
}
