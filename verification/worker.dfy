/** One iteration of `Worker::run_loop`: the session check at the top of the
    loop, then whichever `select!` branch fired, as a pure function of the
    worker's one bit of state (`active`), the input, the wall clock and the
    URI parser. */
module SpotifyWorker {

  import opened Optional
  import opened Librespot
  import opened Events

  /** A queue item as the worker sees it: only its URI matters. */
  datatype Playable = Playable(uri: Uri)

  /** Requests from the rest of ncspot. `RequestToken`'s reply channel is not
      carried, and neither is the token future the worker builds from it. */
  datatype WorkerCommand =
    | Load(playable: Playable, startPlaying: bool, positionMs: u32)
    | Play
    | Pause
    | Stop
    | Seek(positionMs: u32)
    | SetVolume(volume: u16)
    | RequestToken
    | Preload(playable: Playable)
    | Shutdown

  /** The `select!` branch that fired in one iteration. `CommandsEmpty` and
      `PlayerEventsClosed` are the two streams yielding `None`. */
  datatype Branch =
    | CommandReceived(command: WorkerCommand)
    | CommandsEmpty
    | PlayerEventReceived(event: LibrespotPlayerEvent)
    | PlayerEventsClosed
    | UiRefresh
    | TokenUpdated

  /** One loop iteration: either the session check at its top fires, or the
      session is valid and `branch` fired. */
  datatype Input = SessionInvalid | Ready(branch: Branch)

  /** What one iteration did: the new `active`, the events sent, the calls
      made, whether the refresh tick called `trigger()` on the event manager,
      and whether the loop goes on. Only that explicit call is recorded;
      whatever the event manager does when an event is sent is not modelled. */
  datatype Reaction = Reaction(
    active: bool,
    sent: seq<Event>,
    calls: seq<Call>,
    refreshTriggered: bool,
    continues: bool)

  /** `active` of a freshly built worker. */
  const InitiallyActive: bool := false

  /** Inputs on which the loop breaks. */
  predicate Ends(input: Input)
  {
    input.SessionInvalid? || input == Ready(PlayerEventsClosed)
  }

  /** The playback status a player event reports, if any. */
  function ReportedStatus(input: Input): Option<bool>
  {
    match input
    case Ready(PlayerEventReceived(Playing(_))) => Some(true)
    case Ready(PlayerEventReceived(Paused(_))) => Some(false)
    case Ready(PlayerEventReceived(Stopped)) => Some(false)
    case _ => None
  }

  /** A URI the player can be asked to load: it parses, to a known item type. */
  predicate Loadable(parse: UriParser, p: Playable)
  {
    parse(p.uri).Some? && parse(p.uri).value.itemType != Unknown
  }

  function Quiet(active: bool): Reaction
  {
    Reaction(active, [], [], false, true)
  }

  function Emit(active: bool, e: Event): Reaction
  {
    Reaction(active, [e], [], false, true)
  }

  function Invoke(active: bool, calls: seq<Call>): Reaction
  {
    Reaction(active, [], calls, false, true)
  }

  /** The `commands` branch. A command never changes `active` or ends the
      loop; the only event it can produce is `FinishedTrack`, and only for a
      `Load` the player cannot take. */
  function OnCommand(active: bool, command: WorkerCommand, parse: UriParser): (r: Reaction)
    ensures r.active == active && r.continues && !r.refreshTriggered
    ensures r.sent == [] || r.sent == [Player(FinishedTrack)]
    ensures r.sent != [] <==> command.Load? && !Loadable(parse, command.playable)
    ensures |r.calls| <= 2
  {
    match command
    case Load(p, startPlaying, positionMs) =>
      (match parse(p.uri)
       case Some(id) =>
         if id.itemType == Unknown then Emit(active, Player(FinishedTrack))
         else Invoke(active, [PlayerLoad(id, startPlaying, positionMs)])
       case None => Emit(active, Player(FinishedTrack)))
    case Play => Invoke(active, [PlayerPlay])
    case Pause => Invoke(active, [PlayerPause])
    case Stop => Invoke(active, [PlayerStop])
    case Seek(positionMs) => Invoke(active, [PlayerSeek(positionMs)])
    case SetVolume(volume) => Invoke(active, [MixerSetVolume(volume)])
    case RequestToken => Invoke(active, [TokenFetch])
    case Preload(p) =>
      (match parse(p.uri)
       case Some(id) => Invoke(active, [PlayerPreload(id)])
       case None => Quiet(active))
    case Shutdown => Invoke(active, [PlayerStop, SessionShutdown])
  }

  /** The `player_events` branch for a received event. A player event makes no
      calls, never ends the loop, sends at most one event, and changes
      `active` only as its reported status says. */
  function OnPlayerEvent(active: bool, event: LibrespotPlayerEvent, nowMs: int): (r: Reaction)
    ensures r.calls == [] && r.continues && !r.refreshTriggered
    ensures |r.sent| <= 1
    ensures r.active == (match ReportedStatus(Ready(PlayerEventReceived(event)))
                         case Some(b) => b
                         case None => active)
  {
    match event
    case Playing(positionMs) =>
      Emit(true, Player(PlayerEvent.Playing(nowMs - positionMs)))
    case Seeked(positionMs) =>
      if active then Emit(active, Player(PlayerEvent.Playing(nowMs - positionMs)))
      else Emit(active, Player(PlayerEvent.Paused(positionMs)))
    case PositionCorrection(positionMs) =>
      if active then Emit(active, Player(PlayerEvent.Playing(nowMs - positionMs)))
      else Emit(active, Player(PlayerEvent.Paused(positionMs)))
    case Paused(positionMs) =>
      Emit(false, Player(PlayerEvent.Paused(positionMs)))
    case Stopped =>
      Emit(false, Player(PlayerEvent.Stopped))
    case EndOfTrack =>
      Emit(active, Player(FinishedTrack))
    case TimeToPreloadNextTrack =>
      Emit(active, Queue(PreloadTrackRequest))
    case _ =>
      Quiet(active)
  }

  /** One iteration of the loop at wall-clock time `nowMs`. */
  function Step(active: bool, input: Input, nowMs: int, parse: UriParser): (r: Reaction)
    ensures |r.sent| <= 1
    ensures !r.continues <==> Ends(input)
    ensures r.refreshTriggered <==> active && input == Ready(UiRefresh)
    ensures r.calls != [] ==> input.Ready? && input.branch.CommandReceived?
    ensures r.active == (match ReportedStatus(input) case Some(b) => b case None => active)
    ensures forall e | e in r.sent && e.Player? && e.player.Playing? :: e.player.startedAtMs <= nowMs
  {
    match input
    case SessionInvalid =>
      Reaction(active, [Player(PlayerEvent.Stopped)], [], false, false)
    case Ready(branch) =>
      match branch
      case CommandReceived(command) => OnCommand(active, command, parse)
      case CommandsEmpty => Quiet(active)
      case PlayerEventReceived(event) => OnPlayerEvent(active, event, nowMs)
      case PlayerEventsClosed => Reaction(active, [], [], false, false)
      case UiRefresh => Reaction(active, [], [], active, true)
      case TokenUpdated => Quiet(active)
  }

  // ---------------------------------------------------------------------------
  // Player-event arms

  /** `Playing` turns the worker active and reports exactly one `Playing`
      whose start instant lies `positionMs` before now. */
  lemma PlayingActivates(active: bool, positionMs: u32, nowMs: int, parse: UriParser)
    ensures var r := Step(active, Ready(PlayerEventReceived(LibrespotPlayerEvent.Playing(positionMs))), nowMs, parse);
            && r.active && r.continues && r.calls == []
            && |r.sent| == 1 && r.sent[0].Player? && r.sent[0].player.Playing?
            && r.sent[0].player.startedAtMs + positionMs == nowMs
  {
  }

  /** `Seeked` and `PositionCorrection` leave `active` alone and re-announce
      the position: as a start instant while active, as a paused position
      otherwise. */
  lemma RepositionKeepsActive(active: bool, event: LibrespotPlayerEvent, nowMs: int, parse: UriParser)
    requires event.Seeked? || event.PositionCorrection?
    ensures var r := Step(active, Ready(PlayerEventReceived(event)), nowMs, parse);
            && r.active == active && r.continues && r.calls == [] && |r.sent| == 1
            && (active <==> r.sent[0] == Player(PlayerEvent.Playing(nowMs - event.positionMs)))
            && (!active <==> r.sent[0] == Player(PlayerEvent.Paused(event.positionMs)))
  {
  }

  /** `Paused` and `Stopped` deactivate the worker and pass the news on. */
  lemma PauseAndStopDeactivate(active: bool, event: LibrespotPlayerEvent, nowMs: int, parse: UriParser)
    requires event.Paused? || event.Stopped?
    ensures var r := Step(active, Ready(PlayerEventReceived(event)), nowMs, parse);
            && !r.active && r.continues && r.calls == []
            && (event.Paused? ==> r.sent == [Player(PlayerEvent.Paused(event.positionMs))])
            && (event.Stopped? ==> r.sent == [Player(PlayerEvent.Stopped)])
  {
  }

  /** The end of a track and the preload hint become queue-facing events and
      leave `active` alone. */
  lemma TrackBoundaryEvents(active: bool, event: LibrespotPlayerEvent, nowMs: int, parse: UriParser)
    requires event.EndOfTrack? || event.TimeToPreloadNextTrack?
    ensures var r := Step(active, Ready(PlayerEventReceived(event)), nowMs, parse);
            && r.active == active && r.continues && r.calls == []
            && (event.EndOfTrack? ==> r.sent == [Player(FinishedTrack)])
            && (event.TimeToPreloadNextTrack? ==> r.sent == [Queue(PreloadTrackRequest)])
  {
  }

  /** Every other player event is ignored: nothing is sent, nothing called,
      `active` is kept. */
  lemma OtherEventsIgnored(active: bool, event: LibrespotPlayerEvent, nowMs: int, parse: UriParser)
    requires !(event.Playing? || event.Seeked? || event.PositionCorrection? || event.Paused?
               || event.Stopped? || event.EndOfTrack? || event.TimeToPreloadNextTrack?)
    ensures Step(active, Ready(PlayerEventReceived(event)), nowMs, parse) == Quiet(active)
  {
  }

  // ---------------------------------------------------------------------------
  // Command arms

  /** A `Load` is answered exactly once: by one player load with the same
      start flag and position when the URI is loadable, or else by a
      `FinishedTrack` so that the queue moves on. */
  lemma LoadAnsweredOnce(active: bool, p: Playable, startPlaying: bool, positionMs: u32, nowMs: int, parse: UriParser)
    ensures var r := Step(active, Ready(CommandReceived(Load(p, startPlaying, positionMs))), nowMs, parse);
            && r.active == active && r.continues
            && |r.sent| + |r.calls| == 1
            && (Loadable(parse, p) <==> r.calls != [])
            && (Loadable(parse, p) ==> r.calls == [PlayerLoad(parse(p.uri).value, startPlaying, positionMs)])
            && (!Loadable(parse, p) ==> r.sent == [Player(FinishedTrack)])
  {
  }

  /** `Preload` preloads whatever id the URI parses to, including one of
      unknown type, and otherwise does nothing; it never sends an event. */
  lemma PreloadNeverEmits(active: bool, p: Playable, nowMs: int, parse: UriParser)
    ensures var r := Step(active, Ready(CommandReceived(Preload(p))), nowMs, parse);
            && r.active == active && r.continues && r.sent == []
            && (parse(p.uri).Some? ==> r.calls == [PlayerPreload(parse(p.uri).value)])
            && (parse(p.uri).None? ==> r.calls == [])
  {
  }

  /** The transport and volume commands each make exactly one call carrying
      the command's argument unchanged. */
  lemma TransportPassesThrough(active: bool, command: WorkerCommand, nowMs: int, parse: UriParser)
    requires command.Play? || command.Pause? || command.Stop? || command.Seek? || command.SetVolume?
    ensures var r := Step(active, Ready(CommandReceived(command)), nowMs, parse);
            && r.active == active && r.continues && r.sent == [] && |r.calls| == 1
            && (command.Play? <==> r.calls[0] == PlayerPlay)
            && (command.Pause? <==> r.calls[0] == PlayerPause)
            && (command.Stop? <==> r.calls[0] == PlayerStop)
            && (command.Seek? <==> r.calls[0].PlayerSeek?)
            && (command.Seek? ==> r.calls[0].positionMs == command.positionMs)
            && (command.SetVolume? <==> r.calls[0].MixerSetVolume?)
            && (command.SetVolume? ==> r.calls[0].volume == command.volume)
  {
  }

  /** `Shutdown` stops the player and shuts the session down but does not
      leave the loop; the loop ends when a later iteration finds the session
      invalid. */
  lemma ShutdownKeepsLooping(active: bool, nowMs: int, parse: UriParser)
    ensures var r := Step(active, Ready(CommandReceived(Shutdown)), nowMs, parse);
            && r.continues && r.active == active && r.sent == []
            && r.calls == [PlayerStop, SessionShutdown]
  {
  }

  /** `RequestToken` installs a new token future, recorded as one
      `TokenFetch` call, and sends nothing. */
  lemma RequestTokenFetches(active: bool, nowMs: int, parse: UriParser)
    ensures var r := Step(active, Ready(CommandReceived(RequestToken)), nowMs, parse);
            && r.calls == [TokenFetch] && r.sent == []
            && r.active == active && r.continues && !r.refreshTriggered
  {
  }

  // ---------------------------------------------------------------------------
  // Loop control

  /** The refresh tick calls `trigger()` exactly when the worker is active,
      and does nothing else. */
  lemma RefreshOnlyWhileActive(active: bool, nowMs: int, parse: UriParser)
    ensures var r := Step(active, Ready(UiRefresh), nowMs, parse);
            && (r.refreshTriggered <==> active)
            && r.active == active && r.continues && r.sent == [] && r.calls == []
  {
  }

  /** An invalidated session sends one `Stopped` and ends the loop, whatever
      the worker's state. */
  lemma InvalidSessionStops(active: bool, nowMs: int, parse: UriParser)
    ensures var r := Step(active, SessionInvalid, nowMs, parse);
            && !r.continues && r.sent == [Player(PlayerEvent.Stopped)] && r.calls == [] && !r.refreshTriggered
  {
  }

  /** A closed player-event channel ends the loop without sending anything. */
  lemma ClosedEventChannelStops(active: bool, nowMs: int, parse: UriParser)
    ensures var r := Step(active, Ready(PlayerEventsClosed), nowMs, parse);
            !r.continues && r.sent == [] && r.calls == [] && r.active == active
  {
  }

  /** An exhausted command stream, unlike a closed player-event channel, does
      not end the loop, and does nothing else either. */
  lemma EmptyCommandStreamContinues(active: bool, nowMs: int, parse: UriParser)
    ensures var r := Step(active, Ready(CommandsEmpty), nowMs, parse);
            r.continues && r.sent == [] && r.calls == [] && r.active == active && !r.refreshTriggered
  {
  }

  /** A completed token future only resets it: nothing is sent or called. */
  lemma TokenUpdatedIgnored(active: bool, nowMs: int, parse: UriParser)
    ensures var r := Step(active, Ready(TokenUpdated), nowMs, parse);
            r.continues && r.sent == [] && r.calls == [] && r.active == active && !r.refreshTriggered
  {
  }

  // ---------------------------------------------------------------------------
  // Agreement with the status events sent

  /** The worker's `active` is true exactly when the last `Playing`, `Paused`
      or `Stopped` event it has sent is `Playing`. */
  predicate Agrees(active: bool, sent: seq<Event>)
  {
    active == LastStatusPlaying(sent)
  }

  /** Every iteration that keeps the loop going keeps `active` in agreement
      with the status events sent: `active` changes only together with a
      status event saying so, and every status event sent matches the new
      `active`. */
  lemma StepKeepsAgreement(active: bool, sent: seq<Event>, input: Input, nowMs: int, parse: UriParser)
    requires Agrees(active, sent)
    ensures var r := Step(active, input, nowMs, parse);
            r.continues ==> Agrees(r.active, sent + r.sent)
  {
    var r := Step(active, input, nowMs, parse);
    if r.continues {
      if r.sent == [] {
        assert sent + r.sent == sent;
      } else {
        LastStatusPlayingAppend(sent, r.sent[0]);
        assert sent + r.sent == sent + [r.sent[0]];
      }
    }
  }
}
