/** The application events the worker sends to the rest of ncspot. */
module Events {

  import opened Optional

  /** Playback news for the rest of ncspot. `Playing` carries the wall-clock instant, in
      milliseconds since the epoch, at which the current track would have
      started had it played without interruption; `Paused` carries how far
      into the track playback stopped. */
  datatype PlayerEvent =
    | Playing(startedAtMs: int)
    | Paused(elapsedMs: nat)
    | Stopped
    | FinishedTrack

  datatype QueueEvent = PreloadTrackRequest

  datatype Event = Player(player: PlayerEvent) | Queue(queue: QueueEvent)

  /** The playback status an event carries: `Some(true)` for `Playing`,
      `Some(false)` for `Paused` and `Stopped`, and none for the rest. Note
      that `FinishedTrack` is counted among "the rest"; how ncspot's receiving
      side treats it is not part of this model. */
  function StatusOf(e: Event): Option<bool>
  {
    match e
    case Player(Playing(_)) => Some(true)
    case Player(Paused(_)) => Some(false)
    case Player(Stopped) => Some(false)
    case _ => None
  }

  /** Whether the last `Playing`, `Paused` or `Stopped` event in `sent` is
      `Playing`; false when `sent` holds none of them. */
  function LastStatusPlaying(sent: seq<Event>): bool
    decreases |sent|
  {
    if |sent| == 0 then false
    else
      match StatusOf(sent[|sent| - 1])
      case Some(b) => b
      case None => LastStatusPlaying(sent[..|sent| - 1])
  }

  /** Appending one event changes the answer only when it carries a status. */
  lemma LastStatusPlayingAppend(sent: seq<Event>, e: Event)
    ensures LastStatusPlaying(sent + [e])
            == (match StatusOf(e) case Some(b) => b case None => LastStatusPlaying(sent))
  {
    assert (sent + [e])[..|sent|] == sent;
  }
}
