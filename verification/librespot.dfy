/** The part of librespot's API that the worker uses, reduced to values.

    The player, the mixer and the session are foreign objects. The worker never
    reads anything back from them, so every call it makes is recorded as a
    `Call` value instead of being performed. `SpotifyId::from_uri` is foreign
    too; it is passed around as a `UriParser`. */
module Librespot {

  import opened Optional

  /** Unsigned integer widths of the Rust signatures. */
  type u16 = x: int | 0 <= x < 0x1_0000
  type u32 = x: int | 0 <= x < 0x1_0000_0000

  type Uri = string

  datatype SpotifyItemType =
    | Album | Artist | Episode | Playlist | Show | Track | Local | Unknown

  /** A parsed catalogue id: the 128-bit id (unbounded here) and its kind. */
  datatype SpotifyId = SpotifyId(id: nat, itemType: SpotifyItemType)

  /** `SpotifyId::from_uri`: `None` stands for its error result. */
  type UriParser = Uri -> Option<SpotifyId>

  /** The events librespot's player sends to the worker. Payloads the worker
      ignores (request ids, track ids, volumes, flags) are not carried. */
  datatype LibrespotPlayerEvent =
    | Playing(positionMs: u32)
    | Seeked(positionMs: u32)
    | PositionCorrection(positionMs: u32)
    | Paused(positionMs: u32)
    | Stopped
    | EndOfTrack
    | TimeToPreloadNextTrack
    | Loading
    | Preloading
    | Unavailable
    | VolumeChanged
    | TrackChanged
    | SessionConnected
    | SessionDisconnected
    | SessionClientChanged
    | ShuffleChanged
    | RepeatChanged
    | AutoPlayChanged
    | FilterExplicitContentChanged

  /** One call the worker makes on the player, the mixer or the session.
      `TokenFetch` stands for the worker installing a new token future, whose
      body asks librespot's token provider for a token. */
  datatype Call =
    | PlayerLoad(id: SpotifyId, startPlaying: bool, positionMs: u32)
    | PlayerPlay
    | PlayerPause
    | PlayerStop
    | PlayerSeek(positionMs: u32)
    | PlayerPreload(id: SpotifyId)
    | MixerSetVolume(volume: u16)
    | SessionShutdown
    | TokenFetch
}
