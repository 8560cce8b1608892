# ncspot's Spotify worker, modelled in Dafny

ncspot is a terminal client for Spotify. Its `Worker` (`src/spotify_worker.rs`)
sits between the rest of the application and librespot, which owns the
streaming session, the audio player and the mixer. `Worker::run_loop` waits on
four sources at once: commands from the application (`WorkerCommand`), events
from librespot's player, a 400 ms UI-refresh timer, and a pending token
request. Each time one of them is ready, it translates the input:

- a command becomes a call on the player, the mixer or the session, or, for a
  track the player cannot load, a `FinishedTrack` event so the queue moves on;
- a librespot player event becomes at most one application event (`Playing`,
  `Paused`, `Stopped`, `FinishedTrack`, or a queue `PreloadTrackRequest`);
- a timer tick calls `trigger()` on the event manager, but only while playback is active. The event manager (`src/events.rs`) is not part of this model.

The worker keeps one bit of state, `active`. It is false in a new worker and
is set by librespot's `Playing`, `Paused` and `Stopped` events. The loop ends
when the session is found invalid (after sending `Stopped`) or when the
player-event channel closes.

The model has five modules:

- `Optional` (`optional.dfy`): the `Option` wrapper.
- `Librespot` (`librespot.dfy`): the foreign side as values. It holds librespot's player events, catalogue ids and item types, and a `Call` record for each call the worker makes. URI parsing (`SpotifyId::from_uri`) is a parameter of type `UriParser`.
- `Events` (`events.dfy`): the application events the worker sends. `LastStatusPlaying` says whether the last `Playing`, `Paused` or `Stopped` event in a sequence is `Playing`.
- `SpotifyWorker` (`worker.dfy`): one loop iteration as the pure function `Step(active, input, nowMs, parse)`. It returns the new `active`, the events sent, the calls made, whether the refresh tick called `trigger()` and whether the loop continues. Only that explicit call is recorded as a refresh trigger. Any redraw the event manager performs when an event is sent is not modelled. Lemmas describe each `match` arm.
- `RunLoop` (`run_loop.dfy`): the loop as a fold `Run` over a sequence of time-stamped iterations. It comes with reference definitions stated without `Step`, lemmas linking the fold to them, and `RunWorker`, an imperative loop proved equal to the fold.

The fold is proved against these reference definitions, which are stated without `Step`:

- `ActiveAfter`: "the last status reported by a player event wins".
- `TriggerTicks`: "the refresh ticks that arrive while the last reported status is playing".
- `Agrees`: "the worker's `active` is true exactly when the last `Playing`/`Paused`/`Stopped` event it sent is `Playing`".

## Model

| member | source | states |
|---|---|---|
| SpotifyWorker.OnCommand | src/spotify_worker.rs:104-151 | A command never changes `active`, never ends the loop and never calls `trigger()`. The only event it can send is `FinishedTrack`, and it sends one exactly when the command is a `Load` whose URI does not parse or parses to an unknown item type. |
| SpotifyWorker.OnPlayerEvent | src/spotify_worker.rs:152-216 | A received player event makes no calls, does not end the loop and sends at most one event. The new `active` is the status the event reports (`Playing` true; `Paused`, `Stopped` false), and is unchanged otherwise. |
| SpotifyWorker.Step | src/spotify_worker.rs:96-231 | Each iteration sends at most one event. The loop stops exactly on an invalid session or a closed player-event channel. The refresh `trigger()` is called exactly on a tick while active. Calls come only from commands. `active` follows the reported status. A `Playing` start instant is never after now. |
| SpotifyWorker.PlayingActivates | src/spotify_worker.rs:153-163 | librespot `Playing` makes the worker active and sends exactly one `Playing` whose start instant plus the reported position equals now. |
| SpotifyWorker.RepositionKeepsActive | src/spotify_worker.rs:164-182 | `Seeked` and `PositionCorrection` keep `active`. They send `Playing(now - position)` exactly when active and `Paused(position)` exactly when not. |
| SpotifyWorker.PauseAndStopDeactivate | src/spotify_worker.rs:183-196 | `Paused` sends `Paused(position)` and `Stopped` sends `Stopped`. Both clear `active` and make no calls. |
| SpotifyWorker.TrackBoundaryEvents | src/spotify_worker.rs:197-203 | `EndOfTrack` sends `FinishedTrack` and `TimeToPreloadNextTrack` sends the queue's `PreloadTrackRequest`. Neither changes `active`. |
| SpotifyWorker.OtherEventsIgnored | src/spotify_worker.rs:204-216 | All remaining player events (`Loading`, `Preloading`, `Unavailable`, `VolumeChanged`, session and mode changes) send nothing, call nothing and keep `active`. |
| SpotifyWorker.LoadAnsweredOnce | src/spotify_worker.rs:105-121 | A `Load` gets exactly one answer. It is a single player load with the same start flag and position when the URI parses to a known item type. Otherwise it is a `FinishedTrack` event and no load. |
| SpotifyWorker.PreloadNeverEmits | src/spotify_worker.rs:140-145 | `Preload` sends no event. It preloads the parsed id when the URI parses, whatever its item type, and does nothing when it does not parse. |
| SpotifyWorker.TransportPassesThrough | src/spotify_worker.rs:122-136 | `Play`, `Pause`, `Stop`, `Seek` and `SetVolume` each make exactly one call of the matching kind. The position or volume is passed through unchanged, and nothing is sent. |
| SpotifyWorker.ShutdownKeepsLooping | src/spotify_worker.rs:146-149 | `Shutdown` stops the player, then shuts the session down. It neither sends an event nor leaves the loop. |
| SpotifyWorker.RequestTokenFetches | src/spotify_worker.rs:137-139 | `RequestToken` makes exactly one call, installing a new token future. It sends nothing, keeps `active` and continues the loop. |
| SpotifyWorker.RefreshOnlyWhileActive | src/spotify_worker.rs:222-226 | The refresh tick calls `trigger()` if and only if the worker is active, and has no other effect. |
| SpotifyWorker.InvalidSessionStops | src/spotify_worker.rs:97-101 | An invalid session sends exactly one `Stopped` and ends the loop, in any state. |
| SpotifyWorker.ClosedEventChannelStops | src/spotify_worker.rs:217-220 | A closed player-event channel ends the loop without sending anything. |
| SpotifyWorker.EmptyCommandStreamContinues | src/spotify_worker.rs:150 | An exhausted command stream does nothing and the loop goes on. |
| SpotifyWorker.TokenUpdatedIgnored | src/spotify_worker.rs:227-230 | A completed token future sends nothing, calls nothing, keeps `active` and continues the loop. |
| SpotifyWorker.StepKeepsAgreement | src/spotify_worker.rs:153-196 | If `active` equals whether the last `Playing`/`Paused`/`Stopped` event sent so far is `Playing`, every iteration that continues the loop keeps that equality. |
| RunLoop.Run | src/spotify_worker.rs:93-233 | The fold consumes at most all inputs, and consumes all of them while still running. It sends at most one event and calls `trigger()` at most once per consumed input. |
| RunLoop.RunActiveIsLastReported | src/spotify_worker.rs:153-196 | After any run, `active` is the status reported by the last `Playing`, `Paused` or `Stopped` among the consumed inputs, or the initial value if none was reported. |
| RunLoop.RunTriggersMatchTicks | src/spotify_worker.rs:222-226 | The number of refresh `trigger()` calls equals the number of refresh ticks that arrived while the last reported status was playing. |
| RunLoop.RunStopsAtFirstEnd | src/spotify_worker.rs:96-101 | The loop runs through all inputs if and only if none of them is an invalid session or a closed event channel. Otherwise it stops exactly at the first such input. |
| RunLoop.RunIgnoresLaterInputs | src/spotify_worker.rs:99-100 | Once the loop has broken, appending more inputs changes nothing. |
| RunLoop.RunKeepsAgreement | src/spotify_worker.rs:152-196 | From a new worker, while the loop runs, `active` is true exactly when the last `Playing`/`Paused`/`Stopped` event sent was `Playing`. |
| RunLoop.SilentUntilPlaying | src/spotify_worker.rs:60 | A new worker starts inactive and stays inactive, with no refresh `trigger()` call, until librespot first reports `Playing`. |
| RunLoop.RunWorker | src/spotify_worker.rs:93-233 | The imperative loop starts from a new worker and breaks on the first ending input. It computes exactly the fold `Run`, and its `active` is the last reported status. |

## Left out

- `tokio::select!` scheduling, the unbounded channels and `time::interval` are left out. Which branch fires is already decided in the input sequence, and the 400 ms period of the refresh timer is not modelled. Each input is one loop iteration that happened.
- Token acquisition is only partly modelled. The worker's own `get_token` (which builds the token future) and its `token_task` field are not modelled. The call to librespot's token provider inside that future is foreign. `RequestToken` is recorded as a `TokenFetch` call, and the token future completing is a `TokenUpdated` input with no effect.
- A `RequestToken` replaces any pending token future. The earlier future is dropped, so its requester's reply channel is cancelled instead of answered. `TokenFetch` does not record this.
- `TokenUpdated` is over-approximated: the model accepts it at any time. In the source it can only occur after a `RequestToken`, because the idle token future never completes.
- The librespot `Player`, `Mixer` and `Session` are foreign objects. Their methods are recorded as `Call` values and never executed. Session invalidation is an input (`SessionInvalid`), so the model does not connect `Shutdown` to a later invalid session.
- `SpotifyId::from_uri` is foreign. It is the `parse` parameter, and its error result is `None`.
- `SystemTime` and `Duration` are replaced by integer milliseconds: `nowMs` is the wall clock for the iteration. The playback start instant `nowMs - position` is an unbounded integer with no `nowMs >= position` precondition. A `SystemTime` can lie before the epoch, and a 32-bit millisecond position cannot underflow it, so the source handles every case.
- Librespot event payloads the worker ignores are not carried: request ids, track ids, volumes and flags.
- `Drop for Worker`, which stops the player, is teardown outside the loop.
- How ncspot's receiving side reads the events is not modelled. `FinishedTrack` counts as carrying no playback status. So after librespot's `EndOfTrack`, `active` stays true, and the refresh tick keeps calling `trigger()`, until librespot reports `Paused` or `Stopped`. This holds even though `FinishedTrack` has already been sent.
- Logging (`debug!`, `info!`, `warn!`, `error!`) is left out.
- Playback state beyond `active` is not modelled because the worker keeps none. librespot's `Seeked` and `PositionCorrection` are forwarded as `Playing` or `Paused`, according to `active`.
