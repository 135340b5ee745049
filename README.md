# gmusicplayer playlist core in Dafny

gmusicplayer is a remote-controlled music player. It streams tracks from a
Google Music account through an mplayer process and takes commands from web
clients over WAMP. Its core is the ordered playlist with a cursor that decides
what plays next. The repository has two versions of it, and both are modelled:

- `Playlist.py`, class `Playlist`. It keeps a list of catalogue ids (`nid`) in
  insertion order, a dict from id to track, a cursor and a traversal policy
  (LINEAR or SHUFFLE). `add_track` refuses an id that is already stored.
  Module `Playlist` models it as class `Playlist.Playlist`. Its real `seq` and
  `map` fields are updated in place. `Valid()` is the invariant: no id is
  listed twice, the map's keys are exactly the listed ids, and each track is
  stored under its own `nid`.
- `MusicPlayer.py`, class `MusicPlayer`. This is the older, list-only version.
  It keeps a list of track records keyed by their playlist-entry `id`, plus a
  cursor, one `threading.Timer` for advancing and the mplayer handle. Module
  `MusicPlayer` models it as class `MusicPlayer.MusicPlayer`:
  - `timers` holds every timer the player started; `self.timer` is the last one.
  - `player` is the last command mplayer received.
  - `events` logs the dispatched notifications.
  - `Valid()` says that only the most recent timer can be armed.

Two shared modules hold the rest:

- `Seqs` has first-occurrence search, positional delete and append-unless-present.
- `Tracks` has the track record, the traversal policy, LINEAR index arithmetic
  and the timer delay.

Each method's postcondition ties the new state to the old one. Lemmas prove
the properties that the source promises.

External collaborators are parameters or left out:

- The stream URL from `get_stream_url` is the `streamUrl` parameter.
- The entry id from `add_songs_to_playlist` is the `entryId` parameter.
- `random.randrange` is a nondeterministic choice of an index in range.

## Model

| member | source | states |
|---|---|---|
| `Seqs.FirstIndexOf` | Playlist.py:171-179 | the result is None exactly when the id is absent; otherwise it is the least position holding the id |
| `Seqs.RemoveAtProperties` | Playlist.py:160-165 | deleting position i keeps the other elements in their relative order; in a duplicate-free list it removes that element entirely and keeps the list duplicate-free |
| `Seqs.AppendAllNewProperties` | Playlist.py:139-150 | after any sequence of adds, each distinct id appears exactly once, the ids already there stay as a prefix in their order, and the listed ids are exactly those ever added |
| `Seqs.AppendAllNewSnoc` | Playlist.py:139-150 | a batch of adds is the adds one after another in batch order: adding one more id appends it unless it is already listed, so the new ids follow in order of their first add |
| `Playlist.Playlist.constructor` | Playlist.py:18-22 | a new playlist is empty, has cursor 0 and uses LINEAR, and satisfies the invariant |
| `Playlist.Playlist.SetPlaytype` | Playlist.py:24-25 | the policy becomes the given one and nothing else changes |
| `Playlist.Playlist.GetTrack` | Playlist.py:44-54 | under the invariant a track is found exactly for listed ids, stored under that id; any other id raises KeyError |
| `Playlist.Playlist.GetTracks` | Playlist.py:30-42 | one track per listed id, in list order: the stored track, whose nid is that id |
| `Playlist.Playlist.FindTrackPosition` | Playlist.py:171-179 | returns the first position of the id (the loop agrees with `FirstIndexOf`); None exactly when the id is not listed |
| `Playlist.Playlist.SetCurrentTrack` | Playlist.py:56-69 | returns true exactly when the id is listed, and then puts the cursor on its first position; otherwise the cursor is unchanged |
| `Playlist.Playlist.GetCurrentTrackId` | Playlist.py:71-77 | the id under the cursor is listed; under the invariant it occurs only at the cursor and has a stored track |
| `Playlist.Playlist.GetNextTrackId` | Playlist.py:79-104 | the id is always listed; under LINEAR it is at `LinearNextIndex` of the cursor; the cursor does not move |
| `Playlist.Playlist.GetPreviousTrackId` | Playlist.py:106-127 | the id is always listed; under LINEAR it is at `LinearPreviousIndex` of the cursor; the cursor does not move |
| `Playlist.Playlist.AddTrack` | Playlist.py:129-150 | true exactly when the nid was not stored; then the nid is appended and the map gains it, otherwise nothing changes; the invariant is kept |
| `Playlist.Playlist.RemoveTrack` | Playlist.py:152-169 | true exactly when the id was listed; then it leaves the list (the others keep their order) and the map, otherwise nothing changes; the cursor never changes; the invariant is kept |
| `Playlist.SizesAgree` | Playlist.py:144-148 | under the invariant the map holds exactly as many tracks as the list holds ids |
| `Playlist.AddThenRemoveRestores` | Playlist.py:139-169 | adding a fresh track and then removing its id gives back the original list and map |
| `Tracks.LinearNextIndex` | Playlist.py:89-95 | the LINEAR successor is in range; for an in-range cursor it is (cursor + 1) mod n; for a cursor beyond the end it is 0 |
| `Tracks.LinearPreviousIndex` | Playlist.py:114-120 | the LINEAR predecessor is in range; for an in-range cursor it is (cursor - 1) mod n; for a cursor one past the end it is the last position |
| `Tracks.PreviousUndoesNext` | Playlist.py:89-120 | for an in-range cursor, LINEAR previous undoes LINEAR next, and next undoes previous |
| `Tracks.Advance` | Playlist.py:89-95 | repeated LINEAR advances stay in range |
| `Tracks.AdvanceIsRotation` | Playlist.py:89-95 | k LINEAR advances from position i land on (i + k) mod n, so LINEAR traversal is a fixed cycle through all positions |
| `Tracks.TimerSeconds` | MusicPlayer.py:147 | the timer delay is the floor of the duration in milliseconds divided by 1000 |
| `MusicPlayer.CancelLast` | MusicPlayer.py:142-144 | cancelling `self.timer` disarms the most recent timer and leaves every other timer and every delay as it was |
| `MusicPlayer.AtMostOneArmed` | MusicPlayer.py:142-152 | while only the most recent timer may be armed, at most one timer is armed |
| `MusicPlayer.RearmLeavesOneArmed` | MusicPlayer.py:142-152 | cancelling the current timer and starting one new timer leaves exactly the new timer armed |
| `MusicPlayer.CancelDisarmsAll` | MusicPlayer.py:220-221 | after the current timer is cancelled no timer is armed |
| `MusicPlayer.CancelIdempotent` | MusicPlayer.py:215-224 | cancelling twice equals cancelling once, so a second `stop` changes nothing further |
| `MusicPlayer.PreviousIndexAsWritten` | MusicPlayer.py:197-203 | the as-written LINEAR predecessor is in range; it is the last position whenever the cursor is 0 or 1, and otherwise agrees with `LinearPreviousIndex` |
| `MusicPlayer.PreviousAsWrittenSkipsFirst` | MusicPlayer.py:201-203 | with two or more tracks, the as-written predecessor is never position 0 |
| `MusicPlayer.PreviousAsWrittenDoesNotUndoNext` | MusicPlayer.py:197-203 | from position 0 with two or more tracks, next then as-written previous lands on the last position, but `LinearPreviousIndex` returns to 0 |
| `MusicPlayer.AddThenRemoveEntryRestores` | MusicPlayer.py:96-112 | appending an entry with a fresh id and then deleting that id's first entry restores the list |
| `MusicPlayer.MusicPlayer.constructor` | MusicPlayer.py:36-45 | a new player has an empty playlist, cursor 0, LINEAR, no timer, a stopped player and no notifications |
| `MusicPlayer.MusicPlayer.FindIndexOfTrackId` | MusicPlayer.py:236-244 | returns the first position whose entry matches the key, and for an entry id that is the id's first position in the list of ids; None exactly when no entry matches, as for every record key |
| `MusicPlayer.MusicPlayer.AddTrackToPlaylist` | MusicPlayer.py:87-99 | the record, carrying the service's entry id, is appended at the end without a duplicate check, and a track-added notification is logged |
| `MusicPlayer.MusicPlayer.RemoveTrackFromPlaylist` | MusicPlayer.py:101-114 | requires the id to be present; deletes the first entry with that id, the others keep their order, and a track-removed notification is logged |
| `MusicPlayer.MusicPlayer.PlayTrack` | MusicPlayer.py:116-161 | starts a track exactly when the key is an entry id in the list: then loads the stream, puts the cursor on the first entry with the id, cancels the previous timer and arms one new timer for the entry's duration, so exactly one timer is armed, logs now-playing and returns true; otherwise indexing with None raises TypeError and nothing changes |
| `MusicPlayer.MusicPlayer.PlayNextTrack` | MusicPlayer.py:163-187 | on a non-empty list, always plays the entry whose id is at `LinearNextIndex` of the cursor under LINEAR, or at any position under SHUFFLE, with the effects of `PlayTrack` |
| `MusicPlayer.MusicPlayer.PlayPreviousTrack` | MusicPlayer.py:189-213 | on a non-empty list (under LINEAR, with the cursor at most its length), always plays the entry whose id is at `PreviousIndexAsWritten` of the cursor under LINEAR, or at any position under SHUFFLE, with the effects of `PlayTrack` |
| `MusicPlayer.MusicPlayer.Stop` | MusicPlayer.py:215-224 | cancels the current timer, so no timer is armed, and stops the player; the invariant is kept |
| `MusicPlayer.MusicPlayer.Play` | MusicPlayer.py:226-234 | `play` as written never starts a track: an out-of-range cursor raises IndexError; otherwise the record under the cursor goes to `PlayTrack`'s lookup, which matches no entry, so it raises TypeError; nothing changes either way |
| `MusicPlayer.MusicPlayer.PlayCurrentTrack` | MusicPlayer.py:226-234 | `play` as intended: replays the entry under the cursor, with the effects of `PlayTrack` |
| `MusicPlayer.MusicPlayer.SetPlaytype` | MusicPlayer.py:323-326 | the policy becomes the given LINEAR or SHUFFLE value and a playtype-changed notification is logged (see Left out for the raw values the client sends) |

`Playlist.Playlist.GetPlaytype` (Playlist.py:27-28) reads the policy and has
no contract of its own. The method `MusicPlayer.AdvanceScenario` is a client
of the contracts above. It covers two tracks of 5 s and 3 s: playing the
first arms a 5 s timer. Advancing, as the timer's expiry would, plays the
second, cancels the first timer and arms a 3 s timer. Stopping then leaves no
timer armed.

Where the code does something other than its docstrings and comments suggest,
the model follows the code:

- `remove_track` never adjusts the cursor. After a removal, the cursor may
  point at a different track or one past the end. So `GetCurrentTrackId`
  requires an in-range cursor. Under LINEAR, `GetPreviousTrackId` and
  `PlayPreviousTrack` require a cursor of at most the list's length. Those
  are exactly the cases where Python raises IndexError. Under SHUFFLE the
  cursor is not read, so any cursor is allowed.
- `get_track` raises KeyError for an unknown id, although its docstring
  promises None. The model returns `KeyError`.
- `MusicPlayer.play_track` with an unknown id does not return false. It
  indexes the list with None and raises TypeError, which `PlayTrack` returns
  as `Raised(TypeError)`. Its `return False` branch cannot be reached, because
  no list entry is None. `remove_track_from_playlist` fails the same way
  (`del` with None), after the remote removal was already requested;
  `RemoveTrackFromPlaylist` requires the id to be present.
- `MusicPlayer` never uses `Playlist`. It appends without a duplicate check
  and has its own LINEAR-previous rule (see Findings).

## Left out

- Google Music clients: `login`, `load_playlist`, `get_stream_url`, `add_songs_to_playlist` and `remove_entries_from_playlist` are foreign calls. Their results are opaque parameters (`streamUrl`, `entryId`), and loading a playlist from the account is not modelled.
- mplayer: `loadfile`, `stop` and the extra `pause` on darwin drive an external process. Only the last command is recorded.
- `threading.Timer`: its background firing of `play_next_track` and its daemon flag are concurrency. A timer is a delay with an armed flag, and an expiry is a call to `PlayNextTrack`.
- Output: `print` output and `json.dumps` are not modelled. `factory.forwarder.dispatch` is an appended event log.
- Transport glue: `RpcServerProtocol` and the twisted/autobahn setup are left out, except `set_playtype`, which is `MusicPlayer.MusicPlayer.SetPlaytype`. `get_status` calls `get_current_track_id` on a plain list and always swallows the resulting error.
- MusicPlayer.MusicPlayer.SetPlaytype: takes a LINEAR or SHUFFLE value, but the RPC `set_playtype` stores the client's raw value (MusicPlayer.py:325), and the browser client only ever sends the integers 1 and 2 (web/javascripts/musicplayer.js:7-8, 312-313). An integer never equals a member of the `PlayType` Enum, so after any client call of `set_playtype`, `play_next_track` and `play_previous_track` reach their index variable unassigned (MusicPlayer.py:184, 210) and raise, and their SHUFFLE branches cannot be reached from the client. The model does not capture this failure: its policy is always one of the two Enum members.
- Track records: records are Python dicts; here they are a record with the fields the core reads. `long()` parsing the duration string is not modelled.
- Playlist.Playlist.GetNextTrackId: under SHUFFLE it states only that the id is listed. The uniform distribution of `random.randrange` is not modelled.
- Playlist.Playlist.GetPreviousTrackId: under SHUFFLE it states only that the id is listed; no distribution is modelled.
- MusicPlayer.MusicPlayer.PlayNextTrack: under SHUFFLE it states only that some entry is played; no distribution is modelled.
- MusicPlayer.MusicPlayer.PlayPreviousTrack: under SHUFFLE it states only that some entry is played; no distribution is modelled.
- The browser client in `web/javascripts/musicplayer.js` (DOM, WAMP calls, time formatting) is not part of this model.
- The unused `shelve` import has no behaviour to model.

## Findings

| source | as written | input that shows it | evidently intended | confidence | as-written member | corrected member |
|---|---|---|---|---|---|---|
| MusicPlayer.py:202 | LINEAR previous wraps to the last track when `current_track_index - 1 <= 0` | three tracks, LINEAR, cursor 1: previous plays position 2 instead of position 0 | wrap only when the index falls below 0, as `Playlist.py:119` does, so previous undoes next | high; not executed | `MusicPlayer.PreviousAsWrittenDoesNotUndoNext` | `Tracks.PreviousUndoesNext` |
| MusicPlayer.py:233-234 | `play` passes the whole track record to `play_track` as its id | any non-empty playlist with the cursor in range: the lookup finds nothing and `self.playlist[None]` raises TypeError | pass the record's `'id'`, replaying the track under the cursor | high; not executed | `MusicPlayer.MusicPlayer.Play` | `MusicPlayer.MusicPlayer.PlayCurrentTrack` |

`MusicPlayer.MusicPlayer.PlayPreviousTrack` models `MusicPlayer.py` as
written, so it keeps the `<= 0` rule. The corrected rule,
`Tracks.LinearPreviousIndex`, is the one `Playlist.Playlist.GetPreviousTrackId`
uses.
