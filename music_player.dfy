/**
 The list-only playlist and playback bookkeeping of `MusicPlayer.py`: a list of
 track records, a cursor, the traversal policy, the single advance timer, what
 the mplayer process was last told, and the notifications dispatched.

 The streaming client, the mplayer process and the event dispatcher are
 outside the model: the stream URL and the playlist-entry id they return are
 parameters, the player is the last command it received, and each dispatched
 notification is appended to `events`.
 */
module MusicPlayer {
  import opened Seqs
  import opened Tracks

  /** A `threading.Timer` the player started: its delay and whether it is still armed. */
  datatype Timer = Timer(seconds: int, armed: bool)

  /** The last command given to the mplayer process. */
  datatype PlayerStatus = Stopped | Loaded(url: string)

  /** The notifications sent through the event dispatcher. */
  datatype Event =
    | TrackAdded(track: Track)
    | TrackRemoved(id: TrackId)
    | Playback(track: Track)
    | PlaytypeChanged(playtype: PlayType)

  /** The exceptions the playback operations raise. */
  datatype PlayError = IndexError | TypeError

  /** What a playback operation ends with: the track was started (`True`), or an exception. */
  datatype PlayOutcome = Started | Raised(error: PlayError)

  /**
   What `_find_index_of_track_id` is handed: an entry id, or, from `play`, a
   whole track record.
   */
  datatype Key = EntryId(id: TrackId) | Record(track: Track)

  /**
   The comparison `track['id'] == key`: an entry id equals a string key only
   when they are the same string, and no string equals a record.
   */
  predicate KeyMatches(entry: Track, key: Key) {
    key.EntryId? && entry.id == key.id
  }

  /** The entry ids of a playlist, position by position. */
  function Ids(playlist: seq<Track>): (ids: seq<TrackId>)
    ensures |ids| == |playlist|
    ensures forall i :: 0 <= i < |playlist| ==> ids[i] == playlist[i].id
  {
    seq(|playlist|, i requires 0 <= i < |playlist| => playlist[i].id)
  }

  /** Every timer except the most recent one has been cancelled. */
  ghost predicate OnlyLastArmed(timers: seq<Timer>) {
    forall i :: 0 <= i < |timers| - 1 ==> !timers[i].armed
  }

  /** The positions of the timers that are still armed. */
  ghost function ArmedTimers(timers: seq<Timer>): set<nat> {
    set i: nat | i < |timers| && timers[i].armed
  }

  /** Cancelling `self.timer`, the most recent timer, when there is one. */
  function CancelLast(timers: seq<Timer>): (r: seq<Timer>)
    ensures |r| == |timers|
    ensures forall i :: 0 <= i < |timers| ==> r[i].seconds == timers[i].seconds
    ensures forall i :: 0 <= i < |timers| - 1 ==> r[i] == timers[i]
    ensures r != [] ==> !r[|r| - 1].armed
  {
    if timers == [] then [] else timers[..|timers| - 1] + [timers[|timers| - 1].(armed := false)]
  }

  /** While only the most recent timer may be armed, at most one timer is armed. */
  lemma AtMostOneArmed(timers: seq<Timer>)
    requires OnlyLastArmed(timers)
    ensures |ArmedTimers(timers)| <= 1
  {
    if timers != [] && timers[|timers| - 1].armed {
      assert ArmedTimers(timers) == {|timers| - 1};
    } else {
      assert ArmedTimers(timers) == {};
    }
  }

  /** Cancelling the current timer and starting one new timer leaves exactly the new one armed. */
  lemma RearmLeavesOneArmed(timers: seq<Timer>, seconds: int)
    requires OnlyLastArmed(timers)
    ensures OnlyLastArmed(CancelLast(timers) + [Timer(seconds, true)])
    ensures ArmedTimers(CancelLast(timers) + [Timer(seconds, true)]) == {|timers|}
  {
  }

  /** Cancelling the current timer leaves no timer armed. */
  lemma CancelDisarmsAll(timers: seq<Timer>)
    requires OnlyLastArmed(timers)
    ensures OnlyLastArmed(CancelLast(timers))
    ensures ArmedTimers(CancelLast(timers)) == {}
  {
  }

  /** Cancelling twice is cancelling once, so a repeated `stop` changes nothing further. */
  lemma CancelIdempotent(timers: seq<Timer>)
    ensures CancelLast(CancelLast(timers)) == CancelLast(timers)
  {
  }

  /**
   LINEAR predecessor as `play_previous_track` computes it: one back, but the
   last position whenever that is 0 or below.
   */
  function PreviousIndexAsWritten(cursor: nat, n: nat): (k: nat)
    requires 0 < n && cursor <= n
    ensures k < n
    ensures cursor <= 1 ==> k == n - 1
    ensures 1 < cursor ==> k == LinearPreviousIndex(cursor, n)
  {
    if cursor - 1 <= 0 then n - 1 else cursor - 1
  }

  /** With two tracks or more, going back never reaches the first track. */
  lemma PreviousAsWrittenSkipsFirst(cursor: nat, n: nat)
    requires 2 <= n && cursor <= n
    ensures PreviousIndexAsWritten(cursor, n) != 0
  {
  }

  /**
   With two tracks or more, going forward from the first track and then back
   does not return to the first track, unlike `LinearPreviousIndex`.
   */
  lemma PreviousAsWrittenDoesNotUndoNext(n: nat)
    requires 2 <= n
    ensures PreviousIndexAsWritten(LinearNextIndex(0, n), n) == n - 1
    ensures LinearPreviousIndex(LinearNextIndex(0, n), n) == 0
  {
    PreviousUndoesNext(0, n);
  }

  /** Appending an entry with a fresh id and then removing that id restores the list. */
  lemma AddThenRemoveEntryRestores(playlist: seq<Track>, entry: Track)
    requires entry.id !in Ids(playlist)
    ensures FirstIndexOf(Ids(playlist + [entry]), entry.id) == Some(|playlist|)
    ensures RemoveAt(playlist + [entry], |playlist|) == playlist
  {
    assert Ids(playlist + [entry]) == Ids(playlist) + [entry.id];
    AppendThenRemove(Ids(playlist), entry.id);
  }

  class MusicPlayer {
    var playlist: seq<Track>
    var currentTrackIndex: nat
    var playtype: PlayType
    /** Every timer this player has started, oldest first; `self.timer` is the last one. */
    var timers: seq<Timer>
    var player: PlayerStatus
    var events: seq<Event>

    /** At most one advance timer is armed: the most recent one. */
    ghost predicate Valid()
      reads this
    {
      OnlyLastArmed(timers)
    }

    constructor ()
      ensures Valid()
      ensures playlist == [] && currentTrackIndex == 0 && playtype == Linear
      ensures timers == [] && player == Stopped && events == []
    {
      playlist := [];
      currentTrackIndex := 0;
      playtype := Linear;
      timers := [];
      player := Stopped;
      events := [];
    }

    /**
     `_find_index_of_track_id`: the first position whose entry matches `key`,
     or None; for an entry id, its first position in the list of ids.
     */
    method FindIndexOfTrackId(key: Key) returns (index: Option<nat>)
      ensures key.EntryId? ==> index == FirstIndexOf(Ids(playlist), key.id)
      ensures index.Some? ==> index.value < |playlist| && KeyMatches(playlist[index.value], key)
      ensures index.Some? ==> forall j :: 0 <= j < index.value ==> !KeyMatches(playlist[j], key)
      ensures index.None? <==> forall i :: 0 <= i < |playlist| ==> !KeyMatches(playlist[i], key)
    {
      var i := 0;
      while i < |playlist|
        invariant i <= |playlist|
        invariant forall j :: 0 <= j < i ==> !KeyMatches(playlist[j], key)
      {
        if KeyMatches(playlist[i], key) {
          return Some(i);
        }
        i := i + 1;
      }
      return None;
    }

    /**
     `add_track_to_playlist`: the entry id the service returned is stored in the
     record, which is appended without any duplicate check and announced.
     */
    method AddTrackToPlaylist(track: Track, entryId: TrackId)
      modifies this`playlist, this`events
      ensures playlist == old(playlist) + [track.(id := entryId)]
      ensures events == old(events) + [TrackAdded(track.(id := entryId))]
    {
      var entry := track.(id := entryId);
      playlist := playlist + [entry];
      events := events + [TrackAdded(entry)];
    }

    /**
     `remove_track_from_playlist`: deletes the first entry with id `trackId` and
     announces it. The id must be present: otherwise `del` is given None.
     */
    method RemoveTrackFromPlaylist(trackId: TrackId)
      requires trackId in Ids(playlist)
      modifies this`playlist, this`events
      ensures playlist == RemoveAt(old(playlist), FirstIndexOf(Ids(old(playlist)), trackId).value)
      ensures |playlist| == |old(playlist)| - 1
      ensures events == old(events) + [TrackRemoved(trackId)]
    {
      var indexToRemove := FindIndexOfTrackId(EntryId(trackId));
      playlist := RemoveAt(playlist, indexToRemove.value);
      events := events + [TrackRemoved(trackId)];
    }

    /**
     The state after the entry at `index` was started with stream `url`: the
     player was given the stream, the cursor is on the entry (the first one
     carrying its id), the previous timer is cancelled, one new timer is armed
     for the entry's duration, and a now-playing notification was sent.
     */
    twostate predicate Played(index: nat, url: string)
      reads this
    {
      && index < |playlist|
      && playlist == old(playlist) && playtype == old(playtype)
      && currentTrackIndex == index
      && FirstIndexOf(Ids(playlist), playlist[index].id) == Some(index)
      && timers == CancelLast(old(timers)) + [Timer(TimerSeconds(playlist[index].durationMillis), true)]
      && player == Loaded(url)
      && events == old(events) + [Playback(playlist[index])]
    }

    /**
     `play_track`: starts the first entry matching `key`. Only an entry id that
     is in the playlist matches; for any other key the lookup yields None,
     indexing the list with None raises TypeError, and nothing has changed.
     */
    method PlayTrack(key: Key, streamUrl: string) returns (outcome: PlayOutcome)
      requires Valid()
      modifies this`currentTrackIndex, this`timers, this`player, this`events
      ensures Valid()
      ensures outcome == Started <==> key.EntryId? && key.id in Ids(playlist)
      ensures outcome == Started ==>
                Played(currentTrackIndex, streamUrl) && KeyMatches(playlist[currentTrackIndex], key)
      ensures outcome == Started ==> ArmedTimers(timers) == {|timers| - 1}
      ensures outcome != Started ==> outcome == Raised(TypeError) && unchanged(this)
    {
      var indexOfTrack := FindIndexOfTrackId(key);
      if indexOfTrack.None? {
        return Raised(TypeError);
      }
      var trackToPlay := playlist[indexOfTrack.value];
      player := Loaded(streamUrl);
      currentTrackIndex := indexOfTrack.value;
      RearmLeavesOneArmed(timers, TimerSeconds(trackToPlay.durationMillis));
      timers := CancelLast(timers);
      timers := timers + [Timer(TimerSeconds(trackToPlay.durationMillis), true)];
      events := events + [Playback(trackToPlay)];
      return Started;
    }

    /**
     `play_next_track`: under LINEAR the entry after the cursor, wrapping to the
     first; under SHUFFLE any entry; then `play_track` on its id.
     */
    method PlayNextTrack(streamUrl: string) returns (outcome: PlayOutcome)
      requires Valid() && |playlist| > 0
      modifies this`currentTrackIndex, this`timers, this`player, this`events
      ensures Valid() && outcome == Started
      ensures Played(currentTrackIndex, streamUrl)
      ensures old(playtype) == Linear ==>
                playlist[currentTrackIndex].id == playlist[LinearNextIndex(old(currentTrackIndex), |playlist|)].id
    {
      var nextTrackIndex: nat;
      match playtype {
        case Linear =>
          nextTrackIndex := currentTrackIndex + 1;
          if nextTrackIndex >= |playlist| {
            nextTrackIndex := 0;
          }
        case Shuffle =>
          nextTrackIndex :| 0 <= nextTrackIndex < |playlist|;
      }
      var nextTrackId := playlist[nextTrackIndex].id;
      assert Ids(playlist)[nextTrackIndex] == nextTrackId;
      outcome := PlayTrack(EntryId(nextTrackId), streamUrl);
    }

    /**
     `play_previous_track`: under LINEAR the entry before the cursor, but the
     last entry whenever that would be position 0 or below; under SHUFFLE any
     entry; then `play_track` on its id. Only the LINEAR branch reads the
     cursor, and it indexes past the end (IndexError) when the cursor is more
     than one past the last position.
     */
    method PlayPreviousTrack(streamUrl: string) returns (outcome: PlayOutcome)
      requires Valid() && |playlist| > 0 && (playtype == Linear ==> currentTrackIndex <= |playlist|)
      modifies this`currentTrackIndex, this`timers, this`player, this`events
      ensures Valid() && outcome == Started
      ensures Played(currentTrackIndex, streamUrl)
      ensures old(playtype) == Linear ==>
                playlist[currentTrackIndex].id == playlist[PreviousIndexAsWritten(old(currentTrackIndex), |playlist|)].id
    {
      var previousTrackIndex: int;
      match playtype {
        case Linear =>
          previousTrackIndex := currentTrackIndex - 1;
          if previousTrackIndex <= 0 {
            previousTrackIndex := |playlist| - 1;
          }
        case Shuffle =>
          previousTrackIndex :| 0 <= previousTrackIndex < |playlist|;
      }
      var previousTrackId := playlist[previousTrackIndex].id;
      assert Ids(playlist)[previousTrackIndex] == previousTrackId;
      outcome := PlayTrack(EntryId(previousTrackId), streamUrl);
    }

    /** `stop`: cancels the current timer, if any, and stops the player. */
    method Stop()
      requires Valid()
      modifies this`timers, this`player
      ensures Valid()
      ensures timers == CancelLast(old(timers)) && player == Stopped
      ensures ArmedTimers(timers) == {}
    {
      CancelDisarmsAll(timers);
      timers := CancelLast(timers);
      player := Stopped;
    }

    /**
     `play` as written: it hands the whole record under the cursor to
     `play_track` in place of its id. An out-of-range cursor raises IndexError
     before that; otherwise the lookup in `play_track` matches no entry and
     raises TypeError. Nothing changes either way.
     */
    method Play(streamUrl: string) returns (outcome: PlayOutcome)
      requires Valid()
      modifies this`currentTrackIndex, this`timers, this`player, this`events
      ensures outcome.Raised? && unchanged(this)
      ensures old(currentTrackIndex) < |playlist| ==> outcome.error == TypeError
      ensures old(currentTrackIndex) >= |playlist| ==> outcome.error == IndexError
    {
      if currentTrackIndex >= |playlist| {
        return Raised(IndexError);
      }
      var currentTrack := playlist[currentTrackIndex];
      outcome := PlayTrack(Record(currentTrack), streamUrl);
    }

    /** `play` as intended: start the entry under the cursor again. */
    method PlayCurrentTrack(streamUrl: string) returns (outcome: PlayOutcome)
      requires Valid() && currentTrackIndex < |playlist|
      modifies this`currentTrackIndex, this`timers, this`player, this`events
      ensures Valid() && outcome == Started
      ensures Played(currentTrackIndex, streamUrl)
      ensures playlist[currentTrackIndex].id == old(playlist[currentTrackIndex].id)
    {
      var currentTrackId := playlist[currentTrackIndex].id;
      assert Ids(playlist)[currentTrackIndex] == currentTrackId;
      outcome := PlayTrack(EntryId(currentTrackId), streamUrl);
    }

    /** The RPC `set_playtype`: store the policy and announce it. */
    method SetPlaytype(p: PlayType)
      modifies this`playtype, this`events
      ensures playtype == p
      ensures events == old(events) + [PlaytypeChanged(p)]
    {
      playtype := p;
      events := events + [PlaytypeChanged(p)];
    }
  }

  /**
   Two tracks of 5 s and 3 s under LINEAR: starting the first arms a 5 s timer;
   advancing, as the timer's expiry does, starts the second and arms a 3 s timer,
   with the first timer cancelled.
   */
  method AdvanceScenario(a: Track, b: Track, urlA: string, urlB: string)
    requires a.durationMillis == 5000 && b.durationMillis == 3000
  {
    var mp := new MusicPlayer();
    mp.AddTrackToPlaylist(a, "A");
    mp.AddTrackToPlaylist(b, "B");
    assert mp.playlist == [a.(id := "A"), b.(id := "B")];
    assert Ids(mp.playlist) == ["A", "B"];
    var outcome := mp.PlayTrack(EntryId("A"), urlA);
    assert mp.currentTrackIndex == 0;
    assert TimerSeconds(5000) == 5;
    assert mp.timers == [Timer(5, true)];
    AdvanceFromFirst(mp, urlB);
  }

  /** The second half of AdvanceScenario: the timer of the first track expires, then `stop`. */
  method AdvanceFromFirst(mp: MusicPlayer, urlB: string)
    requires mp.Valid() && mp.playtype == Linear && |mp.playlist| == 2
    requires mp.playlist[0].id == "A" && mp.playlist[1].id == "B" && mp.playlist[1].durationMillis == 3000
    requires mp.currentTrackIndex == 0 && mp.timers == [Timer(5, true)]
    modifies mp
  {
    var outcome := mp.PlayNextTrack(urlB);
    assert mp.playlist[mp.currentTrackIndex].id == "B";
    assert TimerSeconds(3000) == 3;
    assert mp.timers == [Timer(5, false), Timer(3, true)];
    assert mp.player == Loaded(urlB);
    mp.Stop();
    assert mp.timers == [Timer(5, false), Timer(3, false)];
  }
}
