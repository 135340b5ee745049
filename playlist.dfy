/**
 The playlist of `Playlist.py`: an ordered list of catalogue ids, a map from id
 to track, a cursor and a traversal policy, all updated in place.
 */
module Playlist {
  import opened Seqs
  import opened Tracks

  /** What `get_track` yields: the stored track, or the KeyError the dict lookup raises. */
  datatype Lookup = Found(track: Track) | KeyError

  class Playlist {
    var trackMap: map<TrackId, Track>
    var trackList: seq<TrackId>
    var currentTrackIndex: nat
    var playtype: PlayType

    /**
     The playlist invariant: no id is listed twice, the map's keys are exactly
     the listed ids, and every track is stored under its own `nid`.
     */
    ghost predicate Valid()
      reads this
    {
      && NoDuplicates(trackList)
      && trackMap.Keys == Elements(trackList)
      && forall id :: id in trackMap ==> trackMap[id].nid == id
    }

    constructor ()
      ensures Valid()
      ensures trackMap == map[] && trackList == []
      ensures currentTrackIndex == 0 && playtype == Linear
    {
      trackMap := map[];
      trackList := [];
      currentTrackIndex := 0;
      playtype := Linear;
    }

    method SetPlaytype(p: PlayType)
      modifies this`playtype
      ensures playtype == p
    {
      playtype := p;
    }

    function GetPlaytype(): PlayType
      reads this
    {
      playtype
    }

    /** `get_track`: the track stored under `id`; absent ids raise KeyError. */
    function GetTrack(id: TrackId): (r: Lookup)
      reads this
      ensures Valid() ==> (r.Found? <==> id in trackList)
      ensures r.Found? ==> id in trackMap && r.track == trackMap[id]
      ensures Valid() && r.Found? ==> r.track.nid == id
    {
      if id in trackMap then Found(trackMap[id]) else KeyError
    }

    /** `get_tracks`: the stored track of every listed id, in list order. */
    method GetTracks() returns (tracks: seq<Track>)
      requires Valid()
      ensures |tracks| == |trackList|
      ensures forall i :: 0 <= i < |trackList| ==>
                trackList[i] in trackMap && tracks[i] == trackMap[trackList[i]] && tracks[i].nid == trackList[i]
    {
      tracks := [];
      for i := 0 to |trackList|
        invariant |tracks| == i
        invariant forall j :: 0 <= j < i ==>
                    trackList[j] in trackMap && tracks[j] == trackMap[trackList[j]] && tracks[j].nid == trackList[j]
      {
        assert trackList[i] in Elements(trackList);
        tracks := tracks + [GetTrack(trackList[i]).track];
      }
    }

    /** `_find_track_position`: the first position holding `id`, or None. */
    method FindTrackPosition(id: TrackId) returns (position: Option<nat>)
      ensures position == FirstIndexOf(trackList, id)
      ensures position.None? <==> id !in trackList
      ensures position.Some? ==> position.value < |trackList| && trackList[position.value] == id
    {
      for n := 0 to |trackList|
        invariant forall j :: 0 <= j < n ==> trackList[j] != id
      {
        if trackList[n] == id {
          return Some(n);
        }
      }
      return None;
    }

    /** `set_current_track`: move the cursor to the position of `id`, if it is listed. */
    method SetCurrentTrack(id: TrackId) returns (found: bool)
      modifies this`currentTrackIndex
      ensures found <==> id in trackList
      ensures found ==> currentTrackIndex < |trackList| && trackList[currentTrackIndex] == id
      ensures found ==> Some(currentTrackIndex) == FirstIndexOf(trackList, id)
      ensures !found ==> currentTrackIndex == old(currentTrackIndex)
    {
      var index := FindTrackPosition(id);
      if index.Some? {
        currentTrackIndex := index.value;
        return true;
      }
      return false;
    }

    /** `get_current_track_id`: the id under the cursor. */
    method GetCurrentTrackId() returns (id: TrackId)
      requires currentTrackIndex < |trackList|
      ensures id in trackList
      ensures Valid() ==> FirstIndexOf(trackList, id) == Some(currentTrackIndex)
      ensures Valid() ==> GetTrack(id).Found?
    {
      id := trackList[currentTrackIndex];
      if Valid() {
        FirstIndexIsUnique(trackList, currentTrackIndex);
        assert id in Elements(trackList);
      }
    }

    /**
     `get_next_track_id`: under LINEAR the id one past the cursor, wrapping to
     the first; under SHUFFLE any listed id. The cursor does not move.
     */
    method GetNextTrackId() returns (id: TrackId)
      requires |trackList| > 0
      ensures id in trackList
      ensures playtype == Linear ==> id == trackList[LinearNextIndex(currentTrackIndex, |trackList|)]
    {
      var nextTrackIndex: nat;
      match playtype {
        case Linear =>
          nextTrackIndex := currentTrackIndex + 1;
          if nextTrackIndex >= |trackList| {
            nextTrackIndex := 0;
          }
        case Shuffle =>
          nextTrackIndex :| 0 <= nextTrackIndex < |trackList|;
      }
      id := trackList[nextTrackIndex];
    }

    /**
     `get_previous_track_id`: under LINEAR the id one before the cursor, the
     last id when the cursor is at 0; under SHUFFLE any listed id. Only the
     LINEAR branch reads the cursor, and it indexes past the end (IndexError)
     when the cursor is more than one past the last position.
     */
    method GetPreviousTrackId() returns (id: TrackId)
      requires |trackList| > 0 && (playtype == Linear ==> currentTrackIndex <= |trackList|)
      ensures id in trackList
      ensures playtype == Linear ==> id == trackList[LinearPreviousIndex(currentTrackIndex, |trackList|)]
    {
      var previousTrackIndex: int;
      match playtype {
        case Linear =>
          previousTrackIndex := currentTrackIndex - 1;
          if previousTrackIndex < 0 {
            previousTrackIndex := |trackList| - 1;
          }
        case Shuffle =>
          previousTrackIndex :| 0 <= previousTrackIndex < |trackList|;
      }
      id := trackList[previousTrackIndex];
    }

    /**
     `add_track`: a track whose `nid` is already stored is refused; otherwise
     its id goes at the end of the list and the track into the map.
     */
    method AddTrack(track: Track) returns (added: bool)
      requires Valid()
      modifies this`trackMap, this`trackList
      ensures Valid()
      ensures added <==> track.nid !in old(trackMap)
      ensures added ==> trackList == old(trackList) + [track.nid] && trackMap == old(trackMap)[track.nid := track]
      ensures !added ==> trackList == old(trackList) && trackMap == old(trackMap)
      ensures trackList == AppendNew(old(trackList), track.nid)
    {
      var id := track.nid;
      if id in trackMap {
        assert id in Elements(trackList);
        return false;
      }
      assert id !in Elements(trackList);
      trackMap := trackMap[id := track];
      trackList := trackList + [id];
      assert Elements(trackList) == Elements(old(trackList)) + {id};
      return true;
    }

    /**
     `remove_track`: a listed id leaves both the list (the other ids keep
     their order) and the map; an unlisted id changes nothing. The cursor is
     never adjusted.
     */
    method RemoveTrack(id: TrackId) returns (removed: bool)
      requires Valid()
      modifies this`trackMap, this`trackList
      ensures Valid()
      ensures removed <==> id in old(trackList)
      ensures removed ==> trackList == RemoveAt(old(trackList), FirstIndexOf(old(trackList), id).value)
      ensures removed ==> trackMap == old(trackMap) - {id}
      ensures id !in trackList && id !in trackMap
      ensures !removed ==> trackList == old(trackList) && trackMap == old(trackMap)
    {
      var index := FindTrackPosition(id);
      if index.Some? {
        RemoveAtProperties(trackList, index.value);
        trackList := RemoveAt(trackList, index.value);
        trackMap := trackMap - {id};
        assert id !in Elements(trackList);
        return true;
      }
      assert id !in Elements(trackList);
      return false;
    }
  }

  /** The map always holds exactly as many tracks as the list holds ids. */
  lemma SizesAgree(p: Playlist)
    requires p.Valid()
    ensures |p.trackMap| == |p.trackList|
  {
    DistinctCardinality(p.trackList);
    assert |p.trackMap| == |p.trackMap.Keys|;
  }

  /**
   Adding a track with a fresh `nid` and then removing that id restores the
   list and the map exactly.
   */
  lemma AddThenRemoveRestores(list: seq<TrackId>, m: map<TrackId, Track>, t: Track)
    requires t.nid !in list && t.nid !in m
    ensures RemoveAt(list + [t.nid], FirstIndexOf(list + [t.nid], t.nid).value) == list
    ensures m[t.nid := t] - {t.nid} == m
  {
    AppendThenRemove(list, t.nid);
  }
}
