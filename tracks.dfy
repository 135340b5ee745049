/**
 The values both playlist implementations share: the track record, the
 traversal policy, and the cyclic index arithmetic of LINEAR traversal.
 */
module Tracks {

  type TrackId = string

  /**
   A track as the streaming service describes it. `nid` is the catalogue id
   that `Playlist` keys on; `id` is the playlist-entry id that `MusicPlayer`
   stores in the record when the entry is created. The other fields are payload.
   */
  datatype Track = Track(
    id: TrackId,
    nid: TrackId,
    storeId: string,
    durationMillis: int,
    title: string,
    artist: string)

  /** The order in which the next and the previous track are chosen. */
  datatype PlayType = Linear | Shuffle

  /** The reference successor on a cycle of `n` positions. */
  function CyclicNext(i: nat, n: nat): nat
    requires i < n
  {
    (i + 1) % n
  }

  /** The reference predecessor on a cycle of `n` positions. */
  function CyclicPrevious(i: nat, n: nat): nat
    requires i < n
  {
    (i + n - 1) % n
  }

  /**
   LINEAR successor as both implementations compute it: one further, back to
   0 when that reaches the end. A cursor beyond the end also restarts at 0.
   */
  function LinearNextIndex(cursor: nat, n: nat): (k: nat)
    requires 0 < n
    ensures k < n
    ensures cursor < n ==> k == CyclicNext(cursor, n)
    ensures n <= cursor ==> k == 0
  {
    if cursor + 1 >= n then 0 else cursor + 1
  }

  /**
   LINEAR predecessor as `Playlist` computes it: one back, the last position
   when that falls below 0. Defined for every cursor that does not index past
   the end once decremented.
   */
  function LinearPreviousIndex(cursor: nat, n: nat): (k: nat)
    requires 0 < n && cursor <= n
    ensures k < n
    ensures cursor < n ==> k == CyclicPrevious(cursor, n)
    ensures cursor == n ==> k == n - 1
  {
    if cursor - 1 < 0 then n - 1 else cursor - 1
  }

  /** Going back undoes going forward, and going forward undoes going back. */
  lemma PreviousUndoesNext(i: nat, n: nat)
    requires i < n
    ensures LinearPreviousIndex(LinearNextIndex(i, n), n) == i
    ensures LinearNextIndex(LinearPreviousIndex(i, n), n) == i
  {
  }

  /** The position reached from `i` after `k` LINEAR advances. */
  function Advance(i: nat, n: nat, k: nat): (j: nat)
    requires i < n
    ensures j < n
  {
    if k == 0 then i else LinearNextIndex(Advance(i, n, k - 1), n)
  }

  /**
   LINEAR traversal is a fixed cycle: `k` advances from position `i` land on
   `(i + k) mod n`, so from 0 the positions 0, 1, ..., n-1, 0, 1, ... are visited.
   */
  lemma {:induction false} AdvanceIsRotation(i: nat, n: nat, k: nat)
    requires i < n
    ensures Advance(i, n, k) == (i + k) % n
  {
    if k > 0 {
      AdvanceIsRotation(i, n, k - 1);
      var p := (i + k - 1) % n;
      assert Advance(i, n, k) == (p + 1) % n;
      ModSuccessor(i + k - 1, n);
    }
  }

  /** `d * n` is at least `n` for a positive multiplier. */
  lemma {:induction false} MulAtLeast(d: int, n: int)
    requires d >= 1 && n > 0
    ensures d * n >= n
  {
    if d > 1 {
      MulAtLeast(d - 1, n);
      assert d * n == (d - 1) * n + n;
    }
  }

  /** Division with remainder is unique: `a == q * n + r` with `0 <= r < n` fixes `a mod n`. */
  lemma ModUnique(a: int, n: int, q: int, r: int)
    requires n > 0 && 0 <= r < n && a == q * n + r
    ensures a % n == r
  {
    var q', r' := a / n, a % n;
    assert a == q' * n + r';
    var d := q - q';
    assert d * n == r' - r;
    if d >= 1 {
      MulAtLeast(d, n);
      assert false;
    }
    if d <= -1 {
      MulAtLeast(-d, n);
      assert false;
    }
  }

  /** `((m mod n) + 1) mod n == (m + 1) mod n`. */
  lemma ModSuccessor(m: nat, n: nat)
    requires 0 < n
    ensures (m % n + 1) % n == (m + 1) % n
  {
    var q := m / n;
    if m % n + 1 < n {
      ModUnique(m + 1, n, q, m % n + 1);
    } else {
      MulSuccessor(q, n);
      ModUnique(m + 1, n, q + 1, 0);
    }
  }

  /** `(q + 1) * n == q * n + n`. */
  lemma MulSuccessor(q: int, n: int)
    ensures (q + 1) * n == q * n + n
  {
  }

  /**
   The timer delay, in seconds, that `MusicPlayer.play_track` derives from a
   duration in milliseconds: Python 2 integer division, which floors.
   */
  function TimerSeconds(durationMillis: int): (s: int)
    ensures s * 1000 <= durationMillis < s * 1000 + 1000
  {
    durationMillis / 1000
  }
}
