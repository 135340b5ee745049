/**
 Sequence facts shared by both playlist implementations: the first-occurrence
 search that `_find_track_position` and `_find_index_of_track_id` perform, the
 positional delete that `list.pop(i)` / `del l[i]` perform, and the
 append-unless-present rule of `Playlist.add_track`.
 */
module Seqs {

  datatype Option<+T> = None | Some(value: T)

  /** No element occurs twice. */
  ghost predicate NoDuplicates<T>(s: seq<T>) {
    forall i, j :: 0 <= i < j < |s| ==> s[i] != s[j]
  }

  /** The set of elements of a sequence. */
  ghost function Elements<T>(s: seq<T>): set<T> {
    set x | x in s
  }

  /** The least index at which `x` occurs in `s`, or None when it does not occur. */
  function FirstIndexOf<T(==)>(s: seq<T>, x: T): (r: Option<nat>)
    ensures r.None? <==> x !in s
    ensures r.Some? ==> r.value < |s| && s[r.value] == x
    ensures r.Some? ==> forall j :: 0 <= j < r.value ==> s[j] != x
  {
    if |s| == 0 then None
    else if s[0] == x then Some(0)
    else match FirstIndexOf(s[1..], x)
      case None => None
      case Some(k) => Some(k + 1)
  }

  /** `s` with its element at position `i` deleted. */
  function RemoveAt<T>(s: seq<T>, i: nat): seq<T>
    requires i < |s|
  {
    s[..i] + s[i + 1..]
  }

  /** `s` with `x` appended at the end, unless `x` is already there. */
  function AppendNew<T(==)>(s: seq<T>, x: T): seq<T> {
    if x in s then s else s + [x]
  }

  /** The result of appending each of `xs`, in order, with AppendNew. */
  function AppendAllNew<T(==)>(s: seq<T>, xs: seq<T>): seq<T>
    decreases |xs|
  {
    if xs == [] then s else AppendAllNew(AppendNew(s, xs[0]), xs[1..])
  }

  /** In a duplicate-free sequence, an element's first index is its only index. */
  lemma FirstIndexIsUnique<T>(s: seq<T>, i: nat)
    requires NoDuplicates(s) && i < |s|
    ensures FirstIndexOf(s, s[i]) == Some(i)
  {
  }

  /**
   Deleting the element at position `i` keeps every other element, in the same
   relative order, removes that element entirely when there were no duplicates,
   and keeps the sequence duplicate-free.
   */
  lemma RemoveAtProperties<T>(s: seq<T>, i: nat)
    requires i < |s|
    ensures |RemoveAt(s, i)| == |s| - 1
    ensures forall j :: 0 <= j < i ==> RemoveAt(s, i)[j] == s[j]
    ensures forall j :: i <= j < |s| - 1 ==> RemoveAt(s, i)[j] == s[j + 1]
    ensures NoDuplicates(s) ==> NoDuplicates(RemoveAt(s, i))
    ensures NoDuplicates(s) ==> Elements(RemoveAt(s, i)) == Elements(s) - {s[i]}
  {
  }

  /** A duplicate-free sequence has as many distinct elements as positions. */
  lemma {:induction false} DistinctCardinality<T>(s: seq<T>)
    requires NoDuplicates(s)
    ensures |Elements(s)| == |s|
  {
    if s != [] {
      var t := s[1..];
      assert NoDuplicates(t) by {
        forall a, b | 0 <= a < b < |t| ensures t[a] != t[b] {
          assert t[a] == s[a + 1] && t[b] == s[b + 1];
        }
      }
      DistinctCardinality(t);
      assert s[0] !in t by {
        forall j | 0 <= j < |t| ensures t[j] != s[0] {
          assert t[j] == s[j + 1];
        }
      }
      assert s == [s[0]] + t;
      assert Elements(s) == {s[0]} + Elements(t);
    }
  }

  /** One AppendNew keeps the sequence duplicate-free, as a prefix, and adds exactly `x`. */
  lemma AppendNewProperties<T>(s: seq<T>, x: T)
    requires NoDuplicates(s)
    ensures NoDuplicates(AppendNew(s, x))
    ensures Elements(AppendNew(s, x)) == Elements(s) + {x}
    ensures |s| <= |AppendNew(s, x)| && AppendNew(s, x)[..|s|] == s
  {
  }

  /**
   Appending a batch of ids with AppendNew keeps what was there as a prefix,
   never introduces a duplicate, and ends with exactly the ids seen.
   */
  lemma {:induction false} AppendAllNewProperties<T>(s: seq<T>, xs: seq<T>)
    requires NoDuplicates(s)
    ensures NoDuplicates(AppendAllNew(s, xs))
    ensures Elements(AppendAllNew(s, xs)) == Elements(s) + Elements(xs)
    ensures |s| <= |AppendAllNew(s, xs)| && AppendAllNew(s, xs)[..|s|] == s
    decreases |xs|
  {
    if xs != [] {
      var s' := AppendNew(s, xs[0]);
      AppendNewProperties(s, xs[0]);
      AppendAllNewProperties(s', xs[1..]);
      var r := AppendAllNew(s', xs[1..]);
      assert r == AppendAllNew(s, xs);
      assert Elements(xs) == {xs[0]} + Elements(xs[1..]) by {
        assert xs == [xs[0]] + xs[1..];
      }
      assert r[..|s|] == r[..|s'|][..|s|];
    }
  }

  /**
   Appending a batch is appending its ids one after another, in batch order:
   the last id of the batch is handled last, after all the earlier ones. With
   AppendNew this fixes the result as the first-occurrence order of `xs`
   after `s`.
   */
  lemma {:induction false} AppendAllNewSnoc<T>(s: seq<T>, xs: seq<T>, x: T)
    ensures AppendAllNew(s, xs + [x]) == AppendNew(AppendAllNew(s, xs), x)
    decreases |xs|
  {
    if xs == [] {
      assert xs + [x] == [x];
    } else {
      assert (xs + [x])[0] == xs[0];
      assert (xs + [x])[1..] == xs[1..] + [x];
      AppendAllNewSnoc(AppendNew(s, xs[0]), xs[1..], x);
    }
  }

  /** Appending a fresh element and then deleting its first occurrence gives back the original. */
  lemma AppendThenRemove<T>(s: seq<T>, x: T)
    requires x !in s
    ensures FirstIndexOf(s + [x], x) == Some(|s|)
    ensures RemoveAt(s + [x], |s|) == s
  {
    assert (s + [x])[|s|] == x;
  }
}
