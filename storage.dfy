/** The library index (storage.rs): a map from path to `IndexedTrack`, its
    persistence boundary, and `find_duplicates`, which groups tracks that
    share a fingerprint. */
module Storage {
  import opened Wrappers
  import opened Paths
  import opened Organizer
  import opened Iteration

  /** `IndexedTrack`; the u64 sizes and UNIX times are naturals. */
  datatype IndexedTrack = IndexedTrack(
    path: Path,
    fileSize: nat,
    modifiedTime: nat,
    scannedAt: nat,
    metadata: TrackMetadata)

  function Fingerprint(t: IndexedTrack): Option<string> {
    t.metadata.fingerprint
  }

  // ---------------------------------------------------------------------------
  // specification of find_duplicates over the tracks in iteration order

  /** The tracks carrying fingerprint `f`, in iteration order. */
  function GroupFor(ts: seq<IndexedTrack>, f: string): (g: seq<IndexedTrack>)
    ensures |g| <= |ts|
    ensures forall t :: t in g ==> t in ts && Fingerprint(t) == Some(f)
  {
    if ts == [] then []
    else
      var last := ts[|ts| - 1];
      GroupFor(ts[..|ts| - 1], f) + if Fingerprint(last) == Some(f) then [last] else []
  }

  /** The distinct fingerprints of `ts`, in order of first appearance. */
  function FirstSeen(ts: seq<IndexedTrack>): (fs: seq<string>)
    ensures forall i, j :: 0 <= i < j < |fs| ==> fs[i] != fs[j]
  {
    if ts == [] then []
    else
      var prev := FirstSeen(ts[..|ts| - 1]);
      var fp := Fingerprint(ts[|ts| - 1]);
      prev + if fp.Some? && fp.value !in prev then [fp.value] else []
  }

  /** The groups of more than one track, one per fingerprint in `fs`. */
  function KeepDuplicates(ts: seq<IndexedTrack>, fs: seq<string>): seq<seq<IndexedTrack>> {
    if fs == [] then []
    else
      var g := GroupFor(ts, fs[|fs| - 1]);
      KeepDuplicates(ts, fs[..|fs| - 1]) + if |g| > 1 then [g] else []
  }

  /** One more fingerprint adds its group when that group is a duplicate. */
  lemma KeepDuplicatesStep(ts: seq<IndexedTrack>, fs: seq<string>, j: nat)
    requires j < |fs|
    ensures var g := GroupFor(ts, fs[j]);
            KeepDuplicates(ts, fs[..j + 1]) == KeepDuplicates(ts, fs[..j]) + if |g| > 1 then [g] else []
  {
    assert fs[..j + 1][..j] == fs[..j];
  }

  function DuplicateGroups(ts: seq<IndexedTrack>): seq<seq<IndexedTrack>> {
    KeepDuplicates(ts, FirstSeen(ts))
  }

  /** The library's tracks in iteration order. */
  function TracksInOrder(files: map<Path, IndexedTrack>, order: seq<Path>): (ts: seq<IndexedTrack>)
    requires forall i :: 0 <= i < |order| ==> order[i] in files
    ensures |ts| == |order|
    ensures forall i :: 0 <= i < |order| ==> ts[i] == files[order[i]]
  {
    seq(|order|, i requires 0 <= i < |order| => files[order[i]])
  }

  /** The fingerprints present in the library: the keys of the map of
      groups that `find_duplicates` builds. */
  function Fingerprints(files: map<Path, IndexedTrack>): set<string> {
    set p | p in files && Fingerprint(files[p]).Some? :: Fingerprint(files[p]).value
  }

  function TotalSize(groups: seq<seq<IndexedTrack>>): nat {
    if groups == [] then 0 else TotalSize(groups[..|groups| - 1]) + |groups[|groups| - 1]|
  }

  // ---------------------------------------------------------------------------
  // the library

  class AudioLibrary {
    var files: map<Path, IndexedTrack>

    /** `AudioLibrary::default()`. */
    constructor ()
      ensures files == map[]
    {
      files := map[];
    }

    /** `AudioLibrary::load`: no file gives the empty library; an unreadable
        or unparsable file is an error. */
    static method Load(file: Persisted<map<Path, IndexedTrack>>) returns (r: Result<AudioLibrary>)
      ensures file.Absent? ==> r.Ok? && fresh(r.value) && r.value.files == map[]
      ensures file.ReadFailed? ==> r == Err("Failed to read library index file")
      ensures file.ParseFailed? ==> r == Err("Failed to parse library index JSON")
      ensures file.Stored? ==> r.Ok? && fresh(r.value) && r.value.files == file.value
    {
      match file {
        case Absent =>
          var lib := new AudioLibrary();
          r := Ok(lib);
        case ReadFailed =>
          r := Err("Failed to read library index file");
        case ParseFailed =>
          r := Err("Failed to parse library index JSON");
        case Stored(m) =>
          var lib := new AudioLibrary();
          lib.files := m;
          r := Ok(lib);
      }
    }

    /** `find_duplicates`, visiting `files` in the order `order` and the
        map of groups it builds in the order `groupOrder`. Whatever the two
        orders, the groups are the same up to their order. */
    method FindDuplicates(order: seq<Path>, groupOrder: seq<string>) returns (groups: seq<seq<IndexedTrack>>)
      requires Enumerates(order, files)
      requires EnumeratesSet(groupOrder, Fingerprints(files))
      ensures groups == KeepDuplicates(TracksInOrder(files, order), groupOrder)
      ensures multiset(groups) == multiset(DuplicateGroups(TracksInOrder(files, order)))
      ensures forall g :: g in groups ==> |g| > 1
      ensures forall g, t :: g in groups && t in g ==> Fingerprint(t) == Fingerprint(g[0]) && Fingerprint(t).Some?
      ensures forall i, j :: 0 <= i < j < |groups| ==> Fingerprint(groups[i][0]) != Fingerprint(groups[j][0])
      ensures TotalSize(groups) <= |files|
    {
      var ts := TracksInOrder(files, order);
      var byFp, fps := CollectGroups(ts);
      FingerprintsSeen(files, order);

      groups := [];
      for j := 0 to |groupOrder|
        invariant groups == KeepDuplicates(ts, groupOrder[..j])
      {
        KeepDuplicatesStep(ts, groupOrder, j);
        var g := byFp[groupOrder[j]];
        if |g| > 1 {
          groups := groups + [g];
        }
      }
      assert groupOrder[..|groupOrder|] == groupOrder;

      KeepDuplicatesOrderFree(ts, groupOrder, FirstSeen(ts));
      KeepDuplicatesShape(ts, groupOrder);
      forall g, t | g in groups && t in g ensures Fingerprint(t) == Fingerprint(g[0]) && Fingerprint(t).Some? {
        var f :| f in groupOrder && g == GroupFor(ts, f);
        assert g[0] in g;
      }
      KeepDuplicatesTotal(ts, groupOrder);
      SumGroupsBound(ts, groupOrder);
      EnumerationSize(order, files);
    }
  }

  /** The first loop of `find_duplicates`: `entry(fp).or_default().push`
      for every fingerprinted track. `fps` records the order in which the
      keys were first inserted. */
  method CollectGroups(ts: seq<IndexedTrack>) returns (byFp: map<string, seq<IndexedTrack>>, fps: seq<string>)
    ensures fps == FirstSeen(ts)
    ensures forall f :: f in byFp <==> f in fps
    ensures forall f :: f in byFp ==> byFp[f] == GroupFor(ts, f)
  {
    byFp, fps := map[], [];
    for i := 0 to |ts|
      invariant GroupedUpTo(ts, i, byFp, fps)
    {
      byFp, fps := AddTrack(ts, i, byFp, fps);
    }
    assert ts[..|ts|] == ts;
  }

  /** The state of the first loop after the first `i` tracks. */
  ghost predicate GroupedUpTo(ts: seq<IndexedTrack>, i: nat, byFp: map<string, seq<IndexedTrack>>, fps: seq<string>)
    requires i <= |ts|
  {
    && fps == FirstSeen(ts[..i])
    && (forall f :: f in byFp <==> f in fps)
    && (forall f :: f in byFp ==> byFp[f] == GroupFor(ts[..i], f))
  }

  /** One step of the first loop: the track's fingerprint, if any, gets
      the track appended to its group, and a new key is recorded. */
  method AddTrack(ts: seq<IndexedTrack>, i: nat, byFp0: map<string, seq<IndexedTrack>>, fps0: seq<string>)
    returns (byFp: map<string, seq<IndexedTrack>>, fps: seq<string>)
    requires i < |ts| && GroupedUpTo(ts, i, byFp0, fps0)
    ensures GroupedUpTo(ts, i + 1, byFp, fps)
  {
    byFp, fps := byFp0, fps0;
    var track := ts[i];
    match Fingerprint(track) {
      case Some(f) =>
        if f in byFp {
          GroupedAfterAppend(ts, i, byFp, fps, f);
          byFp := byFp[f := byFp[f] + [track]];
        } else {
          GroupedAfterNewKey(ts, i, byFp, fps, f);
          byFp := byFp[f := [track]];
          fps := fps + [f];
        }
      case None =>
        GroupedAfterSkip(ts, i, byFp, fps);
    }
  }

  lemma GroupedAfterAppend(ts: seq<IndexedTrack>, i: nat, byFp: map<string, seq<IndexedTrack>>, fps: seq<string>, f: string)
    requires i < |ts| && GroupedUpTo(ts, i, byFp, fps)
    requires Fingerprint(ts[i]) == Some(f) && f in byFp
    ensures GroupedUpTo(ts, i + 1, byFp[f := byFp[f] + [ts[i]]], fps)
  {
    FirstSeenStep(ts, i);
    var m := byFp[f := byFp[f] + [ts[i]]];
    forall g | g in m ensures m[g] == GroupFor(ts[..i + 1], g) {
      GroupForStep(ts, i, g);
    }
  }

  lemma GroupedAfterNewKey(ts: seq<IndexedTrack>, i: nat, byFp: map<string, seq<IndexedTrack>>, fps: seq<string>, f: string)
    requires i < |ts| && GroupedUpTo(ts, i, byFp, fps)
    requires Fingerprint(ts[i]) == Some(f) && f !in byFp
    ensures GroupedUpTo(ts, i + 1, byFp[f := [ts[i]]], fps + [f])
  {
    FirstSeenStep(ts, i);
    NotSeenHasEmptyGroup(ts[..i], fps);
    var m := byFp[f := [ts[i]]];
    forall g | g in m ensures m[g] == GroupFor(ts[..i + 1], g) {
      GroupForStep(ts, i, g);
    }
  }

  lemma GroupedAfterSkip(ts: seq<IndexedTrack>, i: nat, byFp: map<string, seq<IndexedTrack>>, fps: seq<string>)
    requires i < |ts| && GroupedUpTo(ts, i, byFp, fps)
    requires Fingerprint(ts[i]).None?
    ensures GroupedUpTo(ts, i + 1, byFp, fps)
  {
    FirstSeenStep(ts, i);
    forall g | g in byFp ensures byFp[g] == GroupFor(ts[..i + 1], g) {
      GroupForStep(ts, i, g);
    }
  }

  lemma GroupForStep(ts: seq<IndexedTrack>, i: int, f: string)
    requires 0 <= i < |ts|
    ensures GroupFor(ts[..i + 1], f) == GroupFor(ts[..i], f) + if Fingerprint(ts[i]) == Some(f) then [ts[i]] else []
  {
    assert ts[..i + 1][..i] == ts[..i];
  }

  lemma FirstSeenStep(ts: seq<IndexedTrack>, i: int)
    requires 0 <= i < |ts|
    ensures var fp := Fingerprint(ts[i]);
            FirstSeen(ts[..i + 1]) == FirstSeen(ts[..i]) + if fp.Some? && fp.value !in FirstSeen(ts[..i]) then [fp.value] else []
  {
    assert ts[..i + 1][..i] == ts[..i];
  }

  /** A fingerprint not yet seen has no tracks. */
  lemma {:induction false} NotSeenHasEmptyGroup(ts: seq<IndexedTrack>, fs: seq<string>)
    requires fs == FirstSeen(ts)
    ensures forall f :: f !in fs ==> GroupFor(ts, f) == []
  {
    if ts != [] {
      var prefix := ts[..|ts| - 1];
      NotSeenHasEmptyGroup(prefix, FirstSeen(prefix));
    }
  }

  /** Every fingerprint occurring in `ts` is among the first-seen ones. */
  lemma {:induction false} FirstSeenComplete(ts: seq<IndexedTrack>, k: int)
    requires 0 <= k < |ts| && Fingerprint(ts[k]).Some?
    ensures Fingerprint(ts[k]).value in FirstSeen(ts)
  {
    var prefix := ts[..|ts| - 1];
    if k < |ts| - 1 {
      assert prefix[k] == ts[k];
      FirstSeenComplete(prefix, k);
    }
  }

  /** Every first-seen fingerprint is the fingerprint of some track. */
  lemma {:induction false} FirstSeenSound(ts: seq<IndexedTrack>, f: string)
    requires f in FirstSeen(ts)
    ensures exists k :: 0 <= k < |ts| && Fingerprint(ts[k]) == Some(f)
  {
    var prefix := ts[..|ts| - 1];
    if f in FirstSeen(prefix) {
      FirstSeenSound(prefix, f);
      var k :| 0 <= k < |prefix| && Fingerprint(prefix[k]) == Some(f);
      assert ts[k] == prefix[k];
    } else {
      assert Fingerprint(ts[|ts| - 1]) == Some(f);
    }
  }

  /** The fingerprints first seen along an iteration order are exactly the
      fingerprints of the library. */
  lemma FingerprintsSeen(files: map<Path, IndexedTrack>, order: seq<Path>)
    requires Enumerates(order, files)
    ensures forall f :: f in Fingerprints(files) <==> f in FirstSeen(TracksInOrder(files, order))
  {
    var ts := TracksInOrder(files, order);
    forall f ensures f in Fingerprints(files) <==> f in FirstSeen(ts) {
      if f in Fingerprints(files) {
        var p :| p in files && Fingerprint(files[p]) == Some(f);
        var i :| 0 <= i < |order| && order[i] == p;
        FirstSeenComplete(ts, i);
      }
      if f in FirstSeen(ts) {
        FirstSeenSound(ts, f);
        var k :| 0 <= k < |ts| && Fingerprint(ts[k]) == Some(f);
        assert order[k] in files && ts[k] == files[order[k]];
      }
    }
  }

  /** Keeping the duplicates of a concatenation keeps those of each part. */
  lemma {:induction false} KeepDuplicatesAppend(ts: seq<IndexedTrack>, a: seq<string>, b: seq<string>)
    ensures KeepDuplicates(ts, a + b) == KeepDuplicates(ts, a) + KeepDuplicates(ts, b)
    decreases |b|
  {
    if b == [] {
      assert a + b == a;
    } else {
      var init := b[..|b| - 1];
      assert (a + b)[..|a + b| - 1] == a + init;
      KeepDuplicatesAppend(ts, a, init);
    }
  }

  /** Taking one element out of a sequence without repetition. */
  lemma RemoveAt<K>(s: seq<K>, i: nat)
    requires i < |s|
    requires forall x, y :: 0 <= x < y < |s| ==> s[x] != s[y]
    ensures s[i] in s && s == s[..i] + [s[i]] + s[i + 1..]
    ensures var r := s[..i] + s[i + 1..];
            && (forall x, y :: 0 <= x < y < |r| ==> r[x] != r[y])
            && (forall q :: q in r <==> q in s && q != s[i])
  {
    var r := s[..i] + s[i + 1..];
    assert forall x :: 0 <= x < |r| ==> r[x] == if x < i then s[x] else s[x + 1];
    forall q | q in s && q != s[i] ensures q in r {
      var x :| 0 <= x < |s| && s[x] == q;
      assert r[if x < i then x else x - 1] == q;
    }
  }

  /** Taking the last fingerprint off `fs` and the same fingerprint off
      `fs'` leaves two sequences with the same members, each without
      repetition. */
  lemma MatchingRemoval(fs: seq<string>, fs': seq<string>, i: nat)
    requires fs != [] && i < |fs'| && fs'[i] == fs[|fs| - 1]
    requires forall x, y :: 0 <= x < y < |fs| ==> fs[x] != fs[y]
    requires forall x, y :: 0 <= x < y < |fs'| ==> fs'[x] != fs'[y]
    requires forall f :: f in fs <==> f in fs'
    ensures fs == fs[..|fs| - 1] + [fs[|fs| - 1]]
    ensures fs' == fs'[..i] + [fs[|fs| - 1]] + fs'[i + 1..]
    ensures var init, rest := fs[..|fs| - 1], fs'[..i] + fs'[i + 1..];
            && (forall x, y :: 0 <= x < y < |init| ==> init[x] != init[y])
            && (forall x, y :: 0 <= x < y < |rest| ==> rest[x] != rest[y])
            && (forall f :: f in init <==> f in rest)
  {
    var init, f := fs[..|fs| - 1], fs[|fs| - 1];
    assert fs == init + [f];
    RemoveAt(fs', i);
    forall q ensures q in init <==> q in fs && q != f {
      if q in init {
        var x :| 0 <= x < |init| && init[x] == q;
        assert fs[x] == q;
      }
    }
  }

  /** The duplicate groups do not depend on the order in which the
      fingerprints are visited: any two orders listing the same
      fingerprints once each keep the same groups. */
  lemma {:induction false} KeepDuplicatesOrderFree(ts: seq<IndexedTrack>, fs: seq<string>, fs': seq<string>)
    requires forall i, j :: 0 <= i < j < |fs| ==> fs[i] != fs[j]
    requires forall i, j :: 0 <= i < j < |fs'| ==> fs'[i] != fs'[j]
    requires forall f :: f in fs <==> f in fs'
    ensures multiset(KeepDuplicates(ts, fs)) == multiset(KeepDuplicates(ts, fs'))
    decreases |fs|
  {
    if fs == [] {
      if fs' != [] {
        RemoveAt(fs', 0);
        assert false;
      }
    } else {
      var init, f := fs[..|fs| - 1], fs[|fs| - 1];
      assert f in fs && f in fs';
      var i :| 0 <= i < |fs'| && fs'[i] == f;
      var before, after := fs'[..i], fs'[i + 1..];
      MatchingRemoval(fs, fs', i);
      KeepDuplicatesOrderFree(ts, init, before + after);
      OrderFreeStep(ts, init, f, before, after);
    }
  }

  /** The inductive step: putting the same fingerprint back at the end of
      one order and in the middle of the other keeps the groups equal. */
  lemma OrderFreeStep(ts: seq<IndexedTrack>, init: seq<string>, f: string, before: seq<string>, after: seq<string>)
    requires multiset(KeepDuplicates(ts, init)) == multiset(KeepDuplicates(ts, before + after))
    ensures multiset(KeepDuplicates(ts, init + [f])) == multiset(KeepDuplicates(ts, before + [f] + after))
  {
    KeepDuplicatesMoveOut(ts, before, f, after);
    KeepDuplicatesAppend(ts, init, [f]);
  }

  /** Taking one fingerprint out of the middle of the visiting order takes
      its group, if kept, out of the result and leaves the rest in order. */
  lemma KeepDuplicatesMoveOut(ts: seq<IndexedTrack>, before: seq<string>, f: string, after: seq<string>)
    ensures multiset(KeepDuplicates(ts, before + [f] + after))
            == multiset(KeepDuplicates(ts, before + after)) + multiset(KeepDuplicates(ts, [f]))
  {
    KeepDuplicatesAppend(ts, before + [f], after);
    KeepDuplicatesAppend(ts, before, [f]);
    KeepDuplicatesAppend(ts, before, after);
  }

  /** Each kept group is the full group of some first-seen fingerprint and
      has more than one track; distinct groups belong to distinct
      fingerprints. */
  lemma {:induction false} KeepDuplicatesShape(ts: seq<IndexedTrack>, fs: seq<string>)
    requires forall i, j :: 0 <= i < j < |fs| ==> fs[i] != fs[j]
    ensures forall g :: g in KeepDuplicates(ts, fs) ==> |g| > 1
    ensures forall g :: g in KeepDuplicates(ts, fs) ==> exists f :: f in fs && g == GroupFor(ts, f)
    ensures forall i, j :: 0 <= i < j < |KeepDuplicates(ts, fs)| ==>
              Fingerprint(KeepDuplicates(ts, fs)[i][0]) != Fingerprint(KeepDuplicates(ts, fs)[j][0])
    ensures forall i :: 0 <= i < |KeepDuplicates(ts, fs)| ==>
              Fingerprint(KeepDuplicates(ts, fs)[i][0]).Some? && Fingerprint(KeepDuplicates(ts, fs)[i][0]).value in fs
  {
    if fs != [] {
      var init := fs[..|fs| - 1];
      var f := fs[|fs| - 1];
      KeepDuplicatesShape(ts, init);
      var prev := KeepDuplicates(ts, init);
      var g := GroupFor(ts, f);
      assert forall x :: x in init ==> x in fs;
      if |g| > 1 {
        assert g[0] in g;
        forall i | 0 <= i < |prev| ensures Fingerprint(prev[i][0]) != Some(f) {
          assert Fingerprint(prev[i][0]).value in init;
        }
      }
      forall h | h in KeepDuplicates(ts, fs) ensures exists x :: x in fs && h == GroupFor(ts, x) {
        if h in prev {
          var x :| x in init && h == GroupFor(ts, x);
          assert x in fs;
        } else {
          assert h == g && f in fs;
        }
      }
    }
  }

  lemma DuplicateGroupsShape(ts: seq<IndexedTrack>)
    ensures forall g :: g in DuplicateGroups(ts) ==> |g| > 1
    ensures forall g, t :: g in DuplicateGroups(ts) && t in g ==> Fingerprint(t) == Fingerprint(g[0]) && Fingerprint(t).Some?
    ensures forall i, j :: 0 <= i < j < |DuplicateGroups(ts)| ==>
              Fingerprint(DuplicateGroups(ts)[i][0]) != Fingerprint(DuplicateGroups(ts)[j][0])
  {
    KeepDuplicatesShape(ts, FirstSeen(ts));
    forall g, t | g in DuplicateGroups(ts) && t in g ensures Fingerprint(t) == Fingerprint(g[0]) && Fingerprint(t).Some? {
      var f :| f in FirstSeen(ts) && g == GroupFor(ts, f);
      assert g[0] in g;
    }
  }

  /** Two distinct tracks with the same fingerprint make its group hold more
      than one track. */
  lemma {:induction false} GroupForTwo(ts: seq<IndexedTrack>, f: string, k1: int, k2: int)
    requires 0 <= k1 < k2 < |ts|
    requires Fingerprint(ts[k1]) == Some(f) && Fingerprint(ts[k2]) == Some(f)
    ensures |GroupFor(ts, f)| >= 2
    ensures ts[k1] in GroupFor(ts, f) && ts[k2] in GroupFor(ts, f)
  {
    var prefix := ts[..|ts| - 1];
    if k2 < |ts| - 1 {
      assert prefix[k1] == ts[k1] && prefix[k2] == ts[k2];
      GroupForTwo(prefix, f, k1, k2);
    } else {
      assert prefix[k1] == ts[k1];
      GroupForMember(prefix, f, k1);
    }
  }

  lemma {:induction false} GroupForMember(ts: seq<IndexedTrack>, f: string, k: int)
    requires 0 <= k < |ts| && Fingerprint(ts[k]) == Some(f)
    ensures ts[k] in GroupFor(ts, f)
  {
    var prefix := ts[..|ts| - 1];
    if k < |ts| - 1 {
      assert prefix[k] == ts[k];
      GroupForMember(prefix, f, k);
    }
  }

  lemma {:induction false} KeepDuplicatesHas(ts: seq<IndexedTrack>, fs: seq<string>, f: string)
    requires f in fs && |GroupFor(ts, f)| > 1
    ensures GroupFor(ts, f) in KeepDuplicates(ts, fs)
  {
    if fs[|fs| - 1] != f {
      KeepDuplicatesHas(ts, fs[..|fs| - 1], f);
    }
  }

  /** Completeness: a track sharing its fingerprint with another track lies
      in the one group of that fingerprint. */
  lemma DuplicateGroupsComplete(ts: seq<IndexedTrack>, k1: int, k2: int)
    requires 0 <= k1 < |ts| && 0 <= k2 < |ts| && k1 != k2
    requires Fingerprint(ts[k1]).Some? && Fingerprint(ts[k1]) == Fingerprint(ts[k2])
    ensures exists g :: g in DuplicateGroups(ts) && ts[k1] in g && ts[k2] in g
  {
    var f := Fingerprint(ts[k1]).value;
    if k1 < k2 {
      GroupForTwo(ts, f, k1, k2);
    } else {
      GroupForTwo(ts, f, k2, k1);
    }
    FirstSeenComplete(ts, k1);
    KeepDuplicatesHas(ts, FirstSeen(ts), f);
  }

  /** Completeness of `find_duplicates` stated over the library's paths:
      two entries sharing a fingerprint are grouped together whatever the
      two iteration orders. */
  lemma FindDuplicatesComplete(files: map<Path, IndexedTrack>, order: seq<Path>, groupOrder: seq<string>, p1: Path, p2: Path)
    requires Enumerates(order, files)
    requires EnumeratesSet(groupOrder, Fingerprints(files))
    requires p1 in files && p2 in files && p1 != p2
    requires Fingerprint(files[p1]).Some? && Fingerprint(files[p1]) == Fingerprint(files[p2])
    ensures exists g :: g in KeepDuplicates(TracksInOrder(files, order), groupOrder) && files[p1] in g && files[p2] in g
  {
    var ts := TracksInOrder(files, order);
    var f := Fingerprint(files[p1]).value;
    var i1 :| 0 <= i1 < |order| && order[i1] == p1;
    var i2 :| 0 <= i2 < |order| && order[i2] == p2;
    if i1 < i2 {
      GroupForTwo(ts, f, i1, i2);
    } else {
      GroupForTwo(ts, f, i2, i1);
    }
    assert f in Fingerprints(files);
    KeepDuplicatesHas(ts, groupOrder, f);
  }

  /** Tracks without a fingerprint are in no group. */
  lemma DuplicateGroupsSkipUnfingerprinted(ts: seq<IndexedTrack>, t: IndexedTrack)
    requires Fingerprint(t).None?
    ensures forall g :: g in DuplicateGroups(ts) ==> t !in g
  {
    DuplicateGroupsShape(ts);
  }

  /** The groups of distinct fingerprints together hold at most the tracks. */
  function SumGroups(ts: seq<IndexedTrack>, fs: seq<string>): nat {
    if fs == [] then 0 else SumGroups(ts, fs[..|fs| - 1]) + |GroupFor(ts, fs[|fs| - 1])|
  }

  /** Dropping the last track shrinks the sum by one exactly when its
      fingerprint is among `fs`. */
  lemma {:induction false} SumGroupsStep(ts: seq<IndexedTrack>, fs: seq<string>)
    requires ts != []
    requires forall i, j :: 0 <= i < j < |fs| ==> fs[i] != fs[j]
    ensures var fp := Fingerprint(ts[|ts| - 1]);
            SumGroups(ts, fs) == SumGroups(ts[..|ts| - 1], fs) + if fp.Some? && fp.value in fs then 1 else 0
  {
    if fs != [] {
      var init, f := fs[..|fs| - 1], fs[|fs| - 1];
      var ts' := ts[..|ts| - 1];
      var fp := Fingerprint(ts[|ts| - 1]);
      SumGroupsStep(ts, init);
      assert f !in init by {
        forall i | 0 <= i < |init| ensures init[i] != f {
          assert fs[i] == init[i];
        }
      }
      assert fs == init + [f];
      var inInit := if fp.Some? && fp.value in init then 1 else 0;
      var isF := if fp == Some(f) then 1 else 0;
      assert (if fp.Some? && fp.value in fs then 1 else 0) == inInit + isF;
      assert |GroupFor(ts, f)| == |GroupFor(ts', f)| + isF;
      assert SumGroups(ts, fs) == SumGroups(ts, init) + |GroupFor(ts, f)|;
      assert SumGroups(ts', fs) == SumGroups(ts', init) + |GroupFor(ts', f)|;
    }
  }

  lemma {:induction false} SumGroupsBound(ts: seq<IndexedTrack>, fs: seq<string>)
    requires forall i, j :: 0 <= i < j < |fs| ==> fs[i] != fs[j]
    ensures SumGroups(ts, fs) <= |ts|
  {
    if ts == [] {
      SumGroupsEmpty(fs);
    } else {
      SumGroupsStep(ts, fs);
      SumGroupsBound(ts[..|ts| - 1], fs);
    }
  }

  lemma {:induction false} SumGroupsEmpty(fs: seq<string>)
    ensures SumGroups([], fs) == 0
  {
    if fs != [] {
      SumGroupsEmpty(fs[..|fs| - 1]);
    }
  }

  lemma {:induction false} KeepDuplicatesTotal(ts: seq<IndexedTrack>, fs: seq<string>)
    ensures TotalSize(KeepDuplicates(ts, fs)) <= SumGroups(ts, fs)
  {
    if fs != [] {
      KeepDuplicatesTotal(ts, fs[..|fs| - 1]);
      var prev := KeepDuplicates(ts, fs[..|fs| - 1]);
      var g := GroupFor(ts, fs[|fs| - 1]);
      if |g| > 1 {
        assert (prev + [g])[..|prev|] == prev;
      } else {
        assert prev + [] == prev;
      }
    }
  }

  /** No track is counted twice: the groups hold at most all the tracks. */
  lemma DuplicateGroupsTotal(ts: seq<IndexedTrack>)
    ensures TotalSize(DuplicateGroups(ts)) <= |ts|
  {
    KeepDuplicatesTotal(ts, FirstSeen(ts));
    SumGroupsBound(ts, FirstSeen(ts));
  }
}
