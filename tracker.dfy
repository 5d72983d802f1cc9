/** The centroid tracker (tracker.py): greedy, order-dependent
    nearest-centroid assignment of detections to live tracks, capped
    position and displacement buffers per track, monotonically allocated
    ids, and eviction after more than `max_lost` unmatched frames.

    Distances are compared squared (see Common.Dist2), and a track's
    `recentDeltas` hold squared per-frame displacements. */
module Tracker {
  import opened Common
  import opened Config

  /** One entry of `self.objects`. */
  datatype Track = Track(centroid: Point, history: seq<Point>, recentDeltas: seq<nat>)

  /** Python's `s[-n:]`: the last `n` elements, and all of `s` when `n` is 0
      (because `-0 == 0`). */
  function KeepLast<T>(s: seq<T>, n: nat): (r: seq<T>)
    ensures |r| <= |s| && r == s[|s| - |r|..]
    ensures n >= 1 ==> |r| == if |s| <= n then |s| else n
    ensures n == 0 ==> r == s
  {
    if n == 0 || |s| <= n then s else s[|s| - n..]
  }

  predicate Increasing(s: seq<nat>)
  {
    forall i, j :: 0 <= i < j < |s| ==> s[i] < s[j]
  }

  /** The elements of `s` that are in `keep`, in their order in `s`. */
  function Filter(s: seq<nat>, keep: set<nat>): (r: seq<nat>)
    ensures forall x :: x in r <==> x in s && x in keep
    ensures Increasing(s) ==> Increasing(r)
  {
    if s == [] then []
    else
      var init := s[..|s| - 1];
      var r := Filter(init, keep);
      var last := s[|s| - 1];
      assert forall x :: x in init ==> x in s;
      assert Increasing(s) ==> Increasing(init) && forall y :: y in r ==> y < last by {
        if Increasing(s) {
          forall y | y in r ensures y < last {
            var i :| 0 <= i < |init| && init[i] == y;
            assert s[i] == y;
          }
        }
      }
      if last in keep then
        assert Increasing(s) ==> Increasing(r + [last]) by {
          if Increasing(s) {
            forall i, j | 0 <= i < j < |r| + 1 ensures (r + [last])[i] < (r + [last])[j] {
              if j == |r| { assert r[i] in r; }
            }
          }
        }
        r + [last]
      else r
  }

  lemma {:induction false} FilterAll(s: seq<nat>, keep: set<nat>)
    requires forall i :: 0 <= i < |s| ==> s[i] in keep
    ensures Filter(s, keep) == s
  {
    if s != [] {
      var init := s[..|s| - 1];
      var last := s[|s| - 1];
      assert forall i :: 0 <= i < |init| ==> init[i] == s[i];
      FilterAll(init, keep);
      assert last in keep;
      assert Filter(s, keep) == init + [last];
      InitLast(s);
    }
  }

  lemma InitLast(s: seq<nat>)
    requires s != []
    ensures s[..|s| - 1] + [s[|s| - 1]] == s
  {
  }

  lemma {:induction false} FilterTwice(s: seq<nat>, a: set<nat>, b: set<nat>)
    requires b <= a
    ensures Filter(Filter(s, a), b) == Filter(s, b)
  {
    if s != [] {
      var init := s[..|s| - 1];
      var x := s[|s| - 1];
      FilterTwice(init, a, b);
      if x in a {
        assert Filter(s, a) == Filter(init, a) + [x];
        assert Filter(s, a)[..|Filter(s, a)| - 1] == Filter(init, a);
      }
    }
  }

  /** The set of ids labelling a frame's detections (`current_ids`). */
  function Elems(ids: seq<nat>): set<nat>
  {
    set i | 0 <= i < |ids| :: ids[i]
  }

  /** The tracker's state: `next_object_id`, the key order of the
      `objects` dict (insertion order), `objects` and `lost`. */
  datatype Registry = Registry(nextId: nat, order: seq<nat>, objects: map<nat, Track>, lost: map<nat, nat>)

  /** The shape every registry has: both dicts share their keys, the key
      order lists exactly those keys in increasing order, and every id is
      below the next one to be allocated. */
  ghost predicate Keyed(r: Registry)
  {
    && r.objects.Keys == r.lost.Keys
    && (forall i :: 0 <= i < |r.order| ==> r.order[i] in r.objects)
    && (forall id :: id in r.objects ==> id in r.order)
    && Increasing(r.order)
    && (forall id :: id in r.objects ==> id < r.nextId)
  }

  /** The per-track buffer invariant: a non-empty history capped at
      MAX_HISTORY whose newest entry is the centroid, and at most
      DETECT_WINDOW_FRAMES recent displacements. */
  ghost predicate TrackOk(t: Track, cfg: Settings)
  {
    && 1 <= |t.history| <= cfg.maxHistory
    && t.history[|t.history| - 1] == t.centroid
    && |t.recentDeltas| <= cfg.detectWindowFrames
  }

  /** The invariant the tracker keeps between calls of `update`. */
  ghost predicate Inv(r: Registry, cfg: Settings, maxLost: nat)
  {
    && Keyed(r)
    && (forall id :: id in r.objects ==> TrackOk(r.objects[id], cfg))
    && (forall id :: id in r.lost ==> r.lost[id] <= maxLost)
  }

  // ------------------------------------------------------------------
  // Matching one detection
  // ------------------------------------------------------------------

  /** The inner scan of `update` over `keys` (in dict order): tracks already
      claimed this frame are skipped, and a track replaces the best so far
      only when strictly closer.  Returns (best_id, best squared distance);
      the scan starts from `limit2 == MAX_TRACK_DIST ** 2`. */
  function Scan(objects: map<nat, Track>, keys: seq<nat>, used: set<nat>, c: Point, limit2: nat): (best: (Option<nat>, nat))
    requires forall i :: 0 <= i < |keys| ==> keys[i] in objects
    ensures best.1 <= limit2
    ensures best.0.None? ==> best.1 == limit2
    ensures best.0.Some? ==> && best.0.value in keys && best.0.value !in used
                             && best.1 == Dist2(c, objects[best.0.value].centroid) < limit2
  {
    if keys == [] then (None, limit2)
    else
      var prev := Scan(objects, keys[..|keys| - 1], used, c, limit2);
      var oid := keys[|keys| - 1];
      assert forall x :: x in keys[..|keys| - 1] ==> x in keys;
      if oid in used then prev
      else
        var d := Dist2(c, objects[oid].centroid);
        if d < prev.1 then (Some(oid), d) else prev
  }

  /** The scan finds a nearest unclaimed track: no unclaimed track is closer
      than the one chosen, every unclaimed track before it in `keys` is
      strictly farther, and nothing is chosen only when every unclaimed
      track is at MAX_TRACK_DIST or beyond. */
  lemma {:induction false} ScanFindsNearest(objects: map<nat, Track>, keys: seq<nat>, used: set<nat>, c: Point, limit2: nat)
    requires forall i :: 0 <= i < |keys| ==> keys[i] in objects
    ensures var best := Scan(objects, keys, used, c, limit2);
            && (forall i :: 0 <= i < |keys| && keys[i] !in used ==> Dist2(c, objects[keys[i]].centroid) >= best.1)
            && (best.0.Some? ==>
                  exists j :: 0 <= j < |keys| && keys[j] == best.0.value &&
                    forall i :: 0 <= i < j && keys[i] !in used ==> Dist2(c, objects[keys[i]].centroid) > best.1)
  {
    if keys != [] {
      var init := keys[..|keys| - 1];
      var oid := keys[|keys| - 1];
      ScanFindsNearest(objects, init, used, c, limit2);
      var prev := Scan(objects, init, used, c, limit2);
      var best := Scan(objects, keys, used, c, limit2);
      assert forall i :: 0 <= i < |init| ==> init[i] == keys[i];
      if oid !in used && Dist2(c, objects[oid].centroid) < prev.1 {
        assert best == (Some(oid), Dist2(c, objects[oid].centroid));
        assert forall i :: 0 <= i < |keys| - 1 && keys[i] !in used ==> Dist2(c, objects[keys[i]].centroid) > best.1;
      } else {
        assert best == prev;
        if best.0.Some? {
          var j :| 0 <= j < |init| && init[j] == best.0.value &&
                   forall i :: 0 <= i < j && init[i] !in used ==> Dist2(c, objects[init[i]].centroid) > best.1;
          assert keys[j] == best.0.value;
        }
      }
    }
  }

  /** The work of `update` done so far in a frame: the registry, `used_ids`
      and the ids given to the detections handled so far. */
  datatype Frame = Frame(reg: Registry, used: set<nat>, ids: seq<nat>)

  /** A matched track: the new centroid, the displacement from the previous
      centroid appended to `recent_deltas` and the centroid to `history`,
      each cut back to its cap. */
  function Matched(t: Track, c: Point, cfg: Settings): Track
  {
    Track(c, KeepLast(t.history + [c], cfg.maxHistory),
          KeepLast(t.recentDeltas + [Dist2(c, t.centroid)], cfg.detectWindowFrames))
  }

  /** One iteration of the detection loop of `update`. */
  function AssignOne(f: Frame, c: Point, cfg: Settings): (g: Frame)
    requires Keyed(f.reg)
    ensures Keyed(g.reg)
    ensures |g.ids| == |f.ids| + 1 && f.reg.nextId <= g.reg.nextId
  {
    var best := Scan(f.reg.objects, f.reg.order, f.used, c, Sq(cfg.maxTrackDist)).0;
    match best
    case Some(id) =>
      var r := f.reg.(objects := f.reg.objects[id := Matched(f.reg.objects[id], c, cfg)],
                      lost := f.reg.lost[id := 0]);
      KeyedSameKeys(f.reg, r);
      Frame(r, f.used + {id}, f.ids + [id])
    case None =>
      var id := f.reg.nextId;
      KeyedAppend(f.reg, c);
      Frame(Registry(id + 1, f.reg.order + [id], f.reg.objects[id := Track(c, [c], [])], f.reg.lost[id := 0]),
            f.used + {id}, f.ids + [id])
  }

  /** AssignOne when the scan finds live track `id`. */
  lemma AssignOneMatches(f: Frame, c: Point, cfg: Settings, id: nat)
    requires Keyed(f.reg) && Scan(f.reg.objects, f.reg.order, f.used, c, Sq(cfg.maxTrackDist)).0 == Some(id)
    ensures AssignOne(f, c, cfg) == Frame(f.reg.(objects := f.reg.objects[id := Matched(f.reg.objects[id], c, cfg)],
                                                  lost := f.reg.lost[id := 0]),
                                          f.used + {id}, f.ids + [id])
  {
  }

  /** AssignOne when the scan finds no track in range. */
  lemma AssignOneOpens(f: Frame, c: Point, cfg: Settings)
    requires Keyed(f.reg) && Scan(f.reg.objects, f.reg.order, f.used, c, Sq(cfg.maxTrackDist)).0 == None
    ensures var id := f.reg.nextId;
            AssignOne(f, c, cfg) == Frame(Registry(id + 1, f.reg.order + [id], f.reg.objects[id := Track(c, [c], [])],
                                                   f.reg.lost[id := 0]),
                                          f.used + {id}, f.ids + [id])
  {
  }

  /** Opening a track with the next id keeps the registry's shape. */
  lemma KeyedAppend(reg: Registry, c: Point)
    requires Keyed(reg)
    ensures var id := reg.nextId;
            Keyed(Registry(id + 1, reg.order + [id], reg.objects[id := Track(c, [c], [])], reg.lost[id := 0]))
  {
    assert forall i :: 0 <= i < |reg.order| ==> reg.order[i] < reg.nextId;
  }

  /** The detection loop of `update` over `dets`, in input order. */
  function AssignAll(f: Frame, dets: seq<Point>, cfg: Settings): (g: Frame)
    requires Keyed(f.reg)
    ensures Keyed(g.reg)
    ensures |g.ids| == |f.ids| + |dets| && f.reg.nextId <= g.reg.nextId
  {
    if dets == [] then f
    else AssignOne(AssignAll(f, dets[..|dets| - 1], cfg), dets[|dets| - 1], cfg)
  }

  // ------------------------------------------------------------------
  // Ageing and eviction
  // ------------------------------------------------------------------

  /** One iteration of the lost-track loop of `update`: an id not seen
      this frame has its lost count raised by one and is deleted from both
      dicts (and so from the key order) once that count exceeds `maxLost`. */
  function AgeOne(r: Registry, current: set<nat>, maxLost: nat, oid: nat): (a: Registry)
    requires r.objects.Keys == r.lost.Keys && oid in r.lost
    ensures a.objects.Keys == a.lost.Keys && a.objects.Keys <= r.objects.Keys && a.nextId == r.nextId
    ensures forall id :: id in r.objects && id != oid ==>
              id in a.objects && a.objects[id] == r.objects[id] && a.lost[id] == r.lost[id]
  {
    if oid in current then r
    else
      var n := r.lost[oid] + 1;
      if n > maxLost then
        var objs := r.objects - {oid};
        Registry(r.nextId, Filter(r.order, objs.Keys), objs, r.lost - {oid})
      else
        Registry(r.nextId, r.order, r.objects, r.lost[oid := n])
  }

  /** The lost-track loop of `update` over the snapshot `keys` of the
      dict's keys, taken before the loop starts deleting. */
  function AgeKeys(reg: Registry, current: set<nat>, maxLost: nat, keys: seq<nat>): (r: Registry)
    requires reg.objects.Keys == reg.lost.Keys
    requires Increasing(keys)
    requires forall i :: 0 <= i < |keys| ==> keys[i] in reg.objects
    ensures r.objects.Keys == r.lost.Keys && r.objects.Keys <= reg.objects.Keys && r.nextId == reg.nextId
    ensures forall id :: id in reg.objects && id !in keys ==>
              id in r.objects && r.objects[id] == reg.objects[id] && r.lost[id] == reg.lost[id]
  {
    if keys == [] then reg
    else
      var init := keys[..|keys| - 1];
      var oid := keys[|keys| - 1];
      assert forall x :: x in init ==> x in keys && x < oid;
      AgeOne(AgeKeys(reg, current, maxLost, init), current, maxLost, oid)
  }

  /** The ids that survive ageing once the ids in `processed` are aged. */
  ghost function Kept(reg: Registry, current: set<nat>, maxLost: nat, processed: set<nat>): set<nat>
    requires reg.objects.Keys == reg.lost.Keys
  {
    set id | id in reg.objects && (id !in processed || id in current || reg.lost[id] + 1 <= maxLost)
  }

  /** Ageing stated key by key rather than as a loop: the ids in
      `processed` are aged, the others are left alone. */
  ghost function AgedOn(reg: Registry, current: set<nat>, maxLost: nat, processed: set<nat>): Registry
    requires reg.objects.Keys == reg.lost.Keys
  {
    var keep := Kept(reg, current, maxLost, processed);
    Registry(reg.nextId, Filter(reg.order, keep),
             map id | id in keep :: reg.objects[id],
             map id | id in keep :: if id in processed && id !in current then reg.lost[id] + 1 else reg.lost[id])
  }

  /** One more key of the snapshot is one more iteration of the loop. */
  lemma AgeKeysStep(reg: Registry, current: set<nat>, maxLost: nat, keys: seq<nat>, k: nat)
    requires reg.objects.Keys == reg.lost.Keys
    requires Increasing(keys) && forall i :: 0 <= i < |keys| ==> keys[i] in reg.objects
    requires k < |keys|
    ensures Increasing(keys[..k]) && Increasing(keys[..k + 1])
    ensures var r := AgeKeys(reg, current, maxLost, keys[..k]);
            && r.objects.Keys == r.lost.Keys && keys[k] in r.lost
            && AgeKeys(reg, current, maxLost, keys[..k + 1]) == AgeOne(r, current, maxLost, keys[k])
  {
    assert keys[..k + 1][..k] == keys[..k];
    assert keys[k] !in keys[..k];
  }

  /** Ageing a key in `current` changes nothing. */
  lemma AgeStepSeen(reg: Registry, current: set<nat>, maxLost: nat, done: set<nat>, oid: nat)
    requires reg.objects.Keys == reg.lost.Keys
    requires oid in reg.objects && oid !in done && oid in current
    ensures AgedOn(reg, current, maxLost, done + {oid}) == AgedOn(reg, current, maxLost, done)
    ensures AgeOne(AgedOn(reg, current, maxLost, done), current, maxLost, oid) == AgedOn(reg, current, maxLost, done)
  {
    assert Kept(reg, current, maxLost, done + {oid}) == Kept(reg, current, maxLost, done);
  }

  /** Ageing an unseen key that stays within `maxLost` raises its count. */
  lemma AgeStepKept(reg: Registry, current: set<nat>, maxLost: nat, done: set<nat>, oid: nat)
    requires reg.objects.Keys == reg.lost.Keys
    requires oid in reg.objects && oid !in done && oid !in current && reg.lost[oid] + 1 <= maxLost
    ensures var r := AgedOn(reg, current, maxLost, done);
            && oid in r.lost && r.lost[oid] == reg.lost[oid]
            && AgedOn(reg, current, maxLost, done + {oid}) == AgeOne(r, current, maxLost, oid)
  {
    var before := Kept(reg, current, maxLost, done);
    assert Kept(reg, current, maxLost, done + {oid}) == before;
    var r := AgedOn(reg, current, maxLost, done);
    var want := AgedOn(reg, current, maxLost, done + {oid});
    assert want.lost == r.lost[oid := r.lost[oid] + 1];
  }

  /** Ageing an unseen key past `maxLost` deletes it everywhere. */
  lemma AgeStepEvicted(reg: Registry, current: set<nat>, maxLost: nat, done: set<nat>, oid: nat)
    requires reg.objects.Keys == reg.lost.Keys
    requires oid in reg.objects && oid !in done && oid !in current && reg.lost[oid] + 1 > maxLost
    ensures var r := AgedOn(reg, current, maxLost, done);
            && oid in r.lost && r.lost[oid] == reg.lost[oid]
            && AgedOn(reg, current, maxLost, done + {oid}) == AgeOne(r, current, maxLost, oid)
  {
    var before := Kept(reg, current, maxLost, done);
    var after := Kept(reg, current, maxLost, done + {oid});
    assert after == before - {oid};
    FilterTwice(reg.order, before, after);
    var r := AgedOn(reg, current, maxLost, done);
    var want := AgedOn(reg, current, maxLost, done + {oid});
    assert (r.objects - {oid}).Keys == after;
    assert want.objects == r.objects - {oid};
    assert want.lost == r.lost - {oid};
  }

  /** Ageing no key leaves the registry as it is. */
  lemma AgedOnNothing(reg: Registry, current: set<nat>, maxLost: nat)
    requires reg.objects.Keys == reg.lost.Keys
    requires forall i :: 0 <= i < |reg.order| ==> reg.order[i] in reg.objects
    ensures AgedOn(reg, current, maxLost, {}) == reg
  {
    var keep := Kept(reg, current, maxLost, {});
    assert keep == reg.objects.Keys;
    var a := AgedOn(reg, current, maxLost, {});
    assert a.order == reg.order by {
      FilterAll(reg.order, reg.objects.Keys);
    }
    assert a.objects == reg.objects;
    assert a.lost == reg.lost;
  }

  /** The loop and the key-by-key statement agree. */
  lemma {:induction false} AgeKeysIsAgedOn(reg: Registry, current: set<nat>, maxLost: nat, keys: seq<nat>)
    requires reg.objects.Keys == reg.lost.Keys
    requires forall i :: 0 <= i < |reg.order| ==> reg.order[i] in reg.objects
    requires Increasing(keys)
    requires forall i :: 0 <= i < |keys| ==> keys[i] in reg.objects
    ensures AgeKeys(reg, current, maxLost, keys) == AgedOn(reg, current, maxLost, Elems(keys))
  {
    if keys == [] {
      assert Elems(keys) == {};
      AgedOnNothing(reg, current, maxLost);
    } else {
      var init := keys[..|keys| - 1];
      var oid := keys[|keys| - 1];
      assert forall x :: x in init ==> x < oid;
      var done := Elems(init);
      assert Elems(keys) == done + {oid} by {
        assert forall x :: x in keys <==> x in init || x == oid;
      }
      AgeKeysIsAgedOn(reg, current, maxLost, init);
      var r := AgeKeys(reg, current, maxLost, init);
      assert r == AgedOn(reg, current, maxLost, done);
      if oid in current {
        AgeStepSeen(reg, current, maxLost, done, oid);
      } else if reg.lost[oid] + 1 <= maxLost {
        AgeStepKept(reg, current, maxLost, done, oid);
      } else {
        AgeStepEvicted(reg, current, maxLost, done, oid);
      }
    }
  }

  // ------------------------------------------------------------------
  // The whole update
  // ------------------------------------------------------------------

  /** Ageing every key at once: a key survives when it was seen this frame
      or its raised lost count stays within `maxLost`; survivors keep their
      track, and the unseen ones have their lost count raised by one. */
  lemma AgedAll(reg: Registry, current: set<nat>, maxLost: nat)
    requires Keyed(reg)
    ensures Elems(reg.order) == reg.objects.Keys
    ensures var a := AgedOn(reg, current, maxLost, reg.objects.Keys);
            && Keyed(a)
            && a.nextId == reg.nextId
            && (forall id :: id in a.objects <==> id in reg.objects && (id in current || reg.lost[id] + 1 <= maxLost))
            && (forall id :: id in a.objects ==>
                  && a.objects[id] == reg.objects[id]
                  && a.lost[id] == if id in current then reg.lost[id] else reg.lost[id] + 1)
  {
    var keep := Kept(reg, current, maxLost, reg.objects.Keys);
    var a := AgedOn(reg, current, maxLost, reg.objects.Keys);
    assert forall id :: id in a.objects <==> id in keep;
    assert forall id :: id in keep ==> id in a.order;
  }

  /** `update(detections)`: the new registry and the id given to each
      detection, in input order. */
  function UpdateSpec(reg: Registry, dets: seq<Point>, cfg: Settings, maxLost: nat): (res: (Registry, seq<nat>))
    requires Keyed(reg)
    ensures |res.1| == |dets| && reg.nextId <= res.0.nextId
    ensures res.0.objects.Keys == res.0.lost.Keys
  {
    var f := AssignAll(Frame(reg, {}, []), dets, cfg);
    (AgeKeys(f.reg, Elems(f.ids), maxLost, f.reg.order), f.ids)
  }

  // ------------------------------------------------------------------
  // What one detection does
  // ------------------------------------------------------------------

  predicate Distinct(ids: seq<nat>)
  {
    forall i, j :: 0 <= i < j < |ids| ==> ids[i] != ids[j]
  }

  /** The state of a frame part-way through the detection loop: the
      registry invariant holds, `used_ids` is exactly the set of ids handed
      out so far, no id was handed out twice, and each of them names a live
      track whose lost count is 0. */
  ghost predicate FrameOk(f: Frame, cfg: Settings, maxLost: nat)
  {
    && Inv(f.reg, cfg, maxLost)
    && f.used == Elems(f.ids)
    && Distinct(f.ids)
    && (forall i :: 0 <= i < |f.ids| ==> f.ids[i] in f.reg.objects && f.reg.lost[f.ids[i]] == 0)
  }

  /** `id` is an unclaimed track at strictly less than the limit, no
      unclaimed track is closer, and every unclaimed track with a lower id is
      strictly farther (ties go to the lowest id). */
  ghost predicate NearestUnclaimed(objects: map<nat, Track>, used: set<nat>, c: Point, limit2: nat, id: nat)
    requires id in objects
  {
    && id !in used
    && Dist2(c, objects[id].centroid) < limit2
    && (forall o :: o in objects && o !in used ==> Dist2(c, objects[o].centroid) >= Dist2(c, objects[id].centroid))
    && (forall o :: o in objects && o !in used && o < id ==> Dist2(c, objects[o].centroid) > Dist2(c, objects[id].centroid))
  }

  /** Over the dict's key order (ascending ids), the scan picks the
      nearest unclaimed track within the limit, the lowest id among equally
      near ones, and picks none only when no unclaimed track is within it. */
  lemma ScanPicksLowestNearest(reg: Registry, used: set<nat>, c: Point, limit2: nat)
    requires Keyed(reg)
    ensures var best := Scan(reg.objects, reg.order, used, c, limit2).0;
            && (best.Some? ==> best.value in reg.objects && NearestUnclaimed(reg.objects, used, c, limit2, best.value))
            && (best.None? ==> forall o :: o in reg.objects && o !in used ==> Dist2(c, reg.objects[o].centroid) >= limit2)
  {
    ScanFindsNearest(reg.objects, reg.order, used, c, limit2);
    ScanBeatsAll(reg.objects, reg.order, used, c, limit2);
    var best := Scan(reg.objects, reg.order, used, c, limit2);
    if best.0.Some? {
      var j :| 0 <= j < |reg.order| && reg.order[j] == best.0.value &&
               forall i :: 0 <= i < j && reg.order[i] !in used ==> Dist2(c, reg.objects[reg.order[i]].centroid) > best.1;
      ScanBeatsLower(reg.objects, reg.order, used, c, limit2, j);
    }
  }

  /** Every unclaimed track is at least as far as the scan's result. */
  lemma ScanBeatsAll(objects: map<nat, Track>, keys: seq<nat>, used: set<nat>, c: Point, limit2: nat)
    requires forall i :: 0 <= i < |keys| ==> keys[i] in objects
    requires forall id :: id in objects ==> id in keys
    requires forall i :: 0 <= i < |keys| && keys[i] !in used ==>
               Dist2(c, objects[keys[i]].centroid) >= Scan(objects, keys, used, c, limit2).1
    ensures forall o :: o in objects && o !in used ==> Dist2(c, objects[o].centroid) >= Scan(objects, keys, used, c, limit2).1
  {
    forall o | o in objects && o !in used
      ensures Dist2(c, objects[o].centroid) >= Scan(objects, keys, used, c, limit2).1
    {
      var i :| 0 <= i < |keys| && keys[i] == o;
    }
  }

  /** Over increasing keys, every unclaimed track with a lower id than the
      scan's result (found at position `j`) is strictly farther. */
  lemma ScanBeatsLower(objects: map<nat, Track>, keys: seq<nat>, used: set<nat>, c: Point, limit2: nat, j: nat)
    requires forall i :: 0 <= i < |keys| ==> keys[i] in objects
    requires forall id :: id in objects ==> id in keys
    requires Increasing(keys)
    requires var best := Scan(objects, keys, used, c, limit2);
             && best.0.Some? && j < |keys| && keys[j] == best.0.value
             && forall i :: 0 <= i < j && keys[i] !in used ==> Dist2(c, objects[keys[i]].centroid) > best.1
    ensures var best := Scan(objects, keys, used, c, limit2);
            forall o :: o in objects && o !in used && o < best.0.value ==> Dist2(c, objects[o].centroid) > best.1
  {
    var best := Scan(objects, keys, used, c, limit2);
    forall o | o in objects && o !in used && o < keys[j]
      ensures Dist2(c, objects[o].centroid) > best.1
    {
      var i :| 0 <= i < |keys| && keys[i] == o;
    }
  }

  /** A matched track keeps the buffer invariant, and its newest history
      entry and newest displacement are those of this frame. */
  lemma MatchedOk(t: Track, c: Point, cfg: Settings)
    requires cfg.Valid() && TrackOk(t, cfg)
    ensures var m := Matched(t, c, cfg);
            && TrackOk(m, cfg)
            && m.centroid == c
            && m.recentDeltas[|m.recentDeltas| - 1] == Dist2(c, t.centroid)
  {
    var h := t.history + [c];
    var d := t.recentDeltas + [Dist2(c, t.centroid)];
    var m := Matched(t, c, cfg);
    assert m.history == h[|h| - |m.history|..];
    assert m.recentDeltas == d[|d| - |m.recentDeltas|..];
  }

  lemma ElemsAppend(s: seq<nat>, x: nat)
    ensures Elems(s + [x]) == Elems(s) + {x}
    ensures Distinct(s) && x !in Elems(s) ==> Distinct(s + [x])
  {
    var t := s + [x];
    assert forall i :: 0 <= i < |s| ==> t[i] == s[i];
    assert t[|s|] == x;
    assert forall y :: y in Elems(t) ==> y in Elems(s) + {x};
  }

  /** Claiming live track `id` for detection `c` keeps the registry
      invariant. */
  lemma MatchKeepsInv(reg: Registry, c: Point, cfg: Settings, maxLost: nat, id: nat)
    requires cfg.Valid() && Inv(reg, cfg, maxLost) && id in reg.objects
    ensures Inv(reg.(objects := reg.objects[id := Matched(reg.objects[id], c, cfg)], lost := reg.lost[id := 0]), cfg, maxLost)
  {
    MatchedOk(reg.objects[id], c, cfg);
    ReplaceKeepsInv(reg, cfg, maxLost, id, Matched(reg.objects[id], c, cfg));
  }

  /** Replacing a live track by a well-formed one and clearing its lost
      count keeps the registry invariant. */
  lemma ReplaceKeepsInv(reg: Registry, cfg: Settings, maxLost: nat, id: nat, t: Track)
    requires Inv(reg, cfg, maxLost) && id in reg.objects && TrackOk(t, cfg)
    ensures Inv(reg.(objects := reg.objects[id := t], lost := reg.lost[id := 0]), cfg, maxLost)
  {
    var r := reg.(objects := reg.objects[id := t], lost := reg.lost[id := 0]);
    assert r.objects.Keys == reg.objects.Keys && r.lost.Keys == reg.lost.Keys;
    KeyedSameKeys(reg, r);
    ResetLostBounded(reg.lost, maxLost, id);
  }

  lemma ResetLostBounded(lost: map<nat, nat>, maxLost: nat, id: nat)
    requires forall o :: o in lost ==> lost[o] <= maxLost
    ensures var l := lost[id := 0]; forall o :: o in l ==> l[o] <= maxLost
  {
  }

  /** Keyed depends on the key sets, the order and the counter only. */
  lemma KeyedSameKeys(reg: Registry, r: Registry)
    requires Keyed(reg)
    requires r.order == reg.order && r.nextId == reg.nextId
    requires r.objects.Keys == reg.objects.Keys && r.lost.Keys == reg.lost.Keys
    ensures Keyed(r)
  {
  }

  /** Claiming live track `id` for detection `c` keeps the frame invariant. */
  lemma MatchKeepsFrame(f: Frame, c: Point, cfg: Settings, maxLost: nat, id: nat)
    requires cfg.Valid() && FrameOk(f, cfg, maxLost)
    requires id in f.reg.objects && id !in f.used
    ensures FrameOk(Frame(f.reg.(objects := f.reg.objects[id := Matched(f.reg.objects[id], c, cfg)],
                                 lost := f.reg.lost[id := 0]),
                          f.used + {id}, f.ids + [id]), cfg, maxLost)
  {
    var r := f.reg.(objects := f.reg.objects[id := Matched(f.reg.objects[id], c, cfg)], lost := f.reg.lost[id := 0]);
    var ids := f.ids + [id];
    MatchKeepsInv(f.reg, c, cfg, maxLost, id);
    ElemsAppend(f.ids, id);
    forall i | 0 <= i < |ids| ensures ids[i] in r.objects && r.lost[ids[i]] == 0 {
      if i < |f.ids| { assert ids[i] == f.ids[i]; }
    }
  }

  /** Opening track `nextId` for detection `c` keeps the registry
      invariant. */
  lemma NewKeepsInv(reg: Registry, c: Point, cfg: Settings, maxLost: nat)
    requires cfg.Valid() && Inv(reg, cfg, maxLost)
    ensures var id := reg.nextId;
            Inv(Registry(id + 1, reg.order + [id], reg.objects[id := Track(c, [c], [])], reg.lost[id := 0]), cfg, maxLost)
  {
    var id := reg.nextId;
    var r := Registry(id + 1, reg.order + [id], reg.objects[id := Track(c, [c], [])], reg.lost[id := 0]);
    KeyedAppend(reg, c);
    assert id !in reg.objects;
  }

  /** Opening track `nextId` for detection `c` keeps the frame invariant. */
  lemma NewKeepsFrame(f: Frame, c: Point, cfg: Settings, maxLost: nat)
    requires cfg.Valid() && FrameOk(f, cfg, maxLost)
    ensures var id := f.reg.nextId;
            FrameOk(Frame(Registry(id + 1, f.reg.order + [id], f.reg.objects[id := Track(c, [c], [])], f.reg.lost[id := 0]),
                          f.used + {id}, f.ids + [id]), cfg, maxLost)
  {
    var id := f.reg.nextId;
    var r := Registry(id + 1, f.reg.order + [id], f.reg.objects[id := Track(c, [c], [])], f.reg.lost[id := 0]);
    var ids := f.ids + [id];
    NewKeepsInv(f.reg, c, cfg, maxLost);
    assert id !in f.reg.objects;
    assert id !in Elems(f.ids);
    ElemsAppend(f.ids, id);
    forall i | 0 <= i < |ids| ensures ids[i] in r.objects && r.lost[ids[i]] == 0 {
      if i < |f.ids| { assert ids[i] == f.ids[i]; }
    }
  }

  /** One detection keeps the frame invariant: the id it receives was not
      handed out before in this frame and names a live track with lost 0. */
  lemma AssignOneKeepsFrame(f: Frame, c: Point, cfg: Settings, maxLost: nat)
    requires cfg.Valid() && FrameOk(f, cfg, maxLost)
    ensures var g := AssignOne(f, c, cfg);
            && FrameOk(g, cfg, maxLost)
            && |g.ids| == |f.ids| + 1 && g.ids[..|f.ids|] == f.ids
            && g.ids[|f.ids|] !in f.used
  {
    var best := Scan(f.reg.objects, f.reg.order, f.used, c, Sq(cfg.maxTrackDist)).0;
    var g := AssignOne(f, c, cfg);
    assert g.ids[..|f.ids|] == f.ids;
    if best.Some? {
      MatchKeepsFrame(f, c, cfg, maxLost, best.value);
    } else {
      NewKeepsFrame(f, c, cfg, maxLost);
      assert f.reg.nextId !in f.reg.objects;
    }
  }

  /** One detection, in the source's terms: it either joins the nearest
      unclaimed live track strictly within MAX_TRACK_DIST (ties to the
      lowest id), which takes the new centroid, appends the displacement and
      the centroid to its capped buffers and has its lost count reset; or,
      when no unclaimed track is that near, it opens a track with id
      `next_object_id` (history `[c]`, no displacements, lost 0) and the
      counter advances by exactly one. */
  lemma AssignOneChoice(f: Frame, c: Point, cfg: Settings)
    requires Keyed(f.reg)
    ensures var g := AssignOne(f, c, cfg);
            && |g.ids| == |f.ids| + 1
            && var id := g.ids[|f.ids|];
               && (id in f.reg.objects ==>
                     && NearestUnclaimed(f.reg.objects, f.used, c, Sq(cfg.maxTrackDist), id)
                     && g.reg.nextId == f.reg.nextId
                     && g.reg.objects == f.reg.objects[id := Matched(f.reg.objects[id], c, cfg)]
                     && g.reg.lost == f.reg.lost[id := 0])
               && (id !in f.reg.objects ==>
                     && (forall o :: o in f.reg.objects && o !in f.used ==> Dist2(c, f.reg.objects[o].centroid) >= Sq(cfg.maxTrackDist))
                     && id == f.reg.nextId
                     && g.reg.nextId == f.reg.nextId + 1
                     && g.reg.objects == f.reg.objects[id := Track(c, [c], [])]
                     && g.reg.lost == f.reg.lost[id := 0])
  {
    ScanPicksLowestNearest(f.reg, f.used, c, Sq(cfg.maxTrackDist));
  }

  /** The detection loop keeps the frame invariant and gives every
      detection exactly one id, appended in input order. */
  lemma {:induction false} AssignAllKeepsFrame(f: Frame, dets: seq<Point>, cfg: Settings, maxLost: nat)
    requires cfg.Valid() && FrameOk(f, cfg, maxLost)
    ensures var g := AssignAll(f, dets, cfg);
            && FrameOk(g, cfg, maxLost)
            && |g.ids| == |f.ids| + |dets| && g.ids[..|f.ids|] == f.ids
  {
    if dets != [] {
      var init := dets[..|dets| - 1];
      AssignAllKeepsFrame(f, init, cfg, maxLost);
      var h := AssignAll(f, init, cfg);
      AssignOneKeepsFrame(h, dets[|dets| - 1], cfg, maxLost);
      var g := AssignAll(f, dets, cfg);
      assert g.ids[..|h.ids|] == h.ids;
      assert g.ids[..|f.ids|] == h.ids[..|f.ids|];
    }
  }

  /** What the detection loop does to the registry: the id counter only
      grows, every live id was live before or is newly allocated, no live
      track is dropped, and a track no detection claimed is untouched. */
  lemma {:induction false} AssignAllHistory(f: Frame, dets: seq<Point>, cfg: Settings)
    requires Keyed(f.reg)
    ensures var g := AssignAll(f, dets, cfg);
            && f.reg.nextId <= g.reg.nextId
            && f.used <= g.used
            && (forall id :: id in g.reg.objects ==> id in f.reg.objects || f.reg.nextId <= id)
            && (forall id :: id in f.reg.objects ==> id in g.reg.objects)
            && (forall id :: id in f.reg.objects && id !in g.used ==>
                  g.reg.objects[id] == f.reg.objects[id] && g.reg.lost[id] == f.reg.lost[id])
  {
    if dets != [] {
      var init := dets[..|dets| - 1];
      AssignAllHistory(f, init, cfg);
      var h := AssignAll(f, init, cfg);
      AssignOneChoice(h, dets[|dets| - 1], cfg);
    }
  }

  // ------------------------------------------------------------------
  // What a whole update does
  // ------------------------------------------------------------------

  /** `update` keeps the tracker invariant and returns one id per
      detection: all distinct, each naming a live track whose lost count is
      0 after the call. */
  lemma UpdateKeepsInv(reg: Registry, dets: seq<Point>, cfg: Settings, maxLost: nat)
    requires cfg.Valid() && Inv(reg, cfg, maxLost)
    ensures var res := UpdateSpec(reg, dets, cfg, maxLost);
            && Inv(res.0, cfg, maxLost)
            && |res.1| == |dets|
            && Distinct(res.1)
            && (forall i :: 0 <= i < |res.1| ==> res.1[i] in res.0.objects && res.0.lost[res.1[i]] == 0)
  {
    var f0 := Frame(reg, {}, []);
    assert Elems([]) == {};
    AssignAllKeepsFrame(f0, dets, cfg, maxLost);
    AgeKeepsFrame(AssignAll(f0, dets, cfg), cfg, maxLost);
  }

  /** The lost-track loop after the detection loop keeps the invariant,
      and the ids handed out this frame stay live with lost count 0. */
  lemma AgeKeepsFrame(f: Frame, cfg: Settings, maxLost: nat)
    requires cfg.Valid() && FrameOk(f, cfg, maxLost)
    ensures var a := AgeKeys(f.reg, Elems(f.ids), maxLost, f.reg.order);
            && Inv(a, cfg, maxLost)
            && (forall i :: 0 <= i < |f.ids| ==> f.ids[i] in a.objects && a.lost[f.ids[i]] == 0)
  {
    var current := Elems(f.ids);
    AgeKeysIsAgedOn(f.reg, current, maxLost, f.reg.order);
    AgedAll(f.reg, current, maxLost);
    forall i | 0 <= i < |f.ids| ensures f.ids[i] in current { }
  }

  /** Ids are never reused: the counter never goes down, and every live id
      and every id handed out was live before the call or is at least the
      old counter, so an id evicted earlier can never come back. */
  lemma UpdateNeverReusesIds(reg: Registry, dets: seq<Point>, cfg: Settings, maxLost: nat)
    requires cfg.Valid() && Inv(reg, cfg, maxLost)
    ensures var res := UpdateSpec(reg, dets, cfg, maxLost);
            && reg.nextId <= res.0.nextId
            && (forall id :: id in res.0.objects ==> id in reg.objects || reg.nextId <= id)
            && (forall i :: 0 <= i < |res.1| ==> res.1[i] in reg.objects || reg.nextId <= res.1[i])
  {
    var f0 := Frame(reg, {}, []);
    assert Elems([]) == {};
    AssignAllKeepsFrame(f0, dets, cfg, maxLost);
    AssignAllHistory(f0, dets, cfg);
    var f := AssignAll(f0, dets, cfg);
    var current := Elems(f.ids);
    AgeKeysIsAgedOn(f.reg, current, maxLost, f.reg.order);
    AgedAll(f.reg, current, maxLost);
  }

  /** A live track that no detection claimed keeps its contents and has its
      lost count raised by one; it is evicted exactly when that count
      exceeds `maxLost`. */
  lemma UpdateAgesUnmatched(reg: Registry, dets: seq<Point>, cfg: Settings, maxLost: nat)
    requires cfg.Valid() && Inv(reg, cfg, maxLost)
    ensures var res := UpdateSpec(reg, dets, cfg, maxLost);
            forall id :: id in reg.objects && id !in Elems(res.1) ==>
              && (id in res.0.objects <==> reg.lost[id] + 1 <= maxLost)
              && (id in res.0.objects ==> res.0.objects[id] == reg.objects[id] && res.0.lost[id] == reg.lost[id] + 1)
  {
    var f0 := Frame(reg, {}, []);
    assert Elems([]) == {};
    AssignAllKeepsFrame(f0, dets, cfg, maxLost);
    AssignAllHistory(f0, dets, cfg);
    var f := AssignAll(f0, dets, cfg);
    var current := Elems(f.ids);
    AgeKeysIsAgedOn(f.reg, current, maxLost, f.reg.order);
    AgedAll(f.reg, current, maxLost);
  }

  /** A frame without detections only ages: it hands out no id, allocates
      nothing, and each track survives exactly when its raised lost count
      stays within `maxLost`, with unchanged contents. */
  lemma EmptyUpdateAges(reg: Registry, cfg: Settings, maxLost: nat)
    requires Keyed(reg)
    ensures var res := UpdateSpec(reg, [], cfg, maxLost);
            && res.1 == []
            && res.0 == Quiet(reg, maxLost)
  {
    var f := AssignAll(Frame(reg, {}, []), [], cfg);
    assert f == Frame(reg, {}, []);
    assert Elems([]) == {};
    AgeKeysIsAgedOn(reg, {}, maxLost, reg.order);
    AgedAll(reg, {}, maxLost);
  }

  /** The registry after a frame without detections. */
  ghost function Quiet(reg: Registry, maxLost: nat): (r: Registry)
    requires reg.objects.Keys == reg.lost.Keys
    ensures r.objects.Keys == r.lost.Keys && r.objects.Keys <= reg.objects.Keys && r.nextId == reg.nextId
  {
    AgedOn(reg, {}, maxLost, reg.objects.Keys)
  }

  /** What an empty frame does to one track: it survives exactly when its
      raised lost count stays within `maxLost`, and then keeps its contents
      with the lost count raised by one. */
  lemma QuietAges(reg: Registry, maxLost: nat, id: nat)
    requires reg.objects.Keys == reg.lost.Keys && id in reg.objects
    ensures var r := Quiet(reg, maxLost);
            && (id in r.objects <==> reg.lost[id] + 1 <= maxLost)
            && (id in r.objects ==> r.objects[id] == reg.objects[id] && r.lost[id] == reg.lost[id] + 1)
  {
    assert id in Kept(reg, {}, maxLost, reg.objects.Keys) <==> reg.lost[id] + 1 <= maxLost;
  }

  /** `k` consecutive frames without detections. */
  ghost function Idle(reg: Registry, maxLost: nat, k: nat): (r: Registry)
    requires reg.objects.Keys == reg.lost.Keys
    ensures r.objects.Keys == r.lost.Keys && r.objects.Keys <= reg.objects.Keys
    decreases k
  {
    if k == 0 then reg else Idle(Quiet(reg, maxLost), maxLost, k - 1)
  }

  lemma QuietKeyed(reg: Registry, maxLost: nat)
    requires Keyed(reg)
    ensures Keyed(Quiet(reg, maxLost))
  {
    AgedAll(reg, {}, maxLost);
  }

  lemma {:induction false} IdleKeyed(reg: Registry, maxLost: nat, k: nat)
    requires Keyed(reg)
    ensures Keyed(Idle(reg, maxLost, k))
    decreases k
  {
    if k > 0 {
      QuietKeyed(reg, maxLost);
      IdleKeyed(Quiet(reg, maxLost), maxLost, k - 1);
    }
  }

  /** The grace period: over `k` empty frames a track survives exactly when
      its lost count plus `k` stays within `maxLost`, and while it survives
      its contents are unchanged and its lost count has grown by `k`. */
  lemma {:induction false} GracePeriod(reg: Registry, maxLost: nat, k: nat, id: nat)
    requires reg.objects.Keys == reg.lost.Keys && id in reg.objects && reg.lost[id] <= maxLost
    ensures var r := Idle(reg, maxLost, k);
            && (id in r.objects <==> reg.lost[id] + k <= maxLost)
            && (id in r.objects ==> r.objects[id] == reg.objects[id] && r.lost[id] == reg.lost[id] + k)
    decreases k
  {
    if k > 0 {
      QuietAges(reg, maxLost, id);
      if id in Quiet(reg, maxLost).objects {
        GracePeriod(Quiet(reg, maxLost), maxLost, k - 1, id);
      }
    }
  }

  /** A detection landing exactly on the last centroid of the only live
      track re-matches that track's id, with a displacement of 0. */
  lemma RematchSameCentroid(r: Registry, cfg: Settings, maxLost: nat, id: nat)
    requires cfg.Valid() && Keyed(r) && cfg.maxTrackDist >= 1
    requires r.objects.Keys == {id} && TrackOk(r.objects[id], cfg)
    ensures var c := r.objects[id].centroid;
            var res := UpdateSpec(r, [c], cfg, maxLost);
            && res.1 == [id]
            && id in res.0.objects && res.0.lost[id] == 0
            && res.0.objects[id].centroid == c
            && var d := res.0.objects[id].recentDeltas; |d| >= 1 && d[|d| - 1] == 0
  {
    var c := r.objects[id].centroid;
    RematchAssigns(r, cfg, id);
    var f := AssignAll(Frame(r, {}, []), [c], cfg);
    var m := Matched(r.objects[id], c, cfg);
    MatchedOk(r.objects[id], c, cfg);
    assert f.reg.objects[id] == m && f.reg.lost[id] == 0;
    assert Elems(f.ids) == {id} by { assert f.ids[0] == id; }
    AgeKeepsSeen(f.reg, {id}, maxLost, id);
    var a := AgeKeys(f.reg, {id}, maxLost, f.reg.order);
    assert UpdateSpec(r, [c], cfg, maxLost) == (a, [id]);
    assert a.objects[id] == m && a.lost[id] == 0;
    assert |m.recentDeltas| >= 1;
  }

  /** A track seen this frame comes through the lost-track loop unchanged. */
  lemma AgeKeepsSeen(reg: Registry, current: set<nat>, maxLost: nat, id: nat)
    requires Keyed(reg) && id in current && id in reg.objects
    ensures var a := AgeKeys(reg, current, maxLost, reg.order);
            id in a.objects && a.objects[id] == reg.objects[id] && a.lost[id] == reg.lost[id]
  {
    AgeKeysIsAgedOn(reg, current, maxLost, reg.order);
    AgedAll(reg, current, maxLost);
  }

  /** The detection loop of that frame: the one detection claims `id`. */
  lemma RematchAssigns(r: Registry, cfg: Settings, id: nat)
    requires cfg.Valid() && Keyed(r) && cfg.maxTrackDist >= 1
    requires r.objects.Keys == {id}
    ensures var c := r.objects[id].centroid;
            var f := AssignAll(Frame(r, {}, []), [c], cfg);
            && f.ids == [id]
            && f.reg.objects == r.objects[id := Matched(r.objects[id], c, cfg)]
            && f.reg.lost == r.lost[id := 0]
  {
    var c := r.objects[id].centroid;
    var f0 := Frame(r, {}, []);
    assert AssignAll(f0, [c], cfg) == AssignOne(AssignAll(f0, [], cfg), c, cfg);
    AssignOneChoice(f0, c, cfg);
    var f := AssignOne(f0, c, cfg);
    assert Dist2(c, r.objects[id].centroid) == 0 && Sq(cfg.maxTrackDist) > 0;
    assert f.ids[0] in r.objects;
  }

  /** A track last seen in the frame before is still live, unchanged and
      with lost count `maxLost`, after `maxLost` empty frames, and no other
      track has appeared; when it was the only live track it still is,
      which is the state in which RematchSameCentroid re-matches it. */
  lemma SurvivesGrace(reg: Registry, maxLost: nat, id: nat)
    requires Keyed(reg) && id in reg.objects && reg.lost[id] == 0
    ensures var r := Idle(reg, maxLost, maxLost);
            && Keyed(r)
            && id in r.objects && r.lost[id] == maxLost
            && r.objects[id] == reg.objects[id]
            && r.objects.Keys <= reg.objects.Keys
            && (reg.objects.Keys == {id} ==> r.objects.Keys == {id})
  {
    GracePeriod(reg, maxLost, maxLost, id);
    IdleKeyed(reg, maxLost, maxLost);
  }

  // ------------------------------------------------------------------
  // The tracker object
  // ------------------------------------------------------------------

  /** `CentroidTracker`: the two dicts, their key order and the id counter,
      updated in place by `Update`. */
  class CentroidTracker {
    var nextObjectId: nat
    var order: seq<nat>
    var objects: map<nat, Track>
    var lost: map<nat, nat>
    const maxLost: nat
    const cfg: Settings

    ghost function State(): Registry
      reads this
    {
      Registry(nextObjectId, order, objects, lost)
    }

    ghost predicate Valid()
      reads this
    {
      cfg.Valid() && Inv(State(), cfg, maxLost)
    }

    /** `__init__(max_lost=None)`: no tracks, the counter at 0, and
        MAX_LOST_FRAMES as the eviction bound unless one is given. */
    constructor (maxLostArg: Option<nat>, settings: Settings)
      requires settings.Valid()
      ensures Valid()
      ensures State() == Registry(0, [], map[], map[])
      ensures maxLost == maxLostArg.GetOr(settings.maxLostFrames) && cfg == settings
    {
      nextObjectId := 0;
      order := [];
      objects := map[];
      lost := map[];
      maxLost := maxLostArg.GetOr(settings.maxLostFrames);
      cfg := settings;
    }

    /** The inner loop of `update`: the nearest unclaimed track strictly
        within MAX_TRACK_DIST, first in dict order among equally near ones. */
    method Nearest(c: Point, used: set<nat>) returns (best: Option<nat>)
      requires forall i :: 0 <= i < |order| ==> order[i] in objects
      ensures best == Scan(objects, order, used, c, Sq(cfg.maxTrackDist)).0
    {
      best := None;
      var bestDist := Sq(cfg.maxTrackDist);
      var j := 0;
      while j < |order|
        invariant 0 <= j <= |order|
        invariant (best, bestDist) == Scan(objects, order[..j], used, c, Sq(cfg.maxTrackDist))
      {
        var oid := order[j];
        assert order[..j + 1][..j] == order[..j];
        if oid !in used {
          var d := Dist2(c, objects[oid].centroid);
          if d < bestDist {
            bestDist := d;
            best := Some(oid);
          }
        }
        j := j + 1;
      }
      assert order[..|order|] == order;
    }

    /** The body of the detection loop of `update` for one centroid. */
    method Assign(c: Point, used: set<nat>, ids: seq<nat>) returns (used': set<nat>, ids': seq<nat>)
      requires Keyed(State())
      modifies this
      ensures Frame(State(), used', ids') == AssignOne(Frame(old(State()), used, ids), c, cfg)
    {
      var bestId := Nearest(c, used);
      match bestId {
        case Some(id) =>
          var track := objects[id];
          var deltas := KeepLast(track.recentDeltas + [Dist2(c, track.centroid)], cfg.detectWindowFrames);
          var history := KeepLast(track.history + [c], cfg.maxHistory);
          AssignOneMatches(Frame(State(), used, ids), c, cfg, id);
          assert Track(c, history, deltas) == Matched(track, c, cfg);
          objects := objects[id := Track(c, history, deltas)];
          lost := lost[id := 0];
          ids' := ids + [id];
          used' := used + {id};
        case None =>
          AssignOneOpens(Frame(State(), used, ids), c, cfg);
          var id := nextObjectId;
          objects := objects[id := Track(c, [c], [])];
          order := order + [id];
          lost := lost[id := 0];
          ids' := ids + [id];
          used' := used + {id};
          nextObjectId := nextObjectId + 1;
      }
    }

    /** One iteration of the lost-track loop of `update`. */
    method AgeTrack(current: set<nat>, oid: nat)
      requires objects.Keys == lost.Keys && oid in lost
      modifies this
      ensures State() == AgeOne(old(State()), current, maxLost, oid)
    {
      if oid !in current {
        lost := lost[oid := lost[oid] + 1];
        if lost[oid] > maxLost {
          objects := objects - {oid};
          lost := lost - {oid};
          order := Filter(order, objects.Keys);
        }
      }
    }

    /** The lost-track loop of `update`, over a snapshot of the keys. */
    method AgeLost(current: set<nat>)
      requires objects.Keys == lost.Keys && Increasing(order)
      requires forall i :: 0 <= i < |order| ==> order[i] in objects
      modifies this
      ensures State() == AgeKeys(old(State()), current, maxLost, old(order))
    {
      ghost var mid := State();
      var keys := order;
      var k := 0;
      while k < |keys|
        invariant 0 <= k <= |keys| && keys == mid.order && Increasing(keys[..k])
        invariant State() == AgeKeys(mid, current, maxLost, keys[..k])
      {
        AgeKeysStep(mid, current, maxLost, keys, k);
        AgeTrack(current, keys[k]);
        k := k + 1;
      }
      assert keys[..|keys|] == keys;
    }

    /** `update(detections)`: returns the id given to each detection, in
        input order, and leaves the tracker in the state UpdateSpec
        describes; the lemmas above say what that state is. */
    method Update(detections: seq<Point>) returns (ids: seq<nat>)
      requires Valid()
      modifies this
      ensures Valid()
      ensures (State(), ids) == UpdateSpec(old(State()), detections, cfg, maxLost)
      ensures |ids| == |detections| && old(nextObjectId) <= nextObjectId
      ensures forall i :: 0 <= i < |ids| ==> ids[i] in objects && ids[i] < nextObjectId
    {
      ghost var start := State();
      ids := [];
      var used: set<nat> := {};
      var i := 0;
      while i < |detections|
        invariant 0 <= i <= |detections|
        invariant Frame(State(), used, ids) == AssignAll(Frame(start, {}, []), detections[..i], cfg)
      {
        assert detections[..i + 1][..i] == detections[..i];
        used, ids := Assign(detections[i], used, ids);
        i := i + 1;
      }
      assert detections[..|detections|] == detections;
      AgeLost(Elems(ids));
      UpdateKeepsInv(start, detections, cfg, maxLost);
      UpdateNeverReusesIds(start, detections, cfg, maxLost);
    }
  }
}
