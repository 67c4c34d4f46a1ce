/**
 * The Ring camera side of the assistant: the clean-up of the device list
 * after login (flatten, drop repeated ids, fill in missing names) and the
 * camera command handler (`AI.handle_ring` in jarvis.py).
 */
module Cameras {
  import opened Text
  import opened Wrappers

  /** A Ring device handle: its id, and a name that may be missing. */
  class RingDevice {
    const id: string
    var name: Option<string>

    constructor (id: string, name: Option<string>)
      ensures this.id == id && this.name == name
    {
      this.id := id;
      this.name := name;
    }
  }

  /** One value of the mapping `ring.devices()` returns: a list of devices, or anything else. */
  datatype RawValue = DeviceList(devices: seq<RingDevice>) | Other

  // ---------------------------------------------------------------------
  // Clean-up of the device list
  // ---------------------------------------------------------------------

  /** `d` is a device of one of the list-valued entries. */
  ghost predicate FromEntries(raw: seq<RawValue>, d: RingDevice) {
    exists k :: 0 <= k < |raw| && raw[k].DeviceList? && d in raw[k].devices
  }

  /** The devices of the list-valued entries, concatenated in order. */
  function Flatten(raw: seq<RawValue>): (r: seq<RingDevice>)
    ensures forall k, j :: 0 <= k < |raw| && raw[k].DeviceList? && 0 <= j < |raw[k].devices| ==> raw[k].devices[j] in r
    ensures forall i :: 0 <= i < |r| ==> FromEntries(raw, r[i])
    decreases |raw|
  {
    if raw == [] then []
    else
      var n := |raw| - 1;
      var earlier := Flatten(raw[..n]);
      assert forall k :: 0 <= k < n ==> raw[..n][k] == raw[k];
      var last := if raw[n].DeviceList? then raw[n].devices else [];
      assert forall i :: 0 <= i < |earlier| ==> FromEntries(raw, earlier[i]) by {
        forall i | 0 <= i < |earlier| ensures FromEntries(raw, earlier[i]) {
          var k :| 0 <= k < n && raw[..n][k].DeviceList? && earlier[i] in raw[..n][k].devices;
          assert raw[k] == raw[..n][k];
        }
      }
      assert forall i :: 0 <= i < |last| ==> FromEntries(raw, last[i]) by {
        forall i | 0 <= i < |last| ensures FromEntries(raw, last[i]) {
          assert raw[n].DeviceList? && last[i] in raw[n].devices;
        }
      }
      earlier + last
  }

  /** The loop that extends the device list with every list-valued entry. */
  method FlattenDevices(raw: seq<RawValue>) returns (flat: seq<RingDevice>)
    ensures flat == Flatten(raw)
  {
    flat := [];
    for k := 0 to |raw|
      invariant flat == Flatten(raw[..k])
    {
      assert raw[..k + 1][..k] == raw[..k];
      if raw[k].DeviceList? {
        flat := flat + raw[k].devices;
      }
    }
    assert raw[..|raw|] == raw;
  }

  /** Python's `list.remove(d)`: drops the first element that is the object `d`. */
  function RemoveFirst(list: seq<RingDevice>, d: RingDevice): (r: seq<RingDevice>)
    ensures d !in list ==> r == list
    decreases |list|
  {
    if list == [] then []
    else if list[0] == d then list[1..]
    else
      assert list == [list[0]] + list[1..];
      [list[0]] + RemoveFirst(list[1..], d)
  }

  /** `remove(d)` takes one copy of `d` out of a list that holds it. */
  lemma {:induction false} RemoveFirstCounts(list: seq<RingDevice>, d: RingDevice)
    requires d in list
    ensures multiset(RemoveFirst(list, d)) == multiset(list) - multiset{d}
    decreases |list|
  {
    assert list == [list[0]] + list[1..];
    if list[0] != d {
      RemoveFirstCounts(list[1..], d);
    }
  }

  /**
   * The de-duplication loop as written: it walks a copy (`pending`) of the
   * live list, and for each device whose id was seen before it removes that
   * device object from the live list.
   */
  function Prune(live: seq<RingDevice>, pending: seq<RingDevice>, seen: set<string>): seq<RingDevice>
    decreases |pending|
  {
    if pending == [] then live
    else
      var d := pending[0];
      if d.id in seen then Prune(RemoveFirst(live, d), pending[1..], seen)
      else Prune(live, pending[1..], seen + {d.id})
  }

  /**
   * The clean-up of the whole list. Whatever the list, the devices left are,
   * counted with multiplicity, those the reference de-duplication keeps.
   */
  function Dedup(list: seq<RingDevice>): (r: seq<RingDevice>)
    ensures multiset(r) == multiset(KeepFirst(list, {}))
  {
    PruneCounts(list, list, {});
    Prune(list, list, {})
  }

  /**
   * Every `remove(d)` of the loop as written finds `d` in the live list:
   * Python's `ValueError` for a missing element is never raised.
   */
  ghost predicate RemovalsFind(live: seq<RingDevice>, pending: seq<RingDevice>, seen: set<string>)
    decreases |pending|
  {
    pending != [] ==>
      (pending[0].id in seen ==>
         pending[0] in live && RemovalsFind(RemoveFirst(live, pending[0]), pending[1..], seen)) &&
      (pending[0].id !in seen ==> RemovalsFind(live, pending[1..], seen + {pending[0].id}))
  }

  /** Index `i` holds the first device of `list` with its id. */
  predicate FirstOfId(list: seq<RingDevice>, i: int) {
    0 <= i < |list| && forall j :: 0 <= j < i ==> list[j].id != list[i].id
  }

  /** The device object `d` sits at the first position of its id in `list`. */
  ghost predicate FirstCopy(list: seq<RingDevice>, d: RingDevice) {
    exists i :: FirstOfId(list, i) && list[i] == d
  }

  predicate DistinctIds(list: seq<RingDevice>) {
    forall i, j :: 0 <= i < j < |list| ==> list[i].id != list[j].id
  }

  predicate DistinctObjects(list: seq<RingDevice>) {
    forall i, j :: 0 <= i < j < |list| ==> list[i] != list[j]
  }

  /** The ids of the devices of `list`: the set `seen` holds after visiting them. */
  function Ids(list: seq<RingDevice>): (r: set<string>)
    ensures forall j :: 0 <= j < |list| ==> list[j].id in r
    decreases |list|
  {
    if list == [] then {}
    else
      var n := |list| - 1;
      assert forall j :: 0 <= j < n ==> list[..n][j] == list[j];
      Ids(list[..n]) + {list[n].id}
  }

  /** Visiting one more device adds its id. */
  lemma IdsStep(list: seq<RingDevice>, k: int)
    requires 0 <= k < |list|
    ensures Ids(list[..k + 1]) == Ids(list[..k]) + {list[k].id}
  {
    assert list[..k + 1][..k] == list[..k];
  }

  lemma {:induction false} IdsMember(list: seq<RingDevice>, x: string)
    requires x in Ids(list)
    ensures exists j :: 0 <= j < |list| && list[j].id == x
    decreases |list|
  {
    var n := |list| - 1;
    if x != list[n].id {
      IdsMember(list[..n], x);
      var j :| 0 <= j < n && list[..n][j].id == x;
      assert list[j] == list[..n][j];
    }
  }

  /** A device is the first of its id exactly when its id was not seen before it. */
  lemma FirstOfIdSeen(list: seq<RingDevice>, k: int)
    requires 0 <= k < |list|
    ensures FirstOfId(list, k) <==> list[k].id !in Ids(list[..k])
  {
    if list[k].id in Ids(list[..k]) {
      IdsMember(list[..k], list[k].id);
      var j :| 0 <= j < k && list[..k][j].id == list[k].id;
      assert list[j] == list[..k][j];
    } else {
      forall j | 0 <= j < k ensures list[j].id != list[k].id {
        assert list[..k][j] == list[j];
      }
    }
  }

  /** One visit of the loop as written. */
  lemma PruneVisit(live: seq<RingDevice>, pending: seq<RingDevice>, k: int, seen: set<string>)
    requires 0 <= k < |pending|
    ensures Prune(live, pending[k..], seen) ==
              if pending[k].id in seen then Prune(RemoveFirst(live, pending[k]), pending[k + 1..], seen)
              else Prune(live, pending[k + 1..], seen + {pending[k].id})
  {
    assert pending[k..][0] == pending[k];
    assert pending[k..][1..] == pending[k + 1..];
  }

  /**
   * The reference de-duplication: keep the first device of every id not in
   * `seen`, in list order.
   */
  function KeepFirst(list: seq<RingDevice>, seen: set<string>): (r: seq<RingDevice>)
    ensures forall k :: 0 <= k < |r| ==> r[k].id !in seen && r[k] in list
    ensures DistinctIds(r)
    decreases |list|
  {
    if list == [] then []
    else if list[0].id in seen then KeepFirst(list[1..], seen)
    else [list[0]] + KeepFirst(list[1..], seen + {list[0].id})
  }

  /** Every first device of an id outside `seen` is kept. */
  lemma {:induction false} KeepFirstComplete(list: seq<RingDevice>, seen: set<string>, i: int)
    requires FirstOfId(list, i) && list[i].id !in seen
    ensures list[i] in KeepFirst(list, seen)
    decreases |list|
  {
    var rest := list[1..];
    if i == 0 {
    } else if list[0].id in seen {
      assert FirstOfId(rest, i - 1) by {
        forall j | 0 <= j < i - 1 ensures rest[j].id != rest[i - 1].id {
          assert rest[j] == list[j + 1];
        }
      }
      KeepFirstComplete(rest, seen, i - 1);
    } else {
      assert list[0].id != list[i].id;
      assert FirstOfId(rest, i - 1) by {
        forall j | 0 <= j < i - 1 ensures rest[j].id != rest[i - 1].id {
          assert rest[j] == list[j + 1];
        }
      }
      KeepFirstComplete(rest, seen + {list[0].id}, i - 1);
    }
  }

  /** A first device of its id in the tail is one in the whole list, unless the head shares its id. */
  lemma FirstOfIdCons(list: seq<RingDevice>, i: int)
    requires |list| > 0 && FirstOfId(list[1..], i) && list[0].id != list[i + 1].id
    ensures FirstOfId(list, i + 1)
  {
    forall j | 0 <= j < i + 1
      ensures list[j].id != list[i + 1].id
    {
      if j > 0 {
        assert list[j] == list[1..][j - 1] && list[i + 1] == list[1..][i];
      }
    }
  }

  /** Every kept device is the first device of its id. */
  lemma {:induction false} KeepFirstSound(list: seq<RingDevice>, seen: set<string>, k: int)
    requires 0 <= k < |KeepFirst(list, seen)|
    ensures FirstCopy(list, KeepFirst(list, seen)[k])
    decreases |list|
  {
    var rest := list[1..];
    if list[0].id in seen {
      KeepFirstSound(rest, seen, k);
      FirstCopyCons(list, KeepFirst(rest, seen)[k]);
    } else if k == 0 {
      assert FirstOfId(list, 0);
    } else {
      var seen' := seen + {list[0].id};
      KeepFirstSound(rest, seen', k - 1);
      FirstCopyCons(list, KeepFirst(rest, seen')[k - 1]);
    }
  }

  /** The first copy of an id in the tail is its first copy in the list, when the head has another id. */
  lemma FirstCopyCons(list: seq<RingDevice>, d: RingDevice)
    requires |list| > 0 && FirstCopy(list[1..], d) && list[0].id != d.id
    ensures FirstCopy(list, d)
  {
    var i :| FirstOfId(list[1..], i) && list[1..][i] == d;
    FirstOfIdCons(list, i);
    assert list[i + 1] == d;
  }

  /** `remove(d)` on a list whose first copy of `d` sits right after `done`. */
  lemma {:induction false} RemoveAfter(done: seq<RingDevice>, d: RingDevice, rest: seq<RingDevice>)
    requires d !in done
    ensures RemoveFirst(done + [d] + rest, d) == done + rest
    decreases |done|
  {
    if done == [] {
      assert done + [d] + rest == [d] + rest;
    } else {
      var list := done + [d] + rest;
      assert list[0] == done[0] != d;
      assert list[1..] == done[1..] + [d] + rest;
      RemoveAfter(done[1..], d, rest);
      calc {
        RemoveFirst(list, d);
        [list[0]] + RemoveFirst(list[1..], d);
        [done[0]] + (done[1..] + rest);
        ([done[0]] + done[1..]) + rest;
        { assert [done[0]] + done[1..] == done; }
        done + rest;
      }
    }
  }

  /** Splitting the first device off distinct devices that are not among `done`. */
  lemma DistinctSplit(done: seq<RingDevice>, pending: seq<RingDevice>)
    requires pending != [] && DistinctObjects(pending)
    requires forall k :: 0 <= k < |done| ==> done[k] !in pending
    ensures DistinctObjects(pending[1..])
    ensures pending[0] !in pending[1..] && pending[0] !in done
    ensures forall k :: 0 <= k < |done| ==> done[k] !in pending[1..]
    ensures forall k :: 0 <= k < |done| + 1 ==> (done + [pending[0]])[k] !in pending[1..]
  {
    var rest := pending[1..];
    forall j | 0 <= j < |rest|
      ensures rest[j] != pending[0]
    {
      assert rest[j] == pending[j + 1];
    }
    forall k | 0 <= k < |done| + 1
      ensures (done + [pending[0]])[k] !in rest
    {
      if k < |done| {
        assert (done + [pending[0]])[k] == done[k];
      }
    }
  }

  /**
   * While the devices still to visit are distinct objects, none of which is
   * among those already kept, the loop as written keeps exactly the first
   * device of every id, in order.
   */
  lemma {:induction false} PruneDistinct(done: seq<RingDevice>, pending: seq<RingDevice>, seen: set<string>)
    requires DistinctObjects(pending)
    requires forall k :: 0 <= k < |done| ==> done[k] !in pending
    ensures Prune(done + pending, pending, seen) == done + KeepFirst(pending, seen)
    decreases |pending|
  {
    if pending != [] {
      var d := pending[0];
      var rest := pending[1..];
      assert pending == [d] + rest;
      DistinctSplit(done, pending);
      if d.id in seen {
        PruneDistinct(done, rest, seen);
        PruneSeenStep(done, d, rest, seen);
      } else {
        PruneDistinct(done + [d], rest, seen + {d.id});
        assert (done + [d]) + rest == done + pending;
        PruneNewStep(done, pending, seen);
      }
    }
  }

  /** A visit to a device whose id was seen removes it, the first copy of that object being right after `done`. */
  lemma PruneSeenStep(done: seq<RingDevice>, d: RingDevice, rest: seq<RingDevice>, seen: set<string>)
    requires d.id in seen && d !in done
    requires Prune(done + rest, rest, seen) == done + KeepFirst(rest, seen)
    ensures Prune(done + ([d] + rest), [d] + rest, seen) == done + KeepFirst([d] + rest, seen)
  {
    assert done + ([d] + rest) == done + [d] + rest;
    RemoveAfter(done, d, rest);
    assert ([d] + rest)[1..] == rest;
  }

  /** A visit to a device with a new id keeps it. */
  lemma PruneNewStep(done: seq<RingDevice>, pending: seq<RingDevice>, seen: set<string>)
    requires pending != [] && pending[0].id !in seen
    requires Prune(done + pending, pending[1..], seen + {pending[0].id}) ==
      (done + [pending[0]]) + KeepFirst(pending[1..], seen + {pending[0].id})
    ensures Prune(done + pending, pending, seen) == done + KeepFirst(pending, seen)
  {
    var kept := KeepFirst(pending[1..], seen + {pending[0].id});
    assert KeepFirst(pending, seen) == [pending[0]] + kept;
    assert (done + [pending[0]]) + kept == done + ([pending[0]] + kept);
  }

  /** Over distinct device objects the clean-up keeps the first device of every id, in order. */
  lemma DedupKeepsFirst(list: seq<RingDevice>)
    requires DistinctObjects(list)
    ensures Dedup(list) == KeepFirst(list, {})
  {
    PruneDistinct([], list, {});
    assert [] + list == list;
  }

  /**
   * Whatever the list, the loop as written removes one object per repeated
   * visit: the devices left are, counted with multiplicity, those the
   * reference keeps.
   */
  lemma {:induction false} PruneCounts(live: seq<RingDevice>, pending: seq<RingDevice>, seen: set<string>)
    requires multiset(pending) <= multiset(live)
    ensures multiset(Prune(live, pending, seen)) == multiset(live) - multiset(pending) + multiset(KeepFirst(pending, seen))
    decreases |pending|
  {
    if pending != [] {
      var d := pending[0];
      var rest := pending[1..];
      assert pending == [d] + rest;
      var L, D, R := multiset(live), multiset{d}, multiset(rest);
      assert multiset(pending) == D + R;
      MultisetSplit(L, D, R);
      if d.id in seen {
        assert d in live;
        var live' := RemoveFirst(live, d);
        RemoveFirstCounts(live, d);
        PruneCounts(live', rest, seen);
        assert KeepFirst(pending, seen) == KeepFirst(rest, seen);
      } else {
        PruneCounts(live, rest, seen + {d.id});
        assert multiset(KeepFirst(pending, seen)) == D + multiset(KeepFirst(rest, seen + {d.id}));
      }
    }
  }

  lemma MultisetSplit<T>(L: multiset<T>, D: multiset<T>, R: multiset<T>)
    requires D + R <= L
    ensures D <= L && R <= L - D
    ensures L - D - R == L - (D + R)
    ensures L - R == L - (D + R) + D
  {
    forall x ensures (L - D - R)[x] == (L - (D + R))[x] && (L - R)[x] == (L - (D + R) + D)[x] {
      assert (D + R)[x] <= L[x];
    }
  }

  /**
   * While the devices still to visit are, as a multiset, among the live
   * ones, each removal finds its device; this holds from the start, where
   * the loop walks a copy of the live list.
   */
  lemma {:induction false} PruneFindsRemoved(live: seq<RingDevice>, pending: seq<RingDevice>, seen: set<string>)
    requires multiset(pending) <= multiset(live)
    ensures RemovalsFind(live, pending, seen)
    decreases |pending|
  {
    if pending != [] {
      var d := pending[0];
      var rest := pending[1..];
      assert pending == [d] + rest;
      assert multiset(pending) == multiset{d} + multiset(rest);
      if d.id in seen {
        assert d in multiset(live);
        RemoveFirstCounts(live, d);
        PruneFindsRemoved(RemoveFirst(live, d), rest, seen);
      } else {
        PruneFindsRemoved(live, rest, seen + {d.id});
      }
    }
  }

  /** The clean-up never removes a device that is not in the list. */
  lemma DedupFindsRemoved(list: seq<RingDevice>)
    ensures RemovalsFind(list, list, {})
  {
    PruneFindsRemoved(list, list, {});
  }

  /** Every device left after the clean-up is the first device of its id. */
  lemma DedupFirsts(list: seq<RingDevice>, k: int)
    requires 0 <= k < |Dedup(list)|
    ensures FirstCopy(list, Dedup(list)[k])
  {
    var d := Dedup(list)[k];
    assert d in multiset(KeepFirst(list, {}));
    var m :| 0 <= m < |KeepFirst(list, {})| && KeepFirst(list, {})[m] == d;
    KeepFirstSound(list, {}, m);
  }

  /**
   * The same device object listed twice: the loop as written drops its first
   * copy rather than its second, so the kept device stays where its last copy
   * was.
   */
  lemma RepeatedObjectMoves(a: RingDevice, b: RingDevice)
    requires a.id != b.id
    ensures Dedup([a, b, a]) == [b, a]
    ensures KeepFirst([a, b, a], {}) == [a, b]
  {
    var list := [a, b, a];
    assert list[1..] == [b, a];
    assert [b, a][1..] == [a];
    assert [a][1..] == [];
    assert RemoveFirst(list, a) == [b, a];
    assert {} + {a.id} == {a.id};
    assert {a.id} + {b.id} == {a.id, b.id};
    assert b.id !in {a.id};
    assert a.id in {a.id, b.id};
    calc {
      Dedup(list);
      Prune(list, list, {});
      Prune(list, list[1..], {} + {a.id});
      Prune(list, [b, a], {a.id});
      Prune(list, [b, a][1..], {a.id} + {b.id});
      Prune(list, [a], {a.id, b.id});
      Prune(RemoveFirst(list, a), [a][1..], {a.id, b.id});
    }
    calc {
      KeepFirst(list, {});
      [a] + KeepFirst(list[1..], {} + {a.id});
      [a] + KeepFirst([b, a], {a.id});
      [a] + ([b] + KeepFirst([b, a][1..], {a.id} + {b.id}));
      [a] + ([b] + KeepFirst([a], {a.id, b.id}));
      [a] + ([b] + KeepFirst([a][1..], {a.id, b.id}));
    }
  }

  /** The name given to a device that has none: "Camera " and the last four characters of its id. */
  function DefaultName(id: string): (r: string)
    ensures |r| == 7 + (if |id| <= 4 then |id| else 4)
    ensures r[..7] == "Camera " && r[7..] == id[|id| - |r[7..]|..]
  {
    "Camera " + LastChars(id, 4)
  }

  // ---------------------------------------------------------------------
  // The camera command handler
  // ---------------------------------------------------------------------

  const LIVE_WORDS: seq<string> := ["live", "stream", "show"]
  const DASHBOARD_URL := "https://account.ring.com/account/dashboard/?lv_d="

  predicate Named(devices: seq<RingDevice>)
    reads devices
  {
    forall k :: 0 <= k < |devices| ==> devices[k].name.Some?
  }

  /** The device is addressed by the query: its lower-cased name occurs in it. */
  predicate Mentioned(d: RingDevice, q: string)
    reads d
    requires d.name.Some?
  {
    Contains(q, Lower(d.name.value))
  }

  /** The first device (in list order) whose lower-cased name occurs in the query. */
  function FindDevice(devices: seq<RingDevice>, q: string): (r: Option<nat>)
    reads devices
    requires Named(devices)
    ensures r.Some? ==> r.value < |devices| && Mentioned(devices[r.value], q)
    ensures r.Some? ==> forall j :: 0 <= j < r.value ==> !Mentioned(devices[j], q)
    ensures r.None? ==> forall j :: 0 <= j < |devices| ==> !Mentioned(devices[j], q)
    decreases |devices|
  {
    if devices == [] then None
    else if Mentioned(devices[0], q) then Some(0)
    else
      match FindDevice(devices[1..], q)
      case None => None
      case Some(i) => Some(i + 1)
  }

  /** The file a snapshot is saved to: the device name, spaces turned into underscores, then ".jpg". */
  function SnapshotFile(name: string): (r: string)
    ensures |r| == |name| + 4 && r[|name|..] == ".jpg"
    ensures forall k :: 0 <= k < |name| ==> r[k] == if name[k] == ' ' then '_' else name[k]
    ensures forall k :: 0 <= k < |r| ==> r[k] != ' '
  {
    ReplaceChar(name, ' ', '_');
    Replace(name, " ", "_") + ".jpg"
  }

  /** What a camera query does. */
  datatype RingOutcome =
    | NoDevices                                // no cameras registered: declined
    | NotFound                                 // "No Ring device found." (handled)
    | LiveView(device: nat, url: string)       // the live-view page of the device is opened
    | Snapshot(device: nat, fileName: string)  // a snapshot is saved under this file name
    | NoAction(device: nat)                    // a device but neither keyword: declined
  {
    predicate Handled() {
      NotFound? || LiveView? || Snapshot?
    }
  }

  /**
   * `handle_ring`: the first device whose name the lower-cased query
   * mentions is the one addressed; a live-view word wins over "snapshot".
   */
  function HandleRing(devices: seq<RingDevice>, query: string): (r: RingOutcome)
    reads devices
    requires Named(devices)
    ensures r.NoDevices? <==> devices == []
    ensures r.NotFound? <==> devices != [] && forall j :: 0 <= j < |devices| ==> !Mentioned(devices[j], Lower(query))
    ensures (r.LiveView? || r.Snapshot? || r.NoAction?) ==>
              (r.device < |devices| && Mentioned(devices[r.device], Lower(query)) &&
               forall j :: 0 <= j < r.device ==> !Mentioned(devices[j], Lower(query)))
    ensures r.LiveView? ==> ContainsAny(Lower(query), LIVE_WORDS) && r.url == DASHBOARD_URL + devices[r.device].id
    ensures r.Snapshot? ==>
              (!ContainsAny(Lower(query), LIVE_WORDS) && Contains(Lower(query), "snapshot") &&
               r.fileName == SnapshotFile(devices[r.device].name.value))
    ensures r.NoAction? ==> !ContainsAny(Lower(query), LIVE_WORDS) && !Contains(Lower(query), "snapshot")
  {
    if devices == [] then NoDevices
    else
      var q := Lower(query);
      match FindDevice(devices, q)
      case None => NotFound
      case Some(i) =>
        if ContainsAny(q, LIVE_WORDS) then LiveView(i, DASHBOARD_URL + devices[i].id)
        else if Contains(q, "snapshot") then Snapshot(i, SnapshotFile(devices[i].name.value))
        else NoAction(i)
  }

  /** A query naming a camera and asking for both a live view and a snapshot opens the live view. */
  lemma LiveBeatsSnapshot(devices: seq<RingDevice>, query: string, i: int)
    requires Named(devices) && 0 <= i < |devices| && Mentioned(devices[i], Lower(query))
    requires Contains(Lower(query), "live") && Contains(Lower(query), "snapshot")
    ensures HandleRing(devices, query).LiveView?
  {
    assert LIVE_WORDS[0] == "live";
  }

  // ---------------------------------------------------------------------
  // Naming the cameras
  // ---------------------------------------------------------------------

  /** The name a device has after the clean-up: filled in when it is the first of its id and had none. */
  ghost predicate FilledName(list: seq<RingDevice>, d: RingDevice, before: Option<string>, after: Option<string>) {
    after == if FirstCopy(list, d) && before.None? then Some(DefaultName(d.id)) else before
  }

  /** The name of `d` once the devices whose ids are in `seen` have been visited. */
  ghost function Filled(list: seq<RingDevice>, seen: set<string>, d: RingDevice, before: Option<string>): Option<string> {
    if FirstCopy(list, d) && d.id in seen && before.None? then Some(DefaultName(d.id)) else before
  }

  /** Visiting the first device of an id fills in that device's name and no other. */
  lemma FilledStep(list: seq<RingDevice>, k: int, seen: set<string>, e: RingDevice, before: Option<string>)
    requires FirstOfId(list, k) && list[k].id !in seen
    ensures e != list[k] ==> Filled(list, seen + {list[k].id}, e, before) == Filled(list, seen, e, before)
    ensures e == list[k] ==>
      Filled(list, seen + {list[k].id}, e, before) == if before.None? then Some(DefaultName(e.id)) else before
  {
    if e != list[k] && e.id == list[k].id && FirstCopy(list, e) {
      FirstCopyUnique(list, k, e);
    }
    if e == list[k] {
      assert FirstCopy(list, e);
    }
  }

  /** Only one object sits at the first position of an id. */
  lemma FirstCopyUnique(list: seq<RingDevice>, k: int, e: RingDevice)
    requires FirstOfId(list, k) && e.id == list[k].id && FirstCopy(list, e)
    ensures e == list[k]
  {
    var i :| FirstOfId(list, i) && list[i] == e;
    assert list[i].id == list[k].id;
  }

  /** The names of the devices of `list`, in order. */
  ghost function Names(list: seq<RingDevice>): (r: seq<Option<string>>)
    reads list
    ensures |r| == |list| && forall j :: 0 <= j < |list| ==> r[j] == list[j].name
  {
    seq(|list|, j requires 0 <= j < |list| reads list => list[j].name)
  }

  /** Every device of `list` has the name it has once the ids in `seen` were visited, `before` being the names at the start. */
  ghost predicate NamesFilled(list: seq<RingDevice>, seen: set<string>, before: seq<Option<string>>)
    reads list
  {
    |before| == |list| &&
    forall j :: 0 <= j < |list| ==> list[j].name == Filled(list, seen, list[j], before[j])
  }

  /** The name fix of the loop: the first device of its id is named after its id when it has no name. */
  method NameFirst(list: seq<RingDevice>, k: int, ghost seen: set<string>, ghost before: seq<Option<string>>)
    requires FirstOfId(list, k) && list[k].id !in seen && NamesFilled(list, seen, before)
    modifies list[k]
    ensures NamesFilled(list, seen + {list[k].id}, before)
  {
    var d := list[k];
    assert d.name == before[k];
    if d.name.None? {
      d.name := Some(DefaultName(d.id));
    }
    forall j | 0 <= j < |list|
      ensures list[j].name == Filled(list, seen + {d.id}, list[j], before[j])
    {
      FilledStep(list, k, seen, list[j], before[j]);
    }
  }

  /** One pass of the de-duplication loop, over the device at position `k` of the copy. */
  method VisitDevice(devices: seq<RingDevice>, copy: seq<RingDevice>, k: int, seen: set<string>,
                     ghost before: seq<Option<string>>)
    returns (devices': seq<RingDevice>, seen': set<string>)
    requires 0 <= k < |copy| && seen == Ids(copy[..k]) && NamesFilled(copy, seen, before)
    modifies copy[k]
    ensures Prune(devices', copy[k + 1..], seen') == Prune(devices, copy[k..], seen)
    ensures seen' == Ids(copy[..k + 1])
    ensures NamesFilled(copy, seen', before)
  {
    var d := copy[k];
    PruneVisit(devices, copy, k, seen);
    IdsStep(copy, k);
    FirstOfIdSeen(copy, k);
    if d.id in seen {
      return RemoveFirst(devices, d), seen;
    }
    NameFirst(copy, k, seen, before);
    return devices, seen + {d.id};
  }

  /**
   * The de-duplication loop over a copy of the list: a device whose id
   * was seen is removed (`list.remove`), and the first device of an id
   * gets a name when it has none.
   */
  method CleanUpDevices(flat: seq<RingDevice>) returns (devices: seq<RingDevice>)
    modifies flat
    ensures devices == Dedup(flat)
    ensures Named(devices)
    ensures forall j :: 0 <= j < |flat| ==> FilledName(flat, flat[j], old(flat[j].name), flat[j].name)
  {
    ghost var before := Names(flat);
    devices := flat;
    var seen: set<string> := {};
    var copy := devices;
    assert copy[0..] == flat && copy[..0] == [];
    for k := 0 to |copy|
      invariant Prune(devices, copy[k..], seen) == Dedup(flat)
      invariant seen == Ids(copy[..k])
      invariant NamesFilled(flat, seen, before)
    {
      devices, seen := VisitDevice(devices, copy, k, seen, before);
    }
    assert copy[..|copy|] == flat;
    CleanedUp(flat, before);
  }

  /** Once every device was visited, the names are the filled-in ones and every device kept has a name. */
  lemma CleanedUp(flat: seq<RingDevice>, before: seq<Option<string>>)
    requires NamesFilled(flat, Ids(flat), before)
    ensures forall j :: 0 <= j < |flat| ==> FilledName(flat, flat[j], before[j], flat[j].name)
    ensures Named(Dedup(flat))
  {
    forall j | 0 <= j < |flat|
      ensures FilledName(flat, flat[j], before[j], flat[j].name)
    {
      assert flat[j].id in Ids(flat);
    }
    var kept := Dedup(flat);
    forall m | 0 <= m < |kept|
      ensures kept[m].name.Some?
    {
      DedupFirsts(flat, m);
      var i :| FirstOfId(flat, i) && flat[i] == kept[m];
      assert flat[i].id in Ids(flat);
      assert kept[m].name == Filled(flat, Ids(flat), flat[i], before[i]);
    }
  }
}
