/** The per-frame vehicle filter of the traffic post-process (`filter` in
    core/hailo/libs/postprocesses/traffi/traffi.cpp) and the identity-map operations of the
    turn tracker. */
module Traffi {
  import opened Wrappers
  import opened Hailo
  import opened OrderedKeys
  import opened Sequences

  const VehicleLabel := "vehicle"

  /** The detector classes that count as vehicles. */
  predicate IsChosenType(name: string) {
    name == "car" || name == "bus" || name == "truck" || name == "train" || name == "boat"
  }

  /** The copy `filter` makes of a chosen detection: relabelled "vehicle", all else kept. */
  function AsVehicle(d: Detection): (v: Detection)
    ensures v.classLabel == VehicleLabel
    ensures v.bbox == d.bbox && v.confidence == d.confidence && v.objects == d.objects
  {
    d.(classLabel := VehicleLabel)
  }

  /** The ids of the unique-id objects among subs. */
  function UniqueIds(subs: seq<SubObject>): set<int> {
    set s | s in subs && s.UniqueId? :: s.id
  }

  /** Whether detection d becomes a candidate under id k. */
  predicate Carries(d: Detection, k: int) {
    IsChosenType(d.classLabel) && k in UniqueIds(d.objects)
  }

  /** The candidate map after v is stored under every unique id among subs, in order. */
  function Register(c: map<int, Detection>, v: Detection, subs: seq<SubObject>): (r: map<int, Detection>)
    ensures r.Keys == c.Keys + UniqueIds(subs)
    ensures forall k :: k in r ==> r[k] == if k in UniqueIds(subs) then v else c[k]
  {
    if subs == [] then c
    else
      var front := subs[..|subs| - 1];
      var last := subs[|subs| - 1];
      assert subs == front + [last];
      assert UniqueIds(subs) == UniqueIds(front) + (if last.UniqueId? then {last.id} else {});
      var r := Register(c, v, front);
      if last.UniqueId? then r[last.id := v] else r
  }

  /** The `candidates` map after the first loop of `filter` has seen the detections ds. */
  function Candidates(ds: seq<Detection>): (c: map<int, Detection>)
    ensures forall k :: k in c ==> c[k].classLabel == VehicleLabel
  {
    if ds == [] then map[]
    else
      var c := Candidates(ds[..|ds| - 1]);
      var d := ds[|ds| - 1];
      if IsChosenType(d.classLabel) then Register(c, AsVehicle(d), d.objects) else c
  }

  /** The values of c at the keys ks, in order. */
  function ValuesAt(c: map<int, Detection>, ks: seq<int>): (ds: seq<Detection>)
    requires forall i :: 0 <= i < |ks| ==> ks[i] in c
    ensures |ds| == |ks|
    ensures forall i :: 0 <= i < |ks| ==> ds[i] == c[ks[i]]
  {
    if ks == [] then [] else [c[ks[0]]] + ValuesAt(c, ks[1..])
  }

  /** The object list of a frame after `filter`: the non-detection objects in their order,
      then one detection per candidate id, in ascending id order. */
  ghost function FilteredFrame(objs: seq<RoiObject>): seq<RoiObject> {
    var c := Candidates(Detections(objs));
    NonDetections(objs) + Emitted(c, c.Keys)
  }

  /** The first loop of `filter`: every detection of a chosen type is copied, relabelled, and
      stored under each of its unique ids, an id seen again overwriting the earlier copy. The
      text printed for sub-objects that are not unique ids is left out. */
  method CollectCandidates(ds: seq<Detection>) returns (candidates: map<int, Detection>)
    ensures candidates == Candidates(ds)
  {
    candidates := map[];
    for i := 0 to |ds|
      invariant candidates == Candidates(ds[..i])
    {
      var det := ds[i];
      assert ds[..i + 1][..i] == ds[..i] && ds[..i + 1][i] == det;
      if !IsChosenType(det.classLabel) {
        continue;
      }
      candidates := StoreUnderIds(candidates, AsVehicle(det), det.objects);
    }
    assert ds[..|ds|] == ds;
  }

  /** The inner loop of the first loop of `filter`: the copy v is stored under each unique id
      among subs, in order. */
  method StoreUnderIds(c: map<int, Detection>, v: Detection, subs: seq<SubObject>) returns (r: map<int, Detection>)
    ensures r == Register(c, v, subs)
  {
    r := c;
    for j := 0 to |subs|
      invariant r == Register(c, v, subs[..j])
    {
      var sub := subs[j];
      assert subs[..j + 1][..j] == subs[..j] && subs[..j + 1][j] == sub;
      if sub.UniqueId? {
        r := r[sub.id := v];
      }
    }
    assert subs[..|subs|] == subs;
  }

  /** The detections the last loop of `filter` adds for the keys s of c, in ascending key order. */
  ghost function Emitted(c: map<int, Detection>, s: set<int>): seq<RoiObject>
    requires s <= c.Keys
  {
    AsObjects(ValuesAt(c, SortedKeys(s)))
  }

  /** Emitting the keys s starts with the least of them. */
  lemma EmittedLeast(c: map<int, Detection>, s: set<int>, m: int)
    requires s <= c.Keys && IsLeast(m, s)
    ensures Emitted(c, s) == [DetectionObject(c[m])] + Emitted(c, s - {m})
  {
    var rest := SortedKeys(s - {m});
    SortedKeysLeast(s, m);
    assert ValuesAt(c, [m] + rest) == [c[m]] + ValuesAt(c, rest);
    assert AsObjects([c[m]] + ValuesAt(c, rest)) == [DetectionObject(c[m])] + AsObjects(ValuesAt(c, rest));
  }

  /** The last loop of `filter`: the candidates are added to the frame in ascending id order,
      the iteration order of `std::map`. The text printed for each one is left out. */
  method AddCandidates(roi: Roi, candidates: map<int, Detection>)
    modifies roi
    ensures roi.objects == old(roi.objects) + Emitted(candidates, candidates.Keys)
  {
    var pending := candidates.Keys;
    while pending != {}
      invariant pending <= candidates.Keys
      invariant roi.objects + Emitted(candidates, pending) == old(roi.objects) + Emitted(candidates, candidates.Keys)
      decreases |pending|
    {
      LeastExists(pending);
      var id :| IsLeast(id, pending);
      EmittedLeast(candidates, pending, id);
      ghost var before := roi.objects;
      roi.AddObject(DetectionObject(candidates[id]));
      ConcatAssoc(before, [DetectionObject(candidates[id])], Emitted(candidates, pending - {id}));
      pending := pending - {id};
    }
    assert Emitted(candidates, {}) == [];
  }

  /** `filter(roi)`: collect the candidates, strip every detection from the frame, add the candidates back. */
  method Filter(roi: Roi)
    modifies roi
    ensures roi.objects == FilteredFrame(old(roi.objects))
  {
    var ds := roi.DetectionsTyped();
    var candidates := CollectCandidates(ds);
    roi.RemoveDetections();
    AddCandidates(roi, candidates);
  }

  /** `vehicle_id`, an `unsigned int`. */
  type VehicleId = x: int | 0 <= x < 0x1_0000_0000

  /** The IoU a stored vehicle box must exceed to match a query box (`0.75f`, exact in binary). */
  const IouThreshold: real := 0.75

  /** Whether d's box matches the query box q under the IoU function iou. */
  predicate Overlaps(iou: (BBox, BBox) -> real, q: BBox, d: Detection) {
    iou(q, d.bbox) > IouThreshold
  }

  /** The index of the first detection of dets whose box matches q. */
  function FirstOverlap(dets: seq<Detection>, q: BBox, iou: (BBox, BBox) -> real): (r: Option<nat>)
    ensures r.Some? ==> r.value < |dets| && Overlaps(iou, q, dets[r.value])
    ensures r.Some? ==> forall j :: 0 <= j < r.value ==> !Overlaps(iou, q, dets[j])
    ensures r.None? ==> forall j :: 0 <= j < |dets| ==> !Overlaps(iou, q, dets[j])
  {
    if dets == [] then None
    else if Overlaps(iou, q, dets[0]) then Some(0)
    else
      match FirstOverlap(dets[1..], q, iou)
      case None => None
      case Some(n) => Some(n + 1)
  }

  /** The detection a hailo id resolves to through the two maps, if both lookups succeed. */
  function Lookup(hailoToVehicle: map<int, VehicleId>, vehicleIdDets: map<VehicleId, Detection>, hailoId: int): Option<Detection> {
    if hailoId in hailoToVehicle && hailoToVehicle[hailoId] in vehicleIdDets then
      Some(vehicleIdDets[hailoToVehicle[hailoId]])
    else
      None
  }

  /** The identity map of the turn tracker: hailo unique ids to vehicle ids, vehicle ids to
      vehicle detections, and the list of vehicle detections in insertion order. The
      singleton instance and its mutex are left out. */
  class TurnTracker {
    var currentId: VehicleId
    var hailoToVehicle: map<int, VehicleId>
    var vehicleIdDets: map<VehicleId, Detection>
    var vehicleDets: seq<Detection>

    /** Every hailo id resolves to a vehicle detection, and every mapped detection is in the list. */
    ghost predicate Valid()
      reads this
    {
      (forall h :: h in hailoToVehicle ==> hailoToVehicle[h] in vehicleIdDets) &&
      (forall v :: v in vehicleIdDets ==> vehicleIdDets[v] in vehicleDets)
    }

    constructor ()
      ensures Valid()
      ensures currentId == 0 && hailoToVehicle == map[] && vehicleIdDets == map[] && vehicleDets == []
    {
      currentId := 0;
      hailoToVehicle := map[];
      vehicleIdDets := map[];
      vehicleDets := [];
    }

    /** `get_vehicle_det_for_hailo_det`. As written, lines 31-33 of traffi.cpp look up the
        iterator `it` itself in `vehicle_id_dets`, test `it` against the end of the wrong map and
        return the iterator; the model follows the evident intent: look up the vehicle id that
        `it` maps to and return that detection. */
    method GetVehicleDetForHailoDet(hailoId: int) returns (r: Option<Detection>)
      ensures r == Lookup(hailoToVehicle, vehicleIdDets, hailoId)
      ensures Valid() ==> (r.Some? <==> hailoId in hailoToVehicle)
      ensures Valid() && r.Some? ==> r.value in vehicleDets
    {
      if hailoId in hailoToVehicle {
        var vid := hailoToVehicle[hailoId];
        if vid in vehicleIdDets {
          return Some(vehicleIdDets[vid]);
        } else {
          return None;
        }
      }
      return None;
    }

    /** `get_vehicle_det_matching_hailo_det_iou`: the first stored vehicle detection, in
        insertion order, whose IoU with the query box exceeds the threshold. The query and the
        stored detections are pointers, so line 43 of traffi.cpp is read as
        `hailo_det->get_bbox()` and line 45 as `det->get_bbox()`. `common::iou_calc`
        is not part of this model and is the parameter iou. */
    method GetVehicleDetMatchingHailoDetIou(query: Detection, iou: (BBox, BBox) -> real) returns (r: Option<Detection>)
      ensures match FirstOverlap(vehicleDets, query.bbox, iou)
              case None => r == None
              case Some(i) => r == Some(vehicleDets[i])
    {
      var bbox := query.bbox;
      for i := 0 to |vehicleDets|
        invariant forall j :: 0 <= j < i ==> !Overlaps(iou, bbox, vehicleDets[j])
      {
        if iou(bbox, vehicleDets[i].bbox) > IouThreshold {
          return Some(vehicleDets[i]);
        }
      }
      return None;
    }

    /** `map_hailo_id_to_vehicle_det`. The definition in traffi.cpp does not compile: line 52
        leaves the `vehicle_id` parameter unnamed (it is vid here), line 56 writes `priv-` for
        `priv->`, line 57 is a stray declaration, and it returns a pointer while traffi.hpp:26
        declares `void`. traffi.hpp:26 also has no vehicle-id parameter. The model takes only the
        `void` return from traffi.hpp:26, keeps the vehicle-id parameter of traffi.cpp:52 that
        lines 55-56 use, and follows the evident intent of lines 54-56. */
    method MapHailoIdToVehicleDet(hailoId: int, vid: VehicleId, det: Detection)
      modifies this
      ensures vehicleDets == old(vehicleDets) + [det]
      ensures vehicleIdDets == old(vehicleIdDets)[vid := det]
      ensures hailoToVehicle == old(hailoToVehicle)[hailoId := vid]
      ensures currentId == old(currentId)
      ensures old(Valid()) ==> Valid()
    {
      vehicleDets := vehicleDets + [det];
      vehicleIdDets := vehicleIdDets[vid := det];
      hailoToVehicle := hailoToVehicle[hailoId := vid];
    }
  }
}

/** What `filter` and the turn tracker's maps promise, stated over the model of module Traffi. */
module TraffiProperties {
  import opened Wrappers
  import opened Hailo
  import opened OrderedKeys
  import opened Traffi

  /** An id is a candidate exactly when some detection of a chosen type carries it as a unique id. */
  lemma {:induction false} CandidatesKeys(ds: seq<Detection>, k: int)
    ensures k in Candidates(ds) <==> exists i :: 0 <= i < |ds| && Carries(ds[i], k)
  {
    if ds != [] {
      var front := ds[..|ds| - 1];
      var last := ds[|ds| - 1];
      CandidatesKeys(front, k);
      assert forall i :: 0 <= i < |front| ==> front[i] == ds[i];
      if k in Candidates(ds) && !(k in Candidates(front)) {
        assert Carries(ds[|ds| - 1], k);
      }
      if exists i :: 0 <= i < |ds| && Carries(ds[i], k) {
        var i :| 0 <= i < |ds| && Carries(ds[i], k);
        if i < |ds| - 1 {
          assert Carries(front[i], k);
        }
      }
    }
  }

  /** When several chosen detections carry the same id, the candidate is the relabelled copy of the last one. */
  lemma {:induction false} CandidatesLastWins(ds: seq<Detection>, k: int, i: int)
    requires 0 <= i < |ds| && Carries(ds[i], k)
    requires forall j :: i < j < |ds| ==> !Carries(ds[j], k)
    ensures k in Candidates(ds) && Candidates(ds)[k] == AsVehicle(ds[i])
  {
    var front := ds[..|ds| - 1];
    if i < |ds| - 1 {
      assert front[i] == ds[i];
      assert forall j :: i < j < |front| ==> front[j] == ds[j];
      CandidatesLastWins(front, k, i);
      assert !Carries(ds[|ds| - 1], k);
    }
  }

  /** Only detections of a chosen type contribute: none of them means no candidates. */
  lemma {:induction false} CandidatesNoneChosen(ds: seq<Detection>)
    requires forall i :: 0 <= i < |ds| ==> !IsChosenType(ds[i].classLabel)
    ensures Candidates(ds) == map[]
  {
    if ds != [] {
      var front := ds[..|ds| - 1];
      assert forall i :: 0 <= i < |front| ==> front[i] == ds[i];
      CandidatesNoneChosen(front);
    }
  }

  /** `filter` leaves the objects that are not detections as they were, in their order. */
  lemma FilterKeepsOthers(objs: seq<RoiObject>)
    ensures NonDetections(FilteredFrame(objs)) == NonDetections(objs)
  {
    var c := Candidates(Detections(objs));
    var added := ValuesAt(c, SortedKeys(c.Keys));
    assert FilteredFrame(objs) == NonDetections(objs) + AsObjects(added);
    NonDetectionsConcat(NonDetections(objs), AsObjects(added));
    NonDetectionsIdempotent(objs);
    AsObjectsSelect(added);
  }

  /** After `filter` the frame's detections are the candidates, one per id, in ascending id order. */
  lemma FilterDetections(objs: seq<RoiObject>)
    ensures var c := Candidates(Detections(objs));
            Detections(FilteredFrame(objs)) == ValuesAt(c, SortedKeys(c.Keys))
  {
    var c := Candidates(Detections(objs));
    var added := ValuesAt(c, SortedKeys(c.Keys));
    assert FilteredFrame(objs) == NonDetections(objs) + AsObjects(added);
    DetectionsConcat(NonDetections(objs), AsObjects(added));
    NonDetectionsIdempotent(objs);
    AsObjectsSelect(added);
  }

  lemma VehicleNotChosen()
    ensures !IsChosenType(VehicleLabel)
  {
    assert |VehicleLabel| == 7;
  }

  /** Every detection left in the frame by `filter` is labelled "vehicle", hence not of a chosen type. */
  lemma FilterRelabels(objs: seq<RoiObject>)
    ensures forall i :: 0 <= i < |Detections(FilteredFrame(objs))| ==>
      Detections(FilteredFrame(objs))[i].classLabel == VehicleLabel && !IsChosenType(Detections(FilteredFrame(objs))[i].classLabel)
  {
    FilterDetections(objs);
    VehicleNotChosen();
  }

  /** "vehicle" is not a chosen class, so a second `filter` of the same frame removes every detection. */
  lemma FilterTwice(objs: seq<RoiObject>)
    ensures FilteredFrame(FilteredFrame(objs)) == NonDetections(objs)
  {
    var once := FilteredFrame(objs);
    FilterRelabels(objs);
    FilterKeepsOthers(objs);
    CandidatesNoneChosen(Detections(once));
    assert FilteredFrame(once) == NonDetections(once) + Emitted(map[], {});
    assert Emitted(map[], {}) == [];
  }

  /** Registering a further vehicle detection never changes which stored detection an IoU query
      finds first; the new one is found only when no earlier one matches. */
  lemma {:induction false} FirstOverlapAppend(dets: seq<Detection>, d: Detection, q: BBox, iou: (BBox, BBox) -> real)
    ensures FirstOverlap(dets + [d], q, iou) ==
      if FirstOverlap(dets, q, iou).Some? then FirstOverlap(dets, q, iou)
      else if Overlaps(iou, q, d) then Some(|dets|)
      else None
  {
    if dets == [] {
      assert [] + [d] == [d];
    } else {
      assert (dets + [d])[0] == dets[0] && (dets + [d])[1..] == dets[1..] + [d];
      FirstOverlapAppend(dets[1..], d, q, iou);
    }
  }

  /** After mapping hailo id h to vehicle id vid with detection det, h resolves to det, so does
      every other hailo id already mapped to vid, and every other id resolves as before. */
  lemma LookupAfterMap(h: map<int, VehicleId>, v: map<VehicleId, Detection>, hailoId: int, vid: VehicleId, det: Detection, k: int)
    ensures Lookup(h[hailoId := vid], v[vid := det], k) ==
      if k == hailoId || (k in h && h[k] == vid) then Some(det) else Lookup(h, v, k)
  {
  }
}
