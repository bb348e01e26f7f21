/** The parts of the Hailo metadata objects that the vehicle filter and the turn tracker use:
    a detection with its class label, bounding box, confidence and attached sub-objects, and
    a region of interest (one video frame) holding a list of objects. Pointers to shared
    objects are modelled as values. */
module Hailo {

  /** A bounding box in normalised frame coordinates. */
  datatype BBox = BBox(xmin: real, ymin: real, width: real, height: real)

  /** An object attached to a detection: the tracker's unique id, or any other kind of
      metadata (a classification, landmarks, a matrix), identified only by its type tag. */
  datatype SubObject = UniqueId(id: int) | OtherSubObject(kind: int)

  datatype Detection = Detection(classLabel: string, bbox: BBox, confidence: real, objects: seq<SubObject>)

  /** An object of a region of interest: a detection, or an object of another type. */
  datatype RoiObject = DetectionObject(det: Detection) | OtherObject(kind: int)

  /** The detections among objs, in order: what `get_objects_typed(HAILO_DETECTION)` yields. */
  function Detections(objs: seq<RoiObject>): (ds: seq<Detection>)
    ensures |ds| <= |objs|
    ensures forall d :: d in ds <==> DetectionObject(d) in objs
  {
    if objs == [] then []
    else
      var rest := Detections(objs[1..]);
      assert forall o :: o in objs <==> o == objs[0] || o in objs[1..];
      if objs[0].DetectionObject? then [objs[0].det] + rest else rest
  }

  /** The objects of objs that are not detections, in order: what `remove_objects_typed(HAILO_DETECTION)` leaves. */
  function NonDetections(objs: seq<RoiObject>): (others: seq<RoiObject>)
    ensures |others| <= |objs|
    ensures forall o :: o in others <==> o in objs && !o.DetectionObject?
  {
    if objs == [] then []
    else
      var rest := NonDetections(objs[1..]);
      assert forall o :: o in objs <==> o == objs[0] || o in objs[1..];
      if objs[0].DetectionObject? then rest else [objs[0]] + rest
  }

  /** Detections wrapped as region objects, in order. */
  function AsObjects(ds: seq<Detection>): (objs: seq<RoiObject>)
    ensures |objs| == |ds|
    ensures forall i :: 0 <= i < |ds| ==> objs[i] == DetectionObject(ds[i])
  {
    if ds == [] then [] else [DetectionObject(ds[0])] + AsObjects(ds[1..])
  }

  lemma {:induction false} DetectionsConcat(a: seq<RoiObject>, b: seq<RoiObject>)
    ensures Detections(a + b) == Detections(a) + Detections(b)
  {
    if a != [] {
      assert (a + b)[0] == a[0] && (a + b)[1..] == a[1..] + b;
      DetectionsConcat(a[1..], b);
      if a[0].DetectionObject? {
        assert [a[0].det] + (Detections(a[1..]) + Detections(b)) == ([a[0].det] + Detections(a[1..])) + Detections(b);
      }
    } else {
      assert a + b == b;
    }
  }

  lemma {:induction false} NonDetectionsConcat(a: seq<RoiObject>, b: seq<RoiObject>)
    ensures NonDetections(a + b) == NonDetections(a) + NonDetections(b)
  {
    if a != [] {
      assert (a + b)[0] == a[0] && (a + b)[1..] == a[1..] + b;
      NonDetectionsConcat(a[1..], b);
      if !a[0].DetectionObject? {
        assert [a[0]] + (NonDetections(a[1..]) + NonDetections(b)) == ([a[0]] + NonDetections(a[1..])) + NonDetections(b);
      }
    } else {
      assert a + b == b;
    }
  }

  /** Wrapping detections and then selecting the detections gives them back; nothing else is left. */
  lemma {:induction false} AsObjectsSelect(ds: seq<Detection>)
    ensures Detections(AsObjects(ds)) == ds
    ensures NonDetections(AsObjects(ds)) == []
  {
    if ds != [] {
      AsObjectsSelect(ds[1..]);
      assert AsObjects(ds)[1..] == AsObjects(ds[1..]);
    }
  }

  /** Removing the detections twice removes nothing more. */
  lemma {:induction false} NonDetectionsIdempotent(objs: seq<RoiObject>)
    ensures NonDetections(NonDetections(objs)) == NonDetections(objs)
    ensures Detections(NonDetections(objs)) == []
  {
    if objs != [] {
      NonDetectionsIdempotent(objs[1..]);
      if !objs[0].DetectionObject? {
        assert ([objs[0]] + NonDetections(objs[1..]))[1..] == NonDetections(objs[1..]);
      }
    }
  }

  /** A region of interest whose object list the plugins update in place. */
  class Roi {
    var objects: seq<RoiObject>

    constructor (objects: seq<RoiObject>)
      ensures this.objects == objects
    {
      this.objects := objects;
    }

    /** `get_objects_typed(HAILO_DETECTION)`. */
    method DetectionsTyped() returns (ds: seq<Detection>)
      ensures ds == Detections(objects)
    {
      ds := Detections(objects);
    }

    /** `remove_objects_typed(HAILO_DETECTION)`: every detection goes, the other objects stay in order. */
    method RemoveDetections()
      modifies this
      ensures objects == NonDetections(old(objects))
    {
      objects := NonDetections(objects);
    }

    /** `hailo_common::add_object`: the object is appended. */
    method AddObject(o: RoiObject)
      modifies this
      ensures objects == old(objects) + [o]
    {
      objects := objects + [o];
    }
  }
}
