/**
 * The face-tracking client (client/src/App.jsx): the heuristics that describe
 * the first detected face, and the state that each detection tick and the
 * count-change effect update. Geometry is exact real arithmetic.
 */
module FaceTracking {
  import opened Wrappers

  datatype Point2 = Point2(x: real, y: real)
  datatype Point3 = Point3(x: real, y: real, z: real)

  /** An axis-aligned box in frame pixel coordinates. */
  datatype BoundingBox = BoundingBox(topLeft: Point2, bottomRight: Point2)

  datatype Position = Left | Right | Top | Bottom | Center
  datatype Size = Small | Medium | Large

  /** Angles in radians. */
  datatype HeadPose = HeadPose(pitch: real, yaw: real, roll: real)

  /** The description of a face that the client shows and sends. */
  datatype FaceData = FaceData(
    position: Position,
    size: Size,
    confidence: real,
    landmarks: nat,
    boundingBox: BoundingBox,
    headPose: HeadPose)

  /** One face as the landmark model reports it; any field may be missing. */
  datatype Face = Face(
    mesh: Option<seq<Point3>>,
    boundingBox: Option<BoundingBox>,
    faceInViewConfidence: Option<real>)

  /** What asking the landmark model for faces gave. */
  datatype Estimate =
    | Faces(faces: seq<Face>)   // an array of faces, maybe empty
    | NotAnArray                // a falsy or non-array result
    | Threw                     // the call raised an error

  /** The input of one detection tick. */
  datatype Frame =
    | NotReady                                        // no video, or it is not playing yet
    | Ready(width: real, height: real, estimate: Estimate)

  /** What the effect hands to the backend: the record and the captured still. */
  datatype Submission = Submission(faceData: FaceData, screenshot: Option<string>)

  // ---------------------------------------------------------------------------
  // Heuristics
  // ---------------------------------------------------------------------------

  function CenterX(box: BoundingBox): real
  {
    (box.topLeft.x + box.bottomRight.x) / 2.0
  }

  function CenterY(box: BoundingBox): real
  {
    (box.topLeft.y + box.bottomRight.y) / 2.0
  }

  /** `getFacePosition`: tests the centre against the thirds in a fixed order. */
  function FacePosition(box: BoundingBox, videoWidth: real, videoHeight: real): Position
  {
    var cx, cy := CenterX(box), CenterY(box);
    if cx < videoWidth / 3.0 then Left
    else if cx > (2.0 * videoWidth) / 3.0 then Right
    else if cy < videoHeight / 3.0 then Top
    else if cy > (2.0 * videoHeight) / 3.0 then Bottom
    else Center
  }

  /** `getFaceSize` once the ratio of the box area to the frame area is known. */
  function SizeOfRatio(ratio: real): Size
  {
    if ratio < 0.15 then Small
    else if ratio > 0.4 then Large
    else Medium
  }

  function Area(box: BoundingBox): real
  {
    (box.bottomRight.x - box.topLeft.x) * (box.bottomRight.y - box.topLeft.y)
  }

  /** `getFaceSize`: the size bucket of the box relative to the frame. */
  function FaceSize(box: BoundingBox, videoWidth: real, videoHeight: real): Size
    requires videoWidth > 0.0 && videoHeight > 0.0
  {
    SizeOfRatio(Area(box) / (videoWidth * videoHeight))
  }

  const ZeroPose := HeadPose(0.0, 0.0, 0.0)

  /** The indices of the nose tip and the two eye points in the mesh. */
  const Nose: nat := 1
  const LeftEye: nat := 145
  const RightEye: nat := 374

  /**
   * `estimateHeadPose`: the zero pose when one of the three landmarks is
   * missing, otherwise three angles computed with `atan2`, which is passed in.
   */
  function EstimateHeadPose(landmarks: seq<Point3>, atan2: (real, real) -> real): HeadPose
  {
    if !(Nose < |landmarks|) || !(LeftEye < |landmarks|) || !(RightEye < |landmarks|) then
      ZeroPose
    else
      var nose, leftEye, rightEye := landmarks[Nose], landmarks[LeftEye], landmarks[RightEye];
      HeadPose(
        atan2(nose.y - (leftEye.y + rightEye.y) / 2.0, nose.z - (leftEye.z + rightEye.z) / 2.0),
        atan2(nose.x - (leftEye.x + rightEye.x) / 2.0, nose.z - (leftEye.z + rightEye.z) / 2.0),
        atan2(rightEye.y - leftEye.y, rightEye.x - leftEye.x))
  }

  /** The record `detect` builds for the first face, if it has a mesh and a box. */
  function Describe(face: Face, videoWidth: real, videoHeight: real, atan2: (real, real) -> real): (r: Option<FaceData>)
    requires videoWidth > 0.0 && videoHeight > 0.0
    ensures r.Some? <==> face.mesh.Some? && face.boundingBox.Some?
    ensures r.Some? ==>
      && r.value.landmarks == |face.mesh.value|
      && r.value.boundingBox == face.boundingBox.value
      && r.value.position == FacePosition(face.boundingBox.value, videoWidth, videoHeight)
      && r.value.size == FaceSize(face.boundingBox.value, videoWidth, videoHeight)
      && r.value.headPose == EstimateHeadPose(face.mesh.value, atan2)
      && r.value.confidence == (if face.faceInViewConfidence.Some? then face.faceInViewConfidence.value else 0.0)
  {
    match (face.mesh, face.boundingBox)
    case (Some(mesh), Some(box)) =>
      Some(FaceData(
        FacePosition(box, videoWidth, videoHeight),
        FaceSize(box, videoWidth, videoHeight),
        // `faceInViewConfidence || 0`: a missing confidence and a zero one both give 0
        match face.faceInViewConfidence { case Some(c) => c case None => 0.0 },
        |mesh|,
        box,
        EstimateHeadPose(mesh, atan2)))
    case _ => None
  }

  // ---------------------------------------------------------------------------
  // What the heuristics promise
  // ---------------------------------------------------------------------------

  /** The left test comes first: a centre in the left third is Left whatever its height. */
  lemma LeftWins(box: BoundingBox, videoWidth: real, videoHeight: real)
    requires CenterX(box) < videoWidth / 3.0
    ensures FacePosition(box, videoWidth, videoHeight) == Left
  {
  }

  /**
   * Right only for a centre beyond two thirds of the width, Top and Bottom
   * only for a centre in the closed middle third of the width.
   */
  lemma PositionColumns(box: BoundingBox, videoWidth: real, videoHeight: real)
    ensures FacePosition(box, videoWidth, videoHeight) == Right ==> CenterX(box) > 2.0 * videoWidth / 3.0
    ensures FacePosition(box, videoWidth, videoHeight) in {Top, Bottom} ==>
      videoWidth / 3.0 <= CenterX(box) <= 2.0 * videoWidth / 3.0
    ensures FacePosition(box, videoWidth, videoHeight) == Top ==> CenterY(box) < videoHeight / 3.0
    ensures FacePosition(box, videoWidth, videoHeight) == Bottom ==> CenterY(box) > 2.0 * videoHeight / 3.0
  {
  }

  /** With a frame of positive width, every centre beyond two thirds is Right. */
  lemma RightRegion(box: BoundingBox, videoWidth: real, videoHeight: real)
    requires videoWidth > 0.0
    ensures FacePosition(box, videoWidth, videoHeight) == Right <==> CenterX(box) > 2.0 * videoWidth / 3.0
  {
  }

  /** Center exactly for a centre in the closed middle ninth of the frame. */
  lemma CenterRegion(box: BoundingBox, videoWidth: real, videoHeight: real)
    ensures FacePosition(box, videoWidth, videoHeight) == Center <==>
      && videoWidth / 3.0 <= CenterX(box) <= 2.0 * videoWidth / 3.0
      && videoHeight / 3.0 <= CenterY(box) <= 2.0 * videoHeight / 3.0
  {
  }

  /** A box centred on the frame's centre is Center. */
  lemma CentredBoxIsCenter(box: BoundingBox, videoWidth: real, videoHeight: real)
    requires videoWidth >= 0.0 && videoHeight >= 0.0
    requires CenterX(box) == videoWidth / 2.0 && CenterY(box) == videoHeight / 2.0
    ensures FacePosition(box, videoWidth, videoHeight) == Center
  {
  }

  /** The thresholds: below 0.15 Small, above 0.4 Large, the closed range between Medium. */
  lemma SizeThresholds(ratio: real)
    ensures SizeOfRatio(ratio) == Small <==> ratio < 0.15
    ensures SizeOfRatio(ratio) == Large <==> ratio > 0.4
    ensures SizeOfRatio(ratio) == Medium <==> 0.15 <= ratio <= 0.4
    ensures SizeOfRatio(0.15) == Medium && SizeOfRatio(0.4) == Medium
  {
  }

  /** Small < Medium < Large. */
  function Rank(s: Size): nat
  {
    match s
    case Small => 0
    case Medium => 1
    case Large => 2
  }

  /** A larger ratio never gives a smaller size. */
  lemma SizeMonotone(ratio1: real, ratio2: real)
    requires ratio1 <= ratio2
    ensures Rank(SizeOfRatio(ratio1)) <= Rank(SizeOfRatio(ratio2))
  {
  }

  /** In one frame, a box of larger area never gets a smaller size. */
  lemma FaceSizeMonotone(box1: BoundingBox, box2: BoundingBox, videoWidth: real, videoHeight: real)
    requires videoWidth > 0.0 && videoHeight > 0.0
    requires Area(box1) <= Area(box2)
    ensures Rank(FaceSize(box1, videoWidth, videoHeight)) <= Rank(FaceSize(box2, videoWidth, videoHeight))
  {
    var frame := videoWidth * videoHeight;
    assert Area(box1) / frame <= Area(box2) / frame;
    SizeMonotone(Area(box1) / frame, Area(box2) / frame);
  }

  /** A mesh without landmark 1, 145 or 374 gives the zero pose. */
  lemma MissingLandmarkZeroPose(landmarks: seq<Point3>, atan2: (real, real) -> real)
    requires |landmarks| <= Nose || |landmarks| <= LeftEye || |landmarks| <= RightEye
    ensures EstimateHeadPose(landmarks, atan2) == ZeroPose
  {
  }

  /** The pose depends on the three landmarks only. */
  lemma PoseUsesThreeLandmarks(m1: seq<Point3>, m2: seq<Point3>, atan2: (real, real) -> real)
    requires |m1| > RightEye && |m2| > RightEye
    requires m1[Nose] == m2[Nose] && m1[LeftEye] == m2[LeftEye] && m1[RightEye] == m2[RightEye]
    ensures EstimateHeadPose(m1, atan2) == EstimateHeadPose(m2, atan2)
  {
  }

  // ---------------------------------------------------------------------------
  // The component's state
  // ---------------------------------------------------------------------------

  /**
   * The four pieces of component state that detection and the send policy
   * use. Each method applies its updates as one step.
   */
  class Tracker {
    var faceDetected: bool
    var numFaces: nat
    var faceData: Option<FaceData>
    var prevNumFaces: nat

    /** What every tick keeps: the flag mirrors the count, and a record implies a face. */
    ghost predicate Valid()
      reads this
    {
      && faceDetected == (numFaces > 0)
      && (faceData.Some? ==> numFaces > 0)
    }

    /** The effect has caught up with the current count. */
    ghost predicate Settled()
      reads this
    {
      prevNumFaces == numFaces
    }

    /** The initial state of the component. */
    constructor ()
      ensures Valid() && Settled()
      ensures !faceDetected && numFaces == 0 && faceData == None && prevNumFaces == 0
    {
      faceDetected, numFaces, faceData, prevNumFaces := false, 0, None, 0;
    }

    /**
     * `detect`: one detection tick. Nothing changes while the video is not
     * ready; a result that is not an array and a raised error both reset the
     * three fields; otherwise the count and the first face's record are kept.
     */
    method Detect(frame: Frame, atan2: (real, real) -> real)
      requires frame.Ready? ==> frame.width > 0.0 && frame.height > 0.0
      modifies this
      ensures frame.Ready? || old(Valid()) ==> Valid()
      ensures prevNumFaces == old(prevNumFaces)
      ensures frame.NotReady? ==>
        faceDetected == old(faceDetected) && numFaces == old(numFaces) && faceData == old(faceData)
      ensures frame.Ready? && !frame.estimate.Faces? ==> !faceDetected && numFaces == 0 && faceData == None
      ensures frame.Ready? && frame.estimate.Faces? ==>
        var faces := frame.estimate.faces;
        && faceDetected == (|faces| > 0)
        && numFaces == |faces|
        && faceData == (if |faces| > 0 then Describe(faces[0], frame.width, frame.height, atan2) else None)
    {
      if frame.Ready? {
        match frame.estimate
        case Faces(faces) =>
          faceDetected := |faces| > 0;
          numFaces := |faces|;
          if |faces| > 0 {
            faceData := Describe(faces[0], frame.width, frame.height, atan2);
          } else {
            faceData := None;
          }
        case _ =>
          faceDetected := false;
          numFaces := 0;
          faceData := None;
      }
    }

    /**
     * The effect that runs after a change of `numFaces` or `faceData`: it
     * records the new count and sends only when the count changed, is
     * positive and a record exists.
     */
    method SendEffect(screenshot: Option<string>) returns (sent: Option<Submission>)
      modifies this`prevNumFaces
      ensures prevNumFaces == numFaces
      ensures sent.Some? <==> old(prevNumFaces) != numFaces && numFaces > 0 && faceData.Some?
      ensures sent.Some? ==> sent.value == Submission(faceData.value, screenshot)
    {
      sent := None;
      if numFaces != prevNumFaces {
        prevNumFaces := numFaces;
        if numFaces > 0 && faceData.Some? {
          sent := Some(Submission(faceData.value, screenshot));
        }
      }
    }

    /**
     * A detection tick followed by the effect. Starting settled, a submission
     * goes out exactly when the count moved to a positive value and the first
     * face has a record; an unchanged count never sends.
     */
    method Tick(frame: Frame, atan2: (real, real) -> real, screenshot: Option<string>) returns (sent: Option<Submission>)
      requires frame.Ready? ==> frame.width > 0.0 && frame.height > 0.0
      requires Valid() && Settled()
      modifies this
      ensures Valid() && Settled()
      ensures sent.Some? <==> numFaces != old(numFaces) && numFaces > 0 && faceData.Some?
      ensures sent.Some? ==> sent.value == Submission(faceData.value, screenshot)
      ensures numFaces == old(numFaces) ==> sent == None
      ensures prevNumFaces == numFaces
      ensures frame.NotReady? ==>
        faceDetected == old(faceDetected) && numFaces == old(numFaces) && faceData == old(faceData)
      ensures frame.Ready? && !frame.estimate.Faces? ==> !faceDetected && numFaces == 0 && faceData == None
      ensures frame.Ready? && frame.estimate.Faces? ==>
        var faces := frame.estimate.faces;
        && faceDetected == (|faces| > 0)
        && numFaces == |faces|
        && faceData == (if |faces| > 0 then Describe(faces[0], frame.width, frame.height, atan2) else None)
    {
      Detect(frame, atan2);
      sent := SendEffect(screenshot);
    }
  }
}
