/**
 * The live webcam panel: it asks the browser for the camera, records whether permission
 * was granted, and, while it is, steps through a fixed cycle of simulated detection
 * states on every timer tick. The media API's answer and the timer are inputs.
 */
module WebcamFeed {
  import opened Wrappers

  datatype DetectionState =
    | Initializing | NoCameraPermission | NoCameraFound
    | FaceOk | NoFace | MultiFace | PhoneDetected | LookingAway

  /** The badge shown for a state: its message and its colour classes. */
  datatype Badge = Badge(message: string, color: string, borderColor: string)

  /** The colour classes of one hue. */
  function Hue(h: string): (b: Badge)
    ensures b.borderColor == "border-" + h + "-500"
  {
    Badge("", "bg-" + h + "-500/20 text-" + h + "-400", "border-" + h + "-500")
  }

  /** The configuration table: there is an entry for every state. */
  function DetectionConfig(s: DetectionState): Badge
  {
    match s
    case Initializing => Hue("blue").(message := "Initializing Camera...")
    case NoCameraPermission => Hue("red").(message := "Webcam permission denied")
    case NoCameraFound => Hue("red").(message := "Webcam not found")
    case FaceOk => Hue("green").(message := "Identity Verified")
    case NoFace => Hue("red").(message := "No Face Detected")
    case MultiFace => Hue("red").(message := "Multiple Faces Detected")
    case PhoneDetected => Hue("orange").(message := "Phone Detected")
    case LookingAway => Hue("yellow").(message := "Looking Away From Screen")
  }

  /** Every badge draws its background, text and border in one hue, and the camera
      failures and the face alarms are red. */
  lemma ConfigColoursAgree(s: DetectionState)
    ensures exists h :: DetectionConfig(s).color == Hue(h).color && DetectionConfig(s).borderColor == Hue(h).borderColor
    ensures s in {NoCameraPermission, NoCameraFound, NoFace, MultiFace} <==> DetectionConfig(s).borderColor == "border-red-500"
  {
    var h := match s
      case Initializing => "blue"
      case FaceOk => "green"
      case PhoneDetected => "orange"
      case LookingAway => "yellow"
      case _ => "red";
    assert DetectionConfig(s).color == Hue(h).color;
    assert "border-red-500" == Hue("red").borderColor;
    if s !in {NoCameraPermission, NoCameraFound, NoFace, MultiFace} {
      assert DetectionConfig(s).borderColor[7] != "border-red-500"[7];
    }
  }

  /** No two states share a message. */
  lemma ConfigMessagesDistinct(s: DetectionState, t: DetectionState)
    requires s != t
    ensures DetectionConfig(s).message != DetectionConfig(t).message
  {
  }

  const SimulatedEvents: seq<DetectionState> :=
    [FaceOk, FaceOk, FaceOk, LookingAway, FaceOk, PhoneDetected, FaceOk, NoFace, FaceOk, MultiFace]

  /** `(i + 1) % SIMULATED_EVENTS.length`. */
  function Step(i: nat): (j: nat)
    ensures j < |SimulatedEvents|
    ensures i + 1 < |SimulatedEvents| ==> j == i + 1
    ensures i + 1 == |SimulatedEvents| ==> j == 0
  {
    (i + 1) % |SimulatedEvents|
  }

  /** The index after `n` ticks from `i`. */
  function Steps(i: nat, n: nat): nat
  {
    if n == 0 then i else Step(Steps(i, n - 1))
  }

  /** `n` ticks move the index `n` places around the cycle. */
  lemma {:induction false} StepsAreModular(i: nat, n: nat)
    requires i < |SimulatedEvents|
    ensures Steps(i, n) == (i + n) % |SimulatedEvents|
  {
    if n > 0 {
      StepsAreModular(i, n - 1);
    }
  }

  /** The simulated states repeat with period ten, and the first one shown after the
      start is the second entry. */
  lemma SimulationCycle(n: nat)
    ensures SimulatedEvents[Steps(0, n + 10)] == SimulatedEvents[Steps(0, n)]
    ensures Steps(0, 1) == 1 && SimulatedEvents[Steps(0, 1)] == FaceOk
  {
    StepsAreModular(0, n + 10);
    StepsAreModular(0, n);
  }

  /** How the camera request ended: no media API, a stream, or an error with its name. */
  datatype MediaOutcome = NoMediaApi | Granted | MediaError(name: string)

  /** A refusal by the user or the browser means no permission; any other error means
      no camera. */
  function ClassifyMediaError(name: string): (s: DetectionState)
    ensures s == NoCameraPermission || s == NoCameraFound
    ensures s == NoCameraPermission <==> name == "NotAllowedError" || name == "PermissionDeniedError"
  {
    if name == "NotAllowedError" || name == "PermissionDeniedError" then NoCameraPermission else NoCameraFound
  }

  class Feed {
    var detectionState: DetectionState
    var hasCameraPermission: Option<bool>
    /** The interval's counter and whether the interval runs. */
    var eventIndex: nat
    var simulating: bool

    predicate Valid()
      reads this
    {
      eventIndex < |SimulatedEvents| && (simulating <==> hasCameraPermission == Some(true))
    }

    constructor ()
      ensures Valid()
      ensures detectionState == Initializing && hasCameraPermission == None
      ensures eventIndex == 0 && !simulating
    {
      detectionState := Initializing;
      hasCameraPermission := None;
      eventIndex := 0;
      simulating := false;
    }

    /** Sets the permission; a change restarts the simulation effect: the old interval
        is cleared, the counter restarts at zero, and a new interval runs only with
        permission granted. */
    method SetPermission(p: Option<bool>)
      requires Valid()
      modifies this
      ensures Valid() && hasCameraPermission == p && detectionState == old(detectionState)
      ensures p != old(hasCameraPermission) ==> eventIndex == 0
      ensures p == old(hasCameraPermission) ==> eventIndex == old(eventIndex)
    {
      if p != hasCameraPermission {
        hasCameraPermission := p;
        eventIndex := 0;
        simulating := p == Some(true);
      }
    }

    /** The synchronous start of a camera request. */
    method BeginPermissionRequest()
      requires Valid()
      modifies this
      ensures Valid() && detectionState == Initializing
      ensures hasCameraPermission == old(hasCameraPermission) && eventIndex == old(eventIndex)
    {
      detectionState := Initializing;
    }

    /** The end of a camera request, once the media API has answered. */
    method CompletePermissionRequest(outcome: MediaOutcome)
      requires Valid()
      modifies this
      ensures Valid()
      ensures outcome == Granted ==> hasCameraPermission == Some(true) && detectionState == FaceOk
      ensures outcome == NoMediaApi ==> hasCameraPermission == Some(false) && detectionState == NoCameraFound
      ensures outcome.MediaError? ==>
        hasCameraPermission == Some(false) && detectionState == ClassifyMediaError(outcome.name)
      ensures hasCameraPermission != old(hasCameraPermission) ==> eventIndex == 0
      ensures hasCameraPermission == old(hasCameraPermission) ==> eventIndex == old(eventIndex)
    {
      match outcome {
        case Granted =>
          SetPermission(Some(true));
          detectionState := FaceOk;
        case NoMediaApi =>
          detectionState := NoCameraFound;
          SetPermission(Some(false));
        case MediaError(name) =>
          if name == "NotAllowedError" || name == "PermissionDeniedError" {
            detectionState := NoCameraPermission;
          } else {
            detectionState := NoCameraFound;
          }
          SetPermission(Some(false));
      }
    }

    /** One timer tick: while the simulation runs, the counter steps and its state is shown;
        otherwise nothing changes. */
    method Tick()
      requires Valid()
      modifies this
      ensures Valid() && hasCameraPermission == old(hasCameraPermission)
      ensures hasCameraPermission == Some(true) ==>
        eventIndex == Step(old(eventIndex)) && detectionState == SimulatedEvents[eventIndex]
      ensures hasCameraPermission != Some(true) ==>
        eventIndex == old(eventIndex) && detectionState == old(detectionState)
    {
      if simulating {
        eventIndex := (eventIndex + 1) % |SimulatedEvents|;
        detectionState := SimulatedEvents[eventIndex];
      }
    }

    /** `n` ticks with permission granted land on the state `n` places further round the
        cycle. */
    method Ticks(n: nat)
      requires Valid() && hasCameraPermission == Some(true)
      modifies this
      ensures Valid() && hasCameraPermission == Some(true)
      ensures eventIndex == (old(eventIndex) + n) % |SimulatedEvents|
      ensures n > 0 ==> detectionState == SimulatedEvents[eventIndex]
      ensures n == 0 ==> detectionState == old(detectionState)
    {
      var k := 0;
      while k < n
        invariant 0 <= k <= n
        invariant Valid() && hasCameraPermission == Some(true)
        invariant eventIndex == (old(eventIndex) + k) % |SimulatedEvents|
        invariant k > 0 ==> detectionState == SimulatedEvents[eventIndex]
        invariant k == 0 ==> detectionState == old(detectionState)
      {
        Tick();
        k := k + 1;
      }
    }
  }

  /** Granting the camera shows `face_ok` and starts the cycle at its first entry; the
      first tick then shows the cycle's second entry. */
  method GrantThenTick() returns (shown: seq<DetectionState>)
    ensures shown == [Initializing, Initializing, FaceOk, SimulatedEvents[1]]
  {
    var feed := new Feed();
    shown := [feed.detectionState];
    feed.BeginPermissionRequest();
    shown := shown + [feed.detectionState];
    feed.CompletePermissionRequest(Granted);
    shown := shown + [feed.detectionState];
    feed.Tick();
    shown := shown + [feed.detectionState];
  }
}
