/** The debounced alert engine: per-frame timer updates and edge-triggered alerts,
    first as specification functions over a session value, then as the Engine class
    whose fields stand for the persistent session state. */
module AlertEngine {
  import opened Conditions
  import opened Scoring

  /** A snapshot of the session state the engine keeps between frames. */
  datatype Session = Session(
    eyesTimer: real, seatbeltTimer: real, cigTimer: real, phoneTimer: real,
    prevTime: real, monitoring: bool, alertPlayed: map<Condition, bool>)
  {
    function Timer(c: Condition): real
    {
      match c
      case Eyes => eyesTimer
      case Seatbelt => seatbeltTimer
      case Cig => cigTimer
      case Phone => phoneTimer
    }

    predicate Played(c: Condition)
    {
      c in alertPlayed && alertPlayed[c]
    }

    predicate Over(c: Condition)
    {
      Timer(c) > AlertSec(c)
    }
  }

  /** Every condition has an entry in the alert-played dictionary. */
  predicate WellFormed(s: Session)
  {
    forall c :: c in s.alertPlayed
  }

  /** Each alert-played flag agrees with its timer being over threshold. */
  predicate Consistent(s: Session)
  {
    WellFormed(s) && forall c :: s.Played(c) == s.Over(c)
  }

  /** The state the session starts in when none is present yet. */
  function Initial(now: real): (r: Session)
    ensures !r.monitoring && r.prevTime == now
    ensures forall c :: r.Timer(c) == 0.0 && !r.Played(c)
  {
    Session(0.0, 0.0, 0.0, 0.0, now, false,
            map[Eyes := false, Seatbelt := false, Cig := false, Phone := false])
  }

  /** The start/stop button: flips the run flag and nothing else. */
  function Toggled(s: Session): (r: Session)
    ensures r.monitoring != s.monitoring && r.(monitoring := s.monitoring) == s
  {
    s.(monitoring := !s.monitoring)
  }

  /** What the alert area shows for a frame. */
  datatype Display = Alerting(lines: seq<string>) | AllNormal

  /** The text lines the alert area shows. */
  function Shown(d: Display): seq<string>
  {
    match d
    case AllNormal => [AllNormalText]
    case Alerting(lines) => lines
  }

  /** What one frame produces besides the new state: its scores, the alert lines,
      the conditions for which the alarm sound is started (in call order) and the display. */
  datatype FrameOutput = FrameOutput(scores: Scores, alerts: seq<string>, sounds: seq<Condition>, display: Display)

  datatype StepResult = StepResult(session: Session, out: FrameOutput)

  /** A timer grows by dt while its condition is active and snaps to 0 otherwise. */
  function NextTimer(c: Condition, timer: real, score: real, dt: real): real
  {
    if Active(c, score) then timer + dt else 0.0
  }

  /** The timer update: one dt shared by all four timers, and the clock advanced to now. */
  function Tick(s: Session, scores: Scores, now: real): (r: Session)
    ensures r.prevTime == now && r.monitoring == s.monitoring && r.alertPlayed == s.alertPlayed
  {
    var dt := now - s.prevTime;
    s.(eyesTimer := NextTimer(Eyes, s.eyesTimer, scores.eyes, dt),
       seatbeltTimer := NextTimer(Seatbelt, s.seatbeltTimer, scores.seatbelt, dt),
       cigTimer := NextTimer(Cig, s.cigTimer, scores.cig, dt),
       phoneTimer := NextTimer(Phone, s.phoneTimer, scores.phone, dt),
       prevTime := now)
  }

  /** The conditions of cs, in order, whose timers are over threshold in s. */
  function Above(s: Session, cs: seq<Condition>): seq<Condition>
  {
    if cs == [] then []
    else (if s.Over(cs[0]) then [cs[0]] else []) + Above(s, cs[1..])
  }

  /** The conditions of cs, in order, whose alarm has not been played in s. */
  function Unplayed(s: Session, cs: seq<Condition>): seq<Condition>
  {
    if cs == [] then []
    else (if s.Played(cs[0]) then [] else [cs[0]]) + Unplayed(s, cs[1..])
  }

  function Messages(cs: seq<Condition>): seq<string>
  {
    if cs == [] then [] else [Message(cs[0])] + Messages(cs[1..])
  }

  /** "All Normal" when there is no alert line, otherwise the lines themselves. */
  function DisplayOf(alerts: seq<string>): (r: Display)
    ensures r == AllNormal <==> alerts == []
    ensures alerts != [] ==> Shown(r) == alerts
  {
    if alerts == [] then AllNormal else Alerting(alerts)
  }

  /** After the alert block, the alert-played flag of each condition records whether it is over threshold. */
  function PlayedAfter(s: Session): map<Condition, bool>
  {
    map c | c in AllConditions :: s.Over(c)
  }

  /** One frame of the engine, as a function of the session before it. */
  function Next(s: Session, detections: seq<Detection>, now: real): (r: StepResult)
    ensures r.out.scores == ScoresOf(detections)
    ensures r.session.prevTime == now && r.session.monitoring == s.monitoring
    ensures r.out.display == AllNormal <==> r.out.alerts == []
  {
    var scores := ScoresOf(detections);
    var ticked := Tick(s, scores, now);
    var raised := Above(ticked, Order);
    var alerts := Messages(raised);
    StepResult(ticked.(alertPlayed := PlayedAfter(ticked)),
               FrameOutput(scores, alerts, Unplayed(ticked, raised), DisplayOf(alerts)))
  }

  /** A frame that reached the engine: the detections of the model and the wall-clock time read after scoring. */
  datatype Frame = Frame(detections: seq<Detection>, now: real)

  /** One camera read: a frame, or a failed grab that ends the capture loop. */
  datatype Capture = Grabbed(frame: Frame) | Failed

  function Last(frames: seq<Frame>): Frame
    requires frames != []
  {
    frames[|frames| - 1]
  }

  /** The session after the engine has processed frames in order. */
  function Run(s: Session, frames: seq<Frame>): (r: Session)
    ensures r.monitoring == s.monitoring
    ensures frames != [] ==> r.prevTime == Last(frames).now
  {
    if frames == [] then s
    else
      var f := Last(frames);
      Next(Run(s, frames[..|frames| - 1]), f.detections, f.now).session
  }

  /** The outputs of processing frames in order, one per frame. */
  function Outputs(s: Session, frames: seq<Frame>): (r: seq<FrameOutput>)
    ensures |r| == |frames|
  {
    if frames == [] then []
    else
      var pre := frames[..|frames| - 1];
      var f := Last(frames);
      Outputs(s, pre) + [Next(Run(s, pre), f.detections, f.now).out]
  }

  /** The one-element part of Above contributed by condition c. */
  function Pick(s: Session, c: Condition): seq<Condition>
  {
    if s.Over(c) then [c] else []
  }

  /** The alert line condition c contributes in session s. */
  function AlertLine(s: Session, c: Condition): seq<string>
  {
    if s.Over(c) then [Message(c)] else []
  }

  /** The sound condition c starts in session s. */
  function Sound(s: Session, c: Condition): seq<Condition>
  {
    if s.Over(c) && !s.Played(c) then [c] else []
  }

  /** The alert block's results, spelled out condition by condition. */
  lemma AlertBlock(s: Session)
    requires WellFormed(s)
    ensures Messages(Above(s, Order)) ==
      AlertLine(s, Eyes) + AlertLine(s, Seatbelt) + AlertLine(s, Cig) + AlertLine(s, Phone)
    ensures Unplayed(s, Above(s, Order)) ==
      Sound(s, Eyes) + Sound(s, Seatbelt) + Sound(s, Cig) + Sound(s, Phone)
    ensures s.alertPlayed[Eyes := s.Over(Eyes)][Seatbelt := s.Over(Seatbelt)]
                         [Cig := s.Over(Cig)][Phone := s.Over(Phone)] == PlayedAfter(s)
  {
    var p1, p2, p3, p4 := Pick(s, Eyes), Pick(s, Seatbelt), Pick(s, Cig), Pick(s, Phone);
    UnplayedPick(s, Eyes);
    UnplayedPick(s, Seatbelt);
    UnplayedPick(s, Cig);
    UnplayedPick(s, Phone);
    AboveOrder(s);
    MessagesAppend(p1, p2);
    MessagesAppend(p1 + p2, p3);
    MessagesAppend(p1 + p2 + p3, p4);
    UnplayedAppend(s, p1, p2);
    UnplayedAppend(s, p1 + p2, p3);
    UnplayedAppend(s, p1 + p2 + p3, p4);
    PlayedAfterUnique(s.alertPlayed[Eyes := s.Over(Eyes)][Seatbelt := s.Over(Seatbelt)]
                                   [Cig := s.Over(Cig)][Phone := s.Over(Phone)], s);
  }

  lemma UnplayedPick(s: Session, c: Condition)
    ensures Unplayed(s, Pick(s, c)) == Sound(s, c)
    ensures Messages(Pick(s, c)) == AlertLine(s, c)
  {
    assert [c][1..] == [];
  }

  /** Above, spelled out over the four conditions in Order. */
  lemma AboveOrder(s: Session)
    ensures Above(s, Order) == Pick(s, Eyes) + Pick(s, Seatbelt) + Pick(s, Cig) + Pick(s, Phone)
  {
    assert [Phone][1..] == [];
    assert Above(s, [Phone]) == Pick(s, Phone);
    assert [Cig, Phone][1..] == [Phone];
    assert Above(s, [Cig, Phone]) == Pick(s, Cig) + Above(s, [Phone]);
    assert [Seatbelt, Cig, Phone][1..] == [Cig, Phone];
    assert Above(s, [Seatbelt, Cig, Phone]) == Pick(s, Seatbelt) + Above(s, [Cig, Phone]);
    assert Order[1..] == [Seatbelt, Cig, Phone];
  }

  lemma {:induction false} MessagesAppend(a: seq<Condition>, b: seq<Condition>)
    ensures Messages(a + b) == Messages(a) + Messages(b)
  {
    if a != [] {
      assert (a + b)[1..] == a[1..] + b;
      MessagesAppend(a[1..], b);
    } else {
      assert a + b == b;
    }
  }

  lemma {:induction false} UnplayedAppend(s: Session, a: seq<Condition>, b: seq<Condition>)
    ensures Unplayed(s, a + b) == Unplayed(s, a) + Unplayed(s, b)
  {
    if a != [] {
      assert (a + b)[1..] == a[1..] + b;
      UnplayedAppend(s, a[1..], b);
    } else {
      assert a + b == b;
    }
  }

  lemma PlayedAfterComplete(s: Session)
    ensures forall c :: c in PlayedAfter(s) && PlayedAfter(s)[c] == s.Over(c)
  {
    forall c ensures c in AllConditions {
      match c
      case Eyes =>
      case Seatbelt =>
      case Cig =>
      case Phone =>
    }
  }

  /** A dictionary that records, for every condition, whether it is over threshold is PlayedAfter. */
  lemma PlayedAfterUnique(m: map<Condition, bool>, s: Session)
    requires Eyes in m && m[Eyes] == s.Over(Eyes)
    requires Seatbelt in m && m[Seatbelt] == s.Over(Seatbelt)
    requires Cig in m && m[Cig] == s.Over(Cig)
    requires Phone in m && m[Phone] == s.Over(Phone)
    ensures m == PlayedAfter(s)
  {
    forall c ensures c in AllConditions && c in m && m[c] == s.Over(c) {
      match c
      case Eyes =>
      case Seatbelt =>
      case Cig =>
      case Phone =>
    }
    assert m.Keys == PlayedAfter(s).Keys;
  }

  /** The frames the capture loop processes: those read before the first failed grab. */
  function Taken(captures: seq<Capture>): (r: seq<Frame>)
    ensures |r| <= |captures|
  {
    if captures == [] || captures[0].Failed? then []
    else [captures[0].frame] + Taken(captures[1..])
  }

  /** The Streamlit session state seen by the monitoring loop. */
  class Engine {
    var eyesTimer: real
    var seatbeltTimer: real
    var cigTimer: real
    var phoneTimer: real
    var prevTime: real
    var monitoring: bool
    var alertPlayed: map<Condition, bool>

    ghost predicate Valid()
      reads this
    {
      WellFormed(State())
    }

    function State(): Session
      reads this
    {
      Session(eyesTimer, seatbeltTimer, cigTimer, phoneTimer, prevTime, monitoring, alertPlayed)
    }

    /** First-run initialisation of the session; now is the clock reading at that time. */
    constructor (now: real)
      ensures Valid()
      ensures State() == Initial(now)
    {
      eyesTimer, seatbeltTimer, cigTimer, phoneTimer := 0.0, 0.0, 0.0, 0.0;
      prevTime := now;
      monitoring := false;
      alertPlayed := map[Eyes := false, Seatbelt := false, Cig := false, Phone := false];
      new;
      forall c ensures c in alertPlayed {
        match c
        case Eyes =>
        case Seatbelt =>
        case Cig =>
        case Phone =>
      }
    }

    /** The button callback. Timers, flags and the clock are left as they are. */
    method Toggle()
      modifies this
      ensures State() == Toggled(old(State()))
    {
      monitoring := !monitoring;
    }

    /** One alert block for condition c, given whether its timer is over threshold: if so,
        adds c's line and, unless its alarm was already played, starts the sound and marks
        it played; otherwise clears the mark. The ghost session s is the state the block
        reads its timer and flag from. */
    method Signal(c: Condition, over: bool, alerts: seq<string>, sounds: seq<Condition>, ghost s: Session)
      returns (alerts': seq<string>, sounds': seq<Condition>)
      requires over == s.Over(c)
      requires c in alertPlayed && c in s.alertPlayed && alertPlayed[c] == s.alertPlayed[c]
      modifies this`alertPlayed
      ensures alertPlayed == old(alertPlayed)[c := over]
      ensures alerts' == alerts + AlertLine(s, c)
      ensures sounds' == sounds + Sound(s, c)
    {
      alerts', sounds' := alerts, sounds;
      if over {
        alerts' := alerts' + [Message(c)];
        if !alertPlayed[c] {
          sounds' := sounds' + [c];
          alertPlayed := alertPlayed[c := true];
        }
      } else {
        alertPlayed := alertPlayed[c := false];
      }
    }

    /** The timer update: one dt for all four timers, then the clock is advanced. */
    method UpdateTimers(scores: Scores, now: real)
      modifies this
      ensures State() == Tick(old(State()), scores, now)
    {
      var dt := now - prevTime;
      prevTime := now;
      eyesTimer := if scores.eyes > ClosedEyeThreshold then eyesTimer + dt else 0.0;
      seatbeltTimer := if scores.seatbelt < 0.5 then seatbeltTimer + dt else 0.0;
      cigTimer := if scores.cig > 0.5 then cigTimer + dt else 0.0;
      phoneTimer := if scores.phone > PhoneThreshold then phoneTimer + dt else 0.0;
    }

    /** The alert block over the four conditions, in Order. */
    method RaiseAlerts() returns (alerts: seq<string>, sounds: seq<Condition>)
      requires Valid()
      modifies this`alertPlayed
      ensures alertPlayed == PlayedAfter(old(State()))
      ensures alerts == Messages(Above(old(State()), Order))
      ensures sounds == Unplayed(old(State()), Above(old(State()), Order))
    {
      ghost var s := State();
      alerts, sounds := Signal(Eyes, eyesTimer > EyeAlertSec, [], [], s);
      assert alerts == AlertLine(s, Eyes) && sounds == Sound(s, Eyes);
      alerts, sounds := Signal(Seatbelt, seatbeltTimer > SeatbeltAlertSec, alerts, sounds, s);
      alerts, sounds := Signal(Cig, cigTimer > CigAlertSec, alerts, sounds, s);
      alerts, sounds := Signal(Phone, phoneTimer > PhoneAlertSec, alerts, sounds, s);
      AlertBlock(s);
    }

    /** Processes one frame: scores it, updates the timers and raises the alerts. */
    method Step(detections: seq<Detection>, now: real) returns (out: FrameOutput)
      requires Valid()
      modifies this
      ensures Valid()
      ensures StepResult(State(), out) == Next(old(State()), detections, now)
    {
      var scores := ComputeScores(detections);
      UpdateTimers(scores, now);
      ghost var ticked := State();
      PlayedAfterComplete(ticked);
      var alerts, sounds := RaiseAlerts();
      assert State() == ticked.(alertPlayed := PlayedAfter(ticked));
      out := FrameOutput(scores, alerts, sounds, DisplayOf(alerts));
    }

    /** The capture loop of one script run: if monitoring is on, processes frames until
        a grab fails or the captures of this run are exhausted. */
    method Monitor(captures: seq<Capture>) returns (outs: seq<FrameOutput>)
      requires Valid()
      modifies this
      ensures Valid()
      ensures old(monitoring) ==> State() == Run(old(State()), Taken(captures))
      ensures old(monitoring) ==> outs == Outputs(old(State()), Taken(captures))
      ensures !old(monitoring) ==> State() == old(State()) && outs == []
    {
      outs := [];
      if !monitoring {
        return;
      }
      ghost var start := State();
      ghost var frames: seq<Frame> := [];
      var i := 0;
      while monitoring && i < |captures|
        invariant 0 <= i <= |captures|
        invariant Valid() && monitoring == start.monitoring
        invariant Taken(captures) == frames + Taken(captures[i..])
        invariant State() == Run(start, frames)
        invariant outs == Outputs(start, frames)
        decreases |captures| - i
      {
        if captures[i].Failed? {
          assert Taken(captures[i..]) == [];
          break;
        }
        var frame := captures[i].frame;
        assert captures[i..][1..] == captures[i + 1..];
        var out := Step(frame.detections, frame.now);
        assert (frames + [frame])[..|frames|] == frames;
        frames := frames + [frame];
        outs := outs + [out];
        i := i + 1;
      }
      if i == |captures| {
        assert Taken(captures[i..]) == [];
      }
      assert Taken(captures) == frames;
      assert State() == Run(start, frames);
    }
  }
}
