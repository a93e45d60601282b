/** Worked cases of the alert engine, one frame per second from a fresh session. */
module AlertScenarios {
  import opened Conditions
  import opened Scoring
  import opened AlertEngine
  import opened AlertProperties

  /** A frame's alert lines and sounds, spelled out condition by condition. */
  lemma FrameLists(s: Session, ds: seq<Detection>, now: real)
    requires WellFormed(s)
    ensures var t := Tick(s, ScoresOf(ds), now);
      Next(s, ds, now).out.alerts == AlertLine(t, Eyes) + AlertLine(t, Seatbelt) + AlertLine(t, Cig) + AlertLine(t, Phone) &&
      Next(s, ds, now).out.sounds == Sound(t, Eyes) + Sound(t, Seatbelt) + Sound(t, Cig) + Sound(t, Phone)
  {
    AlertBlock(Tick(s, ScoresOf(ds), now));
  }

  lemma InitialWellFormed(t0: real)
    ensures WellFormed(Initial(t0)) && Consistent(Initial(t0))
  {
    forall c ensures c in Initial(t0).alertPlayed && !Initial(t0).Played(c) {
      match c
      case Eyes =>
      case Seatbelt =>
      case Cig =>
      case Phone =>
    }
  }

  /** A frame in which exactly one condition is active: that timer grows by the elapsed time,
      the other three are zero, and at most that condition's line and sound come out. */
  lemma LoneCondition(s: Session, ds: seq<Detection>, now: real, c: Condition)
    requires WellFormed(s)
    requires forall e :: Active(e, ScoresOf(ds).Get(e)) <==> e == c
    ensures var r := Next(s, ds, now);
      r.session.prevTime == now && Consistent(r.session) &&
      r.session.Timer(c) == s.Timer(c) + (now - s.prevTime) &&
      (forall e :: e != c ==> r.session.Timer(e) == 0.0) &&
      r.out.alerts == (if r.session.Over(c) then [Message(c)] else []) &&
      r.out.sounds == (if r.session.Over(c) && !s.Played(c) then [c] else [])
  {
    var t := Tick(s, ScoresOf(ds), now);
    FrameLists(s, ds, now);
    StepConsistent(s, ds, now);
    forall e ensures Next(s, ds, now).session.Timer(e) == t.Timer(e) {
      StepTimers(s, ds, now, e);
    }
    forall e | e != c ensures Next(s, ds, now).session.Timer(e) == 0.0 {
      StepTimers(s, ds, now, e);
      assert !Active(e, ScoresOf(ds).Get(e));
    }
    StepTimers(s, ds, now, c);
  }

  /** A frame of two detections, folded one at a time. */
  lemma BestOfPair(d0: Detection, d1: Detection, c: Condition)
    ensures var first := if Route(d0.name) == Some(c) then Max(0.0, d0.conf) else 0.0;
      BestOf([d0, d1], c) == if Route(d1.name) == Some(c) then Max(first, d1.conf) else first
  {
    assert [d0, d1][..1] == [d0];
    assert [d0][..0] == [];
    assert BestOf([], c) == 0.0;
    assert BestOf([d0], c) == if Route(d0.name) == Some(c) then Max(0.0, d0.conf) else 0.0;
  }

  /** The bucket of a class name ignores its letter case: lower-casing it first changes nothing. */
  lemma RouteIgnoresCase(className: string)
    ensures Route(Lower(className)) == Route(className)
  {
    assert Lower(Lower(className)) == Lower(className);
  }

  /** A detection labelled exactly "seatbelt" feeds the seatbelt score. */
  lemma RouteSeatbelt()
    ensures Route("seatbelt") == Some(Seatbelt)
  {
    assert Lower("seatbelt") == "seatbelt";
    assert !Contains("seatbelt", "closed eyes");
    assert OccursAt("seatbelt", "seatbelt", 0);
  }

  /** The frame of the first scenario: eyes closed with score 0.2 and the seatbelt seen with 0.9. */
  function Drowsy(eyesName: string, beltName: string): seq<Detection>
  {
    [Detection(eyesName, 0.2), Detection(beltName, 0.9)]
  }

  lemma DrowsyOnlyEyes(eyesName: string, beltName: string)
    requires Route(eyesName) == Some(Eyes) && Route(beltName) == Some(Seatbelt)
    ensures ScoresOf(Drowsy(eyesName, beltName)) == Scores(0.2, 0.9, 0.0, 0.0)
    ensures forall e :: Active(e, ScoresOf(Drowsy(eyesName, beltName)).Get(e)) <==> e == Eyes
  {
    var d0, d1 := Detection(eyesName, 0.2), Detection(beltName, 0.9);
    forall c ensures BestOf([d0, d1], c) == (if c == Eyes then 0.2 else if c == Seatbelt then 0.9 else 0.0) {
      BestOfPair(d0, d1, c);
    }
  }

  /** The session after k one-second frames in which c alone was active, since monitoring
      started (or last recovered) at time t0. */
  function Sustained(c: Condition, t0: real, k: nat): Session
  {
    var x := k as real;
    Session(if c == Eyes then x else 0.0, if c == Seatbelt then x else 0.0,
            if c == Cig then x else 0.0, if c == Phone then x else 0.0, t0 + x, true,
            map[Eyes := c == Eyes && x > AlertSec(c), Seatbelt := c == Seatbelt && x > AlertSec(c),
                Cig := c == Cig && x > AlertSec(c), Phone := c == Phone && x > AlertSec(c)])
  }

  lemma SustainedWellFormed(c: Condition, t0: real, k: nat)
    ensures WellFormed(Sustained(c, t0, k))
  {
    var s := Sustained(c, t0, k);
    forall e ensures e in s.alertPlayed {
      match e
      case Eyes =>
      case Seatbelt =>
      case Cig =>
      case Phone =>
    }
  }

  /** Pressing start on a fresh session gives the state before the first frame of any episode. */
  lemma SustainedStart(c: Condition, t0: real)
    ensures Sustained(c, t0, 0) == Toggled(Initial(t0))
  {
  }

  /** Frame k of an episode in which c alone is active: the timer counts the seconds, flagged
      once the count is strictly over the threshold. */
  lemma SustainedSession(c: Condition, t0: real, ds: seq<Detection>, k: nat)
    requires forall e :: Active(e, ScoresOf(ds).Get(e)) <==> e == c
    requires k >= 1
    ensures Next(Sustained(c, t0, k - 1), ds, t0 + k as real).session == Sustained(c, t0, k)
  {
    var t := Tick(Sustained(c, t0, k - 1), ScoresOf(ds), t0 + k as real);
    SustainedTimers(c, t0, ds, k);
    PlayedAfterUnique(Sustained(c, t0, k).alertPlayed, t);
    assert t.(alertPlayed := PlayedAfter(t)) == Sustained(c, t0, k);
  }

  lemma SustainedTimers(c: Condition, t0: real, ds: seq<Detection>, k: nat)
    requires forall e :: Active(e, ScoresOf(ds).Get(e)) <==> e == c
    requires k >= 1
    ensures var t := Tick(Sustained(c, t0, k - 1), ScoresOf(ds), t0 + k as real);
      t.eyesTimer == Sustained(c, t0, k).eyesTimer && t.seatbeltTimer == Sustained(c, t0, k).seatbeltTimer &&
      t.cigTimer == Sustained(c, t0, k).cigTimer && t.phoneTimer == Sustained(c, t0, k).phoneTimer
  {
    var s, now := Sustained(c, t0, k - 1), t0 + k as real;
    StepTimers(s, ds, now, Eyes);
    StepTimers(s, ds, now, Seatbelt);
    StepTimers(s, ds, now, Cig);
    StepTimers(s, ds, now, Phone);
  }

  /** The same frame's alert lines: c's line is shown once the count is strictly over the
      threshold, and a count equal to it is still all normal. */
  lemma SustainedAlerts(c: Condition, t0: real, ds: seq<Detection>, k: nat)
    requires forall e :: Active(e, ScoresOf(ds).Get(e)) <==> e == c
    requires k >= 1
    ensures var r := Next(Sustained(c, t0, k - 1), ds, t0 + k as real);
      r.out.alerts == (if k as real > AlertSec(c) then [Message(c)] else []) &&
      r.out.display == (if k as real > AlertSec(c) then Alerting([Message(c)]) else AllNormal)
  {
    var s, now := Sustained(c, t0, k - 1), t0 + k as real;
    SustainedWellFormed(c, t0, k - 1);
    SustainedOwn(c, t0, k - 1);
    LoneCondition(s, ds, now, c);
    assert s.Timer(c) + (now - s.prevTime) == k as real;
  }

  /** The same frame's sound: it starts only on the first frame over the threshold. */
  lemma SustainedSounds(c: Condition, t0: real, ds: seq<Detection>, k: nat)
    requires forall e :: Active(e, ScoresOf(ds).Get(e)) <==> e == c
    requires k >= 1
    ensures Next(Sustained(c, t0, k - 1), ds, t0 + k as real).out.sounds ==
      if k as real > AlertSec(c) >= (k - 1) as real then [c] else []
  {
    var s, now := Sustained(c, t0, k - 1), t0 + k as real;
    SustainedWellFormed(c, t0, k - 1);
    SustainedOwn(c, t0, k - 1);
    LoneCondition(s, ds, now, c);
    assert s.Timer(c) + (now - s.prevTime) == k as real;
  }

  /** In an episode state, c's timer is the frame count and its flag says whether that is over threshold. */
  lemma SustainedOwn(c: Condition, t0: real, k: nat)
    ensures Sustained(c, t0, k).Timer(c) == k as real
    ensures Sustained(c, t0, k).Played(c) == (k as real > AlertSec(c))
    ensures Sustained(c, t0, k).prevTime == t0 + k as real
  {
    match c
    case Eyes =>
    case Seatbelt =>
    case Cig =>
    case Phone =>
  }

  /** Frame k of such an episode, state and output together. */
  lemma SustainedStep(c: Condition, t0: real, ds: seq<Detection>, k: nat)
    requires forall e :: Active(e, ScoresOf(ds).Get(e)) <==> e == c
    requires k >= 1
    ensures var r := Next(Sustained(c, t0, k - 1), ds, t0 + k as real);
      r.session == Sustained(c, t0, k) &&
      r.out.alerts == (if k as real > AlertSec(c) then [Message(c)] else []) &&
      r.out.sounds == (if k as real > AlertSec(c) >= (k - 1) as real then [c] else []) &&
      r.out.display == (if k as real > AlertSec(c) then Alerting([Message(c)]) else AllNormal)
  {
    SustainedSession(c, t0, ds, k);
    SustainedAlerts(c, t0, ds, k);
    SustainedSounds(c, t0, ds, k);
  }

  /** A frame in which nothing is active ends any episode: every timer and flag is cleared,
      nothing is shown or played, and the next episode counts from this frame's time. */
  lemma Recovery(c: Condition, t0: real, k: nat, ds: seq<Detection>, now: real)
    requires forall e :: !Active(e, ScoresOf(ds).Get(e))
    ensures var r := Next(Sustained(c, t0, k), ds, now);
      r.session == Sustained(c, now, 0) && r.out.alerts == [] && r.out.sounds == [] &&
      r.out.display == AllNormal
  {
    var s := Sustained(c, t0, k);
    SustainedWellFormed(c, t0, k);
    FrameLists(s, ds, now);
    var t := Tick(s, ScoresOf(ds), now);
    forall e ensures t.Timer(e) == 0.0 && Next(s, ds, now).session.Timer(e) == 0.0 {
      StepTimers(s, ds, now, e);
    }
    PlayedAfterUnique(Sustained(c, now, 0).alertPlayed, t);
  }

  /** Eyes closed with the seatbelt visible: the drowsiness line from frame 6 on, its sound on frame 6. */
  lemma ScenarioDrowsy(t0: real, eyesName: string, beltName: string, k: nat)
    requires Route(eyesName) == Some(Eyes) && Route(beltName) == Some(Seatbelt)
    requires k >= 1
    ensures var r := Next(Sustained(Eyes, t0, k - 1), Drowsy(eyesName, beltName), t0 + k as real);
      r.session == Sustained(Eyes, t0, k) &&
      r.out.alerts == (if k > 5 then [Message(Eyes)] else []) &&
      r.out.sounds == (if k == 6 then [Eyes] else [])
  {
    DrowsyOnlyEyes(eyesName, beltName);
    SustainedStep(Eyes, t0, Drowsy(eyesName, beltName), k);
  }

  /** A frame with no detections at all counts as no seatbelt: the seatbelt line from frame 6 on,
      its sound on frame 6. */
  lemma ScenarioNothingSeen(t0: real, k: nat)
    requires k >= 1
    ensures var r := Next(Sustained(Seatbelt, t0, k - 1), [], t0 + k as real);
      r.session == Sustained(Seatbelt, t0, k) &&
      r.out.alerts == (if k > 5 then [Message(Seatbelt)] else []) &&
      r.out.sounds == (if k == 6 then [Seatbelt] else [])
  {
    assert ScoresOf([]) == NoScores;
    SustainedStep(Seatbelt, t0, [], k);
  }
}
