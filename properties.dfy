/** What the alert engine guarantees, frame by frame and over runs of frames. */
module AlertProperties {
  import opened Conditions
  import opened Scoring
  import opened AlertEngine

  // ----- Helpers about the list functions -----

  lemma {:induction false} AboveMembers(s: Session, cs: seq<Condition>, c: Condition)
    ensures c in Above(s, cs) <==> c in cs && s.Over(c)
  {
    if cs != [] {
      AboveMembers(s, cs[1..], c);
      assert cs == [cs[0]] + cs[1..];
    }
  }

  lemma {:induction false} UnplayedMembers(s: Session, cs: seq<Condition>, c: Condition)
    ensures c in Unplayed(s, cs) <==> c in cs && !s.Played(c)
  {
    if cs != [] {
      UnplayedMembers(s, cs[1..], c);
      assert cs == [cs[0]] + cs[1..];
    }
  }

  lemma {:induction false} MessagesAt(cs: seq<Condition>)
    ensures |Messages(cs)| == |cs|
    ensures forall i :: 0 <= i < |cs| ==> Messages(cs)[i] == Message(cs[i])
  {
    if cs != [] {
      MessagesAt(cs[1..]);
    }
  }

  /** The ranks of cs strictly increase: cs lists conditions in Order, each at most once. */
  predicate InOrder(cs: seq<Condition>)
  {
    forall i, j :: 0 <= i < j < |cs| ==> Rank(cs[i]) < Rank(cs[j])
  }

  lemma {:induction false} AboveInOrder(s: Session, cs: seq<Condition>)
    requires InOrder(cs)
    ensures InOrder(Above(s, cs))
  {
    if cs != [] {
      AboveInOrder(s, cs[1..]);
      var rest := Above(s, cs[1..]);
      forall c | c in rest ensures Rank(cs[0]) < Rank(c) {
        AboveMembers(s, cs[1..], c);
        var k :| 0 <= k < |cs[1..]| && cs[1..][k] == c;
        assert cs[k + 1] == c;
      }
    }
  }

  // ----- One frame -----

  /** The timer update: all four timers see the same dt = now - prevTime; each grows by it
      while its condition is active and is exactly 0 otherwise; the clock becomes now and
      the run flag is untouched. */
  lemma StepTimers(s: Session, ds: seq<Detection>, now: real, c: Condition)
    ensures Next(s, ds, now).session.prevTime == now
    ensures Next(s, ds, now).session.monitoring == s.monitoring
    ensures Next(s, ds, now).session.Timer(c) ==
      if Active(c, ScoresOf(ds).Get(c)) then s.Timer(c) + (now - s.prevTime) else 0.0
  {
  }

  /** After every frame each alert-played flag is true exactly when its timer is strictly over threshold. */
  lemma StepConsistent(s: Session, ds: seq<Detection>, now: real)
    ensures Consistent(Next(s, ds, now).session)
  {
    var r := Next(s, ds, now).session;
    PlayedAfterComplete(Tick(s, ScoresOf(ds), now));
    forall c ensures r.Played(c) == r.Over(c) {
    }
  }

  /** A condition's line is shown exactly when its timer is strictly over threshold. */
  lemma AlertShownIffOver(s: Session, ds: seq<Detection>, now: real, c: Condition)
    ensures Message(c) in Next(s, ds, now).out.alerts <==> Next(s, ds, now).session.Over(c)
  {
    var r := Next(s, ds, now);
    var raised := Above(Tick(s, ScoresOf(ds), now), Order);
    MessagesAt(raised);
    AboveMembers(Tick(s, ScoresOf(ds), now), Order, c);
    if Message(c) in r.out.alerts {
      var i :| 0 <= i < |r.out.alerts| && r.out.alerts[i] == Message(c);
      MessageInjective(c, raised[i]);
    }
  }

  /** The lines of conditions listed in order come in the same order. */
  lemma MessagesInOrder(cs: seq<Condition>)
    requires InOrder(cs)
    ensures var a := Messages(cs);
      forall i, j, c, d ::
        (0 <= i < |a| && 0 <= j < |a| && a[i] == Message(c) && a[j] == Message(d) && Rank(c) < Rank(d)) ==> i < j
  {
    var a := Messages(cs);
    MessagesAt(cs);
    forall i, j, c, d | 0 <= i < |a| && 0 <= j < |a| && a[i] == Message(c) && a[j] == Message(d) &&
        Rank(c) < Rank(d)
      ensures i < j
    {
      MessageInjective(c, cs[i]);
      MessageInjective(d, cs[j]);
    }
  }

  /** The alert lines come in the fixed order eyes, seatbelt, cig, phone. */
  lemma AlertsInOrder(s: Session, ds: seq<Detection>, now: real)
    ensures var a := Next(s, ds, now).out.alerts;
      forall i, j, c, d ::
        (0 <= i < |a| && 0 <= j < |a| && a[i] == Message(c) && a[j] == Message(d) && Rank(c) < Rank(d)) ==> i < j
  {
    var t := Tick(s, ScoresOf(ds), now);
    assert InOrder(Order);
    AboveInOrder(t, Order);
    assert Next(s, ds, now).out.alerts == Messages(Above(t, Order));
    MessagesInOrder(Above(t, Order));
  }

  /** "All Normal" is shown exactly when there is no alert line, that is, exactly when no
      timer is over threshold; otherwise the display carries the alert lines. */
  lemma DisplayAllNormal(s: Session, ds: seq<Detection>, now: real)
    ensures var r := Next(s, ds, now);
      (r.out.display == AllNormal <==> r.out.alerts == []) &&
      (r.out.alerts == [] <==> forall c :: !r.session.Over(c)) &&
      (r.out.alerts != [] ==> r.out.display == Alerting(r.out.alerts))
  {
    var r := Next(s, ds, now);
    forall c ensures Message(c) in r.out.alerts <==> r.session.Over(c) {
      AlertShownIffOver(s, ds, now, c);
    }
    if r.out.alerts != [] {
      MessagesAt(Above(Tick(s, ScoresOf(ds), now), Order));
      var raised := Above(Tick(s, ScoresOf(ds), now), Order);
      assert r.out.alerts[0] == Message(raised[0]);
      assert r.session.Over(raised[0]);
    }
  }

  /** The alert area shows the "All Normal" text exactly when no alert line is raised;
      otherwise it shows exactly the alert lines. */
  lemma ShownAllNormal(s: Session, ds: seq<Detection>, now: real)
    ensures var out := Next(s, ds, now).out;
      (AllNormalText in Shown(out.display) <==> out.alerts == []) &&
      (out.alerts != [] ==> Shown(out.display) == out.alerts)
  {
    var raised := Above(Tick(s, ScoresOf(ds), now), Order);
    MessagesAt(raised);
  }

  /** The sound starts for c exactly when its timer is over threshold after the update and
      its alarm had not been played before the frame. */
  lemma SoundIffUnplayed(s: Session, ds: seq<Detection>, now: real, c: Condition)
    ensures c in Next(s, ds, now).out.sounds <==> Next(s, ds, now).session.Over(c) && !s.Played(c)
  {
    var t := Tick(s, ScoresOf(ds), now);
    UnplayedMembers(t, Above(t, Order), c);
    AboveMembers(t, Order, c);
  }

  /** When the flags agree with the timers before the frame (as they do after any frame),
      the sound starts for c exactly on the rising edge: at or below threshold before,
      strictly above after. */
  lemma SoundOnRisingEdge(s: Session, ds: seq<Detection>, now: real, c: Condition)
    requires Consistent(s)
    ensures c in Next(s, ds, now).out.sounds <==> !s.Over(c) && Next(s, ds, now).session.Over(c)
  {
    SoundIffUnplayed(s, ds, now, c);
  }

  // ----- Runs of frames -----

  /** No time goes backwards: every frame's clock reading is at least the previous one
      (the session's clock for the first frame), so every dt is non-negative. */
  predicate Chronological(t0: real, frames: seq<Frame>)
  {
    forall i :: 0 <= i < |frames| ==> ClockBefore(t0, frames, i) <= frames[i].now
  }

  /** The clock reading that frame i's dt is measured from. */
  function ClockBefore(t0: real, frames: seq<Frame>, i: nat): real
    requires i < |frames|
  {
    if i == 0 then t0 else frames[i - 1].now
  }

  /** c is active on every frame. */
  predicate ActiveThroughout(frames: seq<Frame>, c: Condition)
  {
    forall i :: 0 <= i < |frames| ==> Active(c, ScoresOf(frames[i].detections).Get(c))
  }

  predicate NonNegative(s: Session)
  {
    forall c :: s.Timer(c) >= 0.0
  }

  lemma RunStep(s: Session, frames: seq<Frame>, i: nat)
    requires i < |frames|
    ensures Run(s, frames[..i + 1]) == Next(Run(s, frames[..i]), frames[i].detections, frames[i].now).session
  {
    assert frames[..i + 1][..i] == frames[..i];
  }

  /** The clock after a run is the last frame's reading, and the run flag does not change. */
  lemma {:induction false} RunClock(s: Session, frames: seq<Frame>)
    ensures Run(s, frames).prevTime == if frames == [] then s.prevTime else Last(frames).now
    ensures Run(s, frames).monitoring == s.monitoring
  {
    if frames != [] {
      RunClock(s, frames[..|frames| - 1]);
    }
  }

  /** Outputs has one entry per frame, the output of that frame's step. */
  lemma {:induction false} OutputAt(s: Session, frames: seq<Frame>, i: nat)
    requires i < |frames|
    ensures |Outputs(s, frames)| == |frames|
    ensures Outputs(s, frames)[i] == Next(Run(s, frames[..i]), frames[i].detections, frames[i].now).out
  {
    var pre := frames[..|frames| - 1];
    if i < |pre| {
      OutputAt(s, pre, i);
      OutputsEarlier(s, frames, i);
    } else {
      assert pre == frames[..i];
    }
  }

  /** Appending a frame leaves the earlier outputs as they were. */
  lemma OutputsEarlier(s: Session, frames: seq<Frame>, i: nat)
    requires i < |frames| - 1
    requires |Outputs(s, frames[..|frames| - 1])| == |frames| - 1
    ensures Outputs(s, frames)[i] == Outputs(s, frames[..|frames| - 1])[i]
    ensures frames[..|frames| - 1][..i] == frames[..i] && frames[..|frames| - 1][i] == frames[i]
  {
  }

  /** The frames the capture loop processes are the grabbed frames before the first failed grab. */
  lemma {:induction false} TakenIsPrefix(captures: seq<Capture>)
    ensures forall i :: 0 <= i < |Taken(captures)| ==> captures[i] == Grabbed(Taken(captures)[i])
    ensures |Taken(captures)| < |captures| ==> captures[|Taken(captures)|].Failed?
  {
    if captures != [] && captures[0].Grabbed? {
      TakenIsPrefix(captures[1..]);
    }
  }

  /** After any non-empty run the flags agree with the timers. */
  lemma RunConsistent(s: Session, frames: seq<Frame>)
    requires frames != []
    ensures Consistent(Run(s, frames))
  {
    StepConsistent(Run(s, frames[..|frames| - 1]), Last(frames).detections, Last(frames).now);
  }

  /** With non-negative dt on every frame, timers that start non-negative stay non-negative. */
  lemma {:induction false} TimersStayNonNegative(s: Session, frames: seq<Frame>)
    requires NonNegative(s)
    requires Chronological(s.prevTime, frames)
    ensures NonNegative(Run(s, frames))
  {
    if frames != [] {
      var pre := frames[..|frames| - 1];
      assert Chronological(s.prevTime, pre) by {
        forall i | 0 <= i < |pre| ensures ClockBefore(s.prevTime, pre, i) <= pre[i].now {
          assert pre[i] == frames[i];
          assert ClockBefore(s.prevTime, pre, i) == ClockBefore(s.prevTime, frames, i);
        }
      }
      TimersStayNonNegative(s, pre);
      RunClock(s, pre);
      var r := Run(s, pre);
      var n := |frames|;
      assert r.prevTime <= Last(frames).now by {
        assert ClockBefore(s.prevTime, frames, n - 1) <= frames[n - 1].now;
        if n > 1 {
          assert Last(pre) == frames[n - 2];
        }
      }
      forall c ensures Run(s, frames).Timer(c) >= 0.0 {
        assert r.Timer(c) >= 0.0;
        StepTimers(r, Last(frames).detections, Last(frames).now, c);
      }
    }
  }

  /** Over a run on which c stays active, its timer grows by exactly the elapsed clock time. */
  lemma {:induction false} ElapsedWhileActive(s: Session, frames: seq<Frame>, c: Condition)
    requires frames != []
    requires ActiveThroughout(frames, c)
    ensures Run(s, frames).Timer(c) == s.Timer(c) + (Last(frames).now - s.prevTime)
  {
    var n := |frames|;
    var pre := frames[..n - 1];
    var r := Run(s, pre);
    StepTimers(r, Last(frames).detections, Last(frames).now, c);
    if n > 1 {
      assert ActiveThroughout(pre, c) by {
        forall i | 0 <= i < |pre| ensures Active(c, ScoresOf(pre[i].detections).Get(c)) {
          assert pre[i] == frames[i];
        }
      }
      ElapsedWhileActive(s, pre, c);
      RunClock(s, pre);
    }
  }

  /** One frame of a run on which c is active and dt is non-negative does not lower c's timer. */
  lemma ActiveFrameNonDecreasing(s: Session, frames: seq<Frame>, c: Condition, k: nat)
    requires ActiveThroughout(frames, c)
    requires Chronological(s.prevTime, frames)
    requires k < |frames|
    ensures Run(s, frames[..k]).Timer(c) <= Run(s, frames[..k + 1]).Timer(c)
  {
    RunStep(s, frames, k);
    var r := Run(s, frames[..k]);
    StepTimers(r, frames[k].detections, frames[k].now, c);
    RunClock(s, frames[..k]);
    assert ClockBefore(s.prevTime, frames, k) <= frames[k].now;
    if k > 0 {
      assert Last(frames[..k]) == frames[k - 1];
    }
    assert r.prevTime <= frames[k].now;
  }

  /** With non-negative dt, a timer never decreases across consecutive frames on which its condition holds. */
  lemma {:induction false} NonDecreasingWhileActive(s: Session, frames: seq<Frame>, c: Condition, j: nat, k: nat)
    requires ActiveThroughout(frames, c)
    requires Chronological(s.prevTime, frames)
    requires j <= k <= |frames|
    ensures Run(s, frames[..j]).Timer(c) <= Run(s, frames[..k]).Timer(c)
    decreases k - j
  {
    if j < k {
      NonDecreasingWhileActive(s, frames, c, j, k - 1);
      ActiveFrameNonDecreasing(s, frames, c, k - 1);
    }
  }

  /** Over a run on which c's timer stays strictly over threshold after every frame, the sound for
      c can start only on the first frame, and does so exactly when its alarm had not been played;
      with flags that agree with the timers, that is exactly when the run began at or below threshold. */
  lemma SoundOncePerEpisode(s: Session, frames: seq<Frame>, c: Condition)
    requires forall k :: 1 <= k <= |frames| ==> Run(s, frames[..k]).Over(c)
    ensures |Outputs(s, frames)| == |frames|
    ensures forall i :: 1 <= i < |frames| ==> c !in Outputs(s, frames)[i].sounds
    ensures frames != [] ==> (c in Outputs(s, frames)[0].sounds <==> !s.Played(c))
    ensures frames != [] && Consistent(s) ==> (c in Outputs(s, frames)[0].sounds <==> !s.Over(c))
  {
    forall i | 1 <= i < |frames| ensures c !in Outputs(s, frames)[i].sounds {
      OutputAt(s, frames, i);
      var r := Run(s, frames[..i]);
      RunConsistent(s, frames[..i]);
      assert r.Over(c);
      SoundIffUnplayed(r, frames[i].detections, frames[i].now, c);
    }
    if frames != [] {
      OutputAt(s, frames, 0);
      assert frames[..0] == [];
      RunStep(s, frames, 0);
      SoundIffUnplayed(s, frames[0].detections, frames[0].now, c);
      assert Run(s, frames[..1]).Over(c);
    }
  }

  /** Frames on which no condition is active raise no alert line and no sound, show "All Normal"
      and leave every timer at 0. */
  lemma QuietWhenInactive(s: Session, frames: seq<Frame>)
    requires forall i, c :: 0 <= i < |frames| ==> !Active(c, ScoresOf(frames[i].detections).Get(c))
    ensures |Outputs(s, frames)| == |frames|
    ensures forall i :: 0 <= i < |frames| ==>
      Outputs(s, frames)[i].alerts == [] && Outputs(s, frames)[i].sounds == [] &&
      Outputs(s, frames)[i].display == AllNormal
    ensures frames != [] ==> forall c :: Run(s, frames).Timer(c) == 0.0
  {
    forall i | 0 <= i < |frames|
      ensures Outputs(s, frames)[i].alerts == [] && Outputs(s, frames)[i].sounds == [] &&
        Outputs(s, frames)[i].display == AllNormal
    {
      OutputAt(s, frames, i);
      var r := Run(s, frames[..i]);
      var f := frames[i];
      forall c ensures !Next(r, f.detections, f.now).session.Over(c) {
        StepTimers(r, f.detections, f.now, c);
      }
      DisplayAllNormal(r, f.detections, f.now);
      forall c ensures c !in Next(r, f.detections, f.now).out.sounds {
        SoundIffUnplayed(r, f.detections, f.now, c);
      }
    }
    if frames != [] {
      OutputAt(s, frames, 0);
      forall c ensures Run(s, frames).Timer(c) == 0.0 {
        StepTimers(Run(s, frames[..|frames| - 1]), Last(frames).detections, Last(frames).now, c);
      }
    }
  }

  // ----- Start and stop -----

  /** The button only flips the run flag: timers, flags and the clock survive a stop. */
  lemma ToggleKeepsEngineState(s: Session, c: Condition)
    ensures Toggled(s).monitoring == !s.monitoring
    ensures Toggled(s).Timer(c) == s.Timer(c) && Toggled(s).Played(c) == s.Played(c)
    ensures Toggled(s).prevTime == s.prevTime
    ensures Toggled(Toggled(s)) == s
  {
  }

  /** Because nothing is reset on stop, the first frame after a stop and a restart measures dt from
      the last frame before the stop: an active timer grows by the whole pause. */
  lemma RestartCountsPause(s: Session, ds: seq<Detection>, now: real, c: Condition)
    requires Active(c, ScoresOf(ds).Get(c))
    ensures Next(Toggled(Toggled(s)), ds, now).session.Timer(c) == s.Timer(c) + (now - s.prevTime)
  {
  }
}
