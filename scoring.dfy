/** The condition scorer: folds one frame's detections into a score per condition. */
module Scoring {
  import opened Conditions

  datatype Option<T> = None | Some(value: T)

  /** One detection reported by the model: the class name and its confidence. */
  datatype Detection = Detection(name: string, conf: real)

  /** The four per-frame scores, keyed like the scores dictionary of app.py. */
  datatype Scores = Scores(eyes: real, seatbelt: real, cig: real, phone: real)
  {
    function Get(c: Condition): real
    {
      match c
      case Eyes => eyes
      case Seatbelt => seatbelt
      case Cig => cig
      case Phone => phone
    }
  }

  const NoScores: Scores := Scores(0.0, 0.0, 0.0, 0.0)

  function LowerChar(ch: char): char
  {
    if 'A' <= ch <= 'Z' then (ch as int + 32) as char else ch
  }

  /** Lower-casing of a class name (ASCII letters only). */
  function Lower(s: string): (r: string)
    ensures |r| == |s|
    ensures forall i :: 0 <= i < |s| ==> r[i] == LowerChar(s[i])
  {
    if s == [] then [] else [LowerChar(s[0])] + Lower(s[1..])
  }

  /** pat occurs in s starting at position i. */
  predicate OccursAt(s: string, pat: string, i: int)
  {
    0 <= i && i + |pat| <= |s| && s[i..i + |pat|] == pat
  }

  /** Substring containment, the `pat in s` test on strings. */
  function Contains(s: string, pat: string): (r: bool)
    ensures r <==> exists i :: OccursAt(s, pat, i)
    decreases |s|
  {
    if |pat| <= |s| && s[..|pat|] == pat then
      assert OccursAt(s, pat, 0);
      true
    else if |s| == 0 then
      false
    else
      var r := Contains(s[1..], pat);
      assert r <==> exists i :: OccursAt(s, pat, i) by {
        forall j | 0 <= j
          ensures OccursAt(s[1..], pat, j) <==> OccursAt(s, pat, j + 1)
        {
          if j + |pat| <= |s| - 1 {
            assert s[1..][j..j + |pat|] == s[j + 1..j + 1 + |pat|];
          }
        }
        if i :| OccursAt(s, pat, i) {
          assert i != 0;
          assert OccursAt(s[1..], pat, i - 1);
        }
      }
      r
  }

  /** The bucket a detection feeds: the first keyword, in Order, that its lower-cased form contains. */
  function Route(className: string): (r: Option<Condition>)
    ensures r.Some? ==> Contains(Lower(className), Keyword(r.value))
  {
    var name := Lower(className);
    if Contains(name, "closed eyes") then Some(Eyes)
    else if Contains(name, "seatbelt") then Some(Seatbelt)
    else if Contains(name, "cigarette") then Some(Cig)
    else if Contains(name, "phone") then Some(Phone)
    else None
  }

  function Max(a: real, b: real): real
  {
    if a >= b then a else b
  }

  /** The score of condition c after the detections ds, starting from 0.0. */
  function BestOf(ds: seq<Detection>, c: Condition): real
  {
    if ds == [] then 0.0
    else
      var d := ds[|ds| - 1];
      var prior := BestOf(ds[..|ds| - 1], c);
      if Route(d.name) == Some(c) then Max(prior, d.conf) else prior
  }

  function ScoresOf(ds: seq<Detection>): Scores
  {
    Scores(BestOf(ds, Eyes), BestOf(ds, Seatbelt), BestOf(ds, Cig), BestOf(ds, Phone))
  }

  /** The scoring loop over one frame's detections. */
  method ComputeScores(detections: seq<Detection>) returns (scores: Scores)
    ensures scores == ScoresOf(detections)
    ensures forall c :: scores.Get(c) == BestOf(detections, c)
  {
    scores := NoScores;
    for i := 0 to |detections|
      invariant scores == ScoresOf(detections[..i])
    {
      var d := detections[i];
      assert detections[..i + 1][..i] == detections[..i];
      var name := Lower(d.name);
      if Contains(name, "closed eyes") {
        scores := scores.(eyes := Max(scores.eyes, d.conf));
      } else if Contains(name, "seatbelt") {
        scores := scores.(seatbelt := Max(scores.seatbelt, d.conf));
      } else if Contains(name, "cigarette") {
        scores := scores.(cig := Max(scores.cig, d.conf));
      } else if Contains(name, "phone") {
        scores := scores.(phone := Max(scores.phone, d.conf));
      }
    }
    assert detections[..|detections|] == detections;
  }

  /** Route picks the first keyword in Order that the lower-cased class name contains, and
      no bucket when none matches. */
  lemma RouteIsFirstMatch(className: string, c: Condition)
    ensures Route(className) == Some(c) <==>
      Contains(Lower(className), Keyword(c)) &&
      forall e :: Rank(e) < Rank(c) ==> !Contains(Lower(className), Keyword(e))
    ensures Route(className) == None <==> forall e :: !Contains(Lower(className), Keyword(e))
  {
    var name := Lower(className);
    match Route(className)
    case None =>
      forall e ensures !Contains(name, Keyword(e)) {
        match e
        case Eyes =>
        case Seatbelt =>
        case Cig =>
        case Phone =>
      }
    case Some(d) =>
      assert Contains(name, Keyword(d));
  }

  /** A score is the maximum confidence routed to its bucket, floored at 0.0:
      it bounds every routed confidence and is either 0.0 or one of them. */
  lemma {:induction false} BestOfIsMax(ds: seq<Detection>, c: Condition)
    ensures BestOf(ds, c) >= 0.0
    ensures forall i :: 0 <= i < |ds| && Route(ds[i].name) == Some(c) ==> ds[i].conf <= BestOf(ds, c)
    ensures BestOf(ds, c) == 0.0 ||
      exists i :: 0 <= i < |ds| && Route(ds[i].name) == Some(c) && ds[i].conf == BestOf(ds, c)
  {
    if ds != [] {
      var pre := ds[..|ds| - 1];
      BestOfIsMax(pre, c);
      assert forall i :: 0 <= i < |pre| ==> pre[i] == ds[i];
    }
  }

  /** With no detection routed to c, its score is 0.0; with one, and all confidences
      non-negative, the score is exactly the largest routed confidence. */
  lemma BestOfNoneRouted(ds: seq<Detection>, c: Condition)
    requires forall i :: 0 <= i < |ds| ==> Route(ds[i].name) != Some(c)
    ensures BestOf(ds, c) == 0.0
  {
    BestOfIsMax(ds, c);
  }

  lemma BestOfSomeRouted(ds: seq<Detection>, c: Condition, k: nat)
    requires k < |ds| && Route(ds[k].name) == Some(c)
    requires forall i :: 0 <= i < |ds| ==> ds[i].conf >= 0.0
    ensures exists i :: 0 <= i < |ds| && Route(ds[i].name) == Some(c) && ds[i].conf == BestOf(ds, c)
    ensures forall i :: 0 <= i < |ds| && Route(ds[i].name) == Some(c) ==> ds[i].conf <= BestOf(ds, c)
  {
    BestOfIsMax(ds, c);
    if BestOf(ds, c) == 0.0 {
      assert ds[k].conf == 0.0;
    }
  }

  /** A detection feeds at most one score: appending it leaves every other bucket as it was. */
  lemma FeedsOneScore(ds: seq<Detection>, d: Detection, c: Condition)
    requires Route(d.name) != Some(c)
    ensures BestOf(ds + [d], c) == BestOf(ds, c)
  {
    assert (ds + [d])[..|ds|] == ds;
  }
}
