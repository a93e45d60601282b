/** The four monitored risk conditions and the fixed constants that govern them. */
module Conditions {

  datatype Condition = Eyes | Seatbelt | Cig | Phone

  /** The order in which the alert block examines the conditions. */
  const Order: seq<Condition> := [Eyes, Seatbelt, Cig, Phone]

  const AllConditions: set<Condition> := {Eyes, Seatbelt, Cig, Phone}

  // Confidence floors and persistence thresholds (seconds).
  const ClosedEyeThreshold: real := 0.1
  const PhoneThreshold: real := 0.1
  const EyeAlertSec: real := 5.0
  const SeatbeltAlertSec: real := 5.0
  const CigAlertSec: real := 3.0
  const PhoneAlertSec: real := 3.0

  /** Position of a condition in Order. */
  function Rank(c: Condition): (r: nat)
    ensures r < |Order| && Order[r] == c
  {
    match c
    case Eyes => 0
    case Seatbelt => 1
    case Cig => 2
    case Phone => 3
  }

  /** The lower-case label fragment that routes a detection to a condition. */
  function Keyword(c: Condition): string
  {
    match c
    case Eyes => "closed eyes"
    case Seatbelt => "seatbelt"
    case Cig => "cigarette"
    case Phone => "phone"
  }

  /** Whether a frame's score counts as the condition being present.
      The seatbelt comparison is reversed: a low seatbelt score means no belt was seen. */
  predicate Active(c: Condition, score: real)
    ensures score == 0.0 ==> (Active(c, score) <==> c == Seatbelt)
  {
    match c
    case Eyes => score > ClosedEyeThreshold
    case Seatbelt => score < 0.5
    case Cig => score > 0.5
    case Phone => score > PhoneThreshold
  }

  /** Seconds a condition must stay active before it alerts. */
  function AlertSec(c: Condition): (r: real)
    ensures r > 0.0
  {
    match c
    case Eyes => EyeAlertSec
    case Seatbelt => SeatbeltAlertSec
    case Cig => CigAlertSec
    case Phone => PhoneAlertSec
  }

  /** The text shown when no condition is over its threshold. */
  const AllNormalText: string := "\U{2705} All Normal"

  /** The alert line shown while a condition is over its threshold. */
  function Message(c: Condition): (r: string)
    ensures r != [] && r != AllNormalText
  {
    match c
    case Eyes => "\U{1F634} Drowsy Driver Detected!"
    case Seatbelt => "\U{26A0}\U{FE0F} Seatbelt Not Detected!"
    case Cig => "\U{1F6AC} Smoking Detected!"
    case Phone => "\U{1F4F1} Phone Usage Detected!"
  }

  lemma MessageInjective(c: Condition, d: Condition)
    ensures Message(c) == Message(d) <==> c == d
  {
    assert Message(c)[0] == Message(d)[0] ==> c == d;
  }
}
