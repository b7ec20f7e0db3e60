/** The session status and the badge that shows it. */
module Status {
  datatype Status = Idle | Generating | Ready | Refining | Committing | Packaging

  /** A request to the agent gateway is in flight. */
  predicate IsBusy(s: Status)
  {
    s in {Generating, Refining, Committing, Packaging}
  }

  datatype Badge = Badge(caption: string, pulse: bool)

  /** The `StatusBadge` table: a label per status; the badge pulses exactly while a request is in flight. */
  function BadgeOf(s: Status): (b: Badge)
    ensures b.caption != ""
    ensures b.pulse <==> IsBusy(s)
  {
    match s
    case Idle => Badge("Idle", false)
    case Generating => Badge("Generating", true)
    case Ready => Badge("Ready", false)
    case Refining => Badge("Refining", true)
    case Committing => Badge("Committing", true)
    case Packaging => Badge("Packaging", true)
  }

  /** Different statuses get different labels. */
  lemma BadgeLabelsDistinct(s: Status, t: Status)
    ensures BadgeOf(s).caption == BadgeOf(t).caption <==> s == t
  {
    var a, b := BadgeOf(s).caption, BadgeOf(t).caption;
    if s != t {
      assert a[0] != b[0] || a[1] != b[1] || |a| != |b|;
    }
  }
}
