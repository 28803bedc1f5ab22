/** The colour bucket `StatusBadge` picks for a status string. */
module UIComponents {
  import opened Text

  datatype Colour = Blue | Green | Red | Orange | Gray

  const BlueStatuses: seq<string> := ["new", "prospecting", "open"]
  const GreenStatuses: seq<string> := ["qualified", "closed won", "completed", "active"]
  const RedStatuses: seq<string> := ["lost", "disqualified"]
  const OrangeStatuses: seq<string> := ["negotiation", "proposal"]

  /** The if/else chain over the lower-cased status, gray when no list holds
      it. Because the lists are disjoint, each bucket is chosen exactly when
      its own list holds the status, whatever the order of the tests. */
  function Bucket(s: string): (c: Colour)
    ensures c == Blue <==> s in BlueStatuses
    ensures c == Green <==> s in GreenStatuses
    ensures c == Red <==> s in RedStatuses
    ensures c == Orange <==> s in OrangeStatuses
    ensures c == Gray <==> s !in BlueStatuses + GreenStatuses + RedStatuses + OrangeStatuses
  {
    if s in BlueStatuses then Blue
    else if s in GreenStatuses then Green
    else if s in RedStatuses then Red
    else if s in OrangeStatuses then Orange
    else Gray
  }

  /** `StatusBadge`'s colour: the bucket of `status.toLowerCase()`. */
  function BadgeColour(status: string): Colour
  {
    Bucket(Lower(status))
  }

  /** The Tailwind classes each bucket stands for. */
  function ColourClass(c: Colour): string
  {
    match c
    case Blue => "bg-blue-100 text-blue-800"
    case Green => "bg-green-100 text-green-800"
    case Red => "bg-red-100 text-red-800"
    case Orange => "bg-orange-100 text-orange-800"
    case Gray => "bg-gray-100 text-gray-700"
  }

  /** No status belongs to two lists. */
  lemma StatusListsDisjoint()
    ensures forall s :: s in BlueStatuses ==> s !in GreenStatuses && s !in RedStatuses && s !in OrangeStatuses
    ensures forall s :: s in GreenStatuses ==> s !in RedStatuses && s !in OrangeStatuses
    ensures forall s :: s in RedStatuses ==> s !in OrangeStatuses
  {
  }

  /** The colour depends only on the lower-cased status. */
  lemma BadgeColourIgnoresCase(a: string, b: string)
    requires Lower(a) == Lower(b)
    ensures BadgeColour(a) == BadgeColour(b)
  {
  }

  /** Lower-casing a status first does not change its colour. */
  lemma BadgeColourOfLower(s: string)
    ensures BadgeColour(Lower(s)) == BadgeColour(s)
  {
    LowerIdempotent(s);
  }

  /** The colours of the lead statuses. */
  lemma LeadStatusColour(status: string)
    ensures status == "New" ==> BadgeColour(status) == Blue
    ensures status == "Contacted" ==> BadgeColour(status) == Gray
    ensures status == "Qualified" ==> BadgeColour(status) == Green
    ensures status == "Disqualified" ==> BadgeColour(status) == Red
  {
    if status == "New" {
      LowerOf(status, "new");
    } else if status == "Contacted" {
      LowerOf(status, "contacted");
    } else if status == "Qualified" {
      LowerOf(status, "qualified");
    } else if status == "Disqualified" {
      LowerOf(status, "disqualified");
    }
  }

  /** The colours of the opportunity stages: "Closed Lost" is in no list and
      falls to gray. */
  lemma StageColour(stage: string)
    ensures stage == "Prospecting" ==> BadgeColour(stage) == Blue
    ensures stage == "Proposal" ==> BadgeColour(stage) == Orange
    ensures stage == "Negotiation" ==> BadgeColour(stage) == Orange
    ensures stage == "Closed Won" ==> BadgeColour(stage) == Green
    ensures stage == "Closed Lost" ==> BadgeColour(stage) == Gray
  {
    if stage == "Prospecting" {
      LowerOf(stage, "prospecting");
    } else if stage == "Proposal" {
      LowerOf(stage, "proposal");
    } else if stage == "Negotiation" {
      LowerOf(stage, "negotiation");
    } else if stage == "Closed Won" {
      LowerOf(stage, "closed won");
    } else if stage == "Closed Lost" {
      LowerOf(stage, "closed lost");
    }
  }

  /** The colours of the two activity states. */
  lemma ActivityStatusColour(status: string)
    ensures status == "Open" ==> BadgeColour(status) == Blue
    ensures status == "Completed" ==> BadgeColour(status) == Green
  {
    if status == "Open" {
      LowerOf(status, "open");
    } else if status == "Completed" {
      LowerOf(status, "completed");
    }
  }
}
