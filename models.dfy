/**
 * The records of the phishing simulation: campaigns, their per-user targets with
 * five nullable funnel timestamps, and remediation assignments.
 */
module Models {
  import opened Wrappers

  /** An instant as returned by `datetime.utcnow()`, abstracted to an integer. */
  type Time = int

  /** A phishing campaign. Its id is its position in the store. */
  datatype Campaign = Campaign(
    name: string,
    templateId: int,
    scheduledTime: Option<Time>,
    launched: bool)

  /**
   * The tracked relation between one campaign and one user. The campaign and
   * user references are not nullable; every timestamp is. A tracking key "" stands
   * for a row that has no key (one created before the key column existed).
   */
  datatype Target = Target(
    campaignId: nat,
    userId: int,
    emailSent: Option<Time>,
    emailOpened: Option<Time>,
    linkClicked: Option<Time>,
    dataSubmitted: Option<Time>,
    reportedPhish: Option<Time>,
    trackingKey: string)

  /** A corrective-training enrollment; open while `completed` is false. */
  datatype RemediationAssignment = RemediationAssignment(
    userId: int,
    reason: string,
    assignedAt: Time,
    completed: bool)

  /** The five funnel events, one per timestamp column of a target. */
  datatype Event = Sent | Opened | Clicked | Submitted | Reported

  /** A target as the ORM constructs it: no timestamp set, the given fresh key. */
  function NewTarget(campaignId: nat, userId: int, key: string): Target
  {
    Target(campaignId, userId, None, None, None, None, None, key)
  }

  /** A campaign as the ORM constructs it: `launched` defaults to false. */
  function NewCampaign(name: string, templateId: int, scheduledTime: Option<Time>): Campaign
  {
    Campaign(name, templateId, scheduledTime, false)
  }

  /** An assignment as the ORM constructs it: stamped now and not completed. */
  function NewAssignment(userId: int, reason: string, now: Time): RemediationAssignment
  {
    RemediationAssignment(userId, reason, now, false)
  }

  /** The timestamp column of `t` that records event `e`. */
  function Stamp(t: Target, e: Event): Option<Time>
  {
    match e
    case Sent => t.emailSent
    case Opened => t.emailOpened
    case Clicked => t.linkClicked
    case Submitted => t.dataSubmitted
    case Reported => t.reportedPhish
  }

  /** Assigns one timestamp column; nothing else of the target changes. */
  function WithStamp(t: Target, e: Event, v: Option<Time>): (r: Target)
    ensures Stamp(r, e) == v
    ensures forall e' :: e' != e ==> Stamp(r, e') == Stamp(t, e')
    ensures r.campaignId == t.campaignId && r.userId == t.userId && r.trackingKey == t.trackingKey
  {
    match e
    case Sent => t.(emailSent := v)
    case Opened => t.(emailOpened := v)
    case Clicked => t.(linkClicked := v)
    case Submitted => t.(dataSubmitted := v)
    case Reported => t.(reportedPhish := v)
  }

  /** `if not t.<column>: t.<column> = now`: the first occurrence of an event wins. */
  function RecordFirst(t: Target, e: Event, now: Time): (r: Target)
    ensures Stamp(r, e).Some?
    ensures Stamp(t, e).Some? ==> r == t
  {
    if Stamp(t, e).None? then WithStamp(t, e, Some(now)) else t
  }

  /** `t.<column> = now` unconditionally. */
  function Overwrite(t: Target, e: Event, now: Time): (r: Target)
    ensures Stamp(r, e) == Some(now)
    ensures forall e' :: e' != e ==> Stamp(r, e') == Stamp(t, e')
  {
    WithStamp(t, e, Some(now))
  }

  /** Recording an event sets that column once; a set column keeps its first value. */
  lemma RecordFirstWins(t: Target, e: Event, now: Time)
    ensures Stamp(RecordFirst(t, e, now), e) == if Stamp(t, e).Some? then Stamp(t, e) else Some(now)
    ensures forall e' :: e' != e ==> Stamp(RecordFirst(t, e, now), e') == Stamp(t, e')
    ensures RecordFirst(t, e, now).userId == t.userId && RecordFirst(t, e, now).campaignId == t.campaignId
    ensures RecordFirst(t, e, now).trackingKey == t.trackingKey
  {
  }

  /** Recording the same event again, at any later instant, is a no-op. */
  lemma RecordFirstIdempotent(t: Target, e: Event, now: Time, later: Time)
    ensures RecordFirst(RecordFirst(t, e, now), e, later) == RecordFirst(t, e, now)
  {
  }

  /** A column that is set stays as it is whatever event is recorded next. */
  lemma RecordFirstMonotone(t: Target, e: Event, e': Event, now: Time)
    requires Stamp(t, e).Some?
    ensures Stamp(RecordFirst(t, e', now), e) == Stamp(t, e)
  {
  }
}
