/**
 * The persistent store behind the phishing routes (the database session) and
 * the handlers that change it in place. Each handler is proved to perform the
 * transition that module PhishingLedger defines, and to keep the store's
 * invariant.
 */
module PhishingStore {
  import opened Wrappers
  import opened Models
  import opened PhishingLedger

  /** The rows of the store: campaigns, targets, remediation assignments, sent mail. */
  class Store {
    var campaigns: seq<Campaign>
    var targets: seq<Target>
    var remediations: seq<RemediationAssignment>
    /** The messages handed to the mail sender, in the order they were sent. */
    var outbox: seq<Email>

    /**
     * Tracking keys are unique, every target refers to an existing campaign and
     * no user has two open remediation assignments.
     */
    ghost predicate Valid()
      reads this
    {
      && KeysUnique(targets)
      && AtMostOneOpen(remediations)
      && forall i :: 0 <= i < |targets| ==> targets[i].campaignId < |campaigns|
    }

    constructor ()
      ensures Valid()
      ensures campaigns == [] && targets == [] && remediations == [] && outbox == []
    {
      campaigns, targets, remediations, outbox := [], [], [], [];
    }

    /**
     * The open pixel: stamps `email_opened` the first time a known key is
     * fetched, and answers the same GIF whatever the key.
     */
    method Pixel(key: string, now: Time) returns (body: seq<bv8>)
      requires Valid()
      modifies this
      ensures Valid()
      ensures body == TransparentGif
      ensures targets == PhishingLedger.Pixel(old(targets), key, now)
      ensures campaigns == old(campaigns) && remediations == old(remediations) && outbox == old(outbox)
    {
      var found := FindByKey(targets, key);
      if found.Some? {
        var i := found.value;
        if targets[i].emailOpened.None? {
          targets := targets[i := targets[i].(emailOpened := Some(now))];
        }
      }
      PixelEffect(old(targets), key, now);
      body := TransparentGif;
    }

    /** The landing page (the second definition of the handler), as written. */
    method Landing(key: string, req: Request, now: Time) returns (resp: Response)
      requires Valid()
      modifies this
      ensures Valid()
      ensures (targets, resp) == PhishingLedger.Landing(old(targets), key, req, now)
      ensures campaigns == old(campaigns) && remediations == old(remediations) && outbox == old(outbox)
    {
      var found := FindByKey(targets, key);
      if found.None? {
        return NotFound;
      }
      var i := found.value;
      ghost var clicked := RecordFirst(old(targets)[i], Clicked, now);
      if targets[i].linkClicked.None? {
        targets := targets[i := targets[i].(linkClicked := Some(now))];
      }
      assert targets == old(targets)[i := clicked];
      if IsReport(req) {
        targets := targets[i := targets[i].(reportedPhish := Some(now))];
        assert targets == old(targets)[i := Overwrite(clicked, Reported, now)];
        resp := ThankYou(ReportMessage);
      } else if req.Post? {
        targets := targets[i := targets[i].(dataSubmitted := Some(now))];
        assert targets == old(targets)[i := Overwrite(clicked, Submitted, now)];
        resp := ThankYou(SubmitMessage);
      } else {
        resp := LandingPage(i);
      }
    }

    /** `assign_remediation`: insert an open assignment unless the user has one. */
    method AssignRemediation(user: int, reason: string, now: Time)
      requires Valid()
      modifies this
      ensures Valid()
      ensures remediations == Assign(old(remediations), user, reason, now)
      ensures campaigns == old(campaigns) && targets == old(targets) && outbox == old(outbox)
    {
      if !HasOpen(remediations, user) {
        remediations := remediations + [NewAssignment(user, reason, now)];
      }
      AssignPreservesAtMostOneOpen(old(remediations), user, reason, now);
    }

    /**
     * The guarded click or submit block: each stamp is set only when unset,
     * and each such transition assigns remediation to the target's user.
     * Returns whether the key named a target.
     */
    method ClickOrSubmit(key: string, isPost: bool, now: Time) returns (found: bool)
      requires Valid()
      modifies this
      ensures Valid()
      ensures found == FindByKey(old(targets), key).Some?
      ensures (targets, remediations) == GuardedClickOrSubmit(old(targets), old(remediations), key, isPost, now)
      ensures campaigns == old(campaigns) && outbox == old(outbox)
    {
      var r := FindByKey(targets, key);
      found := r.Some?;
      if !found {
        return;
      }
      var i := r.value;
      ghost var t := old(targets)[i];
      if targets[i].linkClicked.None? {
        targets := targets[i := targets[i].(linkClicked := Some(now))];
        AssignRemediation(targets[i].userId, ClickReason, now);
      }
      ghost var t1 := if t.linkClicked.None? then WithStamp(t, Clicked, Some(now)) else t;
      assert targets == old(targets)[i := t1];
      if isPost && targets[i].dataSubmitted.None? {
        targets := targets[i := targets[i].(dataSubmitted := Some(now))];
        assert targets == old(targets)[i := WithStamp(t1, Submitted, Some(now))];
        AssignRemediation(targets[i].userId, SubmitReason, now);
      }
    }

    /**
     * Campaign creation: a new unlaunched campaign and one target per selected
     * user id, each with a fresh key. Returns the new campaign's id.
     */
    method AddCampaign(name: string, templateId: int, launchTime: Time, users: seq<int>, tokens: seq<string>)
      returns (cid: nat)
      requires Valid() && |tokens| >= |users| && FreshTokens(tokens, targets)
      modifies this
      ensures Valid()
      ensures cid == |old(campaigns)|
      ensures campaigns == old(campaigns) + [Campaign(name, templateId, Some(launchTime), false)]
      ensures targets == old(targets) + NewTargets(cid, users, tokens)
      ensures remediations == old(remediations) && outbox == old(outbox)
    {
      campaigns := campaigns + [NewCampaign(name, templateId, Some(launchTime))];
      cid := |campaigns| - 1;
      var k := 0;
      while k < |users|
        invariant 0 <= k <= |users|
        invariant campaigns == old(campaigns) + [Campaign(name, templateId, Some(launchTime), false)]
        invariant targets == old(targets) + NewTargets(cid, users, tokens)[..k]
        invariant remediations == old(remediations) && outbox == old(outbox)
      {
        targets := targets + [NewTarget(cid, users[k], tokens[k])];
        k := k + 1;
      }
      assert NewTargets(cid, users, tokens)[..k] == NewTargets(cid, users, tokens);
      NewTargetsEffect(old(targets), cid, users, tokens);
    }

    /**
     * Campaign launch: an unknown id is a 404; otherwise every target of the
     * campaign gets a key if it lacks one, one message is sent for it and its
     * `email_sent` is stamped, and the campaign is marked launched. Whether it
     * was launched before is not checked.
     */
    method LaunchCampaign(cid: nat, now: Time, tokens: seq<string>) returns (found: bool)
      requires Valid() && |tokens| >= |targets| && FreshTokens(tokens, targets)
      modifies this
      ensures Valid()
      ensures found == (cid < |old(campaigns)|)
      ensures !found ==>
        campaigns == old(campaigns) && targets == old(targets) && outbox == old(outbox)
      ensures found ==>
        && targets == Launch(old(targets), cid, now, tokens)
        && campaigns == old(campaigns)[cid := old(campaigns)[cid].(launched := true)]
        && outbox == old(outbox) + Mailings(targets, cid, old(campaigns)[cid].templateId)
      ensures remediations == old(remediations)
    {
      found := cid < |campaigns|;
      if !found {
        return;
      }
      var templateId := campaigns[cid].templateId;
      var rows, sent := LaunchRows(targets, cid, now, tokens, templateId);
      // The session commit: the changed rows, the sent mail and the launched flag.
      targets, outbox := rows, outbox + sent;
      campaigns := campaigns[cid := campaigns[cid].(launched := true)];
      LaunchEffect(old(targets), cid, now, tokens);
    }
  }

  /**
   * The loop of the launch handler over the ledger's rows: each row of
   * campaign `cid` is given a key if it lacks one, its message is sent, and
   * its `email_sent` is stamped. Returns the new rows and the messages sent,
   * in row order.
   */
  method LaunchRows(ts: seq<Target>, cid: nat, now: Time, tokens: seq<string>, templateId: int)
    returns (rows: seq<Target>, sent: seq<Email>)
    requires |tokens| >= |ts|
    ensures rows == Launch(ts, cid, now, tokens)
    ensures sent == Mailings(rows, cid, templateId)
  {
    ghost var launched := Launch(ts, cid, now, tokens);
    rows, sent := ts, [];
    var i := 0;
    while i < |rows|
      invariant 0 <= i <= |rows| == |launched| == |ts|
      invariant forall k :: 0 <= k < i ==> rows[k] == launched[k]
      invariant forall k :: i <= k < |rows| ==> rows[k] == ts[k]
      invariant sent == Mailings(launched[..i], cid, templateId)
    {
      var row, mail := LaunchOne(rows[i], cid, now, tokens[i], templateId);
      rows := rows[i := row];
      sent := sent + mail;
      MailingsStep(launched, i, cid, templateId);
      i := i + 1;
    }
    assert rows == launched;
    assert launched[..i] == launched;
  }

  /**
   * One pass of the launch loop: a row of the campaign gets a key if it has
   * none, is mailed with that key, and has `email_sent` stamped.
   */
  method LaunchOne(t: Target, cid: nat, now: Time, token: string, templateId: int)
    returns (row: Target, mail: seq<Email>)
    ensures row == LaunchRow(t, cid, now, token)
    ensures mail == if t.campaignId == cid then [Email(row.userId, row.trackingKey, templateId)] else []
  {
    row, mail := t, [];
    if t.campaignId == cid {
      LaunchRowSpelledOut(t, cid, now, token);
      if row.trackingKey == "" {
        row := row.(trackingKey := token);
      }
      mail := [Email(row.userId, row.trackingKey, templateId)];
      row := row.(emailSent := Some(now));
    }
  }
}
