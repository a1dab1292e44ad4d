/**
 * The target ledger of the phishing simulation as pure transitions over the
 * store's rows: tracking-key lookup, the open pixel, the landing page, the guarded
 * click/submit block, remediation assignment, campaign creation and launch.
 * Each handler of the web layer is proved (in module PhishingStore) to perform
 * exactly the transition defined here.
 */
module PhishingLedger {
  import opened Wrappers
  import opened Models

  // ---------------------------------------------------------------------------
  // Ledger invariants

  /** Every non-empty tracking key belongs to one target only. */
  predicate KeysUnique(ts: seq<Target>)
  {
    forall i, j :: 0 <= i < j < |ts| && ts[i].trackingKey != "" ==> ts[i].trackingKey != ts[j].trackingKey
  }

  /** Two ledgers that differ at most in timestamps. */
  predicate SameKeys(ts: seq<Target>, us: seq<Target>)
  {
    |ts| == |us| && forall i :: 0 <= i < |ts| ==> ts[i].trackingKey == us[i].trackingKey
  }

  /**
   * A token supply for the ledger `ts` (one token per row position, the value
   * `uuid4()` would produce if that row needs one): every token is non-empty,
   * tokens are pairwise distinct and none is already a key of the ledger.
   */
  predicate FreshTokens(tokens: seq<string>, ts: seq<Target>)
  {
    && (forall k :: 0 <= k < |tokens| ==> tokens[k] != "")
    && (forall k, l :: 0 <= k < l < |tokens| ==> tokens[k] != tokens[l])
    && (forall k, i :: 0 <= k < |tokens| && 0 <= i < |ts| ==> tokens[k] != ts[i].trackingKey)
  }

  // ---------------------------------------------------------------------------
  // Lookup by tracking key

  function FindFrom(ts: seq<Target>, key: string, i: nat): (r: Option<nat>)
    requires i <= |ts|
    ensures r.Some? ==> i <= r.value < |ts| && ts[r.value].trackingKey == key
    ensures r.Some? ==> forall j :: i <= j < r.value ==> ts[j].trackingKey != key
    ensures r.None? ==> forall j :: i <= j < |ts| ==> ts[j].trackingKey != key
    decreases |ts| - i
  {
    if i == |ts| then None
    else if ts[i].trackingKey == key then Some(i)
    else FindFrom(ts, key, i + 1)
  }

  /**
   * `PhishingTarget.query.filter_by(tracking_key=key).first()`: the first target
   * carrying `key`. A key never matches a row that has none.
   */
  function FindByKey(ts: seq<Target>, key: string): (r: Option<nat>)
    ensures r.Some? <==> key != "" && exists j :: 0 <= j < |ts| && ts[j].trackingKey == key
    ensures r.Some? ==> r.value < |ts| && ts[r.value].trackingKey == key
    ensures r.Some? ==> forall j :: 0 <= j < r.value ==> ts[j].trackingKey != key
  {
    if key == "" then None else FindFrom(ts, key, 0)
  }

  /** With unique keys, the lookup finds the one target that carries the key. */
  lemma FindByKeyUnique(ts: seq<Target>, i: nat)
    requires KeysUnique(ts) && i < |ts| && ts[i].trackingKey != ""
    ensures FindByKey(ts, ts[i].trackingKey) == Some(i)
  {
    assert FindByKey(ts, ts[i].trackingKey).Some?;
  }

  /** Lookups only look at keys: a ledger with the same keys answers alike. */
  lemma {:induction false} FindFromSameKeys(ts: seq<Target>, us: seq<Target>, key: string, i: nat)
    requires SameKeys(ts, us) && i <= |ts|
    ensures FindFrom(ts, key, i) == FindFrom(us, key, i)
    decreases |ts| - i
  {
    if i < |ts| && ts[i].trackingKey != key {
      FindFromSameKeys(ts, us, key, i + 1);
    }
  }

  lemma FindByKeySameKeys(ts: seq<Target>, us: seq<Target>, key: string)
    requires SameKeys(ts, us)
    ensures FindByKey(ts, key) == FindByKey(us, key)
  {
    if key != "" {
      FindFromSameKeys(ts, us, key, 0);
    }
  }

  // ---------------------------------------------------------------------------
  // The open pixel

  /** The 1x1 transparent GIF the pixel endpoint answers with, byte for byte. */
  const TransparentGif: seq<bv8> := [
    0x47, 0x49, 0x46, 0x38, 0x39, 0x61, 0x01, 0x00, 0x01, 0x00, 0x80, 0x00, 0x00,
    0x00, 0x00, 0x00, 0xFF, 0xFF, 0xFF, 0x21, 0xF9, 0x04, 0x01, 0x00, 0x00, 0x00,
    0x00, 0x2C, 0x00, 0x00, 0x00, 0x00, 0x01, 0x00, 0x01, 0x00, 0x00, 0x02, 0x02,
    0x44, 0x01, 0x00, 0x3B]

  /** The pixel body is a GIF89a image of width 1 and height 1, closed by the trailer. */
  lemma TransparentGifIsOnePixel()
    ensures |TransparentGif| == 43
    ensures forall k :: 0 <= k < 6 ==> TransparentGif[k] as int == "GIF89a"[k] as int
    ensures TransparentGif[6] as int + 256 * TransparentGif[7] as int == 1
    ensures TransparentGif[8] as int + 256 * TransparentGif[9] as int == 1
    ensures TransparentGif[|TransparentGif| - 1] == 0x3B
  {
  }

  /** The open pixel: the first fetch for a known key stamps `email_opened`. */
  function Pixel(ts: seq<Target>, key: string, now: Time): (us: seq<Target>)
    ensures SameKeys(ts, us)
  {
    match FindByKey(ts, key)
    case None => ts
    case Some(i) => ts[i := RecordFirst(ts[i], Opened, now)]
  }

  /**
   * An unknown key changes nothing; a known key sets `email_opened` on its
   * target only if unset, and nothing else of any target changes.
   */
  lemma PixelEffect(ts: seq<Target>, key: string, now: Time)
    ensures FindByKey(ts, key).None? ==> Pixel(ts, key, now) == ts
    ensures SameKeys(ts, Pixel(ts, key, now))
    ensures forall j, e :: 0 <= j < |ts| && (e != Opened || Some(j) != FindByKey(ts, key)) ==>
      Stamp(Pixel(ts, key, now)[j], e) == Stamp(ts[j], e)
    ensures forall j :: 0 <= j < |ts| && Some(j) == FindByKey(ts, key) ==>
      Pixel(ts, key, now)[j].emailOpened == if ts[j].emailOpened.Some? then ts[j].emailOpened else Some(now)
    ensures forall j :: 0 <= j < |ts| ==>
      Pixel(ts, key, now)[j].userId == ts[j].userId && Pixel(ts, key, now)[j].campaignId == ts[j].campaignId
  {
    match FindByKey(ts, key)
    case None =>
    case Some(i) =>
      RecordFirstWins(ts[i], Opened, now);
  }

  /** A re-fetched pixel (mail clients prefetch and reopen) is a no-op. */
  lemma PixelIdempotent(ts: seq<Target>, key: string, now: Time, later: Time)
    ensures Pixel(Pixel(ts, key, now), key, later) == Pixel(ts, key, now)
  {
    PixelEffect(ts, key, now);
    FindByKeySameKeys(ts, Pixel(ts, key, now), key);
    match FindByKey(ts, key)
    case None =>
    case Some(i) =>
      RecordFirstIdempotent(ts[i], Opened, now, later);
  }

  // ---------------------------------------------------------------------------
  // The landing page (the second, effective definition of the handler)

  /** The inbound request: a GET, or a POST with its form fields. */
  datatype Request = Get | Post(form: map<string, string>)

  /** What the handler answers: a 404, the landing page, or a thank-you page. */
  datatype Response = NotFound | LandingPage(target: nat) | ThankYou(message: string)

  const ReportMessage := "Thank you for reporting this email as phishing. You made the right choice!"
  const SubmitMessage := "Thank you for your response."

  /** `request.form.get('report_phish') == 'yes'` on a POST. */
  predicate IsReport(req: Request)
  {
    req.Post? && "report_phish" in req.form && req.form["report_phish"] == "yes"
  }

  /**
   * The landing handler as written: stamp the click if unset; a report POST
   * stamps `reported_phish`, any other POST stamps `data_submitted`; both stamps
   * overwrite an earlier one.
   */
  function Landing(ts: seq<Target>, key: string, req: Request, now: Time): (r: (seq<Target>, Response))
    ensures SameKeys(ts, r.0)
    ensures r.1.NotFound? <==> FindByKey(ts, key).None?
  {
    match FindByKey(ts, key)
    case None => (ts, NotFound)
    case Some(i) =>
      var clicked := RecordFirst(ts[i], Clicked, now);
      if IsReport(req) then (ts[i := Overwrite(clicked, Reported, now)], ThankYou(ReportMessage))
      else if req.Post? then (ts[i := Overwrite(clicked, Submitted, now)], ThankYou(SubmitMessage))
      else (ts[i := clicked], LandingPage(i))
  }

  /** A key the lookup does not find (the empty key included) is a 404 and changes nothing. */
  lemma LandingUnknownKey(ts: seq<Target>, key: string, req: Request, now: Time)
    requires FindByKey(ts, key).None?
    ensures Landing(ts, key, req, now) == (ts, NotFound)
  {
  }

  /**
   * For a known key: the click is stamped only if unset; a report POST stamps
   * `reported_phish` and leaves `data_submitted` alone; any other POST stamps
   * `data_submitted` and leaves `reported_phish` alone; a GET answers the landing
   * page. No other column and no other target changes.
   */
  lemma LandingEffect(ts: seq<Target>, key: string, req: Request, now: Time, i: nat)
    requires FindByKey(ts, key) == Some(i)
    ensures var (us, resp) := Landing(ts, key, req, now);
      && SameKeys(ts, us)
      && (forall j :: 0 <= j < |ts| && j != i ==> us[j] == ts[j])
      && us[i].userId == ts[i].userId && us[i].campaignId == ts[i].campaignId
      && us[i].linkClicked == (if ts[i].linkClicked.Some? then ts[i].linkClicked else Some(now))
      && us[i].emailSent == ts[i].emailSent && us[i].emailOpened == ts[i].emailOpened
      && (IsReport(req) ==>
            us[i].reportedPhish == Some(now) && us[i].dataSubmitted == ts[i].dataSubmitted
            && resp == ThankYou(ReportMessage))
      && (req.Post? && !IsReport(req) ==>
            us[i].dataSubmitted == Some(now) && us[i].reportedPhish == ts[i].reportedPhish
            && resp == ThankYou(SubmitMessage))
      && (req.Get? ==>
            us[i].dataSubmitted == ts[i].dataSubmitted && us[i].reportedPhish == ts[i].reportedPhish
            && resp == LandingPage(i))
  {
    RecordFirstWins(ts[i], Clicked, now);
  }

  /** Repeated visits never move the click stamp. */
  lemma LandingClickStable(ts: seq<Target>, key: string, req: Request, req': Request, now: Time, later: Time)
    ensures var us := Landing(ts, key, req, now).0;
      forall j :: 0 <= j < |ts| ==>
        Landing(us, key, req', later).0[j].linkClicked == us[j].linkClicked
  {
    var us := Landing(ts, key, req, now).0;
    match FindByKey(ts, key)
    case None =>
    case Some(i) =>
      LandingEffect(ts, key, req, now, i);
      FindByKeySameKeys(ts, us, key);
      LandingEffect(us, key, req', later, i);
  }

  /**
   * As written, a second form POST replaces the first submission time: the
   * handler does not test `data_submitted` before stamping it.
   */
  lemma LandingResubmitOverwrites(ts: seq<Target>, key: string, form: map<string, string>, now: Time, later: Time, i: nat)
    requires FindByKey(ts, key) == Some(i)
    requires !IsReport(Post(form)) && now != later
    ensures var us := Landing(ts, key, Post(form), now).0;
      && us[i].dataSubmitted == Some(now)
      && Landing(us, key, Post(form), later).0[i].dataSubmitted == Some(later)
      && Some(later) != Some(now)
  {
    var us := Landing(ts, key, Post(form), now).0;
    LandingEffect(ts, key, Post(form), now, i);
    FindByKeySameKeys(ts, us, key);
    LandingEffect(us, key, Post(form), later, i);
  }

  // ---------------------------------------------------------------------------
  // Remediation assignment

  const ClickReason := "Clicked phishing link"
  const SubmitReason := "Submitted data to phishing form"

  /** `RemediationAssignment.query.filter_by(user_id=user, completed=False).first()` finds a row. */
  predicate HasOpen(rs: seq<RemediationAssignment>, user: int)
  {
    exists j :: 0 <= j < |rs| && rs[j].userId == user && !rs[j].completed
  }

  /** At most one open assignment per user. */
  predicate AtMostOneOpen(rs: seq<RemediationAssignment>)
  {
    forall i, j :: 0 <= i < j < |rs| && rs[i].userId == rs[j].userId ==> rs[i].completed || rs[j].completed
  }

  /** `assign_remediation`: add an open assignment unless the user already has one. */
  function Assign(rs: seq<RemediationAssignment>, user: int, reason: string, now: Time): (rs': seq<RemediationAssignment>)
    ensures HasOpen(rs', user)
    ensures HasOpen(rs, user) ==> rs' == rs
    ensures |rs| <= |rs'| <= |rs| + 1 && rs'[..|rs|] == rs
  {
    if HasOpen(rs, user) then rs
    else
      var added := rs + [NewAssignment(user, reason, now)];
      assert added[|rs|] == NewAssignment(user, reason, now);
      added
  }

  /**
   * Assignment only ever appends one new open row for the user, and only when
   * the user had none open; afterwards the user has an open assignment.
   */
  lemma AssignEffect(rs: seq<RemediationAssignment>, user: int, reason: string, now: Time)
    ensures var rs' := Assign(rs, user, reason, now);
      && HasOpen(rs', user)
      && (HasOpen(rs, user) ==> rs' == rs)
      && (!HasOpen(rs, user) ==>
            rs' == rs + [RemediationAssignment(user, reason, now, false)])
  {
    var rs' := Assign(rs, user, reason, now);
    if !HasOpen(rs, user) {
      assert rs'[|rs|].userId == user && !rs'[|rs|].completed;
    }
  }

  /** Assigning twice is assigning once. */
  lemma AssignIdempotent(rs: seq<RemediationAssignment>, user: int, reason: string, reason': string, now: Time, later: Time)
    ensures Assign(Assign(rs, user, reason, now), user, reason', later) == Assign(rs, user, reason, now)
  {
    AssignEffect(rs, user, reason, now);
  }

  /** Assignment keeps "at most one open assignment per user". */
  lemma AssignPreservesAtMostOneOpen(rs: seq<RemediationAssignment>, user: int, reason: string, now: Time)
    requires AtMostOneOpen(rs)
    ensures AtMostOneOpen(Assign(rs, user, reason, now))
  {
    if !HasOpen(rs, user) {
      var rs' := Assign(rs, user, reason, now);
      forall i, j | 0 <= i < j < |rs'| && rs'[i].userId == rs'[j].userId
        ensures rs'[i].completed || rs'[j].completed
      {
        if j == |rs| {
          assert rs'[i] == rs[i];
        }
      }
    }
  }

  // ---------------------------------------------------------------------------
  // The guarded click / submit block

  /**
   * The guarded variant of click and submit handling: each of `link_clicked`
   * and (on a POST) `data_submitted` is stamped only when unset, and only that
   * transition assigns remediation to the target's user.
   */
  function GuardedClickOrSubmit(ts: seq<Target>, rs: seq<RemediationAssignment>, key: string, isPost: bool, now: Time)
    : (r: (seq<Target>, seq<RemediationAssignment>))
    ensures SameKeys(ts, r.0)
    ensures |rs| <= |r.1| <= |rs| + 1 && r.1[..|rs|] == rs
  {
    match FindByKey(ts, key)
    case None => (ts, rs)
    case Some(i) =>
      var t := ts[i];
      var (t1, rs1) :=
        if t.linkClicked.None? then (WithStamp(t, Clicked, Some(now)), Assign(rs, t.userId, ClickReason, now))
        else (t, rs);
      var (t2, rs2) :=
        if isPost && t1.dataSubmitted.None? then (WithStamp(t1, Submitted, Some(now)), Assign(rs1, t1.userId, SubmitReason, now))
        else (t1, rs1);
      (ts[i := t2], rs2)
  }

  /**
   * The guarded block stamps click and submission first-write-wins, touches no
   * other target, and changes the assignments only on an unset-to-set transition:
   * then it appends at most one open row, for the target's user, with the click
   * reason if the click was new and the submit reason otherwise.
   */
  lemma GuardedEffect(ts: seq<Target>, rs: seq<RemediationAssignment>, key: string, isPost: bool, now: Time, i: nat)
    requires FindByKey(ts, key) == Some(i)
    ensures var (us, rs') := GuardedClickOrSubmit(ts, rs, key, isPost, now);
      && SameKeys(ts, us)
      && (forall j :: 0 <= j < |ts| && j != i ==> us[j] == ts[j])
      && us[i].userId == ts[i].userId && us[i].campaignId == ts[i].campaignId
      && us[i].linkClicked == (if ts[i].linkClicked.Some? then ts[i].linkClicked else Some(now))
      && us[i].dataSubmitted ==
           (if isPost && ts[i].dataSubmitted.None? then Some(now) else ts[i].dataSubmitted)
      && us[i].emailSent == ts[i].emailSent && us[i].emailOpened == ts[i].emailOpened
      && us[i].reportedPhish == ts[i].reportedPhish
      && (rs' != rs ==> ts[i].linkClicked.None? || (isPost && ts[i].dataSubmitted.None?))
      && ((ts[i].linkClicked.None? || (isPost && ts[i].dataSubmitted.None?)) ==> HasOpen(rs', ts[i].userId))
      && (HasOpen(rs, ts[i].userId) ==> rs' == rs)
      && (rs' == rs
          || rs' == rs + [NewAssignment(ts[i].userId, if ts[i].linkClicked.None? then ClickReason else SubmitReason, now)])
  {
    var t := ts[i];
    if t.linkClicked.None? {
      AssignEffect(rs, t.userId, ClickReason, now);
      var rs1 := Assign(rs, t.userId, ClickReason, now);
      if isPost && t.dataSubmitted.None? {
        AssignEffect(rs1, t.userId, SubmitReason, now);
      }
    } else if isPost && t.dataSubmitted.None? {
      AssignEffect(rs, t.userId, SubmitReason, now);
    }
  }

  /** Unknown keys change neither the ledger nor the assignments. */
  lemma GuardedUnknownKey(ts: seq<Target>, rs: seq<RemediationAssignment>, key: string, isPost: bool, now: Time)
    requires FindByKey(ts, key).None?
    ensures GuardedClickOrSubmit(ts, rs, key, isPost, now) == (ts, rs)
  {
  }

  /** The guarded block preserves "at most one open assignment per user". */
  lemma GuardedPreservesAtMostOneOpen(ts: seq<Target>, rs: seq<RemediationAssignment>, key: string, isPost: bool, now: Time)
    requires AtMostOneOpen(rs)
    ensures AtMostOneOpen(GuardedClickOrSubmit(ts, rs, key, isPost, now).1)
  {
    match FindByKey(ts, key)
    case None =>
    case Some(i) =>
      var t := ts[i];
      var rs1 := if t.linkClicked.None? then Assign(rs, t.userId, ClickReason, now) else rs;
      AssignPreservesAtMostOneOpen(rs, t.userId, ClickReason, now);
      AssignPreservesAtMostOneOpen(rs1, t.userId, SubmitReason, now);
  }

  /** Replaying the same click or submission changes nothing and assigns nothing. */
  lemma GuardedIdempotent(ts: seq<Target>, rs: seq<RemediationAssignment>, key: string, isPost: bool, now: Time, later: Time)
    ensures var (us, rs') := GuardedClickOrSubmit(ts, rs, key, isPost, now);
      GuardedClickOrSubmit(us, rs', key, isPost, later) == (us, rs')
  {
    match FindByKey(ts, key)
    case None =>
    case Some(i) =>
      var (us, rs') := GuardedClickOrSubmit(ts, rs, key, isPost, now);
      GuardedEffect(ts, rs, key, isPost, now, i);
      FindByKeySameKeys(ts, us, key);
      GuardedEffect(us, rs', key, isPost, later, i);
      assert us[i := us[i]] == us;
  }

  /**
   * A second submission, even at a later instant, keeps the first submission
   * time: the guarded block is first-write-wins on `data_submitted`.
   */
  lemma GuardedSubmitFirstWriteWins(ts: seq<Target>, rs: seq<RemediationAssignment>, key: string, now: Time, later: Time, i: nat)
    requires FindByKey(ts, key) == Some(i) && ts[i].dataSubmitted.None?
    ensures var (us, rs') := GuardedClickOrSubmit(ts, rs, key, true, now);
      && us[i].dataSubmitted == Some(now)
      && GuardedClickOrSubmit(us, rs', key, true, later).0[i].dataSubmitted == Some(now)
  {
    var (us, rs') := GuardedClickOrSubmit(ts, rs, key, true, now);
    GuardedEffect(ts, rs, key, true, now, i);
    FindByKeySameKeys(ts, us, key);
    GuardedEffect(us, rs', key, true, later, i);
  }

  /**
   * Two campaigns whose targets belong to the same user both record a click
   * while the user's assignment is open: the user ends with one open assignment.
   */
  lemma RemediationDedupAcrossCampaigns(ts: seq<Target>, rs: seq<RemediationAssignment>, k1: string, k2: string, now: Time, later: Time, i1: nat, i2: nat)
    requires AtMostOneOpen(rs)
    requires FindByKey(ts, k1) == Some(i1) && FindByKey(ts, k2) == Some(i2)
    requires ts[i1].userId == ts[i2].userId && ts[i1].campaignId != ts[i2].campaignId
    requires ts[i1].linkClicked.None? && ts[i2].linkClicked.None?
    ensures var (us, rs1) := GuardedClickOrSubmit(ts, rs, k1, false, now);
      var (vs, rs2) := GuardedClickOrSubmit(us, rs1, k2, false, later);
      && vs[i1].linkClicked == Some(now) && vs[i2].linkClicked == Some(later)
      && HasOpen(rs2, ts[i1].userId) && AtMostOneOpen(rs2)
      && |rs2| <= |rs| + 1
  {
    var (us, rs1) := GuardedClickOrSubmit(ts, rs, k1, false, now);
    GuardedEffect(ts, rs, k1, false, now, i1);
    GuardedPreservesAtMostOneOpen(ts, rs, k1, false, now);
    FindByKeySameKeys(ts, us, k2);
    assert i1 != i2;
    GuardedEffect(us, rs1, k2, false, later, i2);
    GuardedPreservesAtMostOneOpen(us, rs1, k2, false, later);
    AssignEffect(rs, ts[i1].userId, ClickReason, now);
    AssignEffect(rs1, ts[i1].userId, ClickReason, later);
  }

  // ---------------------------------------------------------------------------
  // Campaign creation and launch

  /** One fresh target per selected user id, in the order given, each with its token. */
  function NewTargets(cid: nat, users: seq<int>, tokens: seq<string>): (ns: seq<Target>)
    requires |tokens| >= |users|
    ensures |ns| == |users|
  {
    seq(|users|, k requires 0 <= k < |users| => NewTarget(cid, users[k], tokens[k]))
  }

  /**
   * Campaign creation appends one target per selected user id: each refers to
   * the new campaign and that user, has no timestamp set and carries a fresh
   * key, and the keys stay unique.
   */
  lemma NewTargetsEffect(ts: seq<Target>, cid: nat, users: seq<int>, tokens: seq<string>)
    requires KeysUnique(ts) && |tokens| >= |users| && FreshTokens(tokens, ts)
    ensures var ns := NewTargets(cid, users, tokens);
      && KeysUnique(ts + ns)
      && forall k, e :: 0 <= k < |users| ==>
           ns[k].campaignId == cid && ns[k].userId == users[k] && Stamp(ns[k], e).None?
           && ns[k].trackingKey != ""
  {
    var ns := NewTargets(cid, users, tokens);
    var all := ts + ns;
    forall i, j | 0 <= i < j < |all| && all[i].trackingKey != ""
      ensures all[i].trackingKey != all[j].trackingKey
    {
      if j >= |ts| {
        assert all[j].trackingKey == tokens[j - |ts|];
        if i >= |ts| {
          assert all[i].trackingKey == tokens[i - |ts|];
        }
      }
    }
  }

  /**
   * One row of the launch loop: a row of campaign `cid` without a key gets
   * `token`, and its `email_sent` is stamped `now` even if already set.
   */
  function LaunchRow(t: Target, cid: nat, now: Time, token: string): (r: Target)
    ensures r.campaignId == t.campaignId && r.userId == t.userId
    ensures t.campaignId == cid ==>
      r.emailSent == Some(now) && (t.trackingKey != "" ==> r.trackingKey == t.trackingKey)
      && (token != "" ==> r.trackingKey != "")
  {
    if t.campaignId != cid then t
    else
      var keyed := if t.trackingKey == "" then t.(trackingKey := token) else t;
      WithStamp(keyed, Sent, Some(now))
  }

  /** The launch row as the loop writes it: key the row if needed, then stamp `email_sent`. */
  lemma LaunchRowSpelledOut(t: Target, cid: nat, now: Time, token: string)
    requires t.campaignId == cid
    ensures LaunchRow(t, cid, now, token)
      == (if t.trackingKey == "" then t.(trackingKey := token) else t).(emailSent := Some(now))
  {
  }

  /** The ledger after launching campaign `cid`; `tokens[i]` is row i's fresh token. */
  function Launch(ts: seq<Target>, cid: nat, now: Time, tokens: seq<string>): (us: seq<Target>)
    requires |tokens| >= |ts|
    ensures |us| == |ts|
  {
    seq(|ts|, i requires 0 <= i < |ts| => LaunchRow(ts[i], cid, now, tokens[i]))
  }

  /**
   * After launch every target of the campaign has a non-empty key (an existing
   * key is kept) and `email_sent == now`; its other stamps and every target of
   * another campaign are untouched; keys stay unique.
   */
  lemma LaunchEffect(ts: seq<Target>, cid: nat, now: Time, tokens: seq<string>)
    requires |tokens| >= |ts| && KeysUnique(ts) && FreshTokens(tokens, ts)
    ensures var us := Launch(ts, cid, now, tokens);
      && KeysUnique(us)
      && (forall i :: 0 <= i < |ts| && ts[i].campaignId != cid ==> us[i] == ts[i])
      && (forall i :: 0 <= i < |ts| && ts[i].campaignId == cid ==>
            && us[i].trackingKey != ""
            && (ts[i].trackingKey != "" ==> us[i].trackingKey == ts[i].trackingKey)
            && us[i].emailSent == Some(now)
            && us[i].campaignId == cid && us[i].userId == ts[i].userId)
      && (forall i, e :: 0 <= i < |ts| && e != Sent ==> Stamp(us[i], e) == Stamp(ts[i], e))
  {
    var us := Launch(ts, cid, now, tokens);
    forall i, j | 0 <= i < j < |us| && us[i].trackingKey != ""
      ensures us[i].trackingKey != us[j].trackingKey
    {
      assert us[i] == LaunchRow(ts[i], cid, now, tokens[i]);
      assert us[j] == LaunchRow(ts[j], cid, now, tokens[j]);
    }
    forall i, e | 0 <= i < |ts| && e != Sent
      ensures Stamp(us[i], e) == Stamp(ts[i], e)
    {
      assert us[i] == LaunchRow(ts[i], cid, now, tokens[i]);
    }
  }

  /**
   * Launch does not check `launched`: launching again at a later instant
   * re-stamps `email_sent` of every target of the campaign and keeps its keys.
   */
  lemma RelaunchRestamps(ts: seq<Target>, cid: nat, now: Time, later: Time, tokens: seq<string>, tokens': seq<string>)
    requires |tokens| >= |ts| && |tokens'| >= |ts| && KeysUnique(ts) && FreshTokens(tokens, ts)
    ensures var us := Launch(ts, cid, now, tokens);
      var vs := Launch(us, cid, later, tokens');
      forall i :: 0 <= i < |ts| && ts[i].campaignId == cid ==>
        vs[i].emailSent == Some(later) && vs[i].trackingKey == us[i].trackingKey
  {
    LaunchEffect(ts, cid, now, tokens);
    var us := Launch(ts, cid, now, tokens);
    var vs := Launch(us, cid, later, tokens');
    forall i | 0 <= i < |ts| && ts[i].campaignId == cid
      ensures vs[i].emailSent == Some(later) && vs[i].trackingKey == us[i].trackingKey
    {
      assert vs[i] == LaunchRow(us[i], cid, later, tokens'[i]);
    }
  }

  /** A message handed to the (abstract) mail sender: recipient, tracking key, template. */
  datatype Email = Email(userId: int, trackingKey: string, templateId: int)

  /** The messages a launch sends: one per target of the campaign, in ledger order. */
  function Mailings(ts: seq<Target>, cid: nat, templateId: int): (ms: seq<Email>)
    ensures |ms| == CampaignSize(ts, cid) <= |ts|
    decreases |ts|
  {
    if ts == [] then []
    else
      var t := ts[|ts| - 1];
      Mailings(ts[..|ts| - 1], cid, templateId)
        + (if t.campaignId == cid then [Email(t.userId, t.trackingKey, templateId)] else [])
  }

  /** Extending the ledger prefix by one row adds that row's message, if any. */
  lemma MailingsStep(ts: seq<Target>, i: nat, cid: nat, templateId: int)
    requires i < |ts|
    ensures Mailings(ts[..i + 1], cid, templateId) == Mailings(ts[..i], cid, templateId)
      + (if ts[i].campaignId == cid then [Email(ts[i].userId, ts[i].trackingKey, templateId)] else [])
  {
    assert ts[..i + 1][..i] == ts[..i];
  }

  /** The number of targets of a campaign. */
  function CampaignSize(ts: seq<Target>, cid: nat): nat
    decreases |ts|
  {
    if ts == [] then 0
    else CampaignSize(ts[..|ts| - 1], cid) + (if ts[|ts| - 1].campaignId == cid then 1 else 0)
  }

  /**
   * Exactly one message per target of the campaign, addressed to a user with a
   * target in that campaign, carrying that target's key.
   */
  lemma {:induction false} MailingsOnePerTarget(ts: seq<Target>, cid: nat, templateId: int)
    ensures |Mailings(ts, cid, templateId)| == CampaignSize(ts, cid)
    ensures forall m :: m in Mailings(ts, cid, templateId) ==>
      m.templateId == templateId &&
      exists i :: 0 <= i < |ts| && ts[i].campaignId == cid && ts[i].userId == m.userId && ts[i].trackingKey == m.trackingKey
    ensures forall i :: 0 <= i < |ts| && ts[i].campaignId == cid ==>
      Email(ts[i].userId, ts[i].trackingKey, templateId) in Mailings(ts, cid, templateId)
    decreases |ts|
  {
    if ts != [] {
      var init := ts[..|ts| - 1];
      MailingsOnePerTarget(init, cid, templateId);
      forall i | 0 <= i < |ts| && ts[i].campaignId == cid
        ensures Email(ts[i].userId, ts[i].trackingKey, templateId) in Mailings(ts, cid, templateId)
      {
        if i < |ts| - 1 {
          assert ts[i] == init[i];
        }
      }
      forall m | m in Mailings(ts, cid, templateId)
        ensures m.templateId == templateId &&
          exists i :: 0 <= i < |ts| && ts[i].campaignId == cid && ts[i].userId == m.userId && ts[i].trackingKey == m.trackingKey
      {
        if m in Mailings(init, cid, templateId) {
          var i :| 0 <= i < |init| && init[i].campaignId == cid && init[i].userId == m.userId && init[i].trackingKey == m.trackingKey;
          assert ts[i] == init[i];
        } else {
          assert ts[|ts| - 1].campaignId == cid;
        }
      }
    }
  }

  /** After launch, every message carries a non-empty tracking key. */
  lemma LaunchMailsCarryKeys(ts: seq<Target>, cid: nat, now: Time, tokens: seq<string>, templateId: int)
    requires |tokens| >= |ts| && KeysUnique(ts) && FreshTokens(tokens, ts)
    ensures var us := Launch(ts, cid, now, tokens);
      && |Mailings(us, cid, templateId)| == CampaignSize(us, cid)
      && forall m :: m in Mailings(us, cid, templateId) ==> m.trackingKey != ""
  {
    LaunchEffect(ts, cid, now, tokens);
    MailingsOnePerTarget(Launch(ts, cid, now, tokens), cid, templateId);
  }
}
