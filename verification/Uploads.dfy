/** The life of one upload intent, from issue to promotion, rejection or expiry. */
module Uploads {
  import opened Texts
  import opened CompareAndSwap

  type Id = nat

  const MAXIMUM_TTL_MS := 600_000

  /** The digest of a nonce bound to tenant and intent, taken as injective. */
  datatype NonceDigest = NonceDigest(tenant: Id, intent: Id, nonce: Id)

  /** What the bytes must be: digest, size and type. */
  datatype Content = Content(sha256: Id, byteSize: nat, contentType: Id)

  datatype Intent = Intent(id: Id, tenant: Id, content: Content, nonceDigest: NonceDigest, quarantineKey: Id, finalKey: Id,
                           issuedAt: int, expiresAt: int, requiredRetentionUntil: int)

  datatype QuarantineReceipt = QuarantineReceipt(tenant: Id, key: Id, versionId: Id, content: Content, receivedAt: Clock)

  datatype Report = Report(tenant: Id, key: Id, versionId: Id, content: Content, safe: bool)

  datatype Mode = Governance | Compliance

  datatype PromotionReceipt = PromotionReceipt(tenant: Id, sourceKey: Id, sourceVersionId: Id, finalKey: Id, finalVersionId: Id,
                                               content: Content, kmsKeyArn: Id, mode: Mode, retainUntil: Clock, promotedAt: Clock)

  datatype RejectionCode = ChecksumMismatch | SizeMismatch | MimeMismatch | UnsafeContent | OperatorRejected | ValidationFailed

  datatype State =
    | Issued
    | Quarantined(consumedAt: int, receipt: QuarantineReceipt)
    | Validated(consumedAt: int, receipt: QuarantineReceipt, report: Report, completedAt: int)
    | Promoted(consumedAt: int, receipt: QuarantineReceipt, report: Report, completedAt: int, promotion: PromotionReceipt)
    | Rejected(rejectedAt: int, code: RejectionCode)
    | Expired(expiredAt: int)

  datatype Upload = Upload(intent: Intent, state: State, revision: nat)

  /** Field formats and size limits of the intent are taken as valid. */
  function Issue(id: Id, tenant: Id, content: Content, nonce: Id, quarantineKey: Id, finalKey: Id,
                 issuedAt: Clock, expiresAt: Clock, requiredRetentionUntil: Clock): Option<Upload>
  {
    if !issuedAt.At? || !expiresAt.At? || !requiredRetentionUntil.At? then None
    else if expiresAt.ms - issuedAt.ms <= 0 || expiresAt.ms - issuedAt.ms > MAXIMUM_TTL_MS
            || requiredRetentionUntil.ms <= expiresAt.ms
    then None
    else Some(Upload(Intent(id, tenant, content, NonceDigest(tenant, id, nonce), quarantineKey, finalKey,
                            issuedAt.ms, expiresAt.ms, requiredRetentionUntil.ms), Issued, 0))
  }

  datatype Request =
    | Quarantine(nonce: Id, now: Clock, receipt: QuarantineReceipt)
    | Validate(now: Clock, report: Report)
    | Promote(expectedKmsKeyArn: Id, expectedMode: Mode, promotion: PromotionReceipt)
    | Reject(now: Clock, code: RejectionCode)
    | Expire(now: Clock)

  function Mismatch(expected: Content, actual: Content): Option<RejectionCode> {
    if actual.sha256 != expected.sha256 then Some(ChecksumMismatch)
    else if actual.byteSize != expected.byteSize then Some(SizeMismatch)
    else if actual.contentType != expected.contentType then Some(MimeMismatch)
    else None
  }

  function Move(u: Upload, state: State): Upload {
    u.(state := state, revision := u.revision + 1)
  }

  function StepQuarantine(u: Upload, nonce: Id, now: Clock, receipt: QuarantineReceipt): Option<Upload> {
    var i := u.intent;
    if !u.state.Issued? || Le(At(i.expiresAt), now) || NonceDigest(i.tenant, i.id, nonce) != i.nonceDigest
       || receipt.receivedAt.InvalidDate? || receipt.tenant != i.tenant || receipt.key != i.quarantineKey
       || receipt.receivedAt.ms < i.issuedAt || receipt.receivedAt.ms >= i.expiresAt || Lt(now, receipt.receivedAt)
       || Mismatch(i.content, receipt.content).Some? || now.InvalidDate?
    then None else Some(Move(u, Quarantined(now.ms, receipt)))
  }

  function StepValidate(u: Upload, now: Clock, report: Report): Option<Upload> {
    var i := u.intent;
    if !u.state.Quarantined? || report.tenant != i.tenant || report.key != i.quarantineKey
       || report.versionId != u.state.receipt.versionId || Lt(now, u.state.receipt.receivedAt) || now.InvalidDate?
    then None
    else if Mismatch(i.content, report.content).Some? then Some(Move(u, Rejected(now.ms, Mismatch(i.content, report.content).value)))
    else if !report.safe then Some(Move(u, Rejected(now.ms, UnsafeContent)))
    else Some(Move(u, Validated(u.state.consumedAt, u.state.receipt, report, now.ms)))
  }

  function StepPromote(u: Upload, expectedKmsKeyArn: Id, expectedMode: Mode, p: PromotionReceipt): Option<Upload> {
    var i := u.intent;
    if !u.state.Validated? || p.retainUntil.InvalidDate? || p.promotedAt.InvalidDate?
       || p.tenant != i.tenant || p.sourceKey != i.quarantineKey || p.finalKey != i.finalKey
       || p.sourceVersionId != u.state.receipt.versionId || Mismatch(i.content, p.content).Some?
       || p.kmsKeyArn != expectedKmsKeyArn || p.mode != expectedMode
       || p.retainUntil.ms < i.requiredRetentionUntil || p.retainUntil.ms <= p.promotedAt.ms
       || p.promotedAt.ms < u.state.completedAt
    then None
    else Some(Move(u, Promoted(u.state.consumedAt, u.state.receipt, u.state.report, u.state.completedAt, p)))
  }

  /** One transition; nothing when the source refuses. */
  function Step(u: Upload, request: Request): Option<Upload> {
    match request
    case Quarantine(nonce, now, receipt) => StepQuarantine(u, nonce, now, receipt)
    case Validate(now, report) => StepValidate(u, now, report)
    case Promote(arn, mode, receipt) => StepPromote(u, arn, mode, receipt)
    case Reject(now, code) =>
      if !(u.state.Issued? || u.state.Quarantined?) || now.InvalidDate? || !(code.OperatorRejected? || code.ValidationFailed?) then None
      else Some(Move(u, Rejected(now.ms, code)))
    case Expire(now) =>
      if !u.state.Issued? || Lt(now, At(u.intent.expiresAt)) || now.InvalidDate? then None
      else Some(Move(u, Expired(now.ms)))
  }

  /** The quarantined bytes are those of the intent, received in its window. */
  predicate ReceiptFits(i: Intent, r: QuarantineReceipt, consumedAt: int) {
    && r.tenant == i.tenant && r.key == i.quarantineKey && r.content == i.content
    && r.receivedAt.At? && i.issuedAt <= r.receivedAt.ms < i.expiresAt
    && r.receivedAt.ms <= consumedAt < i.expiresAt
  }

  /** The scan was of those bytes, found them safe, and came no earlier. */
  predicate ReportFits(i: Intent, r: QuarantineReceipt, report: Report, completedAt: int) {
    && report.tenant == i.tenant && report.key == i.quarantineKey && report.versionId == r.versionId
    && report.content == i.content && report.safe && Le(r.receivedAt, At(completedAt))
  }

  /** The promotion copied exactly that version to the intent's final key, and locks it long enough. */
  predicate PromotionFits(i: Intent, r: QuarantineReceipt, completedAt: int, p: PromotionReceipt) {
    && p.tenant == i.tenant && p.sourceKey == i.quarantineKey && p.sourceVersionId == r.versionId && p.finalKey == i.finalKey
    && p.content == i.content && p.promotedAt.At? && p.retainUntil.At?
    && completedAt <= p.promotedAt.ms < p.retainUntil.ms && p.retainUntil.ms >= i.requiredRetentionUntil
  }

  predicate UploadOk(u: Upload) {
    match u.state
    case Issued => u.revision == 0
    case Quarantined(consumedAt, r) => u.revision == 1 && ReceiptFits(u.intent, r, consumedAt)
    case Validated(consumedAt, r, report, completedAt) =>
      u.revision == 2 && ReceiptFits(u.intent, r, consumedAt) && ReportFits(u.intent, r, report, completedAt)
    case Promoted(consumedAt, r, report, completedAt, p) =>
      u.revision == 3 && ReceiptFits(u.intent, r, consumedAt) && ReportFits(u.intent, r, report, completedAt)
      && PromotionFits(u.intent, r, completedAt, p)
    case Rejected(_, _) => 1 <= u.revision <= 2
    case Expired(at) => u.revision == 1 && at >= u.intent.expiresAt
  }

  /** What is issued is valid for at most ten minutes and must be retained past its expiry. */
  lemma IssuedOk(id: Id, tenant: Id, content: Content, nonce: Id, quarantineKey: Id, finalKey: Id,
                 issuedAt: Clock, expiresAt: Clock, requiredRetentionUntil: Clock)
    ensures var u := Issue(id, tenant, content, nonce, quarantineKey, finalKey, issuedAt, expiresAt, requiredRetentionUntil);
            && (u.Some? <==> Lt(issuedAt, expiresAt) && Lt(expiresAt, requiredRetentionUntil)
                             && expiresAt.ms <= issuedAt.ms + 600_000)
            && (u.Some? ==> UploadOk(u.value) && u.value.state.Issued?)
  {
  }

  lemma MismatchIsExact(expected: Content, actual: Content)
    ensures Mismatch(expected, actual).None? <==> actual == expected
    ensures Mismatch(expected, actual) == Some(ChecksumMismatch) <==> actual.sha256 != expected.sha256
    ensures Mismatch(expected, actual) == Some(SizeMismatch) <==>
              actual.sha256 == expected.sha256 && actual.byteSize != expected.byteSize
    ensures Mismatch(expected, actual) == Some(MimeMismatch) <==>
              actual == expected.(contentType := actual.contentType) && actual != expected
  {
  }

  lemma StepKeeps(u: Upload, request: Request)
    requires UploadOk(u) && Step(u, request).Some?
    ensures UploadOk(Step(u, request).value) && Step(u, request).value.intent == u.intent
    ensures !u.state.Promoted? && !u.state.Rejected? && !u.state.Expired?
  {
    match request
    case Quarantine(_, _, receipt) => MismatchIsExact(u.intent.content, receipt.content);
    case Validate(_, report) => MismatchIsExact(u.intent.content, report.content);
    case Promote(_, _, receipt) => MismatchIsExact(u.intent.content, receipt.content);
    case Reject(_, _) =>
    case Expire(_) =>
  }

  /** An upload whose receipts all fit is promoted, step by step, and keeps each receipt. */
  lemma FittingUploadIsPromoted(u: Upload, nonce: Id, received: int, r: QuarantineReceipt, scanned: int, report: Report,
                                arn: Id, mode: Mode, p: PromotionReceipt)
    requires u.state.Issued? && NonceDigest(u.intent.tenant, u.intent.id, nonce) == u.intent.nonceDigest
    requires ReceiptFits(u.intent, r, received) && ReportFits(u.intent, r, report, scanned)
    requires PromotionFits(u.intent, r, scanned, p) && p.kmsKeyArn == arn && p.mode == mode
    ensures var one := Step(u, Quarantine(nonce, At(received), r));
            && one == Some(Upload(u.intent, Quarantined(received, r), u.revision + 1))
            && var two := Step(one.value, Validate(At(scanned), report));
               && two == Some(Upload(u.intent, Validated(received, r, report, scanned), u.revision + 2))
               && Step(two.value, Promote(arn, mode, p))
                  == Some(Upload(u.intent, Promoted(received, r, report, scanned, p), u.revision + 3))
  {
  }

  /** What the scan of the quarantined version says decides: other bytes or unsafe ones end the upload. */
  lemma ScanDecides(u: Upload, scanned: int, report: Report)
    requires UploadOk(u) && u.state.Quarantined? && Le(u.state.receipt.receivedAt, At(scanned))
    requires report.tenant == u.intent.tenant && report.key == u.intent.quarantineKey && report.versionId == u.state.receipt.versionId
    ensures var v := Step(u, Validate(At(scanned), report));
            && v.Some?
            && (v.value.state.Validated? <==> report.content == u.intent.content && report.safe)
            && (!v.value.state.Validated? ==>
                  v.value.state == Rejected(scanned, if report.content == u.intent.content then UnsafeContent
                                                     else Mismatch(u.intent.content, report.content).value))
  {
    MismatchIsExact(u.intent.content, report.content);
  }

  /** Promotion is refused under another key or lock mode than the configured ones. */
  lemma PromotedAsConfigured(u: Upload, arn: Id, mode: Mode, p: PromotionReceipt)
    requires Step(u, Promote(arn, mode, p)).Some?
    ensures p.kmsKeyArn == arn && p.mode == mode && Step(u, Promote(arn, mode, p)).value.state.promotion == p
  {
  }

  /** An upload expires exactly when it is still unused at its expiry, and is turned down by hand exactly
      before validation. */
  lemma EndsExactly(u: Upload, now: int, code: RejectionCode)
    ensures var v := Step(u, Expire(At(now)));
            (v.Some? <==> u.state.Issued? && now >= u.intent.expiresAt) && (v.Some? ==> v.value.state == Expired(now))
    ensures var v := Step(u, Reject(At(now), code));
            && (v.Some? <==> (u.state.Issued? || u.state.Quarantined?) && code in {OperatorRejected, ValidationFailed})
            && (v.Some? ==> v.value.state == Rejected(now, code))
  {
  }

  lemma {:induction false} RunKeeps(u: Upload, requests: seq<Request>)
    requires UploadOk(u) && RunAll(Step, u, requests).Some?
    ensures UploadOk(RunAll(Step, u, requests).value) && RunAll(Step, u, requests).value.intent == u.intent
    decreases |requests|
  {
    if requests != [] {
      var before := requests[..|requests| - 1];
      RunKeeps(u, before);
      StepKeeps(RunAll(Step, u, before).value, requests[|requests| - 1]);
    }
  }

  lemma StepCounts()
    ensures Counts(Step, (u: Upload) => u.revision)
  {
  }

  /** In every run by any number of compare-and-swap workers an upload takes at most three
      transitions, one for each revision; and once promoted, its receipts agree with the intent on
      tenant, keys, version, digest, size and type, and with each other in time. */
  lemma WorkersPromoteOnce(u: Upload, actions: seq<Action<Request>>)
    requires u.state.Issued? && u.revision == 0
    ensures var v := ActAll(Shared(u, map[], []), actions, Step, (q: Upload) => q.revision);
            && |v.committed| == v.stored.revision <= 3 && v.stored.intent == u.intent && UploadOk(v.stored)
            && RunAll(Step, u, v.committed) == Some(v.stored)
            && (v.stored.state.Promoted? ==>
                  var s, i := v.stored.state, u.intent;
                  && |v.committed| == 3 && v.committed[0].Quarantine? && v.committed[1].Validate? && v.committed[2].Promote?
                  && NonceDigest(i.tenant, i.id, v.committed[0].nonce) == i.nonceDigest
                  && i.issuedAt <= s.receipt.receivedAt.ms < i.expiresAt
                  && s.receipt.receivedAt.ms <= s.completedAt <= s.promotion.promotedAt.ms < s.promotion.retainUntil.ms
                  && s.promotion.retainUntil.ms >= i.requiredRetentionUntil
                  && s.promotion.kmsKeyArn == v.committed[2].expectedKmsKeyArn && s.promotion.mode == v.committed[2].expectedMode)
  {
    var s: Shared<Upload, Request> := Shared(u, map[], []);
    StepCounts();
    WorkersAreSequential(s, actions, u, Step, (q: Upload) => q.revision);
    var v := ActAll(s, actions, Step, (q: Upload) => q.revision);
    RunKeeps(u, v.committed);
    if v.stored.state.Promoted? {
      PromotionPath(u, v.committed);
    }
  }

  /** There is one way to be promoted. */
  lemma PromotionPath(u: Upload, requests: seq<Request>)
    requires u.state.Issued? && u.revision == 0 && |requests| == 3
    requires RunAll(Step, u, requests).Some? && RunAll(Step, u, requests).value.state.Promoted?
    ensures requests[0].Quarantine? && requests[1].Validate? && requests[2].Promote?
    ensures NonceDigest(u.intent.tenant, u.intent.id, requests[0].nonce) == u.intent.nonceDigest
    ensures var p := RunAll(Step, u, requests).value.state.promotion;
            p.kmsKeyArn == requests[2].expectedKmsKeyArn && p.mode == requests[2].expectedMode
  {
    var one, two := requests[..1], requests[..2];
    assert requests[..2] == two && two[..1] == one && one[..0] == [];
    assert RunAll(Step, u, one) == Step(u, requests[0]);
    assert RunAll(Step, u, two) == Step(RunAll(Step, u, one).value, requests[1]);
    assert RunAll(Step, u, requests) == Step(RunAll(Step, u, two).value, requests[2]);
    RunKeeps(u, one);
    RunKeeps(u, two);
  }
}
