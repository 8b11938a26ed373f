/** The `coupons` and `coupon_events` tables as the two coupon panels use
    them: a coupon row per code, an append-only event log, and the three
    writes the panels issue (insert, attempt-count update, conditional
    ISSUED -> VERIFIED update). */
module CouponStore {
  import opened JsBuiltins

  const Issued := "ISSUED"
  const Verified := "VERIFIED"
  const Void := "VOID"

  /** A `coupons` row; times are milliseconds. */
  datatype CouponRow = CouponRow(
    code: string,
    issuedBranch: string,
    issuedAt: int,
    status: string,
    verifiedBranch: Option<string>,
    verifiedAt: Option<int>,
    attemptCount: nat,
    lastAttemptAt: Option<int>,
    customerPhone: Option<string>,
    discountType: Option<string>,
    discountCustomText: Option<string>,
    headcountType: Option<string>,
    headcountCustomText: Option<string>)

  datatype EventType = Issue | Scan | VerifyFail | VerifySuccess

  /** The `meta` object of an event. */
  datatype EventMeta = Reason(reason: string) | VerifiedBranchMeta(verifiedBranch: string) | IssuedBranchMeta(issuedBranch: string)

  /** A `coupon_events` row. */
  datatype Event = Event(couponCode: string, eventType: EventType, branch: string, meta: EventMeta)

  /** Why an insert was refused: the primary key was taken, or the backend
      failed in some other way (network, row-level security, ...). */
  datatype StoreError = DuplicateKey | Backend(message: string)

  /** The writes the panels send to `coupons`. */
  datatype StoreOp =
    | Insert(row: CouponRow, fault: Option<StoreError>)
    | RecordFailedAttempt(code: string, count: nat, at: int)
    | MarkVerified(code: string, branch: string, at: int)

  /** The error an insert reports: an injected backend fault, else a key collision. */
  function InsertError(m: map<string, CouponRow>, row: CouponRow, fault: Option<StoreError>): (e: Option<StoreError>)
    ensures e.None? <==> fault.None? && row.code !in m
  {
    if fault.Some? then fault else if row.code in m then Some(DuplicateKey) else None
  }

  /** The key of the row a write is aimed at. */
  function Target(op: StoreOp): string {
    match op
    case Insert(row, _) => row.code
    case RecordFailedAttempt(code, _, _) => code
    case MarkVerified(code, _, _) => code
  }

  /** The table after one write: no row is ever deleted, and only the row
      the write is aimed at can change or appear. */
  function Apply(m: map<string, CouponRow>, op: StoreOp): (r: map<string, CouponRow>)
    ensures forall c :: c in m ==> c in r
    ensures forall c :: c in r && c != Target(op) ==> c in m && r[c] == m[c]
    ensures Target(op) in r && Target(op) !in m ==> op.Insert?
  {
    match op
    case Insert(row, fault) =>
      if InsertError(m, row, fault).None? then m[row.code := row] else m
    case RecordFailedAttempt(code, count, at) =>
      if code in m then m[code := m[code].(attemptCount := count, lastAttemptAt := Some(at))] else m
    case MarkVerified(code, branch, at) =>
      if code in m && m[code].status == Issued
      then m[code := m[code].(status := Verified, verifiedBranch := Some(branch), verifiedAt := Some(at))]
      else m
  }

  /** The number of rows a write touches. */
  function Affected(m: map<string, CouponRow>, op: StoreOp): (n: nat)
    ensures n <= 1
    ensures n == 0 ==> Apply(m, op) == m
  {
    match op
    case Insert(row, fault) => if InsertError(m, row, fault).None? then 1 else 0
    case RecordFailedAttempt(code, _, _) => if code in m then 1 else 0
    case MarkVerified(code, _, _) => if code in m && m[code].status == Issued then 1 else 0
  }

  /** The part of a row that verification writes. */
  function Settlement(r: CouponRow): (string, Option<string>, Option<int>) {
    (r.status, r.verifiedBranch, r.verifiedAt)
  }

  /** The table after a sequence of writes, in order. */
  function Run(m: map<string, CouponRow>, ops: seq<StoreOp>): map<string, CouponRow>
    decreases |ops|
  {
    if ops == [] then m else Run(Apply(m, ops[0]), ops[1..])
  }

  /** The writes in ops that set coupon c's verified fields. */
  function VerifiedWrites(m: map<string, CouponRow>, ops: seq<StoreOp>, c: string): nat
    decreases |ops|
  {
    if ops == [] then 0
    else
      (if ops[0].MarkVerified? && ops[0].code == c && Affected(m, ops[0]) == 1 then 1 else 0)
      + VerifiedWrites(Apply(m, ops[0]), ops[1..], c)
  }

  /** One write keeps every row, and a row that is no longer ISSUED keeps its
      status, verified branch and verified time. */
  lemma ApplyKeepsSettled(m: map<string, CouponRow>, op: StoreOp, c: string)
    requires c in m
    ensures c in Apply(m, op)
    ensures m[c].status != Issued ==> Settlement(Apply(m, op)[c]) == Settlement(m[c])
  {
  }

  /** Rows are never deleted, and once a coupon has left ISSUED no sequence of
      writes changes its status or verified fields. */
  lemma {:induction false} RunKeepsSettled(m: map<string, CouponRow>, ops: seq<StoreOp>, c: string)
    requires c in m
    ensures c in Run(m, ops)
    ensures m[c].status != Issued ==> Settlement(Run(m, ops)[c]) == Settlement(m[c])
    decreases |ops|
  {
    if ops != [] {
      ApplyKeepsSettled(m, ops[0], c);
      RunKeepsSettled(Apply(m, ops[0]), ops[1..], c);
    }
  }

  /** A coupon that has left ISSUED receives no further verification write. */
  lemma {:induction false} NoVerifiedWriteOnceSettled(m: map<string, CouponRow>, ops: seq<StoreOp>, c: string)
    requires c in m && m[c].status != Issued
    ensures VerifiedWrites(m, ops, c) == 0
    decreases |ops|
  {
    if ops != [] {
      ApplyKeepsSettled(m, ops[0], c);
      NoVerifiedWriteOnceSettled(Apply(m, ops[0]), ops[1..], c);
    }
  }

  /** At most once: over any sequence of writes, the verified fields of a
      coupon are written by at most one conditional update. */
  lemma {:induction false} VerifiedAtMostOnce(m: map<string, CouponRow>, ops: seq<StoreOp>, c: string)
    ensures VerifiedWrites(m, ops, c) <= 1
    decreases |ops|
  {
    if ops != [] {
      var m1 := Apply(m, ops[0]);
      if ops[0].MarkVerified? && ops[0].code == c && Affected(m, ops[0]) == 1 {
        assert m1[c].status == Verified;
        NoVerifiedWriteOnceSettled(m1, ops[1..], c);
      } else {
        VerifiedAtMostOnce(m1, ops[1..], c);
      }
    }
  }

  /** A second verification of the same coupon touches no row and changes nothing. */
  lemma SecondVerificationIsNoOp(m: map<string, CouponRow>, c: string, b1: string, t1: int, b2: string, t2: int)
    ensures var m1 := Apply(m, MarkVerified(c, b1, t1));
            Affected(m1, MarkVerified(c, b2, t2)) == 0 && Apply(m1, MarkVerified(c, b2, t2)) == m1
  {
  }

  /** The backend: the `coupons` table and the `coupon_events` log. */
  class Store {
    var coupons: map<string, CouponRow>
    var events: seq<Event>

    constructor()
      ensures coupons == map[] && events == []
    {
      coupons := map[];
      events := [];
    }

    /** `insert(...)` with the key taken from the row; fault is what the
        backend reports besides a key collision. */
    method Insert(row: CouponRow, fault: Option<StoreError>) returns (err: Option<StoreError>)
      modifies this
      ensures err == InsertError(old(coupons), row, fault)
      ensures coupons == Apply(old(coupons), StoreOp.Insert(row, fault))
      ensures events == old(events)
    {
      if fault.Some? {
        err := fault;
      } else if row.code in coupons {
        err := Some(DuplicateKey);
      } else {
        coupons := coupons[row.code := row];
        err := None;
      }
    }

    /** `update({verify_attempt_count, last_verify_attempt_at}).eq("coupon_code", code)`. */
    method RecordFailedAttempt(code: string, count: nat, at: int)
      modifies this
      ensures coupons == Apply(old(coupons), StoreOp.RecordFailedAttempt(code, count, at))
      ensures events == old(events)
    {
      if code in coupons {
        coupons := coupons[code := coupons[code].(attemptCount := count, lastAttemptAt := Some(at))];
      }
    }

    /** `update({status: "VERIFIED", verified_branch_code, verified_at})
        .eq("coupon_code", code).eq("status", "ISSUED")`; fault is the error
        the backend reports, in which case nothing is written. Returns that
        error and the number of rows the filter matched. */
    method MarkVerified(code: string, branch: string, at: int, fault: Option<StoreError>)
        returns (affected: nat, err: Option<StoreError>)
      modifies this
      ensures err == fault
      ensures affected == (if fault.None? then Affected(old(coupons), StoreOp.MarkVerified(code, branch, at)) else 0)
      ensures coupons == (if fault.None? then Apply(old(coupons), StoreOp.MarkVerified(code, branch, at)) else old(coupons))
      ensures events == old(events)
    {
      affected := 0;
      err := fault;
      if fault.None? && code in coupons && coupons[code].status == Issued {
        coupons := coupons[code := coupons[code].(status := Verified, verifiedBranch := Some(branch), verifiedAt := Some(at))];
        affected := 1;
      }
    }

    /** `insert` into `coupon_events`. */
    method LogEvent(e: Event)
      modifies this
      ensures events == old(events) + [e]
      ensures coupons == old(coupons)
    {
      events := events + [e];
    }
  }
}
