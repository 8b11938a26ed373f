/** The verification panel (src/components/CouponVerifyPanel.tsx): look a
    coupon up by its normalised code and redeem it with the branch password,
    counting wrong passwords and locking the (code, branch) pair on this
    device after the fifth. */
module CouponVerify {
  import opened JsBuiltins
  import opened CouponUtils
  import opened CouponStore

  /** `maskPhoneInline`: a phone number with all but its first three and last
      four digits hidden; short numbers keep only their last two digits. */
  function MaskPhoneInline(phone: Option<string>): (r: string)
    ensures phone.None? || phone.value == "" ==> r == "-"
    ensures phone.Some? && phone.value != "" ==>
              var d := Digits(phone.value);
              && (|d| >= 7 ==> |r| == 13 && r[..3] == d[..3] && r[3..9] == "-****-" && r[9..] == d[|d| - 4..])
              && (|d| <= 2 ==> r == d)
              && (3 <= |d| < 7 ==> |r| == |d| && r[|d| - 2..] == d[|d| - 2..]
                                   && forall i :: 0 <= i < |d| - 2 ==> r[i] == '*')
  {
    if phone.None? || phone.value == "" then "-"
    else
      var digits := Digits(phone.value);
      if |digits| >= 7 then digits[..3] + "-****-" + digits[|digits| - 4..]
      else if |digits| <= 2 then digits
      else Repeat('*', |digits| - 2) + digits[|digits| - 2..]
  }

  /** The threshold of failed attempts at which the device locks the pair. */
  const LockThreshold: nat := 5

  const WrongPasswordReason := "WRONG_PASSWORD"

  /** The error `verify` shows. */
  datatype VerifyError =
    | CodeRequired
    | LockedOut(remainingSec: int)
    | NotFound
    | AlreadyProcessed(status: string)
    | WrongBranchPassword
    | RedeemFailed(cause: StoreError)

  /** The success notice `verify` shows. */
  datatype VerifyNotice = Redeemed

  /** Which way a call to `verify` goes, decided from the state when it starts. */
  datatype VerifyPath =
    | RejectEmpty
    | RejectLocked(remainingSec: int)
    | RejectMissing
    | RejectSettled(status: string)
    | RejectPassword(nextCount: nat)
    | Accept
    | RedeemUpdateFailed(cause: StoreError)

  /** The guards of `verify`, in the order the code checks them: empty code,
      device lock, missing row, status other than ISSUED, wrong password. The
      code is the panel's code field, which holds normalised text
      (`VerifyPanel.Valid`), so normalising it once more changes nothing
      (`CouponUtils.NormalizeFixesCodeStrings`). */
  function Path(code: string, branch: string, pw: string,
                items: map<string, string>, coupons: map<string, CouponRow>, now: int): (p: VerifyPath)
    ensures p == Accept <==>
              && code != "" && !LockStatus(items, LockKey(code, branch), now).locked
              && code in coupons && coupons[code].status == Issued && PasswordOk(pw, branch)
    ensures p.RejectPassword? ==>
              && code in coupons && coupons[code].status == Issued && !PasswordOk(pw, branch)
              && p.nextCount == coupons[code].attemptCount + 1
    ensures !p.RedeemUpdateFailed?
  {
    var lock := LockStatus(items, LockKey(code, branch), now);
    if code == "" then RejectEmpty
    else if lock.locked then RejectLocked(lock.remainingSec)
    else if code !in coupons then RejectMissing
    else if coupons[code].status != Issued then RejectSettled(coupons[code].status)
    else if !PasswordOk(pw, branch) then RejectPassword(coupons[code].attemptCount + 1)
    else Accept
  }

  /** The error shown on each path. */
  function ErrorOf(p: VerifyPath): Option<VerifyError> {
    match p
    case RejectEmpty => Some(CodeRequired)
    case RejectLocked(sec) => Some(LockedOut(sec))
    case RejectMissing => Some(NotFound)
    case RejectSettled(status) => Some(AlreadyProcessed(status))
    case RejectPassword(_) => Some(WrongBranchPassword)
    case Accept => None
    case RedeemUpdateFailed(cause) => Some(RedeemFailed(cause))
  }

  /** How `verify` ends once the redeem update's answer is known: a guard
      that rejected stays rejected, and an accepted call whose update the
      backend refuses goes to the error handler instead. */
  function Outcome(p: VerifyPath, redeemFault: Option<StoreError>): (q: VerifyPath)
    ensures q == Accept <==> p == Accept && redeemFault.None?
    ensures p == Accept && redeemFault.Some? ==> q == RedeemUpdateFailed(redeemFault.value)
    ensures p != Accept ==> q == p
  {
    if p == Accept && redeemFault.Some? then RedeemUpdateFailed(redeemFault.value) else p
  }

  /** The writes to `coupons` on each path. */
  function WritesOf(p: VerifyPath, code: string, branch: string, now: int): seq<StoreOp> {
    match p
    case RejectPassword(n) => [RecordFailedAttempt(code, n, now)]
    case Accept => [MarkVerified(code, branch, now)]
    case _ => []
  }

  /** The events logged on each path. */
  function EventsOf(p: VerifyPath, code: string, branch: string): seq<Event> {
    match p
    case RejectPassword(_) => [Event(code, VerifyFail, branch, Reason(WrongPasswordReason))]
    case Accept => [Event(code, VerifySuccess, branch, VerifiedBranchMeta(branch))]
    case _ => []
  }

  /** The device's lock entries after each path: the lock check (skipped for an
      empty code) lazily drops an expired entry, and a failed attempt that
      brings the count to five or more sets a ten-minute lock. */
  function LocksAfter(p: VerifyPath, code: string, branch: string, items: map<string, string>, now: int): map<string, string> {
    if p.RejectEmpty? then items
    else
      var checked := ItemsAfterCheck(items, LockKey(code, branch), now);
      if p.RejectPassword? && p.nextCount >= LockThreshold
      then checked[LockKey(code, branch) := IntToString(now + LockMillis)]
      else checked
  }

  /** An empty code or an active lock rejects before the store is read: the
      decision does not depend on the table, and nothing is written or logged. */
  lemma RejectedBeforeStoreRead(code: string, branch: string, pw: string,
                                items: map<string, string>, c1: map<string, CouponRow>, c2: map<string, CouponRow>, now: int)
    requires code == "" || LockStatus(items, LockKey(code, branch), now).locked
    ensures Path(code, branch, pw, items, c1, now) == Path(code, branch, pw, items, c2, now)
    ensures var p := Path(code, branch, pw, items, c1, now);
            (p.RejectEmpty? || p.RejectLocked?) && WritesOf(p, code, branch, now) == [] && EventsOf(p, code, branch) == []
  {
  }

  /** A coupon that is not ISSUED is never redeemed and its attempt count is
      not raised: no write, no event. */
  lemma SettledCouponRejected(code: string, branch: string, pw: string,
                              items: map<string, string>, coupons: map<string, CouponRow>, now: int)
    requires code in coupons && coupons[code].status != Issued
    ensures var p := Path(code, branch, pw, items, coupons, now);
            && p != Accept && !p.RejectPassword?
            && WritesOf(p, code, branch, now) == [] && EventsOf(p, code, branch) == []
            && (p.RejectSettled? ==> ErrorOf(p) == Some(AlreadyProcessed(coupons[code].status)))
  {
  }

  /** A wrong password on an ISSUED coupon raises its attempt count by exactly
      one and stamps the attempt time, leaves every other field and every other
      row as it was, and logs exactly one VERIFY_FAIL with reason WRONG_PASSWORD. */
  lemma WrongPasswordEffect(code: string, branch: string, pw: string,
                            items: map<string, string>, coupons: map<string, CouponRow>, now: int)
    requires Path(code, branch, pw, items, coupons, now).RejectPassword?
    ensures var p := Path(code, branch, pw, items, coupons, now);
            var after := Run(coupons, WritesOf(p, code, branch, now));
            && code in coupons && coupons[code].status == Issued && !PasswordOk(pw, branch)
            && code in after
            && after[code] == coupons[code].(attemptCount := coupons[code].attemptCount + 1, lastAttemptAt := Some(now))
            && Settlement(after[code]) == Settlement(coupons[code])
            && after.Keys == coupons.Keys
            && (forall c :: c in coupons && c != code ==> after[c] == coupons[c])
            && EventsOf(p, code, branch) == [Event(code, VerifyFail, branch, Reason(WrongPasswordReason))]
  {
    var p := Path(code, branch, pw, items, coupons, now);
    assert Run(coupons, WritesOf(p, code, branch, now)) == Apply(coupons, RecordFailedAttempt(code, p.nextCount, now));
  }

  /** The device lock is set exactly when the raised count reaches five; every
      other entry is left as it was. */
  lemma LockSetAtFifthFailure(code: string, branch: string, pw: string,
                              items: map<string, string>, coupons: map<string, CouponRow>, now: int)
    requires Path(code, branch, pw, items, coupons, now).RejectPassword?
    ensures var p := Path(code, branch, pw, items, coupons, now);
            var key := LockKey(code, branch);
            var after := LocksAfter(p, code, branch, items, now);
            && p.nextCount == coupons[code].attemptCount + 1
            && (p.nextCount >= LockThreshold <==> (key in after && after[key] == IntToString(now + LockMillis)))
            && (forall k :: k != key ==> (k in after <==> k in items) && (k in after ==> after[k] == items[k]))
            && (p.nextCount < LockThreshold ==> after == ItemsAfterCheck(items, key, now))
  {
    var key := LockKey(code, branch);
    var checked := ItemsAfterCheck(items, key, now);
    if key in checked {
      ParseIntToString(now + LockMillis);
      assert checked[key] != IntToString(now + LockMillis) by {
        assert items[key] == checked[key];
        assert !LockStatus(items, key, now).locked;
      }
    }
  }

  /** A correct password on an ISSUED coupon sets VERIFIED, the verifying
      branch and the time on that row only, and logs one VERIFY_SUCCESS. */
  lemma AcceptEffect(code: string, branch: string, pw: string,
                     items: map<string, string>, coupons: map<string, CouponRow>, now: int)
    requires Path(code, branch, pw, items, coupons, now) == Accept
    ensures var after := Run(coupons, WritesOf(Accept, code, branch, now));
            && code != "" && code in coupons && coupons[code].status == Issued && PasswordOk(pw, branch)
            && !LockStatus(items, LockKey(code, branch), now).locked
            && after == coupons[code := coupons[code].(status := Verified, verifiedBranch := Some(branch), verifiedAt := Some(now))]
            && EventsOf(Accept, code, branch) == [Event(code, VerifySuccess, branch, VerifiedBranchMeta(branch))]
  {
    assert Run(coupons, WritesOf(Accept, code, branch, now)) == Apply(coupons, MarkVerified(code, branch, now));
  }

  /** When the backend refuses the redeem update, the row and the log are
      left as they were, no success is logged, and the error is shown. */
  lemma RedeemFailureEffect(code: string, branch: string, pw: string,
                            items: map<string, string>, coupons: map<string, CouponRow>, now: int, fault: StoreError)
    requires Path(code, branch, pw, items, coupons, now) == Accept
    ensures var q := Outcome(Accept, Some(fault));
            && ErrorOf(q) == Some(RedeemFailed(fault))
            && Run(coupons, WritesOf(q, code, branch, now)) == coupons
            && EventsOf(q, code, branch) == []
            && LocksAfter(q, code, branch, items, now) == ItemsAfterCheck(items, LockKey(code, branch), now)
  {
  }

  /** The verification panel's state. */
  class VerifyPanel {
    var couponCode: string
    var coupon: Option<CouponRow>
    var branch: string
    var pw: string
    var msg: Option<VerifyNotice>
    var err: Option<VerifyError>

    /** Every write to the code field normalises it. */
    predicate Valid()
      reads this
    {
      AllCodeChars(couponCode)
    }

    constructor(initialCouponCode: string, branchFromProfile: Option<string>)
      ensures Valid()
      ensures couponCode == NormalizeCouponCode(initialCouponCode)
      ensures branch == InitialBranch(branchFromProfile)
      ensures coupon == None && pw == "" && msg == None && err == None
    {
      couponCode := NormalizeCouponCode(initialCouponCode);
      branch := InitialBranch(branchFromProfile);
      coupon := None;
      pw := "";
      msg := None;
      err := None;
    }

    /** The code input: what is typed is stored normalised. */
    method SetCouponCode(input: string)
      modifies this
      ensures Valid()
      ensures couponCode == NormalizeCouponCode(input)
      ensures coupon == old(coupon) && branch == old(branch) && pw == old(pw) && msg == old(msg) && err == old(err)
    {
      couponCode := NormalizeCouponCode(input);
    }

    /** The password input keeps the first five digits typed. */
    method SetPw(input: string)
      modifies this
      ensures pw == PasswordInput(input)
      ensures couponCode == old(couponCode) && coupon == old(coupon) && branch == old(branch)
      ensures msg == old(msg) && err == old(err)
    {
      pw := PasswordInput(input);
    }

    /** The branch selector: only an administrator can change the branch. */
    method SelectBranch(b: string, isAdmin: bool)
      requires b in BranchCodes
      modifies this
      ensures branch == (if isAdmin then b else old(branch))
      ensures couponCode == old(couponCode) && coupon == old(coupon) && pw == old(pw)
      ensures msg == old(msg) && err == old(err)
    {
      if isAdmin {
        branch := b;
      }
    }

    /** `normalizeCouponCode(couponCode)` on the code field. */
    method NormalizedCode() returns (code: string)
      requires Valid()
      ensures code == couponCode
    {
      code := NormalizeCouponCode(couponCode);
      NormalizeFixesCodeStrings(couponCode);
    }

    /** `fetchCoupon`: load the row for the code. */
    method FetchCoupon(store: Store)
      requires Valid()
      modifies this
      ensures coupon == (if old(couponCode) != "" && old(couponCode) in store.coupons then Some(store.coupons[old(couponCode)]) else None)
      ensures err == (if old(couponCode) != "" && old(couponCode) !in store.coupons then Some(NotFound) else None)
      ensures msg == None
      ensures couponCode == old(couponCode) && branch == old(branch) && pw == old(pw)
    {
      err := None;
      msg := None;
      coupon := None;
      var code := NormalizedCode();
      if code == "" {
        return;
      }
      if code !in store.coupons {
        err := Some(NotFound);
        return;
      }
      coupon := Some(store.coupons[code]);
    }

    /** `logEvent`: append an event for the code, unless the code field is empty. */
    method LogEvent(store: Store, eventType: EventType, meta: EventMeta)
      requires Valid()
      modifies store
      ensures store.events == old(store.events) + (if couponCode == "" then [] else [Event(couponCode, eventType, branch, meta)])
      ensures store.coupons == old(store.coupons)
    {
      if couponCode == "" {
        return;
      }
      var code := NormalizedCode();
      store.LogEvent(Event(code, eventType, branch, meta));
    }

    /** `verify` at time now; redeemFault is the error the backend reports
        for the redeem update, should the call get that far. */
    method Verify(store: Store, locks: LocalStorage, now: int, redeemFault: Option<StoreError>)
      requires Valid()
      modifies this, store, locks
      ensures var code := old(couponCode);
              var p := Outcome(Path(code, old(branch), old(pw), old(locks.items), old(store.coupons), now), redeemFault);
              && err == ErrorOf(p)
              && msg == (if p == Accept then Some(Redeemed) else None)
              && store.coupons == Run(old(store.coupons), WritesOf(p, code, old(branch), now))
              && store.events == old(store.events) + EventsOf(p, code, old(branch))
              && locks.items == LocksAfter(p, code, old(branch), old(locks.items), now)
              && (if p == Accept then pw == "" && couponCode == "" && coupon == None
                  else pw == old(pw) && couponCode == old(couponCode) && coupon == old(coupon))
      ensures branch == old(branch) && Valid()
    {
      ghost var p := Path(couponCode, branch, pw, locks.items, store.coupons, now);
      ghost var q := Outcome(p, redeemFault);
      err := None;
      msg := None;
      var code := NormalizedCode();
      if code == "" {
        err := Some(CodeRequired);
        return;
      }
      var lock := locks.IsLocallyLocked(couponCode, branch, now);
      if lock.locked {
        err := Some(LockedOut(lock.remainingSec));
        return;
      }
      if code !in store.coupons {
        err := Some(NotFound);
        return;
      }
      var row := store.coupons[code];
      if row.status != Issued {
        err := Some(AlreadyProcessed(row.status));
        return;
      }
      if !PasswordOk(pw, branch) {
        assert p == RejectPassword(row.attemptCount + 1);
        RejectWrongPassword(store, locks, code, row.attemptCount + 1, now);
        return;
      }
      assert p == Accept;
      FinishVerification(store, code, now, redeemFault);
      assert store.coupons == Run(old(store.coupons), WritesOf(q, code, branch, now));
    }

    /** The wrong-password half of `verify`: count the attempt, log it, lock
        the pair on this device from the fifth failure on, and show the error. */
    method RejectWrongPassword(store: Store, locks: LocalStorage, code: string, nextCount: nat, now: int)
      requires Valid() && couponCode == code != ""
      modifies this, store, locks
      ensures store.coupons == Run(old(store.coupons), WritesOf(RejectPassword(nextCount), code, branch, now))
      ensures store.events == old(store.events) + EventsOf(RejectPassword(nextCount), code, branch)
      ensures locks.items == (if nextCount >= LockThreshold
                              then old(locks.items)[LockKey(code, branch) := IntToString(now + LockMillis)]
                              else old(locks.items))
      ensures err == Some(WrongBranchPassword) && msg == old(msg)
      ensures couponCode == old(couponCode) && pw == old(pw) && coupon == old(coupon) && branch == old(branch)
    {
      store.RecordFailedAttempt(code, nextCount, now);
      assert store.coupons == Run(old(store.coupons), WritesOf(RejectPassword(nextCount), code, branch, now));
      LogEvent(store, VerifyFail, Reason(WrongPasswordReason));
      if nextCount >= LockThreshold {
        locks.SetLocalLock10Min(code, branch, now);
      }
      err := Some(WrongBranchPassword);
    }

    /** The write half of `verify`, after the row was read and found ISSUED.
        The read and this write are separate requests, so another device's
        write may land in between. The conditional update then matches no
        row; its affected count is not looked at, and success is logged and
        shown all the same. Only an error the backend reports for the update
        stops it: the error is shown and nothing else happens. */
    method FinishVerification(store: Store, code: string, now: int, fault: Option<StoreError>)
      requires Valid()
      modifies this, store
      ensures store.coupons == (if fault.None? then Apply(old(store.coupons), MarkVerified(code, old(branch), now))
                                else old(store.coupons))
      ensures store.events == old(store.events)
                + (if fault.Some? || old(couponCode) == "" then []
                   else [Event(old(couponCode), VerifySuccess, old(branch), VerifiedBranchMeta(old(branch)))])
      ensures fault.None? ==> msg == Some(Redeemed) && err == old(err) && pw == "" && couponCode == "" && coupon == None
      ensures fault.Some? ==> msg == old(msg) && err == Some(RedeemFailed(fault.value))
                              && pw == old(pw) && couponCode == old(couponCode) && coupon == old(coupon)
      ensures branch == old(branch)
    {
      var _, upErr := store.MarkVerified(code, branch, now, fault);
      if upErr.Some? {
        err := Some(RedeemFailed(upErr.value));
        return;
      }
      LogEvent(store, VerifySuccess, VerifiedBranchMeta(branch));
      msg := Some(Redeemed);
      pw := "";
      couponCode := "";
      coupon := None;
    }
  }

  /** Two devices redeem the same ISSUED coupon: device A has read the row and
      passed every guard when device B's whole `verify` runs; A's write then
      changes nothing, yet both devices show success and the log holds two
      VERIFY_SUCCESS events. The row keeps B's branch. */
  method LostRace(row: CouponRow, branchA: string, branchB: string, now: int)
      returns (store: Store, a: VerifyPanel, b: VerifyPanel)
    requires row.status == Issued && row.code != "" && AllCodeChars(row.code)
    requires branchA in BranchCodes && branchB in BranchCodes
    ensures a.msg == Some(Redeemed) && b.msg == Some(Redeemed)
    ensures row.code in store.coupons && store.coupons[row.code].verifiedBranch == Some(branchB)
    ensures |store.events| == 2 && store.events[0].eventType == VerifySuccess && store.events[1].eventType == VerifySuccess
  {
    store := new Store();
    store.coupons := map[row.code := row];
    a := PanelWithPassword(row.code, branchA);
    b := RedeemOnFreshDevice(store, row, branchB, now);
    ghost var settled := store.coupons;
    assert Apply(settled, MarkVerified(row.code, branchA, now)) == settled;
    a.FinishVerification(store, row.code, now, None);
  }

  /** A panel opened on a coupon code at a branch, with the branch's password typed in. */
  method PanelWithPassword(code: string, branch: string) returns (p: VerifyPanel)
    requires code != "" && AllCodeChars(code) && branch in BranchCodes
    ensures fresh(p) && p.Valid()
    ensures p.couponCode == code && p.branch == branch && p.pw == BranchPasswords[branch]
    ensures p.msg == None && p.err == None && p.coupon == None
  {
    NormalizeFixesCodeStrings(code);
    p := new VerifyPanel(code, Some(branch));
    p.pw := BranchPasswords[branch];
  }

  /** A whole `verify` of an ISSUED coupon on a device with no locks, with
      the branch's password typed in and the backend accepting the update. */
  method RedeemOnFreshDevice(store: Store, row: CouponRow, branch: string, now: int) returns (p: VerifyPanel)
    requires store.coupons == map[row.code := row]
    requires row.status == Issued && row.code != "" && AllCodeChars(row.code)
    requires branch in BranchCodes
    modifies store
    ensures fresh(p) && p.msg == Some(Redeemed)
    ensures store.coupons == map[row.code := row.(status := Verified, verifiedBranch := Some(branch), verifiedAt := Some(now))]
    ensures store.events == old(store.events) + [Event(row.code, VerifySuccess, branch, VerifiedBranchMeta(branch))]
  {
    var locks := new LocalStorage();
    p := PanelWithPassword(row.code, branch);
    assert LockStatus(locks.items, LockKey(p.couponCode, p.branch), now).locked == false;
    assert Path(p.couponCode, p.branch, p.pw, locks.items, store.coupons, now) == Accept;
    AcceptEffect(row.code, branch, BranchPasswords[branch], map[], map[row.code := row], now);
    p.Verify(store, locks, now, None);
  }
}
