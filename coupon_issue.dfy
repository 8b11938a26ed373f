/** The issue panel (src/components/CouponIssuePanel.tsx): check the branch
    password and the form, then insert a fresh coupon under a random code,
    drawing a new code up to three times when the insert is refused. */
module CouponIssue {
  import opened JsBuiltins
  import opened CouponUtils
  import opened CouponStore
  import CouponVerify

  /** The select value that asks for a free-text description. */
  const Custom := "CUSTOM"

  /** How many codes are drawn before giving up. */
  const MaxAttempts: nat := 3

  /** The error `createCoupon` shows. */
  datatype IssueError =
    | WrongBranchPassword
    | PhoneRequired
    | DiscountRequired
    | CustomDiscountRequired
    | HeadcountRequired
    | CustomHeadcountRequired
    | InsertFailed(cause: StoreError)

  /** The form fields `createCoupon` reads. */
  datatype IssueForm = IssueForm(
    branch: string,
    pw: string,
    phone: string,
    discountType: string,
    discountCustom: string,
    headcountType: string,
    headcountCustom: string)

  /** The checks before any insert, in the code's order: branch password,
      phone digits, discount type, custom discount text, headcount type,
      custom headcount text. Each error is reported exactly when every
      earlier check passed and its own fails. */
  function Validate(f: IssueForm): (r: Option<IssueError>)
    ensures r.None? <==>
              && PasswordOk(f.pw, f.branch) && Digits(f.phone) != []
              && f.discountType != "" && (f.discountType == Custom ==> Trim(f.discountCustom) != "")
              && f.headcountType != "" && (f.headcountType == Custom ==> Trim(f.headcountCustom) != "")
    ensures r == Some(WrongBranchPassword) <==> !PasswordOk(f.pw, f.branch)
    ensures r == Some(PhoneRequired) <==> PasswordOk(f.pw, f.branch) && Digits(f.phone) == []
    ensures r == Some(DiscountRequired) <==> PasswordOk(f.pw, f.branch) && Digits(f.phone) != [] && f.discountType == ""
    ensures r == Some(CustomDiscountRequired) <==>
              && PasswordOk(f.pw, f.branch) && Digits(f.phone) != [] && f.discountType != ""
              && f.discountType == Custom && Trim(f.discountCustom) == ""
    ensures r == Some(HeadcountRequired) <==>
              && PasswordOk(f.pw, f.branch) && Digits(f.phone) != []
              && f.discountType != "" && (f.discountType == Custom ==> Trim(f.discountCustom) != "")
              && f.headcountType == ""
    ensures r == Some(CustomHeadcountRequired) <==>
              && PasswordOk(f.pw, f.branch) && Digits(f.phone) != []
              && f.discountType != "" && (f.discountType == Custom ==> Trim(f.discountCustom) != "")
              && f.headcountType != "" && f.headcountType == Custom && Trim(f.headcountCustom) == ""
    ensures r.Some? ==> !r.value.InsertFailed?
  {
    if !PasswordOk(f.pw, f.branch) then Some(WrongBranchPassword)
    else if Digits(f.phone) == [] then Some(PhoneRequired)
    else if f.discountType == "" then Some(DiscountRequired)
    else if f.discountType == Custom && Trim(f.discountCustom) == "" then Some(CustomDiscountRequired)
    else if f.headcountType == "" then Some(HeadcountRequired)
    else if f.headcountType == Custom && Trim(f.headcountCustom) == "" then Some(CustomHeadcountRequired)
    else None
  }

  /** The stored custom text: the trimmed text for CUSTOM, null otherwise. */
  function CustomText(selected: string, text: string): (r: Option<string>)
    ensures r.Some? <==> selected == Custom
    ensures r.Some? ==> r.value == [] || (!IsJsSpace(r.value[0]) && !IsJsSpace(r.value[|r.value| - 1]))
    ensures r.Some? ==> exists i, j :: 0 <= i <= j <= |text| && r.value == text[i..j] && AllSpace(text[..i]) && AllSpace(text[j..])
    ensures r.Some? ==> (r.value == [] <==> AllSpace(text))
  {
    if selected == Custom then
      TrimShape(text);
      TrimCutsSpace(text);
      var i := |text| - |TrimStart(text)|;
      var j := i + |Trim(text)|;
      assert Trim(text) == text[i..j] && AllSpace(text[..i]) && AllSpace(text[j..]);
      Some(Trim(text))
    else None
  }

  /** The row inserted for a code; the table fills in the issue time, a zero
      attempt count and empty verification fields. */
  function NewRow(code: string, f: IssueForm, now: int): (row: CouponRow)
    ensures row.code == code && row.issuedBranch == f.branch && row.issuedAt == now
    ensures row.status == Issued && row.attemptCount == 0
    ensures row.verifiedBranch.None? && row.verifiedAt.None? && row.lastAttemptAt.None?
    ensures row.customerPhone == Some(Digits(f.phone)) && AllDigits(row.customerPhone.value)
    ensures row.discountType == Some(f.discountType) && row.headcountType == Some(f.headcountType)
    ensures row.discountCustomText == CustomText(f.discountType, f.discountCustom)
    ensures row.headcountCustomText == CustomText(f.headcountType, f.headcountCustom)
    ensures row.discountCustomText.Some? <==> f.discountType == Custom
    ensures row.headcountCustomText.Some? <==> f.headcountType == Custom
  {
    CouponRow(code, f.branch, now, Issued, None, None, 0, None,
              Some(Digits(f.phone)), Some(f.discountType), CustomText(f.discountType, f.discountCustom),
              Some(f.headcountType), CustomText(f.headcountType, f.headcountCustom))
  }

  /** The ISSUE event logged for a new coupon. */
  function IssueEvent(code: string, branch: string): Event {
    Event(code, Issue, branch, IssuedBranchMeta(branch))
  }

  predicate ValidDraws(draws: seq<seq<int>>) {
    forall i :: 0 <= i < |draws| ==> ValidDraw(draws[i])
  }

  /** The row each attempt would insert. */
  function AttemptRows(draws: seq<seq<int>>, f: IssueForm, now: int): (rows: seq<CouponRow>)
    requires ValidDraws(draws)
    ensures |rows| == |draws|
    ensures forall i :: 0 <= i < |rows| ==> rows[i] == NewRow(CodeOf(draws[i]), f, now)
  {
    seq(|draws|, i requires 0 <= i < |draws| => NewRow(CodeOf(draws[i]), f, now))
  }

  /** The first attempt from i on whose insert the table accepts; a refused
      insert leaves the table as it was, so every attempt sees the same table. */
  function FirstInserted(m: map<string, CouponRow>, rows: seq<CouponRow>, faults: seq<Option<StoreError>>, i: nat): (k: Option<nat>)
    requires |rows| == |faults|
    ensures k.Some? ==> i <= k.value < |rows| && InsertError(m, rows[k.value], faults[k.value]).None?
    ensures k.Some? ==> forall j :: i <= j < k.value ==> InsertError(m, rows[j], faults[j]).Some?
    ensures k.None? ==> forall j :: i <= j < |rows| ==> InsertError(m, rows[j], faults[j]).Some?
    decreases |rows| - i
  {
    if i >= |rows| then None
    else if InsertError(m, rows[i], faults[i]).None? then Some(i)
    else FirstInserted(m, rows, faults, i + 1)
  }

  /** A new coupon's code is eight upper-case letters and digits, which
      normalisation leaves alone (`CouponUtils.NormalizeFixesCodeStrings`);
      once the form passed, its phone digits and its custom texts are not
      empty. */
  lemma IssuedRowShape(draw: seq<int>, f: IssueForm, now: int)
    requires ValidDraw(draw)
    ensures var row := NewRow(CodeOf(draw), f, now);
            |row.code| == CodeLength && AllCodeChars(row.code)
    ensures var row := NewRow(CodeOf(draw), f, now);
            Validate(f).None? ==>
              && row.customerPhone.value != []
              && (row.discountCustomText.Some? ==> row.discountCustomText.value != [])
              && (row.headcountCustomText.Some? ==> row.headcountCustomText.value != [])
  {
    GeneratedCodeIsCodeChars(draw);
  }

  /** A freshly inserted coupon can be redeemed at once at any branch with
      that branch's password, on a device holding no lock for it. */
  lemma IssuedThenRedeemable(m: map<string, CouponRow>, draw: seq<int>, f: IssueForm, now: int,
                             branch: string, items: map<string, string>, later: int)
    requires ValidDraw(draw)
    requires branch in BranchPasswords
    requires LockKey(CodeOf(draw), branch) !in items
    ensures var row := NewRow(CodeOf(draw), f, now);
            CouponVerify.Path(row.code, branch, BranchPasswords[branch], items, m[row.code := row], later) == CouponVerify.Accept
  {
    var row := NewRow(CodeOf(draw), f, now);
    assert |row.code| == CodeLength;
    assert !LockStatus(items, LockKey(row.code, branch), later).locked;
  }

  /** The retry loop of `createCoupon`: attempt i inserts the row for the
      code of draws[i], and faults[i] is what the backend reports for that
      insert besides a key collision. The first accepted row is logged; when
      every attempt is refused, the last refusal is reported. */
  method InsertWithRetries(store: Store, f: IssueForm, draws: seq<seq<int>>, faults: seq<Option<StoreError>>, now: int)
      returns (created: Option<CouponRow>, failure: Option<StoreError>)
    requires |draws| == MaxAttempts && |faults| == MaxAttempts && ValidDraws(draws)
    modifies store
    ensures var m := old(store.coupons);
            var rows := AttemptRows(draws, f, now);
            var k := FirstInserted(m, rows, faults, 0);
            && (k.Some? ==>
                  created == Some(rows[k.value]) && failure == None
                  && rows[k.value].code !in m
                  && store.coupons == m[rows[k.value].code := rows[k.value]]
                  && store.events == old(store.events) + [IssueEvent(rows[k.value].code, f.branch)])
            && (k.None? ==>
                  created == None
                  && failure == InsertError(m, rows[MaxAttempts - 1], faults[MaxAttempts - 1]) && failure.Some?
                  && store.coupons == m && store.events == old(store.events))
  {
    ghost var rows := AttemptRows(draws, f, now);
    ghost var m := store.coupons;
    created := None;
    failure := None;
    var attempt := 0;
    while attempt < MaxAttempts
      invariant 0 <= attempt <= MaxAttempts
      invariant store.coupons == m && store.events == old(store.events) && created == None
      invariant FirstInserted(m, rows, faults, 0) == FirstInserted(m, rows, faults, attempt)
      invariant attempt == 0 ==> failure.None?
      invariant attempt > 0 ==> failure == InsertError(m, rows[attempt - 1], faults[attempt - 1]) && failure.Some?
    {
      var code := GenerateCouponCode8(draws[attempt]);
      var row := NewRow(code, f, now);
      var e := store.Insert(row, faults[attempt]);
      if e.None? {
        assert row == rows[attempt];
        assert FirstInserted(m, rows, faults, attempt) == Some(attempt);
        created := Some(row);
        store.LogEvent(IssueEvent(code, f.branch));
        failure := None;
        return;
      }
      failure := e;
      attempt := attempt + 1;
    }
  }

  /** The issue panel's state. */
  class IssuePanel {
    var branch: string
    var pw: string
    var phone: string
    var discountType: string
    var discountCustom: string
    var headcountType: string
    var headcountCustom: string
    var created: Option<CouponRow>
    var err: Option<IssueError>

    constructor(branchFromProfile: Option<string>)
      ensures branch == InitialBranch(branchFromProfile)
      ensures pw == "" && phone == "" && discountType == "" && discountCustom == ""
      ensures headcountType == "" && headcountCustom == "" && created == None && err == None
    {
      branch := InitialBranch(branchFromProfile);
      pw := "";
      phone := "";
      discountType := "";
      discountCustom := "";
      headcountType := "";
      headcountCustom := "";
      created := None;
      err := None;
    }

    /** The password input keeps the first five digits typed. */
    method SetPw(input: string)
      modifies this
      ensures pw == PasswordInput(input)
      ensures branch == old(branch) && phone == old(phone) && created == old(created) && err == old(err)
      ensures discountType == old(discountType) && discountCustom == old(discountCustom)
      ensures headcountType == old(headcountType) && headcountCustom == old(headcountCustom)
    {
      pw := PasswordInput(input);
    }

    /** The branch selector: only an administrator can change the branch. */
    method SelectBranch(b: string, isAdmin: bool)
      requires b in BranchCodes
      modifies this
      ensures branch == (if isAdmin then b else old(branch))
      ensures pw == old(pw) && phone == old(phone) && created == old(created) && err == old(err)
      ensures discountType == old(discountType) && discountCustom == old(discountCustom)
      ensures headcountType == old(headcountType) && headcountCustom == old(headcountCustom)
    {
      if isAdmin {
        branch := b;
      }
    }

    /** `createCoupon` at time now. Attempt i draws its code from draws[i],
        and faults[i] is what the backend reports for its insert besides a
        key collision. */
    method CreateCoupon(store: Store, draws: seq<seq<int>>, faults: seq<Option<StoreError>>, now: int)
      requires |draws| == MaxAttempts && |faults| == MaxAttempts && ValidDraws(draws)
      modifies this, store
      ensures var f := IssueForm(old(branch), old(pw), old(phone), old(discountType), old(discountCustom),
                                 old(headcountType), old(headcountCustom));
              var m := old(store.coupons);
              var rows := AttemptRows(draws, f, now);
              var k := FirstInserted(m, rows, faults, 0);
              && (Validate(f).Some? ==>
                    err == Validate(f) && created == None && pw == old(pw)
                    && store.coupons == m && store.events == old(store.events))
              && (Validate(f).None? && k.Some? ==>
                    err == None && created == Some(rows[k.value]) && pw == ""
                    && rows[k.value].code !in m
                    && store.coupons == m[rows[k.value].code := rows[k.value]]
                    && store.events == old(store.events) + [IssueEvent(rows[k.value].code, f.branch)])
              && (Validate(f).None? && k.None? ==>
                    err == Some(InsertFailed(InsertError(m, rows[MaxAttempts - 1], faults[MaxAttempts - 1]).value))
                    && created == None && pw == ""
                    && store.coupons == m && store.events == old(store.events))
      ensures branch == old(branch) && phone == old(phone)
      ensures discountType == old(discountType) && discountCustom == old(discountCustom)
      ensures headcountType == old(headcountType) && headcountCustom == old(headcountCustom)
    {
      err := None;
      created := None;
      var f := IssueForm(branch, pw, phone, discountType, discountCustom, headcountType, headcountCustom);
      var invalid := Validate(f);
      if invalid.Some? {
        err := invalid;
        return;
      }
      var row, failure := InsertWithRetries(store, f, draws, faults, now);
      created := row;
      if failure.Some? {
        err := Some(InsertFailed(failure.value));
      }
      pw := "";
    }
  }
}
