/** The completed-coupons list (src/components/CompletedListPage.tsx): the
    branch and phone filters over the loaded rows, paging by fifteen, the
    status label and the phone display. */
module CompletedList {
  import opened JsBuiltins
  import opened CouponStore
  import CouponVerify

  datatype Tab = AllTab | BranchTab

  /** The branch-filter value that keeps every row. */
  const AllBranches := "ALL"

  const PageSize: nat := 15

  /** `s.filter(p)`. */
  function Filter<T(!new)>(s: seq<T>, p: T -> bool): (r: seq<T>)
    ensures |r| <= |s|
    ensures forall x :: x in r <==> x in s && p(x)
    ensures (forall i :: 0 <= i < |s| ==> p(s[i])) ==> r == s
  {
    if s == [] then []
    else (if p(s[0]) then [s[0]] else []) + Filter(s[1..], p)
  }

  /** Filtering keeps the order: it distributes over concatenation. */
  lemma {:induction false} FilterAppend<T(!new)>(a: seq<T>, b: seq<T>, p: T -> bool)
    ensures Filter(a + b, p) == Filter(a, p) + Filter(b, p)
  {
    if a == [] {
      assert a + b == b;
    } else {
      assert (a + b)[1..] == a[1..] + b;
      FilterAppend(a[1..], b, p);
    }
  }

  /** A row belongs to a branch when that branch verified or issued it. */
  predicate OfBranch(r: CouponRow, branch: string) {
    r.verifiedBranch == Some(branch) || r.issuedBranch == branch
  }

  /** `baseFiltered`. */
  function BaseFiltered(rows: seq<CouponRow>, tab: Tab, branchFilter: string): (r: seq<CouponRow>)
    ensures tab == AllTab || branchFilter == AllBranches ==> r == rows
    ensures tab == BranchTab && branchFilter != AllBranches ==>
              forall x :: x in r <==> x in rows && OfBranch(x, branchFilter)
  {
    if tab == AllTab || branchFilter == AllBranches then rows
    else Filter(rows, x => OfBranch(x, branchFilter))
  }

  /** needle occurs in hay starting at index i. */
  predicate OccursAt(hay: string, needle: string, i: nat) {
    i + |needle| <= |hay| && hay[i..i + |needle|] == needle
  }

  /** `hay.includes(needle)`: needle occurs in hay as a contiguous part. */
  function Includes(hay: string, needle: string): (b: bool)
    ensures b <==> exists i: nat :: OccursAt(hay, needle, i)
    decreases |hay|
  {
    if |needle| > |hay| then false
    else if hay[..|needle|] == needle then assert OccursAt(hay, needle, 0); true
    else
      var b := Includes(hay[1..], needle);
      assert b ==> exists i: nat :: OccursAt(hay, needle, i) by {
        if b {
          var i: nat :| OccursAt(hay[1..], needle, i);
          assert hay[1..][i..i + |needle|] == hay[i + 1..i + 1 + |needle|];
          assert OccursAt(hay, needle, i + 1);
        }
      }
      assert (exists i: nat :: OccursAt(hay, needle, i)) ==> b by {
        if exists i: nat :: OccursAt(hay, needle, i) {
          var i: nat :| OccursAt(hay, needle, i);
          assert i != 0;
          assert hay[1..][i - 1..i - 1 + |needle|] == hay[i..i + |needle|];
          assert OccursAt(hay[1..], needle, i - 1);
        }
      }
      b
  }

  /** The digits of a row's phone (`(r.customer_phone ?? "").replace(/\D/g, "")`). */
  function PhoneDigitsOf(r: CouponRow): string {
    Digits(if r.customerPhone.Some? then r.customerPhone.value else "")
  }

  /** `filtered`: a query without digits keeps everything; otherwise a row
      is kept when its phone digits contain the query's digits. */
  function Filtered(base: seq<CouponRow>, phoneQuery: string): (r: seq<CouponRow>)
    ensures Digits(phoneQuery) == [] ==> r == base
    ensures Digits(phoneQuery) != [] ==>
              forall x :: x in r <==> x in base && Includes(PhoneDigitsOf(x), Digits(phoneQuery))
  {
    var q := Digits(phoneQuery);
    if |q| == 0 then base else Filter(base, x => Includes(PhoneDigitsOf(x), q))
  }

  /** `maxPage`: `Math.max(1, Math.ceil(n / 15))`, the fewest pages of
      fifteen that hold n rows, and at least one. */
  function MaxPage(n: nat): (p: nat)
    ensures p >= 1
    ensures p * PageSize >= n
    ensures p == 1 || (p - 1) * PageSize < n
  {
    if n == 0 then 1 else (n + PageSize - 1) / PageSize
  }

  /** `visible`: `filtered.slice(0, page * 15)`. */
  function Visible<T>(filtered: seq<T>, page: nat): (r: seq<T>)
    ensures |r| == if page * PageSize < |filtered| then page * PageSize else |filtered|
    ensures r == filtered[..|r|]
  {
    filtered[..if page * PageSize < |filtered| then page * PageSize else |filtered|]
  }

  /** From the last page on, every filtered row is shown; each page shows
      the previous page's rows and more. */
  lemma VisiblePaging<T>(filtered: seq<T>, page: nat)
    ensures page >= MaxPage(|filtered|) ==> Visible(filtered, page) == filtered
    ensures Visible(filtered, page) == Visible(filtered, page + 1)[..|Visible(filtered, page)|]
    ensures 1 <= page < MaxPage(|filtered|) ==>
              |Visible(filtered, page)| == page * PageSize < |Visible(filtered, page + 1)|
  {
    var n := MaxPage(|filtered|);
    if page >= n {
      assert page * PageSize >= n * PageSize;
    } else if 1 <= page {
      assert page * PageSize <= (n - 1) * PageSize;
    }
  }

  /** `statusLabel`: the three known statuses get their Korean label, any
      other status is shown as it is. */
  function StatusLabel(status: string): (text: string)
    ensures status == Issued ==> text == "발행"
    ensures status == Verified ==> text == "사용완료"
    ensures status == Void ==> text == "무효"
    ensures status != Issued && status != Verified && status != Void ==> text == status
  {
    if status == Issued then "발행"
    else if status == Verified then "사용완료"
    else if status == Void then "무효"
    else status
  }

  /** `formatPhone(phone, full)`. */
  function FormatPhone(phone: Option<string>, full: bool): (r: string)
    ensures phone.None? || phone.value == "" ==> r == "-"
    ensures phone.Some? && phone.value != "" && |Digits(phone.value)| < 4 ==> r == phone.value
    ensures phone.Some? && phone.value != "" && full ==>
              var d := Digits(phone.value);
              && (|d| == 11 ==> r == d[..3] + "-" + d[3..7] + "-" + d[7..])
              && (|d| == 10 ==> r == d[..3] + "-" + d[3..6] + "-" + d[6..])
              && (4 <= |d| && |d| != 10 && |d| != 11 ==> r == d)
    ensures phone.Some? && phone.value != "" && !full ==>
              var d := Digits(phone.value);
              && (|d| >= 7 ==> |r| == 13 && r[..3] == d[..3] && r[3..9] == "-****-" && r[9..] == d[|d| - 4..])
              && (4 <= |d| < 7 ==> |r| == |d| && r[|d| - 2..] == d[|d| - 2..]
                                   && forall i :: 0 <= i < |d| - 2 ==> r[i] == '*')
  {
    if phone.None? || phone.value == "" then "-"
    else
      var digits := Digits(phone.value);
      if |digits| < 4 then phone.value
      else if full then
        if |digits| == 11 then digits[..3] + "-" + digits[3..7] + "-" + digits[7..]
        else if |digits| == 10 then digits[..3] + "-" + digits[3..6] + "-" + digits[6..]
        else digits
      else if |digits| >= 7 then digits[..3] + "-****-" + digits[|digits| - 4..]
      else Repeat('*', |digits| - 2) + digits[|digits| - 2..]
  }

  /** `s.replace(/-/g, "")`. */
  function RemoveDashes(s: string): (r: string)
    ensures |r| <= |s|
    ensures '-' !in r
  {
    if s == [] then [] else (if s[0] == '-' then [] else [s[0]]) + RemoveDashes(s[1..])
  }

  lemma {:induction false} RemoveDashesAppend(a: string, b: string)
    ensures RemoveDashes(a + b) == RemoveDashes(a) + RemoveDashes(b)
  {
    if a == [] {
      assert a + b == b;
    } else {
      var h := if a[0] == '-' then [] else [a[0]];
      assert (a + b)[0] == a[0];
      assert (a + b)[1..] == a[1..] + b;
      assert RemoveDashes(a + b) == h + RemoveDashes(a[1..] + b);
      RemoveDashesAppend(a[1..], b);
      assert RemoveDashes(a) == h + RemoveDashes(a[1..]);
    }
  }

  lemma {:induction false} RemoveDashesOfDigits(s: string)
    requires AllDigits(s)
    ensures RemoveDashes(s) == s
  {
    if s != [] {
      RemoveDashesOfDigits(s[1..]);
    }
  }

  /** A dash put between two strings comes out again. */
  lemma RemoveDashBetween(u: string, v: string)
    ensures RemoveDashes(u + "-" + v) == RemoveDashes(u) + RemoveDashes(v)
  {
    var w := "-" + v;
    assert w[0] == '-' && w[1..] == v;
    assert RemoveDashes(w) == RemoveDashes(v);
    RemoveDashesAppend(u, w);
    assert u + "-" + v == u + w;
  }

  lemma RemoveTwoDashes(x: string, y: string, z: string)
    ensures RemoveDashes(x + "-" + y + "-" + z) == RemoveDashes(x) + RemoveDashes(y) + RemoveDashes(z)
  {
    RemoveDashBetween(x, y);
    RemoveDashBetween(x + "-" + y, z);
  }

  /** Dashes put between blocks of digits come out again. */
  lemma DashedKeepsDigits(x: string, y: string, z: string)
    requires AllDigits(x) && AllDigits(y) && AllDigits(z)
    ensures RemoveDashes(x + "-" + y + "-" + z) == x + y + z
  {
    RemoveDashesOfDigits(x);
    RemoveDashesOfDigits(y);
    RemoveDashesOfDigits(z);
    RemoveTwoDashes(x, y, z);
  }

  /** The full format only inserts dashes: removing them gives the digits
      back, for every phone with four digits or more. */
  lemma FullFormatKeepsDigits(phone: string)
    requires |Digits(phone)| >= 4
    ensures RemoveDashes(FormatPhone(Some(phone), true)) == Digits(phone)
  {
    var d := Digits(phone);
    var r := FormatPhone(Some(phone), true);
    if |d| == 11 {
      assert r == d[..3] + "-" + d[3..7] + "-" + d[7..];
      DashedKeepsDigits(d[..3], d[3..7], d[7..]);
      assert d[..3] + d[3..7] + d[7..] == d;
    } else if |d| == 10 {
      assert r == d[..3] + "-" + d[3..6] + "-" + d[6..];
      DashedKeepsDigits(d[..3], d[3..6], d[6..]);
      assert d[..3] + d[3..6] + d[6..] == d;
    } else {
      assert r == d;
      RemoveDashesOfDigits(d);
    }
  }

  /** The list's masked display and the verification panel's inline mask
      agree on every phone with four digits or more. */
  lemma MaskedFormatMatchesInlineMask(phone: string)
    requires |Digits(phone)| >= 4
    ensures FormatPhone(Some(phone), false) == CouponVerify.MaskPhoneInline(Some(phone))
  {
  }
}
