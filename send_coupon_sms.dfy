/** The `send-coupon-sms` edge function
    (supabase/functions/send-coupon-sms/index.ts): the phone number sent to
    the SMS gateway, the `{{placeholder}}` substitution into the default
    template of a type, and the order in which the handler answers. */
module SendCouponSms {
  import opened JsBuiltins
  import opened SmsTemplates

  predicate StartsWith(s: string, prefix: string) {
    |prefix| <= |s| && s[..|prefix|] == prefix
  }

  // ---------------------------------------------------------------------
  // toKoreanPhone
  // ---------------------------------------------------------------------

  /** `toKoreanPhone`: the digits of the phone, with a country code 82 read
      as the domestic form. */
  function ToKoreanPhone(phone: string): (r: string)
    ensures AllDigits(r)
    ensures var d := Digits(phone);
            && (StartsWith(d, "82") && |d| >= 11 ==> r == d[2..])
            && (!(StartsWith(d, "82") && |d| >= 11) && StartsWith(d, "0") ==> r == d)
            && (!StartsWith(d, "0") && 9 <= |d| < 11 && StartsWith(d, "82") ==> r == "0" + d[2..])
            && (!StartsWith(d, "0") && |d| >= 9 && !StartsWith(d, "82") ==> r == "0" + d)
            && (!StartsWith(d, "0") && |d| < 9 ==> r == d)
  {
    var digits := Digits(phone);
    if StartsWith(digits, "82") && |digits| >= 11 then digits[2..]
    else if StartsWith(digits, "0") then digits
    else if |digits| >= 9 then "0" + (if StartsWith(digits, "82") then digits[2..] else digits)
    else digits
  }

  /** Only the digits of the input matter. */
  lemma KoreanPhoneReadsDigitsOnly(phone: string)
    ensures ToKoreanPhone(phone) == ToKoreanPhone(Digits(phone))
  {
    assert Digits(Digits(phone)) == Digits(phone);
  }

  /** A number already in domestic form (leading 0) is sent as it is, and
      converting a result that starts with 0 again changes nothing. */
  lemma DomesticFormIsStable(phone: string)
    ensures AllDigits(phone) && StartsWith(phone, "0") ==> ToKoreanPhone(phone) == phone
    ensures var r := ToKoreanPhone(phone);
            StartsWith(r, "0") ==> ToKoreanPhone(r) == r
  {
    if AllDigits(phone) && StartsWith(phone, "0") {
      assert phone[..1][0] == phone[0];
      assert |phone| >= 2 ==> phone[..2][0] == phone[0];
    }
    var r := ToKoreanPhone(phone);
    assert Digits(r) == r;
    if StartsWith(r, "0") {
      assert r[..1][0] == r[0];
      assert |r| >= 2 ==> r[..2][0] == r[0];
    }
  }

  /** The `82` branch drops the country code without adding the trunk 0:
      `82` followed by nine or more digits gives those digits, so an
      international mobile number written without its 0 (`82 10…`) is
      sent without it. */
  lemma CountryCodeBranchAddsNoZero(rest: string)
    requires AllDigits(rest) && |rest| >= 9
    ensures ToKoreanPhone("82" + rest) == rest
    ensures rest[0] != '0' ==> !StartsWith(ToKoreanPhone("82" + rest), "0")
  {
    var d := "82" + rest;
    assert AllDigits(d);
    assert d[..2] == "82" && d[2..] == rest;
    assert StartsWith(rest, "0") ==> rest[..1][0] == rest[0];
  }

  // ---------------------------------------------------------------------
  // substitute
  // ---------------------------------------------------------------------

  /** pat occurs in s starting at index i. */
  predicate OccursAt(s: string, pat: string, i: nat) {
    i + |pat| <= |s| && s[i..i + |pat|] == pat
  }

  /** `s.replace(new RegExp(pat, "g"), v)` for a pattern without
      metacharacters: the occurrences, found left to right without
      overlapping, each replaced by v. */
  function ReplaceAll(s: string, pat: string, v: string): (r: string)
    requires pat != []
    decreases |s|
  {
    if s == [] then []
    else if OccursAt(s, pat, 0) then v + ReplaceAll(s[|pat|..], pat, v)
    else [s[0]] + ReplaceAll(s[1..], pat, v)
  }

  /** A string without an occurrence of the pattern is left as it is. */
  lemma {:induction false} ReplaceAllAbsent(s: string, pat: string, v: string)
    requires pat != []
    requires forall i: nat :: !OccursAt(s, pat, i)
    ensures ReplaceAll(s, pat, v) == s
    decreases |s|
  {
    if s != [] {
      assert !OccursAt(s, pat, 0);
      forall i: nat
        ensures !OccursAt(s[1..], pat, i)
      {
        assert !OccursAt(s, pat, i + 1);
        if i + |pat| <= |s[1..]| {
          assert s[1..][i..i + |pat|] == s[i + 1..i + 1 + |pat|];
        }
      }
      ReplaceAllAbsent(s[1..], pat, v);
    }
  }

  /** No occurrence of pat in a + b starts in a and ends in b. */
  predicate NoStraddle(a: string, b: string, pat: string) {
    forall i: nat :: i < |a| < i + |pat| ==> !OccursAt(a + b, pat, i)
  }

  lemma SuffixSlice(s: string, n: nat, i: nat, len: nat)
    requires n + i + len <= |s|
    ensures s[n..][i..i + len] == s[n + i..n + i + len]
  {
  }

  /** Replacing distributes over a concatenation that no occurrence crosses. */
  lemma {:induction false} ReplaceAllSplit(a: string, b: string, pat: string, v: string)
    requires pat != []
    requires NoStraddle(a, b, pat)
    ensures ReplaceAll(a + b, pat, v) == ReplaceAll(a, pat, v) + ReplaceAll(b, pat, v)
    decreases |a|
  {
    if a == [] {
      assert a + b == b;
    } else {
      var n := if OccursAt(a + b, pat, 0) then |pat| else 1;
      if OccursAt(a + b, pat, 0) {
        assert !(0 < |a| < |pat|);
        assert a[..|pat|] == (a + b)[..|pat|];
        assert OccursAt(a, pat, 0);
      } else {
        if |pat| <= |a| {
          assert a[..|pat|] == (a + b)[..|pat|];
        }
        assert !OccursAt(a, pat, 0);
      }
      var rest := a[n..];
      assert (a + b)[n..] == rest + b;
      forall i: nat | i < |rest| < i + |pat|
        ensures !OccursAt(rest + b, pat, i)
      {
        assert !OccursAt(a + b, pat, i + n);
        if i + |pat| <= |rest + b| {
          SuffixSlice(a + b, n, i, |pat|);
        }
      }
      ReplaceAllSplit(rest, b, pat, v);
    }
  }

  /** A variable name as the code uses it: a plain identifier, so that the
      `RegExp` built from it matches the text `{{name}}` literally. */
  predicate ValidName(k: string) {
    forall i :: 0 <= i < |k| ==> k[i] != '{' && k[i] != '}' && k[i] != '\\'
  }

  /** The token `{{k}}`. */
  function Placeholder(k: string): (p: string)
    ensures |p| == |k| + 4 && p[..2] == "{{" && p[|p| - 2..] == "}}"
  {
    "{{" + k + "}}"
  }

  /** The variables the handler fills in, in the order it lists them. */
  const VarNames: seq<string> := ["couponCode", "discountLabel", "headcountLabel", "issuedBranch",
                                  "customerPhone", "verifiedBranch", "verifiedAt"]

  lemma VarNamesAreValid()
    ensures forall i :: 0 <= i < |VarNames| ==> ValidName(VarNames[i]) && VarNames[i] != []
  {
  }

  /** Two occurrences of `{{k}}` cannot overlap: inside the token only the
      first two characters are `{`. */
  lemma PlaceholdersDoNotOverlap(s: string, k: string, i: nat, j: nat)
    requires ValidName(k)
    requires OccursAt(s, Placeholder(k), i) && i < j < i + |Placeholder(k)|
    ensures !OccursAt(s, Placeholder(k), j)
  {
    var p := Placeholder(k);
    var d := j - i;
    assert s[i..i + |p|] == p;
    assert s[j] == p[d];
    if d == 1 {
      assert s[j + 1] == p[2];
      assert p[2] != '{';
      assert s[j + 1] != p[1];
    } else {
      assert p[d] != '{';
      assert s[j] != p[0];
    }
  }

  /** Every occurrence of `{{k}}` is replaced by v, whatever surrounds it. */
  lemma ReplacesEveryOccurrence(a: string, b: string, k: string, v: string)
    requires ValidName(k)
    ensures var p := Placeholder(k);
            ReplaceAll(a + p + b, p, v) == ReplaceAll(a, p, v) + v + ReplaceAll(b, p, v)
  {
    var p := Placeholder(k);
    var s := a + (p + b);
    assert a + p + b == s;
    assert OccursAt(s, p, |a|) by { assert s[|a|..|a| + |p|] == p; }
    forall i: nat | i < |a| < i + |p|
      ensures !OccursAt(s, p, i)
    {
      if OccursAt(s, p, i) {
        PlaceholdersDoNotOverlap(s, k, i, |a|);
      }
    }
    ReplaceAllSplit(a, p + b, p, v);
    assert OccursAt(p + b, p, 0) by { assert (p + b)[..|p|] == p; }
    assert (p + b)[|p|..] == b;
  }

  /** The first `}` in s at or after index i, or |s| when there is none. */
  function FirstClose(s: string, i: nat): (j: nat)
    requires i <= |s|
    ensures i <= j <= |s| && (j < |s| ==> s[j] == '}')
    ensures forall m :: i <= m < j ==> s[m] != '}'
    decreases |s| - i
  {
    if i == |s| || s[i] == '}' then i else FirstClose(s, i + 1)
  }

  /** s starts with a token of length n matching `\{\{[^}]+\}\}`: `{{`, one
      or more characters other than `}`, then `}}`. */
  predicate TokenAt(s: string, n: nat) {
    && 5 <= n <= |s| && s[0] == '{' && s[1] == '{' && s[n - 2] == '}' && s[n - 1] == '}'
    && forall m :: 2 <= m < n - 2 ==> s[m] != '}'
  }

  /** The length of the token at the start of s, 0 if there is none; a
      match is unique, since its inner part holds no `}`. */
  function TokenLength(s: string): (n: nat)
    ensures forall j: nat :: TokenAt(s, j) <==> n > 0 && j == n
    ensures n == 0 || 5 <= n <= |s|
  {
    if |s| >= 2 && s[0] == '{' && s[1] == '{' then
      var j := FirstClose(s, 2);
      var n := if j > 2 && j + 1 < |s| && s[j + 1] == '}' then j + 2 else 0;
      assert forall k: nat :: TokenAt(s, k) ==> k == j + 2 by {
        forall k: nat | TokenAt(s, k)
          ensures k == j + 2
        {
          assert 2 <= k - 2 && s[k - 2] == '}';
          assert j <= k - 2;
          assert j < |s| && s[j] == '}';
          assert k - 2 <= j;
        }
      }
      assert n > 0 ==> TokenAt(s, n);
      n
    else 0
  }

  /** `s.replace(/\{\{[^}]+\}\}/g, "")`: every leftover token removed,
      scanning from the left. */
  function StripPlaceholders(s: string): (r: string)
    ensures |r| <= |s|
    decreases |s|
  {
    if s == [] then []
    else
      var n := TokenLength(s);
      if n > 0 then StripPlaceholders(s[n..]) else [s[0]] + StripPlaceholders(s[1..])
  }

  /** No `{{` anywhere in s. */
  predicate NoOpenBraces(s: string) {
    forall i :: 0 <= i < |s| - 1 ==> !(s[i] == '{' && s[i + 1] == '{')
  }

  /** Text without `{{` holds no token to strip. */
  lemma {:induction false} StripWithoutBraces(s: string)
    requires NoOpenBraces(s)
    ensures StripPlaceholders(s) == s
    decreases |s|
  {
    if s != [] {
      assert TokenLength(s) == 0;
      assert NoOpenBraces(s[1..]) by {
        forall i | 0 <= i < |s[1..]| - 1
          ensures !(s[1..][i] == '{' && s[1..][i + 1] == '{')
        {
          assert s[1..][i] == s[i + 1] && s[1..][i + 1] == s[i + 2];
        }
      }
      StripWithoutBraces(s[1..]);
    }
  }

  /** An unknown `{{name}}` at the front is dropped. */
  lemma StripDropsToken(k: string, rest: string)
    requires ValidName(k) && k != []
    ensures StripPlaceholders(Placeholder(k) + rest) == StripPlaceholders(rest)
  {
    var s := Placeholder(k) + rest;
    assert s[2..2 + |k|] == k;
    assert FirstClose(s, 2) == 2 + |k| by {
      assert s[2 + |k|] == '}';
      FirstCloseAt(s, 2, 2 + |k|);
    }
    assert s[|k| + 4..] == rest;
  }

  /** A character that does not open a `{{` with what follows is kept. */
  lemma StripKeepsChar(c: char, t: string)
    requires !(c == '{' && t != [] && t[0] == '{')
    ensures StripPlaceholders([c] + t) == [c] + StripPlaceholders(t)
  {
    var s := [c] + t;
    assert s[0] == c && s[1..] == t;
    assert TokenLength(s) == 0 by {
      if |s| >= 2 {
        assert s[1] == t[0];
      }
    }
  }

  /** Stripping passes over a prefix that opens no `{{`, neither inside
      itself nor together with what follows it. */
  lemma {:induction false} StripPrefix(a: string, q: string)
    requires NoOpenBraces(a)
    requires a == [] || a[|a| - 1] != '{' || q == [] || q[0] != '{'
    ensures StripPlaceholders(a + q) == a + StripPlaceholders(q)
    decreases |a|
  {
    if a != [] {
      var t := a[1..];
      NoOpenBracesTail(a);
      StripPrefix(t, q);
      assert !(a[0] == '{' && t + q != [] && (t + q)[0] == '{') by {
        if t != [] {
          assert (t + q)[0] == a[1];
          assert !(a[0] == '{' && a[1] == '{');
        } else {
          assert t + q == q;
        }
      }
      StripConsPrefix(a[0], t, q);
      assert [a[0]] + t == a;
    } else {
      assert a + q == q;
    }
  }

  /** One step of `StripPrefix`: a character that does not open a token in
      front of a kept prefix is kept too. */
  lemma StripConsPrefix(c: char, t: string, q: string)
    requires !(c == '{' && t + q != [] && (t + q)[0] == '{')
    requires StripPlaceholders(t + q) == t + StripPlaceholders(q)
    ensures StripPlaceholders([c] + t + q) == [c] + t + StripPlaceholders(q)
  {
    AppendAssoc([c], t, q);
    StripKeepsChar(c, t + q);
    AppendAssoc([c], t, StripPlaceholders(q));
  }

  lemma AppendAssoc(x: string, y: string, z: string)
    ensures x + y + z == x + (y + z)
  {
  }

  lemma NoOpenBracesTail(a: string)
    requires NoOpenBraces(a) && a != []
    ensures NoOpenBraces(a[1..])
    ensures |a| > 1 ==> a[1..][|a| - 2] == a[|a| - 1]
  {
    var t := a[1..];
    forall i | 0 <= i < |t| - 1
      ensures !(t[i] == '{' && t[i + 1] == '{')
    {
      assert t[i] == a[i + 1] && t[i + 1] == a[i + 2];
    }
  }

  /** A leftover `{{name}}` is removed wherever it stands, as long as the
      text before it opens no `{{` of its own (otherwise that earlier `{{`
      starts the match instead). */
  lemma StripDropsTokenAnywhere(a: string, k: string, rest: string)
    requires ValidName(k) && k != []
    requires NoOpenBraces(a) && (a == [] || a[|a| - 1] != '{')
    ensures StripPlaceholders(a + Placeholder(k) + rest) == a + StripPlaceholders(rest)
  {
    assert a + Placeholder(k) + rest == a + (Placeholder(k) + rest);
    StripPrefix(a, Placeholder(k) + rest);
    StripDropsToken(k, rest);
  }

  /** FirstClose stops at the first `}`. */
  lemma {:induction false} FirstCloseAt(s: string, i: nat, j: nat)
    requires i <= j < |s| && s[j] == '}'
    requires forall m :: i <= m < j ==> s[m] != '}'
    ensures FirstClose(s, i) == j
    decreases j - i
  {
    if i < j {
      FirstCloseAt(s, i + 1, j);
    }
  }

  /** The text after the first `count` variables are substituted, in order. */
  function ReplaceEach(template: string, vars: seq<(string, string)>): (r: string)
    requires forall i :: 0 <= i < |vars| ==> ValidName(vars[i].0)
  {
    if vars == [] then template
    else
      var last := vars[|vars| - 1];
      ReplaceAll(ReplaceEach(template, vars[..|vars| - 1]), Placeholder(last.0), last.1)
  }

  /** What `substitute(template, vars)` returns. */
  function SubstituteResult(template: string, vars: seq<(string, string)>): string
    requires forall i :: 0 <= i < |vars| ==> ValidName(vars[i].0)
  {
    StripPlaceholders(ReplaceEach(template, vars))
  }

  /** `substitute`: each variable, in order, replaces its `{{name}}`
      tokens; then the tokens left over are removed. */
  method Substitute(template: string, vars: seq<(string, string)>) returns (text: string)
    requires forall i :: 0 <= i < |vars| ==> ValidName(vars[i].0)
    ensures text == SubstituteResult(template, vars)
    ensures |vars| == 0 ==> text == StripPlaceholders(template)
  {
    var out := template;
    for i := 0 to |vars|
      invariant out == ReplaceEach(template, vars[..i])
    {
      var (k, v) := vars[i];
      assert vars[..i + 1][..i] == vars[..i];
      out := ReplaceAll(out, Placeholder(k), v);
    }
    assert vars[..|vars|] == vars;
    text := StripPlaceholders(out);
  }

  /** A template without `{{` is sent exactly as written. */
  lemma {:induction false} TemplateWithoutPlaceholders(template: string, vars: seq<(string, string)>)
    requires forall i :: 0 <= i < |vars| ==> ValidName(vars[i].0)
    requires NoOpenBraces(template)
    ensures ReplaceEach(template, vars) == template
    ensures SubstituteResult(template, vars) == template
  {
    if vars != [] {
      var prefix := vars[..|vars| - 1];
      TemplateWithoutPlaceholders(template, prefix);
      var p := Placeholder(vars[|vars| - 1].0);
      forall i: nat
        ensures !OccursAt(template, p, i)
      {
        if i + |p| <= |template| {
          assert template[i..i + |p|][0] == template[i] && template[i..i + |p|][1] == template[i + 1];
          assert p[0] == '{' && p[1] == '{';
          assert !(template[i] == '{' && template[i + 1] == '{');
        }
      }
      ReplaceAllAbsent(template, p, vars[|vars| - 1].1);
    }
    StripWithoutBraces(template);
  }

  /** Substituting a single variable: each of its tokens becomes its value. */
  lemma SingleVariable(a: string, b: string, k: string, v: string)
    requires ValidName(k)
    ensures ReplaceEach(a + Placeholder(k) + b, [(k, v)])
            == ReplaceAll(a, Placeholder(k), v) + v + ReplaceAll(b, Placeholder(k), v)
  {
    assert [(k, v)][..0] == [];
    ReplacesEveryOccurrence(a, b, k, v);
  }

  // ---------------------------------------------------------------------
  // The handler
  // ---------------------------------------------------------------------

  /** The request body's fields; None for an absent field. */
  datatype Body = Body(
    smsType: Option<string>,
    phone: Option<string>,
    couponCode: Option<string>,
    discountLabel: Option<string>,
    headcountLabel: Option<string>,
    issuedBranch: Option<string>,
    verifiedBranch: Option<string>,
    verifiedAt: Option<string>)

  /** A request: its method and its body, None when the body is not JSON. */
  datatype Request = Request(httpMethod: string, body: Option<Body>)

  /** The deployment's environment variables. */
  datatype Env = Env(
    supabaseUrl: Option<string>,
    serviceRoleKey: Option<string>,
    apiKey: Option<string>,
    apiSecret: Option<string>,
    fromNumber: Option<string>)

  /** What the SMS gateway call came to: an answer, ok or not, or a thrown
      network error. */
  datatype Upstream = Answered(ok: bool) | Unreachable

  /** The message posted to the gateway. */
  datatype Message = Message(to: string, from: string, text: string)

  /** The response: the bare CORS answer to a preflight, or a JSON
      `{success}` with a status. */
  datatype Reply = CorsPreflight | Json(status: int, success: bool)

  datatype Outcome = Outcome(reply: Reply, sent: Option<Message>)

  /** A JavaScript truthy string. */
  predicate Given(o: Option<string>) {
    o.Some? && o.value != ""
  }

  function OrEmpty(o: Option<string>): string {
    if o.Some? then o.value else ""
  }

  /** `(body.type as string) || "issue"`. */
  function SmsType(b: Body): (t: string)
    ensures Given(b.smsType) ==> t == b.smsType.value
    ensures !Given(b.smsType) ==> t == IssueType
  {
    if Given(b.smsType) then b.smsType.value else IssueType
  }

  /** The default templates of a type. */
  function DefaultsOf(list: seq<SmsTemplate>, ty: string): (r: seq<SmsTemplate>)
    ensures forall t :: t in r <==> t in list && t.templateType == ty && t.isDefault
    ensures r == [] <==> forall i :: 0 <= i < |list| ==> !(list[i].templateType == ty && list[i].isDefault)
    ensures |r| <= |list|
  {
    if list == [] then []
    else (if list[0].templateType == ty && list[0].isDefault then [list[0]] else []) + DefaultsOf(list[1..], ty)
  }

  /** Where the table keeps one default per type, a type has at most one. */
  lemma {:induction false} OneDefaultPerType(list: seq<SmsTemplate>, ty: string)
    requires AtMostOneDefault(list)
    ensures |DefaultsOf(list, ty)| <= 1
  {
    if list != [] {
      var tail := list[1..];
      assert AtMostOneDefault(tail) by {
        forall i, j | 0 <= i < j < |tail| && tail[i].isDefault && tail[j].isDefault
          ensures tail[i].templateType != tail[j].templateType
        {
          assert tail[i] == list[i + 1] && tail[j] == list[j + 1];
        }
      }
      OneDefaultPerType(tail, ty);
      if list[0].templateType == ty && list[0].isDefault {
        forall j | 0 <= j < |tail|
          ensures !(tail[j].templateType == ty && tail[j].isDefault)
        {
          assert list[j + 1] == tail[j];
        }
      }
    }
  }

  /** The result of the template query: `maybeSingle` fails on more than
      one row and yields null on none. */
  datatype Lookup = QueryFailed | NoTemplate | Found(content: string)

  function LookupDefault(list: seq<SmsTemplate>, ty: string, queryFails: bool): (l: Lookup)
    ensures l.Found? ==> exists t :: t in list && t.templateType == ty && t.isDefault && t.content == l.content
    ensures l.NoTemplate? ==> !queryFails && forall t :: t in list && t.templateType == ty ==> !t.isDefault
  {
    var d := DefaultsOf(list, ty);
    if queryFails || |d| > 1 then QueryFailed
    else if d == [] then NoTemplate
    else (assert d[0] in d; Found(d[0].content))
  }

  /** The variables, in the order the handler lists them. */
  function Vars(b: Body): (vars: seq<(string, string)>)
    requires Given(b.phone)
    ensures |vars| == |VarNames| && forall i :: 0 <= i < |vars| ==> vars[i].0 == VarNames[i]
    ensures forall i :: 0 <= i < |vars| ==> ValidName(vars[i].0)
  {
    VarNamesAreValid();
    var values := [OrEmpty(b.couponCode), OrEmpty(b.discountLabel), OrEmpty(b.headcountLabel),
                   OrEmpty(b.issuedBranch), ToKoreanPhone(b.phone.value), OrEmpty(b.verifiedBranch),
                   OrEmpty(b.verifiedAt)];
    seq(|VarNames|, i requires 0 <= i < |VarNames| => (VarNames[i], values[i]))
  }

  /** The message for a request that got past every check. */
  function MessageFor(b: Body, env: Env, content: string): Message
    requires Given(b.phone) && Given(env.fromNumber)
  {
    Message(ToKoreanPhone(b.phone.value), Digits(env.fromNumber.value), SubstituteResult(content, Vars(b)))
  }

  /** The handler, as a decision: the answer and the message posted, if any. */
  function Handle(req: Request, env: Env, templates: seq<SmsTemplate>, queryFails: bool, upstream: Upstream): (o: Outcome)
    ensures req.httpMethod == "OPTIONS" <==> o.reply == CorsPreflight
    ensures o.reply == Json(200, true) ==> o.sent.Some? && upstream == Answered(true)
    ensures o.reply.Json? && o.reply.success ==> o.reply.status == 200
  {
    if req.httpMethod == "OPTIONS" then Outcome(CorsPreflight, None)
    else if req.body.None? then Outcome(Json(500, false), None)
    else
      var b := req.body.value;
      if !Given(b.phone) || !Given(b.couponCode) then Outcome(Json(400, false), None)
      else if !Given(env.supabaseUrl) || !Given(env.serviceRoleKey) then Outcome(Json(503, false), None)
      else
        var l := LookupDefault(templates, SmsType(b), queryFails);
        if !l.Found? || l.content == "" then Outcome(Json(400, false), None)
        else if !Given(env.apiKey) || !Given(env.apiSecret) || !Given(env.fromNumber) then Outcome(Json(503, false), None)
        else
          var m := Some(MessageFor(b, env, l.content));
          match upstream
          case Unreachable => Outcome(Json(500, false), m)
          case Answered(ok) => if ok then Outcome(Json(200, true), m) else Outcome(Json(502, false), m)
  }

  /** The checks come in the order missing field 400, missing database
      settings 503, missing template 400, missing gateway secrets 503,
      gateway refusal 502; an unparsable body and a network failure give 500. */
  lemma HandlerStatusOrder(req: Request, env: Env, templates: seq<SmsTemplate>, queryFails: bool, upstream: Upstream)
    requires req.httpMethod != "OPTIONS" && req.body.Some?
    ensures var b := req.body.value;
            var o := Handle(req, env, templates, queryFails, upstream);
            var fieldsOk := Given(b.phone) && Given(b.couponCode);
            var dbOk := Given(env.supabaseUrl) && Given(env.serviceRoleKey);
            var l := LookupDefault(templates, SmsType(b), queryFails);
            var templateOk := l.Found? && l.content != "";
            var secretsOk := Given(env.apiKey) && Given(env.apiSecret) && Given(env.fromNumber);
            && (!fieldsOk ==> o == Outcome(Json(400, false), None))
            && (fieldsOk && !dbOk ==> o == Outcome(Json(503, false), None))
            && (fieldsOk && dbOk && !templateOk ==> o == Outcome(Json(400, false), None))
            && (fieldsOk && dbOk && templateOk && !secretsOk ==> o == Outcome(Json(503, false), None))
            && (o.sent.Some? <==> fieldsOk && dbOk && templateOk && secretsOk)
            && (o.reply == Json(200, true) <==> o.sent.Some? && upstream == Answered(true))
            && (o.reply == Json(502, false) <==> o.sent.Some? && upstream == Answered(false))
  {
  }

  /** A message that goes out is addressed to the converted phone, from the
      sender number's digits, and carries the default template of the
      requested type (issue when none is named) with the variables filled in. */
  lemma SentMessageShape(req: Request, env: Env, templates: seq<SmsTemplate>, queryFails: bool, upstream: Upstream)
    ensures var o := Handle(req, env, templates, queryFails, upstream);
            o.sent.Some? ==>
              var b := req.body.value;
              && Given(b.phone) && Given(b.couponCode) && Given(env.fromNumber)
              && o.sent.value.to == ToKoreanPhone(b.phone.value)
              && AllDigits(o.sent.value.to) && AllDigits(o.sent.value.from)
              && var l := LookupDefault(templates, SmsType(b), queryFails);
                 l.Found? && l.content != "" && o.sent.value.text == SubstituteResult(l.content, Vars(b))
  {
    var o := Handle(req, env, templates, queryFails, upstream);
    if o.sent.Some? {
      var b := req.body.value;
      var l := LookupDefault(templates, SmsType(b), queryFails);
      assert l.Found? && l.content != "";
      assert o.sent.value == MessageFor(b, env, l.content);
    }
  }

  /** With the table's one-default-per-type invariant, a type with a
      non-empty default template always gets past the template check; two
      defaults of a type (the stale-list case of the settings page) block
      every message of that type. */
  lemma TemplateCheck(templates: seq<SmsTemplate>, ty: string)
    ensures AtMostOneDefault(templates) && (exists t :: t in templates && t.templateType == ty && t.isDefault && t.content != "")
            ==> LookupDefault(templates, ty, false).Found? && LookupDefault(templates, ty, false).content != ""
    ensures |DefaultsOf(templates, ty)| > 1 ==> LookupDefault(templates, ty, false) == QueryFailed
  {
    if AtMostOneDefault(templates) && (exists t :: t in templates && t.templateType == ty && t.isDefault && t.content != "") {
      var t :| t in templates && t.templateType == ty && t.isDefault && t.content != "";
      SoleDefaultFound(templates, ty, t);
    }
  }

  /** The one default of a type is what the query finds. */
  lemma SoleDefaultFound(templates: seq<SmsTemplate>, ty: string, t: SmsTemplate)
    requires AtMostOneDefault(templates)
    requires t in templates && t.templateType == ty && t.isDefault
    ensures LookupDefault(templates, ty, false) == Found(t.content)
  {
    OneDefaultPerType(templates, ty);
    var d := DefaultsOf(templates, ty);
    assert t in d;
    assert d == [t];
  }
}
