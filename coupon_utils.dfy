/** Branch configuration, coupon-code generation and normalisation, and the
    device-local verification lock (src/utils/couponUtils.ts). */
module CouponUtils {
  import opened JsBuiltins

  /** The closed set of branch codes. */
  const BranchCodes: seq<string> := ["GDXC", "GDXR", "NWXC", "GNXC", "SWXC"]

  /** The shared password of each branch. */
  const BranchPasswords: map<string, string> :=
    map["GDXC" := "48291", "GDXR" := "73058", "NWXC" := "15947", "GNXC" := "86420", "SWXC" := "31769"]

  /** Every branch has a five-digit numeric password, and only branches have one. */
  lemma BranchPasswordsAreFiveDigits()
    ensures forall b :: b in BranchCodes <==> b in BranchPasswords
    ensures forall b :: b in BranchPasswords ==> |BranchPasswords[b]| == 5 && AllDigits(BranchPasswords[b])
  {
  }

  /** `pw === BRANCH_PASSWORDS[branch]`: the entered password is the branch's. */
  function PasswordOk(pw: string, branch: string): (ok: bool)
    ensures ok <==> branch in BranchPasswords && pw == BranchPasswords[branch]
    ensures ok ==> branch in BranchCodes && |pw| == 5 && AllDigits(pw)
  {
    BranchPasswordsAreFiveDigits();
    branch in BranchPasswords && pw == BranchPasswords[branch]
  }

  const DefaultBranch := "GDXC"

  /** The branch a panel starts on: the profile's branch when it is a known
      branch code, otherwise GDXC. */
  function InitialBranch(branchFromProfile: Option<string>): (b: string)
    ensures b in BranchCodes
    ensures branchFromProfile.Some? && branchFromProfile.value in BranchCodes ==> b == branchFromProfile.value
    ensures !(branchFromProfile.Some? && branchFromProfile.value in BranchCodes) ==> b == DefaultBranch
  {
    if branchFromProfile.Some? && branchFromProfile.value != "" && branchFromProfile.value in BranchCodes
    then branchFromProfile.value
    else DefaultBranch
  }

  /** What a password input keeps of the typed text: its first five digits. */
  function PasswordInput(typed: string): (pw: string)
    ensures |pw| <= 5 && AllDigits(pw)
    ensures |pw| <= |Digits(typed)| && pw == Digits(typed)[..|pw|]
    ensures |pw| < 5 ==> pw == Digits(typed)
  {
    var d := Digits(typed);
    if |d| < 5 then d else d[..5]
  }

  /** Typing a branch's password into the input keeps it whole, so the
      password check can succeed. */
  lemma PasswordTypedIsKept(branch: string)
    requires branch in BranchPasswords
    ensures PasswordInput(BranchPasswords[branch]) == BranchPasswords[branch]
    ensures PasswordOk(PasswordInput(BranchPasswords[branch]), branch)
  {
    BranchPasswordsAreFiveDigits();
  }

  /** The 32 symbols a coupon code is drawn from. */
  const Alphabet: string := "ABCDEFGHJKLMNPQRSTUVWXYZ23456789"

  const CodeLength: nat := 8

  /** The alphabet has 32 distinct symbols and none of the look-alikes I, O, 0, 1. */
  lemma AlphabetShape()
    ensures |Alphabet| == 32
    ensures forall i, j :: 0 <= i < j < |Alphabet| ==> Alphabet[i] != Alphabet[j]
    ensures 'I' !in Alphabet && 'O' !in Alphabet && '0' !in Alphabet && '1' !in Alphabet
  {
    SymbolIndexInverts();
    forall c | c in "IO01" ensures c !in Alphabet {
      assert SymbolIndex(c) == -1;
    }
  }

  /** `SymbolIndex` gives back each symbol's position, one range of symbols at a time. */
  lemma SymbolIndexInverts()
    ensures forall i :: 0 <= i < |Alphabet| ==> SymbolIndex(Alphabet[i]) == i
  {
    forall i | 0 <= i < |Alphabet| ensures SymbolIndex(Alphabet[i]) == i {
      if i < 8 {
      } else if i < 13 {
      } else if i < 24 {
      } else {
      }
    }
  }

  /** The position of an alphabet symbol, computed from its character code. */
  function SymbolIndex(c: char): int {
    if 'A' <= c <= 'H' then c as int - 'A' as int
    else if 'J' <= c <= 'N' then c as int - 'A' as int - 1
    else if 'P' <= c <= 'Z' then c as int - 'A' as int - 2
    else if '2' <= c <= '9' then c as int - '2' as int + 24
    else -1
  }

  /** Eight indices into the alphabet, one `Math.floor(Math.random() * 32)` per
      character. */
  predicate ValidDraw(draw: seq<int>) {
    |draw| == CodeLength && forall i :: 0 <= i < |draw| ==> 0 <= draw[i] < |Alphabet|
  }

  /** The code spelled by a draw: character i is the alphabet symbol at index draw[i]. */
  function CodeOf(draw: seq<int>): (code: string)
    requires ValidDraw(draw)
    ensures |code| == CodeLength
    ensures forall i :: 0 <= i < |code| ==> code[i] == Alphabet[draw[i]] && code[i] in Alphabet
  {
    seq(CodeLength, i requires 0 <= i < CodeLength => Alphabet[draw[i]])
  }

  /** `generateCouponCode8`: append one alphabet symbol per drawn index. */
  method GenerateCouponCode8(draw: seq<int>) returns (out: string)
    requires ValidDraw(draw)
    ensures |out| == CodeLength
    ensures forall i :: 0 <= i < |out| ==> out[i] in Alphabet
    ensures out == CodeOf(draw)
  {
    out := "";
    for i := 0 to CodeLength
      invariant |out| == i
      invariant forall j :: 0 <= j < i ==> out[j] == Alphabet[draw[j]]
    {
      out := out + [Alphabet[draw[i]]];
    }
  }

  predicate IsCodeChar(c: char) { 'A' <= c <= 'Z' || '0' <= c <= '9' }

  predicate AllCodeChars(s: string) { forall i :: 0 <= i < |s| ==> IsCodeChar(s[i]) }

  /** `toUpperCase` over ASCII: a..z become A..Z, every other character stays. */
  function ToUpperAscii(s: string): (r: string)
    ensures |r| == |s|
    ensures forall i :: 0 <= i < |s| && 'a' <= s[i] <= 'z' ==> 'A' <= r[i] <= 'Z' && r[i] as int == s[i] as int - 32
    ensures forall i :: 0 <= i < |s| && !('a' <= s[i] <= 'z') ==> r[i] == s[i]
  {
    seq(|s|, i requires 0 <= i < |s| => UpperAscii(s[i]))
  }

  function UpperAscii(c: char): char {
    if 'a' <= c <= 'z' then (c as int - 32) as char else c
  }

  /** `replace(/[^A-Z0-9]/g, "")`: the upper-case letters and digits of s, in order. */
  function KeepCodeChars(s: string): (r: string)
    ensures |r| <= |s|
    ensures AllCodeChars(r)
    ensures AllCodeChars(s) ==> r == s
  {
    if s == [] then []
    else (if IsCodeChar(s[0]) then [s[0]] else []) + KeepCodeChars(s[1..])
  }

  /** `normalizeCouponCode`: trim, upper-case, keep only A-Z and 0-9. */
  function NormalizeCouponCode(input: string): (r: string)
    ensures AllCodeChars(r)
    ensures |r| <= |input|
  {
    KeepCodeChars(ToUpperAscii(Trim(input)))
  }

  /** A string that is already made of A-Z and 0-9 is left as it is. */
  lemma NormalizeFixesCodeStrings(s: string)
    requires AllCodeChars(s)
    ensures NormalizeCouponCode(s) == s
  {
    if s != [] {
      CodeCharIsNotSpace(s[0]);
      CodeCharIsNotSpace(s[|s| - 1]);
    }
    TrimOfNonSpaceEnds(s);
    forall i | 0 <= i < |s| ensures ToUpperAscii(s)[i] == s[i] {
      CodeCharIsUpper(s[i]);
    }
    assert ToUpperAscii(s) == s;
    assert KeepCodeChars(s) == s;
  }

  lemma CodeCharIsUpper(c: char)
    requires IsCodeChar(c)
    ensures UpperAscii(c) == c
  {
  }

  lemma CodeCharIsNotSpace(c: char)
    requires IsCodeChar(c)
    ensures !IsJsSpace(c)
  {
  }

  lemma NormalizeIdempotent(input: string)
    ensures NormalizeCouponCode(NormalizeCouponCode(input)) == NormalizeCouponCode(input)
  {
    NormalizeFixesCodeStrings(NormalizeCouponCode(input));
  }

  /** A generated code is made of upper-case letters and digits only. */
  lemma GeneratedCodeIsCodeChars(draw: seq<int>)
    requires ValidDraw(draw)
    ensures AllCodeChars(CodeOf(draw))
  {
    var code := CodeOf(draw);
    SymbolIndexInverts();
    forall i | 0 <= i < |code| ensures IsCodeChar(code[i]) {
      assert SymbolIndex(Alphabet[draw[i]]) == draw[i] >= 0;
    }
  }

  /** A generated code survives normalisation unchanged. */
  lemma GeneratedCodeIsNormalized(draw: seq<int>)
    requires ValidDraw(draw)
    ensures NormalizeCouponCode(CodeOf(draw)) == CodeOf(draw)
  {
    GeneratedCodeIsCodeChars(draw);
    NormalizeFixesCodeStrings(CodeOf(draw));
  }

  /** The prefix of every lock entry's key. */
  const LockPrefix := "coupon_lock:"

  /** `getLocalLockKey`: the prefix, the code, a colon and the branch. */
  function LockKey(couponCode: string, branch: string): (k: string)
    ensures |k| == |LockPrefix| + |couponCode| + 1 + |branch|
    ensures k[..|LockPrefix|] == LockPrefix
    ensures k[|LockPrefix|..|LockPrefix| + |couponCode|] == couponCode && k[|k| - |branch|..] == branch
    ensures k[|LockPrefix| + |couponCode|] == ':'
  {
    var k := LockPrefix + couponCode + ":" + branch;
    assert k[|LockPrefix|..|LockPrefix| + |couponCode|] == couponCode;
    k
  }

  /** For codes without ':', the key determines the (code, branch) pair. */
  lemma LockKeyInjective(c1: string, b1: string, c2: string, b2: string)
    requires ':' !in c1 && ':' !in c2
    requires LockKey(c1, b1) == LockKey(c2, b2)
    ensures c1 == c2 && b1 == b2
  {
    var p := LockPrefix;
    var s1, s2 := c1 + ":" + b1, c2 + ":" + b2;
    assert LockKey(c1, b1) == p + s1 && LockKey(c2, b2) == p + s2;
    assert s1 == (p + s1)[|p|..] && s2 == (p + s2)[|p|..];
    ColonSplits(c1, b1);
    ColonSplits(c2, b2);
    assert |c1| == |c2|;
    assert c1 == s1[..|c1|] && c2 == s2[..|c2|];
    assert b1 == s1[|c1| + 1..] && b2 == s2[|c2| + 1..];
  }

  /** In code + ":" + b with no ':' in code, the first ':' sits right after code. */
  lemma ColonSplits(code: string, b: string)
    requires ':' !in code
    ensures (code + ":" + b)[|code|] == ':'
    ensures forall i :: 0 <= i < |code| ==> (code + ":" + b)[i] != ':'
  {
    forall i | 0 <= i < |code| ensures (code + ":" + b)[i] != ':' {
      assert (code + ":" + b)[i] == code[i];
    }
  }

  /** The lock lasts ten minutes. */
  const LockMillis: int := 10 * 60 * 1000

  /** What `isLocallyLocked` reports. */
  datatype LockState = LockState(locked: bool, remainingSec: int)

  /** `Math.ceil(ms / 1000)` for a positive number of milliseconds. */
  function CeilSeconds(ms: int): (r: int)
    requires ms > 0
    ensures r >= 1
    ensures (r - 1) * 1000 < ms <= r * 1000
  {
    (ms + 999) / 1000
  }

  /** The lock expiry stored under key, when it reads as a number. */
  function StoredUntil(items: map<string, string>, key: string): Option<int> {
    if key !in items || items[key] == "" then None else ParseInt(items[key])
  }

  /** The answer `isLocallyLocked` gives at time now for the stored entries. */
  function LockStatus(items: map<string, string>, key: string, now: int): (s: LockState)
    ensures !s.locked ==> s.remainingSec == 0
    ensures s.locked <==> StoredUntil(items, key).Some? && now < StoredUntil(items, key).value
  {
    match StoredUntil(items, key)
    case None => LockState(false, 0)
    case Some(until) =>
      if now >= until then LockState(false, 0) else LockState(true, CeilSeconds(until - now))
  }

  /** The entries after `isLocallyLocked` at time now: an expired numeric entry
      for key is removed, every other entry stays. */
  function ItemsAfterCheck(items: map<string, string>, key: string, now: int): (r: map<string, string>)
    ensures forall k :: k in items && k != key ==> k in r && r[k] == items[k]
    ensures forall k :: k in r ==> k in items && r[k] == items[k]
    ensures key !in r <==> key !in items || (StoredUntil(items, key).Some? && now >= StoredUntil(items, key).value)
  {
    match StoredUntil(items, key)
    case Some(until) => if now >= until then items - {key} else items
    case None => items
  }

  /** A lock set at time t reports locked, with 1..600 seconds left rounded up,
      at every t2 in [t, t + 10 min), and the check keeps it. */
  lemma LockedUntilExpiry(items: map<string, string>, code: string, branch: string, t: int, t2: int)
    requires t <= t2 < t + LockMillis
    ensures var key := LockKey(code, branch);
            var locked := items[key := IntToString(t + LockMillis)];
            && LockStatus(locked, key, t2) == LockState(true, CeilSeconds(t + LockMillis - t2))
            && 1 <= LockStatus(locked, key, t2).remainingSec <= 600
            && ItemsAfterCheck(locked, key, t2) == locked
  {
    ParseIntToString(t + LockMillis);
  }

  /** From t + 10 min on, the check reports unlocked and removes that one entry. */
  lemma UnlockedAtExpiry(items: map<string, string>, code: string, branch: string, t: int, t2: int)
    requires t2 >= t + LockMillis
    ensures var key := LockKey(code, branch);
            var locked := items[key := IntToString(t + LockMillis)];
            && LockStatus(locked, key, t2) == LockState(false, 0)
            && ItemsAfterCheck(locked, key, t2) == locked - {key}
  {
    ParseIntToString(t + LockMillis);
  }

  /** A missing, empty or non-numeric entry reads as unlocked and is kept. */
  lemma UnreadableEntryIgnored(items: map<string, string>, key: string, now: int)
    requires key !in items || ParseInt(items[key]).None?
    ensures LockStatus(items, key, now) == LockState(false, 0)
    ensures ItemsAfterCheck(items, key, now) == items
  {
  }

  /** The browser's `localStorage`, as far as the lock uses it. */
  class LocalStorage {
    var items: map<string, string>

    constructor()
      ensures items == map[]
    {
      items := map[];
    }

    /** `isLocallyLocked(couponCode, branch)` at time now. */
    method IsLocallyLocked(couponCode: string, branch: string, now: int) returns (s: LockState)
      modifies this
      ensures s == LockStatus(old(items), LockKey(couponCode, branch), now)
      ensures items == ItemsAfterCheck(old(items), LockKey(couponCode, branch), now)
    {
      var key := LockKey(couponCode, branch);
      if key !in items || items[key] == "" {
        return LockState(false, 0);
      }
      var until := ParseInt(items[key]);
      if until.None? {
        return LockState(false, 0);
      }
      if now >= until.value {
        items := items - {key};
        return LockState(false, 0);
      }
      s := LockState(true, (until.value - now + 999) / 1000);
    }

    /** `setLocalLock10Min(couponCode, branch)` at time now. */
    method SetLocalLock10Min(couponCode: string, branch: string, now: int)
      modifies this
      ensures items == old(items)[LockKey(couponCode, branch) := IntToString(now + LockMillis)]
    {
      items := items[LockKey(couponCode, branch) := IntToString(now + 10 * 60 * 1000)];
    }
  }
}
