/** pkg/utils/phone.go and the limiter keys built on it. */
module Phone {
  import opened Common
  import opened Text

  // A bare Indian mobile number: ten digits, the first from 6 to 9.
  predicate Subscriber(d: string) {
    |d| == 10 && AllDigits(d) && '6' <= d[0]
  }

  // Strips 91 if twelve bytes are left, then 0 if eleven are.
  function WithoutTrunk(phone: string): string {
    var phone := if ByteLen(phone) == 12 then TrimPrefix(phone, "91") else phone;
    if ByteLen(phone) == 11 then TrimPrefix(phone, "0") else phone
  }

  function NormalizeE164(p: string): string {
    WithoutTrunk(TrimPrefix(TrimSpace(p), "+91"))
  }

  predicate ValidateIndianPhone(p: string) { Subscriber(NormalizeE164(p)) }

  function RequireValidPhone(p: string): Option<string> {
    var normalized := NormalizeE164(p);
    if ValidateIndianPhone(normalized) then Some(normalized) else None
  }

  // The source's own steps, reassigning one local.
  method StripPrefixes(p: string) returns (phone: string)
    ensures phone == NormalizeE164(p)
  {
    phone := TrimSpace(p);
    phone := TrimPrefix(phone, "+91");
    if ByteLen(phone) == 12 {
      phone := TrimPrefix(phone, "91");
    }
    if ByteLen(phone) == 11 {
      phone := TrimPrefix(phone, "0");
    }
  }

  /* ---------- the accepted language ---------- */

  predicate CountryCode(s: string) { s == "" || s == "+91" }

  predicate Trunk(s: string) { s == "" || s == "91" || s == "0" }

  // s spells d: an optional +91, then an optional 91 or 0, then d.
  ghost predicate Spells(s: string, d: string) {
    exists cc, trunk :: CountryCode(cc) && Trunk(trunk) && s == cc + (trunk + d)
  }

  lemma SubscriberBytes(d: string)
    requires Subscriber(d)
    ensures ByteLen(d) == 10
    ensures TrimSpace(d) == d
    ensures !("+91" <= d)
  {
    DigitsByteLen(d);
    assert IsDigit(d[0]) && IsDigit(d[9]);
  }

  lemma PrefixBytes()
    ensures ByteLen("0") == 1 && ByteLen("91") == 2 && ByteLen("+91") == 3
  {
    assert "91"[1..] == "1" && "1"[1..] == "" && "+91"[1..] == "91" && "0"[1..] == "";
  }

  lemma StripTrunk(trunk: string, d: string)
    requires Subscriber(d) && Trunk(trunk)
    ensures WithoutTrunk(trunk + d) == d
    ensures !("+91" <= trunk + d)
  {
    SubscriberBytes(d);
    PrefixBytes();
    ByteLenConcat(trunk, d);
    assert (trunk + d)[|trunk|..] == d;
    assert (trunk + d)[0] != '+' by { assert IsDigit(d[0]); }
    if trunk == "" { assert trunk + d == d; }
  }

  lemma SplitTrunk(phone: string) returns (trunk: string)
    requires Subscriber(WithoutTrunk(phone))
    ensures Trunk(trunk) && phone == trunk + WithoutTrunk(phone)
  {
    var d := WithoutTrunk(phone);
    PrefixBytes();
    if ByteLen(phone) == 12 && "91" <= phone {
      trunk := "91";
      assert phone == "91" + phone[2..];
      ByteLenConcat("91", phone[2..]);
    } else if ByteLen(phone) == 11 && "0" <= phone {
      trunk := "0";
      assert phone == "0" + phone[1..];
    } else {
      trunk := "";
      assert phone == "" + phone;
    }
  }

  lemma SpellingNormalizes(p: string, d: string)
    requires Subscriber(d) && Spells(TrimSpace(p), d)
    ensures NormalizeE164(p) == d
  {
    var cc, trunk :| CountryCode(cc) && Trunk(trunk) && TrimSpace(p) == cc + (trunk + d);
    StripTrunk(trunk, d);
    if cc == "" {
      assert cc + (trunk + d) == trunk + d;
    } else {
      assert (cc + (trunk + d))[3..] == trunk + d;
    }
  }

  lemma NormalizedIsSpelled(p: string)
    requires ValidateIndianPhone(p)
    ensures Spells(TrimSpace(p), NormalizeE164(p))
  {
    var s := TrimSpace(p);
    var cc := if "+91" <= s then "+91" else "";
    var rest := TrimPrefix(s, "+91");
    assert s == cc + rest;
    var trunk := SplitTrunk(rest);
    assert CountryCode(cc) && Trunk(trunk) && s == cc + (trunk + NormalizeE164(p));
  }

  /** Exactly the spellings of a subscriber number are valid. */
  lemma AcceptedLanguage(p: string)
    ensures ValidateIndianPhone(p) <==> exists d :: Subscriber(d) && Spells(TrimSpace(p), d)
  {
    if ValidateIndianPhone(p) {
      NormalizedIsSpelled(p);
    }
    if d :| Subscriber(d) && Spells(TrimSpace(p), d) {
      SpellingNormalizes(p, d);
    }
  }

  /** A valid phone normalises to the one number it spells, which normalises to
      itself and is what RequireValidPhone returns. */
  lemma CanonicalForm(p: string, d: string)
    requires ValidateIndianPhone(p) && Subscriber(d) && Spells(TrimSpace(p), d)
    ensures NormalizeE164(p) == d && NormalizeE164(d) == d && RequireValidPhone(p) == Some(d)
  {
    SpellingNormalizes(p, d);
    SubscriberFixed(d);
  }

  lemma SubscriberFixed(d: string)
    requires Subscriber(d)
    ensures NormalizeE164(d) == d && ValidateIndianPhone(d)
  {
    SubscriberBytes(d);
    StripTrunk("", d);
    assert "" + d == d;
  }

  /** RequireValidPhone validates the normalised value, so it strips twice: it
      returns a subscriber number exactly for the texts that spell one. */
  lemma CanonicalIffSpelled(p: string)
    ensures (exists d :: Subscriber(d) && RequireValidPhone(p) == Some(d)) <==>
            exists d :: Subscriber(d) && Spells(TrimSpace(p), d)
  {
    AcceptedLanguage(p);
    if ValidateIndianPhone(p) { SubscriberFixed(NormalizeE164(p)); }
  }

  // Two families it lets through with a value that is not canonical: a second
  // country code, and a space after the code.
  lemma {:induction false} DoublePrefixSlipsThrough(d: string)
    requires Subscriber(d)
    ensures var p := "+91" + "+91" + d;
            !ValidateIndianPhone(p) && RequireValidPhone(p) == Some("+91" + d)
  {
    var once := "+91" + d;
    var p := "+91" + "+91" + d;
    SubscriberBytes(d);
    assert p[|p| - 1] == d[9] && once[|once| - 1] == d[9] && IsDigit(d[9]);
    assert TrimSpace(p) == p && TrimSpace(once) == once;
    assert p[3..] == once;
    ByteLenConcat("+91", d);
    PrefixBytes();
    assert NormalizeE164(p) == once;
    assert once == "+91" + ("" + d) && CountryCode("+91") && Trunk("");
    SpellingNormalizes(once, d);
  }

  lemma SpaceSlipsThrough(d: string)
    requires Subscriber(d)
    ensures var p := "+91" + " " + d;
            !ValidateIndianPhone(p) && RequireValidPhone(p) == Some(" " + d)
  {
    var spaced := " " + d;
    var p := "+91" + " " + d;
    SubscriberBytes(d);
    SubscriberFixed(d);
    assert p[|p| - 1] == d[9] && spaced[|spaced| - 1] == d[9] && IsDigit(d[9]) && IsDigit(d[0]);
    assert TrimSpace(p) == p;
    assert p[3..] == spaced;
    assert spaced[1..] == d && TrimLeft(spaced) == TrimLeft(d) == d;
    assert ByteLen(spaced) == 11;
    assert NormalizeE164(p) == spaced;
    assert TrimSpace(spaced) == d;
  }

  /* ---------- limiter keys ---------- */

  const ROLES: seq<string> := ["client", "restaurant_owner", "restaurant_manager", "driver"]

  // normalizeRoleForRateLimit: an unknown role counts as none.
  function RoleForRateLimit(raw: string): string {
    var role := Lower(TrimSpace(raw));
    if role in ROLES then role else ""
  }

  function IPKey(clientIP: string): string { TrimSpace(clientIP) }

  // A field missing from the body reads as empty.
  function PhoneKey(phoneVal: string, clientIP: string): string {
    var phone := NormalizeE164(phoneVal);
    if !ValidateIndianPhone(phone) then IPKey(clientIP) else phone
  }

  function PhoneRoleKey(phoneVal: string, roleVal: string, clientIP: string): string {
    var phone := NormalizeE164(phoneVal);
    var role := RoleForRateLimit(roleVal);
    if !ValidateIndianPhone(phone) then IPKey(clientIP)
    else if role == "" then phone
    else phone + ":" + role
  }

  /** A spelling of d is limited as d, with its role if that is, trimmed and in
      lower case, one of the four; a text RequireValidPhone rejects is limited by
      client address. */
  lemma KeysOfRequest(p: string, d: string, lead: string, role: string, trail: string, clientIP: string)
    requires Subscriber(d) && Spells(TrimSpace(p), d)
    requires AllSpace(lead) && AllSpace(trail) && Bare(role)
    ensures PhoneKey(p, clientIP) == d
    ensures PhoneRoleKey(p, lead + role + trail, clientIP) == if Lower(role) in ROLES then d + ":" + Lower(role) else d
  {
    SpellingNormalizes(p, d);
    SubscriberFixed(d);
    TrimSpaceKeeps(lead, role, trail);
  }

  lemma KeysWithoutPhone(p: string, role: string, clientIP: string)
    requires RequireValidPhone(p) == None
    ensures PhoneKey(p, clientIP) == PhoneRoleKey(p, role, clientIP) == TrimSpace(clientIP)
  {
  }

  /** Limits follow the subscriber: two valid spellings share a limiter key
      exactly when they spell the same number and count as the same role. */
  lemma OneKeyPerSubscriberAndRole(p: string, r: string, q: string, s: string, clientIP: string)
    requires ValidateIndianPhone(p) && ValidateIndianPhone(q)
    ensures PhoneRoleKey(p, r, clientIP) == PhoneRoleKey(q, s, clientIP) <==>
            NormalizeE164(p) == NormalizeE164(q) && RoleForRateLimit(r) == RoleForRateLimit(s)
  {
    var d, e := NormalizeE164(p), NormalizeE164(q);
    SubscriberFixed(d);
    SubscriberFixed(e);
    SameKeySameRole(d, RoleForRateLimit(r), e, RoleForRateLimit(s));
  }

  lemma SameKeySameRole(d: string, r: string, e: string, s: string)
    requires |d| == |e| == 10
    ensures (if r == "" then d else d + ":" + r) == (if s == "" then e else e + ":" + s) <==> d == e && r == s
  {
    var k, l := if r == "" then d else d + ":" + r, if s == "" then e else e + ":" + s;
    assert k[..10] == d && l[..10] == e;
    assert r != "" ==> k[11..] == r;
    assert s != "" ==> l[11..] == s;
  }
}
