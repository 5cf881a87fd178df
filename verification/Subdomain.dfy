/** internal/httpapi/subdomain.go and internal/cloudflare/reserved.go */
module Subdomain {
  import opened Common
  import opened Text

  const MAX_SUFFIX: nat := 99
  const MAX_LABEL: nat := 63

  datatype NameError = Invalid | ReservedName

  // The reserved list, in the groups the source keeps it in.
  const HUB_NAMES := ["api", "app", "hub", "admin", "camhub"]
  const WEB_NAMES := ["www", "mail", "ftp", "smtp", "pop", "pop3", "imap", "webmail"]
  const DNS_NAMES := ["ns", "ns1", "ns2", "ns3", "mx", "mx1", "mx2", "dns", "dkim", "spf", "dmarc"]
  const SIBLING_NAMES := ["financial", "webrtc", "stream", "streaming"]
  const CLOUD_NAMES := ["auth", "oauth", "sso", "login", "register", "grafana", "prom",
                        "prometheus", "metrics", "status", "health", "healthz"]
  const BAIT_NAMES := ["root", "test", "staging", "dev", "localhost"]

  predicate Among(name: string, names: seq<string>) {
    names != [] && (name == names[0] || Among(name, names[1..]))
  }

  /** Membership in the reserved list. */
  predicate IsListed(name: string) {
    || Among(name, HUB_NAMES) || Among(name, WEB_NAMES) || Among(name, DNS_NAMES)
    || Among(name, SIBLING_NAMES) || Among(name, CLOUD_NAMES) || Among(name, BAIT_NAMES)
  }

  // ---------- the label rule and the reserved list ----------

  predicate IsAlnum(c: char) {
    'a' <= c <= 'z' || '0' <= c <= '9'
  }

  /** The regular expression ^[a-z0-9]([a-z0-9-]{0,61}[a-z0-9])?$ */
  predicate IsLabel(s: string) {
    && 1 <= |s| <= MAX_LABEL
    && IsAlnum(s[0]) && IsAlnum(s[|s| - 1])
    && forall c :: c in s ==> IsAlnum(c) || c == '-'
  }

  /** Letters, digits and inner hyphens, at most 63 of them: a label of RFC 1123, in lower case. */
  lemma LabelAlphabet(s: string)
    ensures IsLabel(s) <==>
            && 1 <= |s| <= 63 && s[0] != '-' && s[|s| - 1] != '-'
            && forall c :: c in s ==> 'a' <= c <= 'z' || '0' <= c <= '9' || c == '-'
  {
    assert s != "" ==> s[0] in s && s[|s| - 1] in s;
  }

  predicate IsReserved(name: string) {
    var n := ToLower(TrimSpace(name));
    var m := if n != "" && n[|n| - 1] == '.' then n[..|n| - 1] else n;
    m == "" || '.' in m || IsListed(m)
  }

  datatype Validated = Valid(name: string) | Rejected(why: NameError)

  function ValidateSubdomain(name: string): Validated {
    var n := ToLower(TrimSpace(name));
    if !IsLabel(n) then Rejected(Invalid)
    else if IsReserved(n) then Rejected(ReservedName)
    else Valid(n)
  }

  lemma LabelCharIsNormal(c: char)
    requires IsAlnum(c) || c == '-'
    ensures !IsSpace(c) && LowerChar(c) == c
  {
  }

  lemma LabelIsNormal(s: string)
    requires IsLabel(s)
    ensures ToLower(TrimSpace(s)) == s
  {
    LabelCharIsNormal(s[0]);
    LabelCharIsNormal(s[|s| - 1]);
    assert TrimSpace(s) == s;
    forall i | 0 <= i < |s|
      ensures LowerChar(s[i]) == s[i]
    {
      LabelCharIsNormal(s[i]);
    }
  }

  /** On a label, "reserved" is plain membership in the list. */
  lemma {:induction false} ReservedLabel(s: string)
    requires IsLabel(s)
    ensures IsReserved(s) <==> IsListed(s)
  {
    LabelIsNormal(s);
  }

  lemma LabelPasses(n: string)
    requires IsLabel(n) && !IsReserved(n)
    ensures ValidateSubdomain(n) == Valid(n)
  {
    LabelIsNormal(n);
  }

  /**
   * A name that passes is a label outside the reserved list, and it passes
   * again unchanged: the name on the row is the name later checks see.
   */
  lemma ValidatedNameIsCanonical(name: string)
    ensures var v := ValidateSubdomain(name);
            v.Valid? ==> IsLabel(v.name) && !IsListed(v.name) && ValidateSubdomain(v.name) == v
  {
    var v := ValidateSubdomain(name);
    if v.Valid? {
      ReservedLabel(v.name);
      LabelPasses(v.name);
    }
  }

  /** c or its capital. */
  predicate SpelledAs(c: char, t: char) {
    t == c || ('a' <= c <= 'z' && t == c - 'a' + 'A')
  }

  predicate Blank(s: string) {
    forall i :: 0 <= i < |s| ==> s[i] in " \t\r\n"
  }

  lemma {:induction false} TrimBlankLeft(a: string, t: string)
    requires Blank(a) && (t == "" || !IsSpace(t[0]))
    ensures TrimLeft(a + t) == t
  {
    if a == "" {
      assert a + t == t;
    } else {
      assert (a + t)[1..] == a[1..] + t;
      TrimBlankLeft(a[1..], t);
    }
  }

  lemma {:induction false} TrimBlankRight(t: string, b: string)
    requires Blank(b) && (t == "" || !IsSpace(t[|t| - 1]))
    ensures TrimRight(t + b) == t
  {
    if b == "" {
      assert t + b == t;
    } else {
      assert (t + b)[..|t + b| - 1] == t + b[..|b| - 1];
      TrimBlankRight(t, b[..|b| - 1]);
    }
  }

  lemma TrimsToCore(a: string, u: string, b: string)
    requires Blank(a) && Blank(b) && u != "" && !IsSpace(u[0]) && !IsSpace(u[|u| - 1])
    ensures TrimSpace(a + u + b) == u
  {
    assert (u + b)[0] == u[0];
    TrimBlankLeft(a, u + b);
    TrimBlankRight(u, b);
    assert a + u + b == a + (u + b);
  }

  /**
   * Every free label passes in any mix of capitals and with any blanks around
   * it, and comes out in lower case; written on a row it is that label.
   */
  lemma {:induction false} AnySpellingPasses(n: string, t: string, a: string, b: string)
    requires IsLabel(n) && !IsListed(n) && Blank(a) && Blank(b)
    requires |t| == |n| && forall i :: 0 <= i < |n| ==> SpelledAs(n[i], t[i])
    ensures ValidateSubdomain(a + t + b) == Valid(n)
  {
    SpellingIsNormal(n, t, a, b);
    ReservedLabel(n);
  }

  lemma SpellingIsNormal(n: string, t: string, a: string, b: string)
    requires IsLabel(n) && Blank(a) && Blank(b)
    requires |t| == |n| && forall i :: 0 <= i < |n| ==> SpelledAs(n[i], t[i])
    ensures ToLower(TrimSpace(a + t + b)) == n
  {
    SpellingIsLower(n, t);
    TrimsToCore(a, t, b);
  }

  lemma LowerOfSum(s: string, t: string)
    ensures ToLower(s + t) == ToLower(s) + ToLower(t)
  {
  }

  lemma DottedSpelling(n: string, t: string, dot: string, a: string, b: string)
    requires IsLabel(n) && Blank(a) && Blank(b) && (dot == "" || dot == ".")
    requires |t| == |n| && forall i :: 0 <= i < |n| ==> SpelledAs(n[i], t[i])
    ensures ToLower(TrimSpace(a + (t + dot) + b)) == n + dot
  {
    SpellingIsLower(n, t);
    TrimsToCore(a, t + dot, b);
    LowerOfSum(t, dot);
    assert ToLower(dot) == dot;
  }

  lemma ReservedUpToDot(n: string, name: string)
    requires IsLabel(n) && (ToLower(TrimSpace(name)) == n || ToLower(TrimSpace(name)) == n + ".")
    ensures IsReserved(name) <==> IsListed(n)
  {
    assert '.' !in n && (n + ".")[..|n|] == n;
  }

  /** The reserved check reads through capitals, blanks and one final dot. */
  lemma {:induction false} ReservedInAnySpelling(n: string, t: string, dot: string, a: string, b: string)
    requires IsLabel(n) && Blank(a) && Blank(b) && (dot == "" || dot == ".")
    requires |t| == |n| && forall i :: 0 <= i < |n| ==> SpelledAs(n[i], t[i])
    ensures IsReserved(a + (t + dot) + b) <==> IsListed(n)
  {
    DottedSpelling(n, t, dot, a, b);
    assert dot == "" ==> n + dot == n;
    ReservedUpToDot(n, a + (t + dot) + b);
  }

  /** A name in several labels is reserved, and so is none. */
  lemma SeveralLabelsAreReserved(s: string, i: nat)
    requires i + 1 < |s| && s[i] == '.' && !IsSpace(s[0]) && !IsSpace(s[|s| - 1])
    ensures IsReserved(s) && IsReserved("") && IsReserved(".")
  {
    assert TrimSpace(s) == s;
    assert ToLower(s)[i] == '.';
  }

  lemma SpellingIsLower(n: string, t: string)
    requires IsLabel(n) && |t| == |n| && forall i :: 0 <= i < |n| ==> SpelledAs(n[i], t[i])
    ensures ToLower(t) == n && !IsSpace(t[0]) && !IsSpace(t[|t| - 1])
  {
    forall i | 0 <= i < |n|
      ensures LowerChar(t[i]) == n[i] && !IsSpace(t[i])
    {
      assert n[i] in n;
      LabelCharIsNormal(n[i]);
    }
  }

  // ---------- the collision suffix ----------

  /** The n-th name probed: base itself, then base-2 ... base-99. */
  function Candidate(base: string, n: nat): string {
    if n <= 1 then base else base + "-" + Decimal(n)
  }

  /** First free candidate numbered n or higher. */
  function FirstFree(taken: set<string>, base: string, n: nat): Option<string>
    requires 1 <= n
    decreases MAX_SUFFIX + 1 - n
  {
    if n > MAX_SUFFIX then None
    else if Candidate(base, n) !in taken then Some(Candidate(base, n))
    else FirstFree(taken, base, n + 1)
  }

  function Resolve(taken: set<string>, base: string): Option<string> {
    FirstFree(taken, base, 1)
  }

  lemma TwoDigits(n: nat)
    requires n < 100
    ensures Decimal(n) == if n < 10 then [Digit(n)] else [Digit(n / 10), Digit(n % 10)]
  {
  }

  const DIGITS := "0123456789"

  lemma DigitIsFromTable(d: nat)
    requires d < 10
    ensures Digit(d) == DIGITS[d]
  {
  }

  /** The first name is the base; the n-th ends in a hyphen and n in decimal. */
  lemma CandidateIsNumbered(base: string, n: nat)
    requires 1 <= n <= 99
    ensures n == 1 ==> Candidate(base, n) == base
    ensures 2 <= n < 10 ==> Candidate(base, n) == base + "-" + [DIGITS[n]]
    ensures n >= 10 ==> Candidate(base, n) == base + "-" + [DIGITS[n / 10], DIGITS[n % 10]]
  {
    TwoDigits(n);
    DigitIsFromTable(n / 10);
    DigitIsFromTable(n % 10);
  }

  lemma DigitsDiffer(a: nat, b: nat)
    requires a < 100 && b < 100 && a != b
    ensures Decimal(a) != Decimal(b)
  {
    TwoDigits(a);
    TwoDigits(b);
    assert a / 10 != b / 10 || a % 10 != b % 10;
  }

  /** All 99 candidates are different names. */
  lemma CandidatesDiffer(base: string, m: nat, n: nat)
    requires 1 <= m < n <= MAX_SUFFIX
    ensures Candidate(base, m) != Candidate(base, n)
  {
    if m >= 2 {
      DigitsDiffer(m, n);
      var k := |base| + 1;
      assert Candidate(base, m)[k..] == Decimal(m);
      assert Candidate(base, n)[k..] == Decimal(n);
    } else {
      assert |Candidate(base, n)| > |base|;
    }
  }

  lemma {:induction false} FirstFreeIsFirst(taken: set<string>, base: string, n: nat)
    requires 1 <= n
    ensures FirstFree(taken, base, n).None? <==>
            forall k :: n <= k <= MAX_SUFFIX ==> Candidate(base, k) in taken
    ensures FirstFree(taken, base, n).Some? ==>
            exists k :: n <= k <= MAX_SUFFIX && FirstFree(taken, base, n) == Some(Candidate(base, k))
                        && Candidate(base, k) !in taken
                        && forall j :: n <= j < k ==> Candidate(base, j) in taken
    decreases MAX_SUFFIX + 1 - n
  {
    if n <= MAX_SUFFIX {
      if Candidate(base, n) in taken {
        FirstFreeIsFirst(taken, base, n + 1);
        if FirstFree(taken, base, n).Some? {
          var k :| n + 1 <= k <= MAX_SUFFIX && FirstFree(taken, base, n + 1) == Some(Candidate(base, k))
                   && Candidate(base, k) !in taken && forall j :: n + 1 <= j < k ==> Candidate(base, j) in taken;
          assert forall j :: n <= j < k ==> Candidate(base, j) in taken;
        }
      } else {
        assert FirstFree(taken, base, n) == Some(Candidate(base, n));
      }
    }
  }

  /**
   * The suffixer answers the first free name of base, base-2, ..., base-99,
   * and reports exhaustion exactly when all 99 distinct names are taken.
   */
  lemma ResolveFindsFirstFree(taken: set<string>, base: string)
    ensures Resolve(taken, base).None? <==>
            forall k :: 1 <= k <= 99 ==> Candidate(base, k) in taken
    ensures Resolve(taken, base).Some? ==>
            exists k :: 1 <= k <= 99 && Resolve(taken, base) == Some(Candidate(base, k))
                        && Candidate(base, k) !in taken
                        && forall j :: 1 <= j < k ==> Candidate(base, j) in taken
    ensures forall j, k :: 1 <= j < k <= 99 ==> Candidate(base, j) != Candidate(base, k)
  {
    FirstFreeIsFirst(taken, base, 1);
    forall j, k | 1 <= j < k <= 99
      ensures Candidate(base, j) != Candidate(base, k)
    {
      CandidatesDiffer(base, j, k);
    }
  }

  predicate Plain(names: seq<string>) {
    forall i :: 0 <= i < |names| ==> '-' !in names[i]
  }

  lemma {:induction false} AmongPlainNames(name: string, names: seq<string>)
    requires Among(name, names) && Plain(names)
    ensures '-' !in name
  {
    if name != names[0] {
      AmongPlainNames(name, names[1..]);
    }
  }

  lemma PlainLists()
    ensures Plain(HUB_NAMES) && Plain(WEB_NAMES) && Plain(DNS_NAMES)
    ensures Plain(SIBLING_NAMES) && Plain(CLOUD_NAMES) && Plain(BAIT_NAMES)
  {
  }

  lemma NoListedHyphen(s: string)
    requires IsListed(s)
    ensures '-' !in s
  {
    PlainLists();
    if Among(s, HUB_NAMES) {
      AmongPlainNames(s, HUB_NAMES);
    } else if Among(s, WEB_NAMES) {
      AmongPlainNames(s, WEB_NAMES);
    } else if Among(s, DNS_NAMES) {
      AmongPlainNames(s, DNS_NAMES);
    } else if Among(s, SIBLING_NAMES) {
      AmongPlainNames(s, SIBLING_NAMES);
    } else if Among(s, CLOUD_NAMES) {
      AmongPlainNames(s, CLOUD_NAMES);
    } else {
      AmongPlainNames(s, BAIT_NAMES);
    }
  }

  /**
   * For a validated base, a candidate is never reserved and obeys the label
   * rule exactly when it fits in 63 characters.
   */
  lemma CandidateKeepsRule(base: string, n: nat)
    requires IsLabel(base) && !IsListed(base)
    requires 1 <= n <= MAX_SUFFIX
    ensures !IsListed(Candidate(base, n))
    ensures |Candidate(base, n)| == |base| + (if n == 1 then 0 else if n < 10 then 2 else 3)
    ensures IsLabel(Candidate(base, n)) <==> |Candidate(base, n)| <= MAX_LABEL
  {
    if n >= 2 {
      var c := Candidate(base, n);
      TwoDigits(n);
      assert c[|base|] == '-';
      if IsListed(c) {
        NoListedHyphen(c);
      }
      forall i | 0 <= i < |c|
        ensures IsAlnum(c[i]) || c[i] == '-'
      {
        if i < |base| {
          assert c[i] == base[i];
        }
      }
      assert c[0] == base[0];
    }
  }

  /** Up to 60 characters every candidate is a label; at 61 the suffix -10 overflows. */
  lemma SixtyIsTight(base: string)
    requires IsLabel(base) && !IsListed(base)
    ensures |base| <= 60 <==> forall n :: 1 <= n <= MAX_SUFFIX ==> IsLabel(Candidate(base, n))
  {
    forall n | 1 <= n <= MAX_SUFFIX
      ensures |base| <= 60 ==> IsLabel(Candidate(base, n))
    {
      CandidateKeepsRule(base, n);
    }
    CandidateKeepsRule(base, 10);
  }

  function Fqdn(subdomain: string, parent: string): string {
    subdomain + "." + parent
  }

  /** A full name is a child of the zone: its first label is the subdomain, the rest are the zone's. */
  lemma FqdnIsChild(subdomain: string, parent: string)
    requires '.' !in subdomain
    ensures Split(Fqdn(subdomain, parent), '.') == [subdomain] + Split(parent, '.')
  {
    SplitAt(subdomain, parent, '.');
    SplitPlain(subdomain, '.');
    assert Fqdn(subdomain, parent) == subdomain + ['.'] + parent;
  }

  /** No candidate of a label has a dot. */
  lemma CandidateHasNoDot(base: string, n: nat)
    requires '.' !in base && 1 <= n <= MAX_SUFFIX
    ensures '.' !in Candidate(base, n)
  {
    CandidateIsNumbered(base, n);
    assert '.' !in DIGITS;
  }

  /** Under one parent zone, different subdomains have different full names. */
  lemma FqdnInjective(a: string, b: string, parent: string)
    requires Fqdn(a, parent) == Fqdn(b, parent)
    ensures a == b
  {
    assert |a| == |b|;
    assert Fqdn(a, parent)[..|a|] == a && Fqdn(b, parent)[..|b|] == b;
  }
}
