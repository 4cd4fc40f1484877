/** The application's mapping from routes to Ingress rules, and the names derived from hosts. */
module Mapper {
  import opened Core
  import opened Kube
  import Text

  // ---------------------------------------------------------------- route identifiers

  function DotsToDashes(host: string): string {
    seq(|host|, i requires 0 <= i < |host| => if host[i] == '.' then '-' else host[i])
  }

  const ROUTE_ID_PREFIX := "routes-"

  function RouteId(host: string): string {
    ROUTE_ID_PREFIX + DotsToDashes(host)
  }

  /** The two characters become the same character of a route identifier. */
  predicate Alike(a: char, b: char) {
    a == b || (a == '.' && b == '-') || (a == '-' && b == '.')
  }

  /** Two hosts share a route identifier exactly when they agree up to dots for dashes. */
  lemma RouteIdCollision(a: string, b: string)
    ensures RouteId(a) == RouteId(b) <==> |a| == |b| && forall k :: 0 <= k < |a| ==> Alike(a[k], b[k])
  {
    var x, y, n := RouteId(a), RouteId(b), |ROUTE_ID_PREFIX|;
    assert x[n..] == DotsToDashes(a) && y[n..] == DotsToDashes(b);
    if x == y {
      forall k | 0 <= k < |a| ensures Alike(a[k], b[k]) {
        assert DotsToDashes(a)[k] == DotsToDashes(b)[k];
      }
    } else {
      assert DotsToDashes(a) != DotsToDashes(b);
    }
  }

  lemma RouteIdInjective(a: string, b: string)
    requires '-' !in a && '-' !in b && RouteId(a) == RouteId(b)
    ensures a == b
  {
    RouteIdCollision(a, b);
  }

  // ---------------------------------------------------------------- keys of cached certificates

  const WILDCARD := "wildcard"

  const MAX_NAME := 253

  /** Dots become dashes, asterisks the word "wildcard". */
  function Sanitized(host: string): string {
    if host == [] then [] else Replacement(host[0]) + Sanitized(host[1..])
  }

  function Replacement(c: char): string {
    if c == '.' then "-" else if c == '*' then WILDCARD else [c]
  }

  function Cut(name: string): string {
    if |name| > MAX_NAME then name[..MAX_NAME] else name
  }

  function SecretName(prefix: string, host: string): string {
    Cut(prefix + "-" + Sanitized(host))
  }

  function DefaultSecretName(host: string): string {
    Cut("tls-" + Sanitized(host))
  }

  function VaultKey(mount: string, prefix: string, host: string): string {
    mount + "/data/" + prefix + "/" + Sanitized(host)
  }

  predicate OccursAt(s: string, part: string, k: nat) {
    k + |part| <= |s| && s[k..k + |part|] == part
  }

  predicate Contains(s: string, part: string) {
    exists k :: 0 <= k <= |s| && OccursAt(s, part, k)
  }

  /** Hosts whose sanitized form can be read back. */
  predicate Clean(host: string) {
    '-' !in host && !Contains(host, WILDCARD)
  }

  /** Reads a sanitized host back, from the left. */
  function Restored(s: string): string {
    if s == [] then []
    else if WILDCARD <= s then "*" + Restored(s[|WILDCARD|..])
    else [if s[0] == '-' then '.' else s[0]] + Restored(s[1..])
  }

  lemma Associative(a: string, b: string, c: string)
    ensures a + (b + c) == (a + b) + c
  {
  }

  lemma {:induction false} SanitizedConcat(a: string, b: string)
    ensures Sanitized(a + b) == Sanitized(a) + Sanitized(b)
  {
    if a == [] {
      assert a + b == b;
    } else {
      hide Replacement;
      SanitizedConcat(a[1..], b);
      assert (a + b)[0] == a[0] && (a + b)[1..] == a[1..] + b;
      Associative(Replacement(a[0]), Sanitized(a[1..]), Sanitized(b));
    }
  }

  /** The word cannot straddle the start of another expansion: its first letter occurs in it once. */
  lemma {:induction false} NoStraddle(host: string, n: nat)
    requires n <= 8 && n <= |host|
    requires forall k :: 0 <= k < n ==> host[k] != '*' && host[k] != '.'
    requires 0 < n && n < 8 ==> n == |host| || host[n] == '*' || host[n] == '.'
    requires n == 8 ==> host[..8] != WILDCARD
    requires 0 < n
    ensures !(WILDCARD <= Sanitized(host))
  {
    PlainPrefix(host, n);
    var s := Sanitized(host);
    if n < 8 && n < |host| {
      assert s[n] == Sanitized(host[n..])[0];
    } else if n == |host| {
      assert host[n..] == [];
    }
  }

  lemma {:induction false} PlainSame(p: string)
    requires '*' !in p && '.' !in p
    ensures Sanitized(p) == p
  {
    if p != [] {
      PlainSame(p[1..]);
      assert p[0] in p && p == [p[0]] + p[1..];
    }
  }

  lemma PlainPrefix(host: string, n: nat)
    requires n <= |host|
    requires forall k :: 0 <= k < n ==> host[k] != '*' && host[k] != '.'
    ensures Sanitized(host) == host[..n] + Sanitized(host[n..])
  {
    PlainSame(host[..n]);
    SanitizedConcat(host[..n], host[n..]);
    assert host == host[..n] + host[n..];
  }

  /** How far the host runs without a character that is rewritten, up to the word's length. */
  function PlainRun(host: string, limit: nat): (n: nat)
    ensures n <= |host| && n <= limit
    ensures forall k :: 0 <= k < n ==> host[k] != '*' && host[k] != '.'
    ensures n < limit ==> n == |host| || host[n] == '*' || host[n] == '.'
  {
    if limit == 0 || host == [] || host[0] == '*' || host[0] == '.' then 0
    else 1 + PlainRun(host[1..], limit - 1)
  }

  /** In front of a sanitized host the word only stands for an asterisk. */
  lemma WordMeansAsterisk(host: string)
    requires Clean(host) && host != []
    ensures WILDCARD <= Sanitized(host) <==> host[0] == '*'
  {
    if host[0] == '*' {
      assert Sanitized(host) == WILDCARD + Sanitized(host[1..]);
    } else if host[0] == '.' {
      assert Sanitized(host)[0] == '-';
    } else {
      var n := PlainRun(host, 8);
      assert !OccursAt(host, WILDCARD, 0);
      assert n == 8 ==> host[..8] == host[0..8];
      NoStraddle(host, n);
    }
  }

  /** One replacement is read back. */
  lemma RestoredFirst(c: char, rest: string)
    requires c != '-' && (WILDCARD <= Replacement(c) + rest <==> c == '*')
    ensures Restored(Replacement(c) + rest) == [c] + Restored(rest)
  {
    var s := Replacement(c) + rest;
    if c == '*' {
      assert s[|WILDCARD|..] == rest;
    } else {
      assert s[1..] == rest;
    }
  }

  lemma {:induction false} RestoredSanitized(host: string)
    requires Clean(host)
    ensures Restored(Sanitized(host)) == host
  {
    if host != [] {
      WordMeansAsterisk(host);
      CleanTail(host);
      assert host[0] in host;
      RestoredFirst(host[0], Sanitized(host[1..]));
      hide Restored, Clean;
      RestoredSanitized(host[1..]);
      assert host == [host[0]] + host[1..];
    }
  }

  lemma CleanTail(host: string)
    requires Clean(host) && host != []
    ensures Clean(host[1..])
  {
    var rest := host[1..];
    forall k | 0 <= k <= |rest| ensures !OccursAt(rest, WILDCARD, k) {
      assert !OccursAt(host, WILDCARD, k + 1);
      assert k + 8 <= |rest| ==> rest[k..k + 8] == host[k + 1..k + 1 + 8];
    }
  }

  lemma SanitizedInjective(a: string, b: string)
    requires Clean(a) && Clean(b) && Sanitized(a) == Sanitized(b)
    ensures a == b
  {
    RestoredSanitized(a);
    RestoredSanitized(b);
  }

  /** What is read back from a plain stretch of output was that stretch of input. */
  lemma {:induction false} PlainOutput(s: string, p: string)
    requires p <= Restored(s) && '*' !in p && '.' !in p
    ensures p <= s
  {
    if p != [] {
      assert p[0] == Restored(s)[0];
      assert !(WILDCARD <= s);
      assert Restored(s)[1..] == Restored(s[1..]);
      PlainOutput(s[1..], p[1..]);
      assert p == [s[0]] + p[1..] && s == [s[0]] + s[1..];
    }
  }

  lemma OccursTail(h: string, part: string, k: nat)
    requires h != [] && k > 0
    ensures OccursAt(h, part, k) <==> OccursAt(h[1..], part, k - 1)
  {
    if k + |part| <= |h| {
      assert h[k..k + |part|] == h[1..][k - 1..k - 1 + |part|];
    }
  }

  lemma CleanFromTail(h: string)
    requires h != [] && h[0] != '-' && Clean(h[1..]) && !OccursAt(h, WILDCARD, 0)
    ensures Clean(h)
  {
    assert h == [h[0]] + h[1..];
    forall k | 0 <= k <= |h| ensures !OccursAt(h, WILDCARD, k) {
      if k > 0 {
        OccursTail(h, WILDCARD, k);
        assert !OccursAt(h[1..], WILDCARD, k - 1);
      }
    }
  }

  lemma RestoredHead(s: string)
    requires s != []
    ensures var h, skip := Restored(s), if WILDCARD <= s then |WILDCARD| else 1;
      h != [] && h[0] != '-' && h[1..] == Restored(s[skip..]) && !OccursAt(h, WILDCARD, 0)
  {
    var h := Restored(s);
    if OccursAt(h, WILDCARD, 0) {
      assert h[0] == 'w' && h[0..8] == h[..8];
      PlainOutput(s, WILDCARD);
    }
  }

  lemma {:induction false} RestoredIsClean(s: string)
    ensures Clean(Restored(s))
  {
    if s != [] {
      RestoredHead(s);
      RestoredIsClean(s[if WILDCARD <= s then |WILDCARD| else 1..]);
      hide *;
      CleanFromTail(Restored(s));
    } else {
      assert Restored(s) == [];
    }
  }

  lemma {:induction false} SanitizedRestored(s: string)
    requires '.' !in s && '*' !in s
    ensures Sanitized(Restored(s)) == s
  {
    if s != [] {
      var skip := if WILDCARD <= s then |WILDCARD| else 1;
      SanitizedRestored(s[skip..]);
      assert Restored(s)[1..] == Restored(s[skip..]);
      assert s == s[..skip] + s[skip..];
    }
  }

  lemma {:induction false} SanitizedPlain(host: string)
    ensures '.' !in Sanitized(host) && '*' !in Sanitized(host)
  {
    if host != [] {
      SanitizedPlain(host[1..]);
    }
  }

  /** Exactly the clean hosts have a key, before any cut, that no other clean host has. */
  lemma CleanIff(host: string)
    ensures Clean(host) <==> Restored(Sanitized(host)) == host
    ensures Clean(host) <==> forall c :: Clean(c) && Sanitized(c) == Sanitized(host) ==> c == host
  {
    var back := Restored(Sanitized(host));
    RestoredIsClean(Sanitized(host));
    SanitizedPlain(host);
    SanitizedRestored(Sanitized(host));
    assert Clean(back) && Sanitized(back) == Sanitized(host);
    if Clean(host) {
      RestoredSanitized(host);
      forall c | Clean(c) && Sanitized(c) == Sanitized(host) ensures c == host {
        SanitizedInjective(c, host);
      }
    }
  }

  /** Clean hosts whose names are not cut get names of their own. */
  lemma SecretNameInjective(prefix: string, a: string, b: string)
    requires Clean(a) && Clean(b)
    requires |prefix| + 1 + |Sanitized(a)| <= MAX_NAME && |prefix| + 1 + |Sanitized(b)| <= MAX_NAME
    requires SecretName(prefix, a) == SecretName(prefix, b)
    ensures a == b
  {
    var x, y, n := SecretName(prefix, a), SecretName(prefix, b), |prefix| + 1;
    assert x[n..] == Sanitized(a) && y[n..] == Sanitized(b);
    SanitizedInjective(a, b);
  }

  lemma DefaultSecretNameInjective(a: string, b: string)
    requires Clean(a) && Clean(b)
    requires |Sanitized(a)| <= MAX_NAME - 4 && |Sanitized(b)| <= MAX_NAME - 4
    requires DefaultSecretName(a) == DefaultSecretName(b)
    ensures a == b
  {
    var x, y := DefaultSecretName(a), DefaultSecretName(b);
    assert x[4..] == Sanitized(a) && y[4..] == Sanitized(b);
    SanitizedInjective(a, b);
  }

  lemma VaultKeyInjective(mount: string, prefix: string, a: string, b: string)
    requires Clean(a) && Clean(b) && VaultKey(mount, prefix, a) == VaultKey(mount, prefix, b)
    ensures a == b
  {
    var base := mount + "/data/" + prefix + "/";
    assert VaultKey(mount, prefix, a)[|base|..] == Sanitized(a);
    assert VaultKey(mount, prefix, b)[|base|..] == Sanitized(b);
    SanitizedInjective(a, b);
  }

  /** A letter that is not the word's last one can be put after a clean host. */
  lemma LongerIsClean(a: string)
    requires Clean(a)
    ensures Clean(a + "a") && a + "a" != a && Sanitized(a + "a") == Sanitized(a) + "a"
  {
    var b := a + "a";
    SanitizedConcat(a, "a");
    assert "a"[1..] == "" && Sanitized("a") == "a";
    assert |b| == |a| + 1;
    forall k | 0 <= k <= |b| ensures !OccursAt(b, WILDCARD, k) {
      if k + 8 <= |a| {
        assert !OccursAt(a, WILDCARD, k);
        assert b[k..k + 8] == a[k..k + 8];
      } else if k + 8 == |b| {
        assert b[k..k + 8][7] == 'a';
      }
    }
  }

  /** The name a prefix and a clean host make, cut at the limit. */
  lemma CutNameIff(prefix: string, a: string)
    requires Clean(a) && |prefix| <= MAX_NAME
    ensures |prefix| + |Sanitized(a)| < MAX_NAME <==>
      forall b :: Clean(b) && Cut(prefix + Sanitized(b)) == Cut(prefix + Sanitized(a)) ==> b == a
  {
    var x := prefix + Sanitized(a);
    if |x| < MAX_NAME {
      forall b | Clean(b) && Cut(prefix + Sanitized(b)) == Cut(x) ensures b == a {
        var y := prefix + Sanitized(b);
        assert Cut(x) == x && |Cut(y)| < MAX_NAME && Cut(y) == y;
        assert x[|prefix|..] == Sanitized(a) && y[|prefix|..] == Sanitized(b);
        SanitizedInjective(a, b);
      }
    } else {
      var b := a + "a";
      LongerIsClean(a);
      var y := prefix + Sanitized(b);
      assert y == x + "a";
      assert Cut(y) == Cut(x) by {
        assert y[..MAX_NAME] == x[..MAX_NAME];
        assert |x| == MAX_NAME ==> x[..MAX_NAME] == x;
      }
    }
  }

  /** A clean host has a Secret name that no other clean host has exactly if its name stays below the
      limit: a name that reaches it, cut or not, is also the cut name of a longer host. */
  lemma SecretNameIff(prefix: string, a: string)
    requires Clean(a) && |prefix| + 1 <= MAX_NAME
    ensures |prefix| + 1 + |Sanitized(a)| < MAX_NAME <==>
      forall b :: Clean(b) && SecretName(prefix, b) == SecretName(prefix, a) ==> b == a
  {
    CutNameIff(prefix + "-", a);
    forall b: string ensures SecretName(prefix, b) == Cut((prefix + "-") + Sanitized(b)) {
    }
  }

  lemma DefaultSecretNameIff(a: string)
    requires Clean(a)
    ensures |"tls-"| + |Sanitized(a)| < MAX_NAME <==>
      forall b :: Clean(b) && DefaultSecretName(b) == DefaultSecretName(a) ==> b == a
  {
    CutNameIff("tls-", a);
    forall b: string ensures DefaultSecretName(b) == Cut("tls-" + Sanitized(b)) {
    }
  }

  /** Clean hosts collide once their names reach the limit. */
  lemma CutCollision(prefix: string, a: string) returns (b: string)
    requires Clean(a) && |prefix| + 1 <= MAX_NAME <= |prefix| + 1 + |Sanitized(a)|
    ensures b != a && Clean(b) && SecretName(prefix, b) == SecretName(prefix, a)
  {
    SecretNameIff(prefix, a);
    b :| Clean(b) && SecretName(prefix, b) == SecretName(prefix, a) && b != a;
  }

  /** Hosts with a dash, or with the word, collide with hosts that have a dot, or an asterisk. */
  lemma KeyCollisions(prefix: string)
    ensures SecretName(prefix, "a.b") == SecretName(prefix, "a-b")
    ensures SecretName(prefix, "*") == SecretName(prefix, "wildcard")
  {
    assert "a.b"[1..] == ".b" && ".b"[1..] == "b" && "b"[1..] == "" && "a-b"[1..] == "-b" && "-b"[1..] == "b";
    assert Sanitized("b") == "b" && Sanitized(".b") == "-b" && Sanitized("-b") == "-b";
    assert "*"[1..] == "" && Sanitized("*") == WILDCARD;
    PlainPrefix(WILDCARD, 8);
    assert WILDCARD[..8] == WILDCARD && WILDCARD[8..] == "";
  }

  // ---------------------------------------------------------------- rules

  /** Conversion to a signed 32-bit integer, wrapping. */
  function Int32(x: int): (r: int)
    ensures -0x8000_0000 <= r < 0x8000_0000
    ensures (x - r) % 0x1_0000_0000 == 0
  {
    (x + 0x8000_0000) % 0x1_0000_0000 - 0x8000_0000
  }

  function MapRule(req: RouteRequest): Result<Rule, string> {
    if req.backends == [] then Err("route " + req.id + " has no backends")
    else
      Ok(Rule(req.host, if req.path == "" then "/" else req.path,
              req.backends[0].serviceName, Int32(req.backends[0].port)))
  }

  function MapTls(req: RouteRequest, secretName: string -> string): Tls {
    Tls([req.host], secretName(req.host))
  }

  function IngressName(index: nat): string {
    "routes-" + Text.Decimal(index)
  }

  lemma IngressNameInjective(a: nat, b: nat)
    requires IngressName(a) == IngressName(b)
    ensures a == b
  {
    assert IngressName(a)[7..] == Text.Decimal(a) && IngressName(b)[7..] == Text.Decimal(b);
    Text.DecimalInjective(a, b);
  }
}
