/** The two remote certificate caches: a key-value store in front of an issuer. They differ in their
    key, and in what they make of a failed read. */
module CertCache {
  import opened Core
  import Mapper

  const SECOND: Time := 1_000_000_000

  /** The first instant of year 1 in UTC, which stands for "no time". */
  const ZERO_TIME: Time := -62_135_596_800 * SECOND

  /** The whole second a time falls in, which is what its RFC 3339 form keeps. */
  function WholeSecond(t: Time): Time {
    t - t % SECOND
  }

  /** A stored entry. Entries written by others may lack stamps (None: absent or unreadable) or data. */
  datatype Secret = Secret(
    certPEM: Bytes,
    keyPEM: Bytes,
    ca: Option<Bytes>,
    host: string,
    issuer: string,
    notBefore: Option<Time>,
    notAfter: Option<Time>)

  function ToSecret(c: Certificate): Secret {
    Secret(c.certPEM, c.keyPEM, if |c.caCertPEM| > 0 then Some(c.caCertPEM) else None, c.host, c.issuerName,
           Some(WholeSecond(c.notBefore)), Some(WholeSecond(c.notAfter)))
  }

  function OrZero(t: Option<Time>): Time {
    if t.Some? then t.value else ZERO_TIME
  }

  function ToCert(s: Secret): Option<Certificate> {
    if |s.certPEM| == 0 || |s.keyPEM| == 0 then None
    else
      Some(Certificate(s.host, s.certPEM, s.keyPEM, if s.ca.Some? then s.ca.value else "",
                       OrZero(s.notBefore), OrZero(s.notAfter), s.issuer))
  }

  function Floored(c: Certificate): Certificate {
    c.(notBefore := WholeSecond(c.notBefore), notAfter := WholeSecond(c.notAfter))
  }

  /** Storing and reading back gives the certificate, its times cut to seconds, exactly if it has
      both PEM blocks. */
  lemma RoundTrip(c: Certificate)
    ensures ToCert(ToSecret(c)) == if |c.certPEM| > 0 && |c.keyPEM| > 0 then Some(Floored(c)) else None
    ensures Floored(c).notAfter <= c.notAfter < Floored(c).notAfter + SECOND
    ensures Floored(c) == c <==> c.notBefore % SECOND == 0 && c.notAfter % SECOND == 0
  {
    if |c.certPEM| > 0 && |c.keyPEM| > 0 {
      assert |c.caCertPEM| == 0 ==> c.caCertPEM == "";
      var d := ToCert(ToSecret(c)).value;
      assert d == Floored(c);
    }
  }

  type Secrets = map<string, Secret>

  /** `strict`: a read that fails for another reason than absence is an error, not a miss. */
  datatype Config = Config(key: string -> string, renewBefore: Time, strict: bool)

  function KubeConfig(prefix: string, renewBefore: Time): Config {
    Config(host => Mapper.SecretName(prefix, host), renewBefore, true)
  }

  function VaultConfig(mount: string, prefix: string, renewBefore: Time): Config {
    Config(host => Mapper.VaultKey(mount, prefix, host), renewBefore, false)
  }

  /** One call with all that the outside world contributes to it: the clock, whether the read
      succeeded, what the inner issuer would answer, and whether the write or deletion took effect. */
  datatype Event =
    | Issue(host: string, now: Time, read: bool, answer: Option<Certificate>, wrote: bool)
    | Revoke(host: string, deleted: bool)

  /** The store afterwards, what the caller gets (None is an error), and whether the inner issuer was
      called. */
  datatype Effect = Effect(secrets: Secrets, cert: Option<Certificate>, called: bool)

  predicate Hit(s: Secret, now: Time, renewBefore: Time) {
    ToCert(s).Some? && ToCert(s).value.notAfter - now > renewBefore
  }

  function Missed(cfg: Config, m: Secrets, e: Event): Effect
    requires e.Issue?
  {
    match e.answer
    case None => Effect(m, None, true)
    case Some(c) => Effect(if e.wrote then m[cfg.key(e.host) := ToSecret(c)] else m, Some(c), true)
  }

  function Served(cfg: Config, m: Secrets, e: Event): Effect {
    var key := cfg.key(e.host);
    match e
    case Revoke(_, deleted) => Effect(if deleted then m - {key} else m, None, false)
    case Issue(_, now, read, _, _) =>
      if !read then if cfg.strict then Effect(m, None, false) else Missed(cfg, m, e)
      else if key in m && Hit(m[key], now, cfg.renewBefore) then Effect(m, ToCert(m[key]), false)
      else Missed(cfg, m, e)
  }

  // ---------------------------------------------------------------- the store and the two issuers

  datatype Lookup = Found(secret: Secret) | Missing | Unreadable

  /** What the store has been asked: a read and whether it was answered; a write, or a deletion, whether
      it took effect and whether its answer arrived. */
  datatype Request =
    | Read(key: string, answered: bool)
    | Put(key: string, took: bool, answered: bool)
    | Drop(key: string, took: bool, answered: bool)

  class SecretStore {
    var secrets: Secrets
    ghost var requests: seq<Request>

    constructor ()
      ensures secrets == map[] && requests == []
    {
      secrets, requests := map[], [];
    }

    method Get(key: string) returns (r: Lookup)
      modifies this`requests
      ensures requests == old(requests) + [Read(key, !r.Unreadable?)]
      ensures r.Found? ==> key in secrets && secrets[key] == r.secret
      ensures r.Missing? ==> key !in secrets
    {
      requests := requests + [Read(key, true)];
      if * {
        requests := old(requests) + [Read(key, false)];
        return Unreadable;
      }
      return if key in secrets then Found(secrets[key]) else Missing;
    }

    method Write(key: string, s: Secret) returns (ok: bool, ghost took: bool)
      modifies this
      ensures secrets == if took then old(secrets)[key := s] else old(secrets)
      ensures requests == old(requests) + [Put(key, took, ok)]
      ensures ok ==> took
    {
      if * {
        requests := requests + [Put(key, false, false)];
        return false, false;
      }
      secrets := secrets[key := s];
      if * {
        requests := requests + [Put(key, true, false)];
        return false, true;
      }
      requests := requests + [Put(key, true, true)];
      return true, true;
    }

    method Create(key: string, s: Secret) returns (ok: bool, ghost took: bool)
      modifies this
      ensures secrets == if took then old(secrets)[key := s] else old(secrets)
      ensures requests == old(requests) + [Put(key, took, ok)]
      ensures ok ==> took && key !in old(secrets)
    {
      if key in secrets {
        requests := requests + [Put(key, false, false)];
        return false, false;
      }
      ok, took := Write(key, s);
    }

    method Update(key: string, s: Secret) returns (ok: bool, ghost took: bool)
      modifies this
      ensures secrets == if took then old(secrets)[key := s] else old(secrets)
      ensures requests == old(requests) + [Put(key, took, ok)]
      ensures ok ==> took && key in old(secrets)
    {
      if key !in secrets {
        requests := requests + [Put(key, false, false)];
        return false, false;
      }
      ok, took := Write(key, s);
    }

    method Delete(key: string) returns (ok: bool, ghost took: bool)
      modifies this
      ensures secrets == if took then old(secrets) - {key} else old(secrets)
      ensures requests == old(requests) + [Drop(key, took, ok)]
      ensures ok ==> took
    {
      if * {
        requests := requests + [Drop(key, false, false)];
        return false, false;
      }
      secrets := secrets - {key};
      if * {
        requests := requests + [Drop(key, true, false)];
        return false, true;
      }
      requests := requests + [Drop(key, true, true)];
      return true, true;
    }
  }

  /** A write, or a deletion, that took effect or did not; its answer arrives only if it did. */
  predicate PutOf(r: Request, key: string, took: bool) {
    r.Put? && r.key == key && r.took == took && (r.answered ==> took)
  }

  predicate DropOf(r: Request, key: string, took: bool) {
    r.Drop? && r.key == key && r.took == took && (r.answered ==> took)
  }

  class KubeCachingIssuer {
    const store: SecretStore
    const prefix: string
    const renewBefore: Time

    constructor (store: SecretStore, prefix: string, renewBefore: Time)
      ensures this.store == store && this.prefix == prefix && this.renewBefore == renewBefore
    {
      this.store := store;
      this.prefix := prefix;
      this.renewBefore := renewBefore;
    }

    /** `answer` is what the inner issuer returns if it is called. */
    method IssueCert(host: string, now: Time, answer: Option<Certificate>)
      returns (cert: Option<Certificate>, called: bool, ghost e: Event)
      modifies store
      ensures e.Issue? && e.host == host && e.now == now && e.answer == answer
      ensures Effect(store.secrets, cert, called) == Served(KubeConfig(prefix, renewBefore), old(store.secrets), e)
      ensures !e.read ==> cert.None? && !called
      ensures called ==> cert == answer
      ensures var name, asked := Mapper.SecretName(prefix, host), store.requests;
        if !called || answer.None? then asked == old(store.requests) + [Read(name, e.read)] && !e.wrote
        else
          || (asked == old(store.requests) + [Read(name, e.read), Read(name, false)] && !e.wrote)
          || (|asked| == |old(store.requests)| + 3 && PutOf(asked[|asked| - 1], name, e.wrote)
              && asked[..|asked| - 1] == old(store.requests) + [Read(name, e.read), Read(name, true)])
    {
      var name := Mapper.SecretName(prefix, host);
      hide Mapper.SecretName;
      var found := store.Get(name);
      e := Issue(host, now, found != Unreadable, answer, false);
      if found.Found? {
        var cached := ToCert(found.secret);
        if cached.Some? && cached.value.notAfter - now > renewBefore {
          return cached, false, e;
        }
      } else if found.Unreadable? {
        return None, false, e;
      }
      if answer.None? {
        return None, true, e;
      }
      ghost var took, answered;
      took, answered := StoreCert(name, answer.value);
      e := e.(wrote := took);
      return answer, true, e;
    }

    /** Creates or updates, as a read of its own says; without one there is no write. */
    method StoreCert(name: string, cert: Certificate) returns (ghost took: bool, ghost answered: bool)
      modifies store
      ensures store.secrets == if took then old(store.secrets)[name := ToSecret(cert)] else old(store.secrets)
      ensures
        || (store.requests == old(store.requests) + [Read(name, false)] && !took)
        || store.requests == old(store.requests) + [Read(name, true), Put(name, took, answered)]
      ensures answered ==> took
    {
      took, answered := false, false;
      var secret := ToSecret(cert);
      var found := store.Get(name);
      var ok := false;
      if found.Missing? {
        ok, took := store.Create(name, secret);
      } else if found.Found? {
        ok, took := store.Update(name, secret);
      }
      answered := ok;
    }

    /** A failed deletion is only logged; the inner issuer's answer is the caller's. */
    method RevokeCert(cert: Certificate, innerOk: bool) returns (ok: bool, ghost e: Event)
      modifies store
      ensures e.Revoke? && e.host == cert.host && ok == innerOk
      ensures store.secrets == Served(KubeConfig(prefix, renewBefore), old(store.secrets), e).secrets
      ensures |store.requests| == |old(store.requests)| + 1 && old(store.requests) <= store.requests
      ensures var asked, key := store.requests[|old(store.requests)|], Mapper.SecretName(prefix, cert.host);
        DropOf(asked, key, e.deleted) && (asked.answered ==> key !in store.secrets)
    {
      var deleted;
      ghost var took;
      deleted, took := store.Delete(Mapper.SecretName(prefix, cert.host));
      e := Revoke(cert.host, took);
      return innerOk, e;
    }
  }

  class VaultCachingIssuer {
    const store: SecretStore
    const mount: string
    const prefix: string
    const renewBefore: Time

    constructor (store: SecretStore, mount: string, prefix: string, renewBefore: Time)
      ensures this.store == store && this.mount == mount && this.prefix == prefix && this.renewBefore == renewBefore
    {
      this.store := store;
      this.mount := mount;
      this.prefix := prefix;
      this.renewBefore := renewBefore;
    }

    /** A failed read counts as a miss. */
    method IssueCert(host: string, now: Time, answer: Option<Certificate>)
      returns (cert: Option<Certificate>, called: bool, ghost e: Event)
      modifies store
      ensures e.Issue? && e.host == host && e.now == now && e.answer == answer
      ensures Effect(store.secrets, cert, called) == Served(VaultConfig(mount, prefix, renewBefore), old(store.secrets), e)
      ensures !e.read ==> called
      ensures called ==> cert == answer
      ensures var path, asked := Mapper.VaultKey(mount, prefix, host), store.requests;
        if !called || answer.None? then asked == old(store.requests) + [Read(path, e.read)] && !e.wrote
        else
          && |asked| == |old(store.requests)| + 2 && PutOf(asked[|asked| - 1], path, e.wrote)
          && asked[..|asked| - 1] == old(store.requests) + [Read(path, e.read)]
    {
      var path := Mapper.VaultKey(mount, prefix, host);
      hide Mapper.VaultKey;
      var found := store.Get(path);
      e := Issue(host, now, found != Unreadable, answer, false);
      if found.Found? {
        var cached := ToCert(found.secret);
        if cached.Some? && cached.value.notAfter - now > renewBefore {
          return cached, false, e;
        }
      }
      if answer.None? {
        return None, true, e;
      }
      var ok;
      ghost var took;
      ok, took := store.Write(path, ToSecret(answer.value));
      e := e.(wrote := took);
      return answer, true, e;
    }

    method RevokeCert(cert: Certificate, innerOk: bool) returns (ok: bool, ghost e: Event)
      modifies store
      ensures e.Revoke? && e.host == cert.host && ok == innerOk
      ensures store.secrets == Served(VaultConfig(mount, prefix, renewBefore), old(store.secrets), e).secrets
      ensures |store.requests| == |old(store.requests)| + 1 && old(store.requests) <= store.requests
      ensures var asked, key := store.requests[|old(store.requests)|], Mapper.VaultKey(mount, prefix, cert.host);
        DropOf(asked, key, e.deleted) && (asked.answered ==> key !in store.secrets)
    {
      var deleted;
      ghost var took;
      deleted, took := store.Delete(Mapper.VaultKey(mount, prefix, cert.host));
      e := Revoke(cert.host, took);
      return innerOk, e;
    }
  }

  // ---------------------------------------------------------------- runs

  datatype Run = Run(stores: seq<Secrets>, events: seq<Event>)

  predicate IsRun(cfg: Config, r: Run) {
    && |r.stores| == |r.events| + 1
    && r.stores[0] == map[]
    && forall k :: 0 <= k < |r.events| ==> r.stores[k + 1] == Served(cfg, r.stores[k], r.events[k]).secrets
  }

  /** The k-th call issued a certificate and stored it under the key. */
  predicate Stores(cfg: Config, r: Run, k: nat, key: string)
    requires IsRun(cfg, r) && k < |r.events|
  {
    var e := r.events[k];
    e.Issue? && cfg.key(e.host) == key && Served(cfg, r.stores[k], e).called && e.answer.Some? && e.wrote
  }

  /** The k-th call deleted what was under the key. */
  predicate Deletes(cfg: Config, r: Run, k: nat, key: string)
    requires IsRun(cfg, r) && k < |r.events|
  {
    var e := r.events[k];
    e.Revoke? && cfg.key(e.host) == key && e.deleted
  }

  lemma EntryAfter(cfg: Config, r: Run, k: nat, key: string)
    requires IsRun(cfg, r) && k < |r.events|
    ensures Stores(cfg, r, k, key) ==> key in r.stores[k + 1] && r.stores[k + 1][key] == ToSecret(r.events[k].answer.value)
    ensures Deletes(cfg, r, k, key) ==> key !in r.stores[k + 1]
    ensures !Stores(cfg, r, k, key) && !Deletes(cfg, r, k, key) ==>
      (key in r.stores[k + 1] <==> key in r.stores[k]) && (key in r.stores[k] ==> r.stores[k + 1][key] == r.stores[k][key])
  {
  }

  /** Every entry was stored by some call and not deleted or overwritten since. */
  lemma {:induction false} Provenance(cfg: Config, r: Run, k: nat, key: string) returns (j: nat)
    requires IsRun(cfg, r) && k < |r.stores| && key in r.stores[k]
    ensures j < k && Stores(cfg, r, j, key) && r.stores[k][key] == ToSecret(r.events[j].answer.value)
    ensures forall i :: j < i < k ==> !Stores(cfg, r, i, key) && !Deletes(cfg, r, i, key)
  {
    EntryAfter(cfg, r, k - 1, key);
    if Stores(cfg, r, k - 1, key) {
      j := k - 1;
    } else {
      j := Provenance(cfg, r, k - 1, key);
    }
  }

  /** A cache hit hands out a certificate that an earlier call issued for a host with the same key,
      that has not been deleted or replaced since, and that truly is valid for longer than the
      renewal margin; only its times are cut to seconds, never beyond the real expiry. */
  lemma HitIsSound(cfg: Config, r: Run, k: nat) returns (j: nat)
    requires IsRun(cfg, r) && k < |r.events| && r.events[k].Issue?
    requires Served(cfg, r.stores[k], r.events[k]).cert.Some? && !Served(cfg, r.stores[k], r.events[k]).called
    ensures j < k && Stores(cfg, r, j, cfg.key(r.events[k].host))
    ensures var issued := r.events[j].answer.value;
      && Served(cfg, r.stores[k], r.events[k]).cert == Some(Floored(issued))
      && issued.notAfter - r.events[k].now > cfg.renewBefore
    ensures forall i :: j < i < k ==> !Deletes(cfg, r, i, cfg.key(r.events[k].host)) && !Stores(cfg, r, i, cfg.key(r.events[k].host))
  {
    j := Provenance(cfg, r, k, cfg.key(r.events[k].host));
    RoundTrip(r.events[j].answer.value);
  }

  /** An entry of others without a readable expiry counts as expired at the beginning of time: it is
      never handed out, at any time from year 1 on and whatever margin is configured. */
  lemma UnstampedIsStale(cfg: Config, m: Secrets, host: string, now: Time, answer: Option<Certificate>, wrote: bool)
    requires cfg.key(host) in m && m[cfg.key(host)].notAfter.None? && now >= -62_135_596_800_000_000_000 && cfg.renewBefore >= 0
    ensures Served(cfg, m, Issue(host, now, true, answer, wrote)).called
  {
  }

  /** What was stored last under the key, and not deleted since, is handed out exactly if it is complete
      and, its expiry cut to the second, still valid beyond the margin; otherwise the inner issuer is
      called. */
  lemma HitIff(cfg: Config, r: Run, j: nat, k: nat)
    requires IsRun(cfg, r) && j < k < |r.events| && r.events[k].Issue? && r.events[k].read
    requires Stores(cfg, r, j, cfg.key(r.events[k].host))
    requires forall i :: j < i < k ==> !Stores(cfg, r, i, cfg.key(r.events[k].host)) && !Deletes(cfg, r, i, cfg.key(r.events[k].host))
    ensures var issued, x := r.events[j].answer.value, Served(cfg, r.stores[k], r.events[k]);
      var valid := |issued.certPEM| > 0 && |issued.keyPEM| > 0 && WholeSecond(issued.notAfter) - r.events[k].now > cfg.renewBefore;
      && x.called == !valid
      && x.cert == if valid then Some(issued.(notBefore := WholeSecond(issued.notBefore), notAfter := WholeSecond(issued.notAfter)))
                   else r.events[k].answer
  {
    StaysStored(cfg, r, j, k, cfg.key(r.events[k].host));
    RoundTrip(r.events[j].answer.value);
  }

  lemma {:induction false} StaysStored(cfg: Config, r: Run, j: nat, k: nat, key: string)
    requires IsRun(cfg, r) && j < k < |r.stores| && Stores(cfg, r, j, key)
    requires forall i :: j < i < k ==> !Stores(cfg, r, i, key) && !Deletes(cfg, r, i, key)
    ensures key in r.stores[k] && r.stores[k][key] == ToSecret(r.events[j].answer.value)
  {
    EntryAfter(cfg, r, k - 1, key);
    if j < k - 1 {
      StaysStored(cfg, r, j, k - 1, key);
    }
  }

  /** Once a deletion has taken effect the revoked certificate is not handed out again: the next call for
      a host with that key whose read succeeds, whatever calls for other keys came in between, reaches
      the inner issuer. */
  lemma RevokedIsReissued(cfg: Config, r: Run, j: nat, k: nat)
    requires IsRun(cfg, r) && j < k < |r.events| && Deletes(cfg, r, j, cfg.key(r.events[k].host))
    requires r.events[k].Issue? && r.events[k].read
    requires forall i :: j < i < k ==> cfg.key(r.events[i].host) != cfg.key(r.events[k].host)
    ensures Served(cfg, r.stores[k], r.events[k]).called && Served(cfg, r.stores[k], r.events[k]).cert == r.events[k].answer
  {
    StaysGone(cfg, r, j, k, cfg.key(r.events[k].host));
  }

  lemma {:induction false} StaysGone(cfg: Config, r: Run, j: nat, k: nat, key: string)
    requires IsRun(cfg, r) && j < k < |r.stores| && Deletes(cfg, r, j, key)
    requires forall i :: j < i < k ==> cfg.key(r.events[i].host) != key
    ensures key !in r.stores[k]
  {
    EntryAfter(cfg, r, k - 1, key);
    if j < k - 1 {
      StaysGone(cfg, r, j, k - 1, key);
    }
  }

  /** Of two clean hosts neither is ever handed the other's certificate by the Secret cache. */
  lemma HitIsOwn(prefix: string, renewBefore: Time, r: Run, k: nat) returns (j: nat)
    requires IsRun(KubeConfig(prefix, renewBefore), r) && k < |r.events| && r.events[k].Issue?
    requires forall i :: 0 <= i <= k ==> Mapper.Clean(r.events[i].host) && |prefix| + 1 + |Mapper.Sanitized(r.events[i].host)| <= Mapper.MAX_NAME
    requires Served(KubeConfig(prefix, renewBefore), r.stores[k], r.events[k]).cert.Some?
    requires !Served(KubeConfig(prefix, renewBefore), r.stores[k], r.events[k]).called
    ensures j < k && r.events[j].Issue? && r.events[j].host == r.events[k].host && r.events[j].answer.Some?
    ensures Served(KubeConfig(prefix, renewBefore), r.stores[k], r.events[k]).cert == Some(Floored(r.events[j].answer.value))
  {
    j := HitIsSound(KubeConfig(prefix, renewBefore), r, k);
    Mapper.SecretNameInjective(prefix, r.events[j].host, r.events[k].host);
  }

  lemma VaultHitIsOwn(mount: string, prefix: string, renewBefore: Time, r: Run, k: nat) returns (j: nat)
    requires IsRun(VaultConfig(mount, prefix, renewBefore), r) && k < |r.events| && r.events[k].Issue?
    requires forall i :: 0 <= i <= k ==> Mapper.Clean(r.events[i].host)
    requires Served(VaultConfig(mount, prefix, renewBefore), r.stores[k], r.events[k]).cert.Some?
    requires !Served(VaultConfig(mount, prefix, renewBefore), r.stores[k], r.events[k]).called
    ensures j < k && r.events[j].Issue? && r.events[j].host == r.events[k].host && r.events[j].answer.Some?
    ensures Served(VaultConfig(mount, prefix, renewBefore), r.stores[k], r.events[k]).cert == Some(Floored(r.events[j].answer.value))
  {
    j := HitIsSound(VaultConfig(mount, prefix, renewBefore), r, k);
    Mapper.VaultKeyInjective(mount, prefix, r.events[j].host, r.events[k].host);
  }

  function TwoCalls(cfg: Config, e0: Event, e1: Event): (r: Run)
    ensures IsRun(cfg, r)
  {
    var m1 := Served(cfg, map[], e0).secrets;
    Run([map[], m1, Served(cfg, m1, e1).secrets], [e0, e1])
  }

  /** A certificate just issued and stored for one host is handed to another exactly if the two share a
      key. */
  lemma WrongHostIff(cfg: Config, a: string, b: string, c: Certificate, now: Time)
    requires |c.certPEM| > 0 && |c.keyPEM| > 0 && WholeSecond(c.notAfter) - now > cfg.renewBefore
    ensures var r := TwoCalls(cfg, Issue(a, now, true, Some(c), true), Issue(b, now, true, None, false));
      var x := Served(cfg, r.stores[1], r.events[1]);
      cfg.key(a) == cfg.key(b) <==> !x.called && x.cert == Some(Floored(c))
  {
    RoundTrip(c);
  }

  /** Two hosts that do: the certificate of "a-b" is handed to "a.b". */
  lemma WrongHost(prefix: string, renewBefore: Time, c: Certificate, now: Time) returns (r: Run)
    requires c.host == "a-b" && |c.certPEM| > 0 && |c.keyPEM| > 0 && WholeSecond(c.notAfter) - now > renewBefore
    ensures IsRun(KubeConfig(prefix, renewBefore), r) && |r.events| == 2 && r.events[1].Issue? && r.events[1].host == "a.b"
    ensures var x := Served(KubeConfig(prefix, renewBefore), r.stores[1], r.events[1]); !x.called && x.cert == Some(Floored(c))
  {
    var cfg := KubeConfig(prefix, renewBefore);
    Mapper.KeyCollisions(prefix);
    WrongHostIff(cfg, "a-b", "a.b", c, now);
    r := TwoCalls(cfg, Issue("a-b", now, true, Some(c), true), Issue("a.b", now, true, None, false));
  }

  // ---------------------------------------------------------------- how often the inner issuer is called

  /** Calls for the key: the clock does not go back, reads and writes succeed, and an issued
      certificate is complete and lasts at least `validity` from the call. */
  predicate Regular(cfg: Config, r: Run, key: string, validity: Time) {
    && (forall k :: 0 <= k < |r.events| && cfg.key(r.events[k].host) == key ==>
          && r.events[k].Issue? && r.events[k].read && r.events[k].wrote && r.events[k].answer.Some?
          && |r.events[k].answer.value.certPEM| > 0 && |r.events[k].answer.value.keyPEM| > 0
          && r.events[k].answer.value.notAfter >= r.events[k].now + validity)
    && (forall j, k :: 0 <= j < k < |r.events| && r.events[j].Issue? && r.events[k].Issue? ==> r.events[j].now <= r.events[k].now)
  }

  /** The k-th call is for the key and reaches the inner issuer. */
  predicate Reaches(cfg: Config, r: Run, key: string, k: nat)
    requires IsRun(cfg, r) && k < |r.events|
  {
    cfg.key(r.events[k].host) == key && Served(cfg, r.stores[k], r.events[k]).called
  }

  function Calls(cfg: Config, r: Run, key: string, k: nat): nat
    requires IsRun(cfg, r) && k <= |r.events|
  {
    if k == 0 then 0 else Calls(cfg, r, key, k - 1) + if Reaches(cfg, r, key, k - 1) then 1 else 0
  }

  /** How far apart two calls of the inner issuer are, at least. */
  function Gap(cfg: Config, validity: Time): Time {
    validity - cfg.renewBefore - SECOND
  }

  lemma {:induction false} CallsApart(cfg: Config, r: Run, key: string, validity: Time, k: nat)
    returns (first: nat, last: nat)
    requires IsRun(cfg, r) && Regular(cfg, r, key, validity) && k <= |r.events| && Gap(cfg, validity) > 0
    requires Calls(cfg, r, key, k) > 0
    ensures first <= last < k && Reaches(cfg, r, key, first) && Reaches(cfg, r, key, last)
    ensures forall i :: last < i < k ==> !Reaches(cfg, r, key, i)
    ensures (Calls(cfg, r, key, k) - 1) * Gap(cfg, validity) <= r.events[last].now - r.events[first].now
  {
    hide IsRun, Regular, Reaches, Gap;
    if !Reaches(cfg, r, key, k - 1) {
      first, last := CallsApart(cfg, r, key, validity, k - 1);
    } else if Calls(cfg, r, key, k - 1) == 0 {
      first, last := k - 1, k - 1;
    } else {
      var before;
      first, before := CallsApart(cfg, r, key, validity, k - 1);
      last := k - 1;
      NextCall(cfg, r, key, validity, before, last);
      Distribute(Calls(cfg, r, key, k - 1) - 1, Gap(cfg, validity));
    }
  }

  lemma Distribute(n: nat, gap: Time)
    ensures (n + 1) * gap == n * gap + gap
  {
  }

  lemma {:induction false} StillThere(cfg: Config, r: Run, key: string, validity: Time, a: nat, k: nat)
    requires IsRun(cfg, r) && Regular(cfg, r, key, validity) && a < k <= |r.events| && Reaches(cfg, r, key, a)
    requires forall i :: a < i < k ==> !Reaches(cfg, r, key, i)
    ensures key in r.stores[k] && r.stores[k][key] == ToSecret(r.events[a].answer.value)
  {
    EntryAfter(cfg, r, k - 1, key);
    if a < k - 1 {
      StillThere(cfg, r, key, validity, a, k - 1);
      assert !Reaches(cfg, r, key, k - 1);
    } else {
      assert Stores(cfg, r, a, key);
    }
  }

  /** Between two calls of the inner issuer for the same key the first certificate must have come
      within the margin of its expiry, as stored. */
  lemma NextCall(cfg: Config, r: Run, key: string, validity: Time, a: nat, b: nat)
    requires IsRun(cfg, r) && Regular(cfg, r, key, validity) && a < b < |r.events|
    requires Reaches(cfg, r, key, a) && Reaches(cfg, r, key, b) && forall i :: a < i < b ==> !Reaches(cfg, r, key, i)
    ensures r.events[b].now - r.events[a].now > Gap(cfg, validity)
  {
    StillThere(cfg, r, key, validity, a, b);
    RoundTrip(r.events[a].answer.value);
  }

  /** The inner issuer is called for a key at most 1 + T / (validity - margin - 1s) times in a run of
      length T. */
  lemma IssuanceBound(cfg: Config, r: Run, key: string, validity: Time, start: Time, length: Time)
    requires IsRun(cfg, r) && Regular(cfg, r, key, validity) && Gap(cfg, validity) > 0 && 0 <= length
    requires forall k :: 0 <= k < |r.events| && r.events[k].Issue? ==> start <= r.events[k].now <= start + length
    ensures Calls(cfg, r, key, |r.events|) <= 1 + length / Gap(cfg, validity)
  {
    var n, gap := Calls(cfg, r, key, |r.events|), Gap(cfg, validity);
    if n > 0 {
      var first, last := CallsApart(cfg, r, key, validity, |r.events|);
      assert (n - 1) * gap <= length;
      Quotient(n - 1, gap, length);
    } else {
      Quotient(0, gap, length);
    }
  }

  lemma Quotient(n: nat, gap: Time, length: Time)
    requires gap > 0 && n * gap <= length
    ensures n <= length / gap
  {
    if length / gap < n {
      var q := length / gap;
      assert length < (q + 1) * gap;
      Increasing(q + 1, n, gap);
    }
  }

  lemma Increasing(a: int, b: int, gap: Time)
    requires a <= b && gap > 0
    ensures a * gap <= b * gap
  {
  }

  /** The second is really lost: a certificate that expires just before a full second is issued anew
      although more than the margin, by almost a second, is left. */
  lemma SecondIsLost(c: Certificate, renewBefore: Time)
    requires |c.certPEM| > 0 && |c.keyPEM| > 0 && c.notAfter % SECOND == SECOND - 1
    ensures var now := c.notAfter - renewBefore - (SECOND - 1);
      !Hit(ToSecret(c), now, renewBefore) && c.notAfter - now == renewBefore + SECOND - 1
  {
    RoundTrip(c);
  }
}
