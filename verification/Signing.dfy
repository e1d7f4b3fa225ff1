/** Signed requests of api/internal/auth/sign.go and verifySignature of api/internal/httpapi/server.go: what a
    signature covers, when a date is accepted, and how long a request stays single-use. Times are nanoseconds. */
module Signing {
  import opened Wrappers

  const SECOND := 1_000_000_000
  const LEEWAY := 10
  const TTL := 2 * LEEWAY * SECOND
  const MAX_NONCES := 8192
  const NONCE_MIN := 16
  const TWO63 := 0x8000_0000_0000_0000

  function Unix(now: nat): nat {
    now / SECOND
  }

  // ---- dates

  /** A difference of two 64-bit numbers, as 64 bits hold it. */
  function Wrap(x: int): int {
    if x >= TWO63 then x - 2 * TWO63 else if x < -TWO63 then x + 2 * TWO63 else x
  }

  type Int64 = x: int | -TWO63 <= x < TWO63 witness 0

  /** CheckDate on a date that parsed. */
  method CheckDate(secs: Int64, now: nat) returns (ok: bool)
    requires Unix(now) < TWO63
    ensures ok == DateOk(secs, now)
  {
    var delta := Wrap(Unix(now) - secs);
    if delta < 0 {
      delta := Wrap(-delta);
    }
    ok := delta <= LEEWAY;
  }

  /** Within the leeway either way; or exactly 2^63 seconds old, the one difference whose magnitude 64 bits cannot
      hold; or, in the last seconds a 64-bit clock can show, a date that wraps around to within the leeway. */
  predicate DateOk(secs: int, now: nat) {
    var age := Unix(now) - secs;
    -LEEWAY <= age <= LEEWAY || age == TWO63 || age >= 2 * TWO63 - LEEWAY
  }

  // ---- nonces

  predicate IsBase64Url(c: char) {
    'A' <= c <= 'Z' || 'a' <= c <= 'z' || '0' <= c <= '9' || c == '-' || c == '_'
  }

  /** The characters that carry data: the decoder skips line breaks. */
  function DataChars(s: string): nat {
    if s == "" then 0 else DataChars(s[1..]) + (if IsBase64Url(s[0]) then 1 else 0)
  }

  /** A nonce that ParseSigHeaders lets through: unpadded base64url of at least 16 bytes. */
  predicate NonceOk(s: string) {
    && (forall i :: 0 <= i < |s| ==> IsBase64Url(s[i]) || s[i] == '\r' || s[i] == '\n')
    && DataChars(s) % 4 != 1 && DataChars(s) * 6 / 8 >= NONCE_MIN
  }

  function Joined(keyId: string, nonce: string): string {
    keyId + ['\0'] + nonce
  }

  /** No accepted nonce holds a NUL, so no two (key, nonce) pairs share an entry. */
  lemma JoinedInjective(k1: string, n1: string, k2: string, n2: string)
    requires NonceOk(n1) && NonceOk(n2) && Joined(k1, n1) == Joined(k2, n2)
    ensures k1 == k2 && n1 == n2
  {
    var s := Joined(k1, n1);
    LastNul(k1, n1);
    LastNul(k2, n2);
    assert s[..|k1|] == k1 && s[..|k2|] == k2;
    assert s[|k1| + 1..] == n1 && s[|k2| + 1..] == n2;
  }

  lemma LastNul(k: string, n: string)
    requires NonceOk(n)
    ensures var s := Joined(k, n);
      s[|k|] == '\0' && forall i :: |k| < i < |s| ==> s[i] != '\0'
  {
    var s := Joined(k, n);
    forall i | |k| < i < |s| ensures s[i] != '\0' {
      assert s[i] == n[i - |k| - 1];
    }
  }

  // ---- the canonical string

  predicate OneLine(s: string) {
    forall i :: 0 <= i < |s| ==> s[i] != '\n'
  }

  const SCHEME := "PRH1"

  function Canonical(verb: string, path: string, date: string, nonce: string, digest: string): string {
    SCHEME + "\n" + (verb + "\n" + (path + "\n" + (date + "\n" + (nonce + "\n" + digest))))
  }

  lemma LineUnique(a: string, b: string, a': string, b': string)
    requires OneLine(a) && OneLine(a') && a + "\n" + b == a' + "\n" + b'
    ensures a == a' && b == b'
  {
    var s := a + "\n" + b;
    assert s[|a|] == '\n' && s[|a'|] == '\n';
    assert forall i :: 0 <= i < |a| ==> s[i] == a[i];
    assert forall i :: 0 <= i < |a'| ==> s[i] == a'[i];
    assert s[..|a|] == a && s[..|a'|] == a' && s[|a| + 1..] == b && s[|a'| + 1..] == b';
  }

  /** The signed string determines the request: verb, path, date, nonce and body digest. */
  lemma CanonicalDetermines(v: string, p: string, d: string, n: string, g: string,
                            v': string, p': string, d': string, n': string, g': string)
    requires OneLine(v) && OneLine(p) && OneLine(d) && OneLine(n)
    requires OneLine(v') && OneLine(p') && OneLine(d') && OneLine(n')
    requires Canonical(v, p, d, n, g) == Canonical(v', p', d', n', g')
    ensures v == v' && p == p' && d == d' && n == n' && g == g'
  {
    LineUnique(SCHEME, v + "\n" + (p + "\n" + (d + "\n" + (n + "\n" + g))),
               SCHEME, v' + "\n" + (p' + "\n" + (d' + "\n" + (n' + "\n" + g'))));
    LineUnique(v, p + "\n" + (d + "\n" + (n + "\n" + g)), v', p' + "\n" + (d' + "\n" + (n' + "\n" + g')));
    LineUnique(p, d + "\n" + (n + "\n" + g), p', d' + "\n" + (n' + "\n" + g'));
    LineUnique(d, n + "\n" + g, d', n' + "\n" + g');
    LineUnique(n, g, n', g');
  }

  // ---- the nonce cache

  type Cache = map<string, int>

  predicate Used(c: Cache, keyId: string, nonce: string, now: nat) {
    Joined(keyId, nonce) in c && c[Joined(keyId, nonce)] > now
  }

  function Swept(c: Cache, now: nat): Cache {
    map k | k in c && c[k] > now :: c[k]
  }

  /** The cache is still full of live entries after a sweep and is dropped whole. */
  predicate Resets(c: Cache, now: nat) {
    |c| >= MAX_NONCES && |Swept(c, now)| >= MAX_NONCES
  }

  function Remember(c: Cache, keyId: string, nonce: string, now: nat): Cache {
    var room := if |c| < MAX_NONCES then c else if Resets(c, now) then map[] else Swept(c, now);
    room[Joined(keyId, nonce) := now + TTL]
  }

  /** What verifySignature looks at. The date is None when it does not parse; `key` is None when it is unknown or
      expired; `body` is None when it cannot be read. */
  datatype Request = Request(verb: string, path: string, keyId: string, date: string, secs: Option<Int64>,
                             nonce: string,
                             sig: string, key: Option<string>, digest: Option<string>)

  datatype Verdict = Malformed | Skewed | Replayed | UnknownKey | Unreadable | BadSignature | Accepted

  /** The checks in their order, with the keyed hash uninterpreted. */
  function Judge(c: Cache, r: Request, now: nat, mac: (string, string) -> string): Verdict {
    if r.keyId == "" || r.date == "" || r.nonce == "" || r.sig == "" || !NonceOk(r.nonce) then Malformed
    else if r.secs.None? || !DateOk(r.secs.value, now) then Skewed
    else if Used(c, r.keyId, r.nonce, now) then Replayed
    else if r.key.None? then UnknownKey
    else if r.digest.None? then Unreadable
    else if mac(r.key.value, Canonical(r.verb, r.path, r.date, r.nonce, r.digest.value)) != r.sig then BadSignature
    else Accepted
  }

  /** What the key's owner would have signed, and signed with. */
  ghost predicate Signed(r: Request, mac: (string, string) -> string) {
    && r.key.Some? && r.digest.Some?
    && r.sig == mac(r.key.value, "PRH1" + "\n" + (r.verb + "\n" + (r.path + "\n" + (r.date + "\n" +
         (r.nonce + "\n" + r.digest.value)))))
  }

  /** All four headers, with a nonce of at least 16 bytes and a date that is a number. */
  ghost predicate WellFormed(r: Request) {
    && r.keyId != "" && r.date != "" && r.nonce != "" && r.sig != "" && r.secs.Some?
    && NonceOk(r.nonce) && DataChars(r.nonce) * 6 / 8 >= 16
  }

  /** At most ten seconds from the server's clock, up to the two wraps of 64-bit seconds. */
  ghost predicate Timely(r: Request, now: nat)
    requires r.secs.Some?
  {
    var age := now / 1_000_000_000 - r.secs.value;
    -10 <= age <= 10 || age == 0x8000_0000_0000_0000 || age >= 0x1_0000_0000_0000_0000 - 10
  }

  /** Whatever is wrong with a request, it is refused; and one with nothing wrong is accepted. */
  lemma AcceptedIff(c: Cache, r: Request, now: nat, mac: (string, string) -> string)
    ensures Judge(c, r, now, mac) == Accepted
       <==> WellFormed(r) && Timely(r, now) && !Used(c, r.keyId, r.nonce, now) && Signed(r, mac)
  {
    hide Used;
  }

  /** Nobody can forge: for a keyed hash without collisions, two accepted requests under one key and with one signature
      agree in everything that was signed, whatever the caches and the times. A header line holds no line break. */
  lemma SignatureBinds(c: Cache, r: Request, t: nat, c': Cache, r': Request, t': nat, mac: (string, string) -> string)
    requires Judge(c, r, t, mac) == Accepted && Judge(c', r', t', mac) == Accepted
    requires r.key == r'.key && r.sig == r'.sig && InjectiveMac(mac)
    requires OneLine(r.verb) && OneLine(r.path) && OneLine(r.date) && OneLine(r.nonce)
    requires OneLine(r'.verb) && OneLine(r'.path) && OneLine(r'.date) && OneLine(r'.nonce)
    ensures r.verb == r'.verb && r.path == r'.path && r.date == r'.date && r.nonce == r'.nonce
    ensures r.digest == r'.digest
  {
    hide NonceOk, DateOk, Used, Canonical, OneLine;
    var signed := Canonical(r.verb, r.path, r.date, r.nonce, r.digest.value);
    var signed' := Canonical(r'.verb, r'.path, r'.date, r'.nonce, r'.digest.value);
    assert mac(r.key.value, signed) == mac(r.key.value, signed');
    CanonicalDetermines(r.verb, r.path, r.date, r.nonce, r.digest.value,
                        r'.verb, r'.path, r'.date, r'.nonce, r'.digest.value);
  }

  ghost predicate InjectiveMac(mac: (string, string) -> string) {
    forall k, a, b :: mac(k, a) == mac(k, b) ==> a == b
  }

  function After(c: Cache, r: Request, now: nat, mac: (string, string) -> string): Cache {
    if Judge(c, r, now, mac) == Accepted then Remember(c, r.keyId, r.nonce, now) else c
  }

  /** The cache holds 8192 entries at most, and drops none before it is full. */
  lemma CacheBounded(c: Cache, keyId: string, nonce: string, now: nat)
    requires |c| <= 8192
    ensures |Remember(c, keyId, nonce, now)| <= 8192
    ensures |c| < 8192 ==> c.Keys <= Remember(c, keyId, nonce, now).Keys
  {
    var room := if |c| < MAX_NONCES then c else if Resets(c, now) then map[] else Swept(c, now);
    var key := Joined(keyId, nonce);
    assert |room| < 8192;
    assert room[key := now + TTL].Keys == room.Keys + {key};
    assert |room| == |room.Keys| && |room[key := now + TTL]| == |room.Keys + {key}|;
  }

  // ---- single use

  /** Requests in the order they are judged, with when. */
  datatype Visit = Visit(r: Request, now: nat)

  function AfterAll(c: Cache, visits: seq<Visit>, mac: (string, string) -> string): Cache
    decreases |visits|
  {
    if visits == [] then c else AfterAll(After(c, visits[0].r, visits[0].now, mac), visits[1..], mac)
  }

  /** Time does not run backwards, from `t1` to `t2`. */
  predicate InOrder(visits: seq<Visit>, t1: nat, t2: nat)
    decreases |visits|
  {
    if visits == [] then t1 <= t2 else t1 <= visits[0].now && InOrder(visits[1..], visits[0].now, t2)
  }

  predicate NeverResets(c: Cache, visits: seq<Visit>, mac: (string, string) -> string)
    decreases |visits|
  {
    visits == [] ||
    (!Resets(c, visits[0].now) && NeverResets(After(c, visits[0].r, visits[0].now, mac), visits[1..], mac))
  }

  /** The entry is there for as long as it counts. */
  predicate Live(c: Cache, key: string, until: int, now: nat) {
    now < until ==> key in c && c[key] >= until
  }

  lemma RememberLive(c: Cache, keyId: string, nonce: string, now: nat, key: string, until: int)
    requires !Resets(c, now) && Live(c, key, until, now) && until <= now + TTL
    ensures Live(Remember(c, keyId, nonce, now), key, until, now)
  {
  }

  lemma {:induction false} StaysLive(c: Cache, visits: seq<Visit>, mac: (string, string) -> string, key: string,
                                       until: int, t1: nat, t2: nat)
    requires InOrder(visits, t1, t2) && NeverResets(c, visits, mac) && Live(c, key, until, t1) && until <= t1 + TTL
    ensures Live(AfterAll(c, visits, mac), key, until, t2) && t1 <= t2
    decreases |visits|
  {
    hide Judge, Remember, Resets;
    if visits != [] {
      var v := visits[0];
      if Judge(c, v.r, v.now, mac) == Accepted {
        RememberLive(c, v.r.keyId, v.r.nonce, v.now, key, until);
      }
      StaysLive(After(c, v.r, v.now, mac), visits[1..], mac, key, until, v.now, t2);
    }
  }

  /** Twenty seconds later the clock shows twenty more. */
  lemma TtlSeconds(t1: nat, t2: nat)
    requires t2 >= t1 + TTL
    ensures Unix(t2) >= Unix(t1) + 2 * LEEWAY && Unix(t1 + TTL) == Unix(t1) + 2 * LEEWAY
  {
  }

  /** A request accepted with a date at most nine seconds ahead is never accepted again, whatever else arrives in
      between, unless the whole cache was dropped. */
  lemma SingleUse(c: Cache, r: Request, t1: nat, visits: seq<Visit>, t2: nat, mac: (string, string) -> string)
    requires Judge(c, r, t1, mac) == Accepted && !Resets(c, t1)
    requires InOrder(visits, t1, t2) && NeverResets(After(c, r, t1, mac), visits, mac)
    requires r.secs.value < Unix(t1) + LEEWAY && Unix(t2) < TWO63 - LEEWAY
    ensures Judge(AfterAll(After(c, r, t1, mac), visits, mac), r, t2, mac) != Accepted
  {
    hide NonceOk, Canonical, Unix, Resets;
    var c1 := After(c, r, t1, mac);
    StaysLive(c1, visits, mac, Joined(r.keyId, r.nonce), t1 + TTL, t1, t2);
    if t2 >= t1 + TTL {
      TtlSeconds(t1, t2);
    }
  }

  /** The request is accepted once more at `t2` when nothing else was in between. */
  predicate AcceptedAgain(c: Cache, r: Request, t1: nat, t2: nat, mac: (string, string) -> string) {
    t1 <= t2 && Unix(t2) < TWO63 - LEEWAY && Judge(After(c, r, t1, mac), r, t2, mac) == Accepted
  }

  /** The bound is exact: a request can be accepted a second time if and only if its date was the full ten seconds
      ahead. */
  lemma ReplayableIff(c: Cache, r: Request, t1: nat, mac: (string, string) -> string)
    requires Judge(c, r, t1, mac) == Accepted && !Resets(c, t1) && Unix(t1) + 2 * LEEWAY < TWO63 - LEEWAY
    ensures (exists t2: nat :: AcceptedAgain(c, r, t1, t2, mac)) <==> r.secs.value == Unix(t1) + LEEWAY
  {
    if r.secs.value == Unix(t1) + LEEWAY {
      LapsedAccepted(c, r, t1, mac);
    } else {
      forall t2: nat ensures !AcceptedAgain(c, r, t1, t2, mac) {
        OnceOnly(c, r, t1, t2, mac);
      }
    }
  }

  /** Once its nonce has lapsed, a date ten seconds ahead is still within the leeway. */
  lemma LapsedAccepted(c: Cache, r: Request, t1: nat, mac: (string, string) -> string)
    requires Judge(c, r, t1, mac) == Accepted && !Resets(c, t1) && Unix(t1) + 2 * LEEWAY < TWO63 - LEEWAY
    requires r.secs.value == Unix(t1) + LEEWAY
    ensures AcceptedAgain(c, r, t1, t1 + TTL, mac)
  {
    hide NonceOk, Canonical, Resets, Unix;
    TtlSeconds(t1, t1 + TTL);
  }

  lemma OnceOnly(c: Cache, r: Request, t1: nat, t2: nat, mac: (string, string) -> string)
    requires Judge(c, r, t1, mac) == Accepted && !Resets(c, t1) && r.secs.value != Unix(t1) + LEEWAY
    requires Unix(t1) < TWO63 - LEEWAY
    ensures !AcceptedAgain(c, r, t1, t2, mac)
  {
    hide NonceOk, Canonical, Resets, Unix;
    if t1 <= t2 && Unix(t2) < TWO63 - LEEWAY {
      SingleUse(c, r, t1, [], t2, mac);
    }
  }

  // ---- the cache as it runs

  class NonceCache {
    var seen: Cache

    constructor ()
      ensures seen == map[]
    {
      seen := map[];
    }

    method Sweep(now: nat)
      modifies this
      ensures seen == Swept(old(seen), now)
    {
      var rest := seen.Keys;
      while rest != {}
        invariant rest <= seen.Keys
        invariant seen == map k | k in old(seen) && (k in rest || old(seen)[k] > now) :: old(seen)[k]
        decreases |rest|
      {
        var k :| k in rest;
        rest := rest - {k};
        if seen[k] <= now {
          seen := seen - {k};
        }
      }
    }

    method RememberNonce(keyId: string, nonce: string, now: nat)
      modifies this
      ensures seen == Remember(old(seen), keyId, nonce, now)
    {
      if |seen| >= MAX_NONCES {
        Sweep(now);
        if |seen| >= MAX_NONCES {
          seen := map[];
        }
      }
      seen := seen[Joined(keyId, nonce) := now + TTL];
    }

    /** verifySignature. Only an accepted request leaves a mark, so nobody can use up a nonce they cannot sign. */
    method VerifySignature(r: Request, now: nat, mac: (string, string) -> string) returns (v: Verdict)
      requires Unix(now) < TWO63
      modifies this
      ensures v == Judge(old(seen), r, now, mac) && seen == After(old(seen), r, now, mac)
      ensures v == Accepted <==>
        WellFormed(r) && Timely(r, now) && !Used(old(seen), r.keyId, r.nonce, now) && Signed(r, mac)
      ensures v != Accepted ==> seen == old(seen)
    {
      hide NonceOk, Canonical, DateOk, Remember, Joined, Signed, WellFormed, Used, Timely;
      AcceptedIff(seen, r, now, mac);
      if r.keyId == "" || r.date == "" || r.nonce == "" || r.sig == "" {
        return Malformed;
      }
      if !NonceOk(r.nonce) {
        return Malformed;
      }
      if r.secs.None? {
        return Skewed;
      }
      var timely := CheckDate(r.secs.value, now);
      if !timely {
        return Skewed;
      }
      if Used(seen, r.keyId, r.nonce, now) {
        return Replayed;
      }
      if r.key.None? {
        return UnknownKey;
      }
      if r.digest.None? {
        return Unreadable;
      }
      if mac(r.key.value, Canonical(r.verb, r.path, r.date, r.nonce, r.digest.value)) != r.sig {
        return BadSignature;
      }
      RememberNonce(r.keyId, r.nonce, now);
      v := Accepted;
    }
  }
}
