/**
 The acceptance of an NTLM logon and the session keys it yields. The cryptographic functions
 are parameters; nothing is known of them but the sizes of their results.
 */
module NtlmCheck {
  import opened Common

  type Key16 = k: seq<byte> | |k| == 16 witness seq(16, _ => 0)
  type Response24 = r: seq<byte> | |r| == 24 witness seq(24, _ => 0)

  datatype Crypto = Crypto(
    owf: (Key16, seq<byte>) -> Response24,                       // SMBOWFencrypt
    sessKeyV1: Key16 -> Key16,                                   // SMBsesskeygen_ntv1
    owfGenV2: (Key16, string, string, bool) -> Option<Key16>,    // ntv2_owf_gen
    owfV2: (Key16, seq<byte>, seq<byte>) -> Key16,               // SMBOWFencrypt_ntv2
    sessKeyV2: (Key16, Key16) -> Key16,                          // SMBsesskeygen_ntv2
    md4: seq<byte> -> Key16,                                     // mdfour
    fromDos: seq<byte> -> Option<string>,                        // convert_string_talloc, CH_DOS to CH_UNIX
    lmHash: string -> Option<Key16>)                             // E_deshash

  /** lp_lanman_auth() and lp_ntlm_auth() */
  datatype Config = Config(lanmanAuth: bool, ntlmAuth: bool)

  datatype Stored = Stored(lanman: Option<Key16>, nt: Option<Key16>)

  datatype Logon = Logon(
    cleartextAllowed: bool, challenge: seq<byte>, lm: seq<byte>, nt: seq<byte>,
    username: string, clientUsername: string, clientDomain: string)

  datatype Status = Ok | WrongPassword | NotFound

  datatype Outcome = Outcome(status: Status, userKey: seq<byte>, lmKey: seq<byte>)

  const ZEROS: seq<byte> := [0, 0, 0, 0, 0, 0, 0, 0]

  // ---------- The checks of one response ----------

  predicate V1Matches(c: Crypto, response: seq<byte>, passwd: Key16, challenge: seq<byte>) {
    |challenge| == 8 && |response| == 24 && c.owf(passwd, challenge) == response
  }

  /** The user and domain under which an NTLMv2 or LMv2 response is tried. */
  datatype Variant = AsGiven | UpperCased | NoDomain

  function KeyResponse(c: Crypto, passwd: Key16, l: Logon, v: Variant): Option<Key16> {
    c.owfGenV2(passwd, l.clientUsername, if v == NoDomain then "" else l.clientDomain, v == UpperCased)
  }

  predicate V2Matches(c: Crypto, response: seq<byte>, passwd: Key16, l: Logon, v: Variant) {
    && |l.challenge| == 8 && |response| >= 24
    && KeyResponse(c, passwd, l, v).Some?
    && c.owfV2(KeyResponse(c, passwd, l, v).value, l.challenge, response[16..]) == response[..16]
  }

  /** The session key of an NTLMv2 response, whether or not the response is right. */
  function V2Key(c: Crypto, response: seq<byte>, passwd: Key16, l: Logon, v: Variant): Key16
    requires |response| >= 16 && KeyResponse(c, passwd, l, v).Some?
  {
    var kr := KeyResponse(c, passwd, l, v).value;
    c.sessKeyV2(kr, c.owfV2(kr, l.challenge, response[16..]))
  }

  /** smb_pwd_check_ntlmv1; a failed check leaves the key alone. */
  method PwdCheckV1(c: Crypto, response: seq<byte>, passwd: Option<Key16>, challenge: seq<byte>, key: seq<byte>)
    returns (ok: bool, key': seq<byte>)
    ensures ok <==> passwd.Some? && V1Matches(c, response, passwd.value, challenge)
    ensures key' == if ok then c.sessKeyV1(passwd.value) else key
  {
    ok, key' := false, key;
    if passwd.None? || |challenge| != 8 || |response| != 24 {
      return;
    }
    if c.owf(passwd.value, challenge) == response {
      ok, key' := true, c.sessKeyV1(passwd.value);
    }
  }

  /** smb_pwd_check_ntlmv2 */
  method PwdCheckV2(c: Crypto, response: seq<byte>, passwd: Option<Key16>, l: Logon, v: Variant, key: seq<byte>)
    returns (ok: bool, key': seq<byte>)
    ensures ok <==> passwd.Some? && V2Matches(c, response, passwd.value, l, v)
    ensures key' == if ok then V2Key(c, response, passwd.value, l, v) else key
  {
    ok, key' := false, key;
    if passwd.None? || |l.challenge| != 8 || |response| < 24 {
      return;
    }
    var kr := KeyResponse(c, passwd.value, l, v);
    if kr.None? {
      return;
    }
    var value := c.owfV2(kr.value, l.challenge, response[16..]);
    if value == response[..16] {
      ok, key' := true, c.sessKeyV2(kr.value, value);
    }
  }

  /** smb_sess_key_ntlmv2 */
  method SessKeyV2(c: Crypto, response: seq<byte>, passwd: Option<Key16>, l: Logon, v: Variant, key: seq<byte>)
    returns (ok: bool, key': seq<byte>)
    ensures ok <==> passwd.Some? && |l.challenge| == 8 && |response| >= 24 && KeyResponse(c, passwd.value, l, v).Some?
    ensures key' == if ok then V2Key(c, response, passwd.value, l, v) else key
  {
    ok, key' := false, key;
    if passwd.None? || |l.challenge| != 8 || |response| < 24 {
      return;
    }
    var kr := KeyResponse(c, passwd.value, l, v);
    if kr.None? {
      return;
    }
    ok, key' := true, c.sessKeyV2(kr.value, c.owfV2(kr.value, l.challenge, response[16..]));
  }

  // ---------- The reference: an ordered list of routes ----------

  /** The ways in which a response can be right. */
  datatype Route = NtlmV2(v: Variant) | NtlmV1 | Lm | LmV2(v: Variant) | NtInLm

  function V2Routes(): seq<Route> {
    [NtlmV2(AsGiven), NtlmV2(UpperCased), NtlmV2(NoDomain)]
  }

  function LmV2Routes(): seq<Route> {
    [LmV2(AsGiven), LmV2(UpperCased), LmV2(NoDomain)]
  }

  predicate Cleartext(l: Logon) {
    l.cleartextAllowed && l.challenge == ZEROS
  }

  /** An NT response of 24 bytes that NTLMv1 may answer: then nothing else is tried. */
  predicate OnlyV1(cfg: Config, l: Logon, s: Stored) {
    |l.nt| == 24 && s.nt.Some? && cfg.ntlmAuth
  }

  function LmRoutes(cfg: Config, l: Logon, s: Stored): seq<Route> {
    if |l.lm| < 24 then []
    else
      (if cfg.lanmanAuth && s.lanman.Some? && '@' !in l.username then [Lm] else [])
      + ((if s.nt.Some? then LmV2Routes() else []) + (if s.nt.Some? && cfg.ntlmAuth then [NtInLm] else []))
  }

  function Routes(cfg: Config, l: Logon, s: Stored): seq<Route> {
    if OnlyV1(cfg, l, s) then [NtlmV1]
    else
      (if |l.nt| > 24 && s.nt.Some? then V2Routes() else [])
      + LmRoutes(cfg, l, s)
  }

  predicate RouteMatches(c: Crypto, l: Logon, s: Stored, r: Route) {
    match r
    case NtlmV2(v) => s.nt.Some? && V2Matches(c, l.nt, s.nt.value, l, v)
    case NtlmV1 => s.nt.Some? && V1Matches(c, l.nt, s.nt.value, l.challenge)
    case Lm => s.lanman.Some? && V1Matches(c, l.lm, s.lanman.value, l.challenge)
    case LmV2(v) => s.nt.Some? && V2Matches(c, l.lm, s.nt.value, l, v)
    case NtInLm => s.nt.Some? && V1Matches(c, l.lm, s.nt.value, l.challenge)
  }

  /** The keys that go with the stored LM hash: its first half, padded for the user key. */
  function LmHashKeys(cfg: Config, s: Stored): (seq<byte>, seq<byte>) {
    if cfg.lanmanAuth && s.lanman.Some? then (s.lanman.value[..8] + ZEROS, s.lanman.value[..8]) else ([], [])
  }

  /** The session keys of a route that matched. An LMv2 logon takes the key of the NTLMv2
      response beside it, even one that failed. */
  function RouteKeys(c: Crypto, cfg: Config, l: Logon, s: Stored, r: Route): (seq<byte>, seq<byte>)
    requires RouteMatches(c, l, s, r)
  {
    match r
    case NtlmV2(v) => var k := V2Key(c, l.nt, s.nt.value, l, v); (k, k[..8])
    case NtlmV1 => (c.sessKeyV1(s.nt.value), LmHashKeys(cfg, s).1)
    case Lm => LmHashKeys(cfg, s)
    case LmV2(v) => var k := V2Key(c, if |l.nt| > 24 then l.nt else l.lm, s.nt.value, l, v); (k, k[..8])
    case NtInLm => LmHashKeys(cfg, s)
  }

  function FirstMatch(c: Crypto, l: Logon, s: Stored, routes: seq<Route>): (r: Option<Route>)
    ensures r.Some? ==> r.value in routes && RouteMatches(c, l, s, r.value)
    ensures r.None? ==> forall x :: x in routes ==> !RouteMatches(c, l, s, x)
  {
    if routes == [] then None
    else if RouteMatches(c, l, s, routes[0]) then Some(routes[0])
    else FirstMatch(c, l, s, routes[1..])
  }

  /** The error when no route matched. */
  function Refusal(cfg: Config, l: Logon, s: Stored): Status {
    if !OnlyV1(cfg, l, s) && |l.lm| >= 24 && s.nt.Some? && '@' in l.username then NotFound else WrongPassword
  }

  /** hash_password_check on the hashes of cleartext passwords. */
  function HashCheck(cfg: Config, username: string, clientLm: Option<Key16>, clientNt: Option<Key16>, s: Stored): Status {
    if clientNt.Some? && s.nt.Some? then (if clientNt == s.nt then Ok else WrongPassword)
    else if clientLm.Some? && s.lanman.Some? && !cfg.lanmanAuth then WrongPassword
    else if '@' in username then NotFound
    else if clientLm.Some? && clientLm == s.lanman then Ok
    else WrongPassword
  }

  function CleartextLm(c: Crypto, l: Logon): Option<Key16> {
    if l.lm == [] then None
    else match c.fromDos(l.lm) case None => None case Some(pw) => c.lmHash(pw)
  }

  function CleartextNt(c: Crypto, l: Logon): Option<Key16> {
    if l.nt == [] then None else Some(c.md4(l.nt))
  }

  /** What a logon is decided to be. */
  function Decide(c: Crypto, cfg: Config, l: Logon, s: Stored): Outcome {
    if Cleartext(l) then
      Outcome(HashCheck(cfg, l.username, CleartextLm(c, l), CleartextNt(c, l), s), [], [])
    else
      match FirstMatch(c, l, s, Routes(cfg, l, s))
      case Some(r) => Outcome(Ok, RouteKeys(c, cfg, l, s, r).0, RouteKeys(c, cfg, l, s, r).1)
      case None => Outcome(Refusal(cfg, l, s), [], [])
  }

  /** Routes that did not match can be passed over. */
  lemma {:induction false} SkipRoutes(c: Crypto, l: Logon, s: Stored, a: seq<Route>, b: seq<Route>)
    requires forall r :: r in a ==> !RouteMatches(c, l, s, r)
    ensures FirstMatch(c, l, s, a + b) == FirstMatch(c, l, s, b)
  {
    if a == [] {
      assert a + b == b;
    } else {
      assert (a + b)[1..] == a[1..] + b;
      SkipRoutes(c, l, s, a[1..], b);
    }
  }

  // ---------- The code ----------

  /** hash_password_check */
  method HashPasswordCheck(cfg: Config, username: string, clientLm: Option<Key16>, clientNt: Option<Key16>, s: Stored)
    returns (status: Status)
    ensures status == HashCheck(cfg, username, clientLm, clientNt, s)
  {
    if clientNt.Some? && s.nt.Some? {
      if clientNt.value == s.nt.value {
        return Ok;
      } else {
        return WrongPassword;
      }
    } else if clientLm.Some? && s.lanman.Some? {
      if !cfg.lanmanAuth {
        return WrongPassword;
      }
      if '@' in username {
        return NotFound;
      }
      if clientLm.value == s.lanman.value {
        return Ok;
      } else {
        return WrongPassword;
      }
    }
    if '@' in username {
      return NotFound;
    }
    return WrongPassword;
  }

  function First8(key: seq<byte>): seq<byte> {
    if |key| >= 8 then key[..8] else key
  }

  /** The three LMv2 attempts of ntlm_password_check, of which this is one. */
  method TryLmV2(c: Crypto, l: Logon, s: Stored, v: Variant) returns (ok: bool, userKey: seq<byte>, lmKey: seq<byte>)
    requires s.nt.Some?
    ensures ok <==> RouteMatches(c, l, s, LmV2(v))
    ensures forall cfg :: ok ==> (userKey, lmKey) == RouteKeys(c, cfg, l, s, LmV2(v))
    ensures !ok ==> userKey == [] && lmKey == []
  {
    userKey, lmKey := [], [];
    var tmpKey;
    ok, tmpKey := PwdCheckV2(c, l.lm, s.nt, l, v, []);
    if ok {
      if |l.nt| > 24 {
        var derived;
        derived, userKey := SessKeyV2(c, l.nt, s.nt, l, v, userKey);
        assert derived;
      } else {
        userKey := tmpKey;
      }
      lmKey := First8(userKey);
    }
  }

  /** The NTLMv2 attempts of ntlm_password_check. */
  method TryNtlmV2(c: Crypto, l: Logon, s: Stored) returns (ok: bool, userKey: seq<byte>, lmKey: seq<byte>)
    requires s.nt.Some? && |l.nt| > 24
    ensures var r := FirstMatch(c, l, s, V2Routes());
      && ok == r.Some?
      && (forall cfg :: ok ==> (userKey, lmKey) == RouteKeys(c, cfg, l, s, r.value))
      && (!ok ==> userKey == [] && lmKey == [])
  {
    userKey := [];
    ok, userKey := PwdCheckV2(c, l.nt, s.nt, l, AsGiven, userKey);
    if ok {
      return ok, userKey, First8(userKey);
    }
    ok, userKey := PwdCheckV2(c, l.nt, s.nt, l, UpperCased, userKey);
    SkipRoutes(c, l, s, [NtlmV2(AsGiven)], [NtlmV2(UpperCased), NtlmV2(NoDomain)]);
    if ok {
      return ok, userKey, First8(userKey);
    }
    ok, userKey := PwdCheckV2(c, l.nt, s.nt, l, NoDomain, userKey);
    SkipRoutes(c, l, s, [NtlmV2(AsGiven), NtlmV2(UpperCased)], [NtlmV2(NoDomain)]);
    if ok {
      return ok, userKey, First8(userKey);
    }
    lmKey := [];
  }

  /** The LMv2 attempts of ntlm_password_check. */
  method TryLmV2s(c: Crypto, l: Logon, s: Stored) returns (ok: bool, userKey: seq<byte>, lmKey: seq<byte>)
    requires s.nt.Some?
    ensures var r := FirstMatch(c, l, s, LmV2Routes());
      && ok == r.Some?
      && (forall cfg :: ok ==> (userKey, lmKey) == RouteKeys(c, cfg, l, s, r.value))
      && (!ok ==> userKey == [] && lmKey == [])
  {
    ok, userKey, lmKey := TryLmV2(c, l, s, AsGiven);
    if ok {
      return;
    }
    SkipRoutes(c, l, s, [LmV2(AsGiven)], [LmV2(UpperCased), LmV2(NoDomain)]);
    ok, userKey, lmKey := TryLmV2(c, l, s, UpperCased);
    if ok {
      return;
    }
    SkipRoutes(c, l, s, [LmV2(AsGiven), LmV2(UpperCased)], [LmV2(NoDomain)]);
    ok, userKey, lmKey := TryLmV2(c, l, s, NoDomain);
  }

  /** The checks of the LM field in ntlm_password_check. */
  method CheckLmField(c: Crypto, cfg: Config, l: Logon, s: Stored)
    returns (status: Status, userKey: seq<byte>, lmKey: seq<byte>)
    requires !OnlyV1(cfg, l, s)
    ensures var r := FirstMatch(c, l, s, LmRoutes(cfg, l, s));
      if r.Some? then status == Ok && (userKey, lmKey) == RouteKeys(c, cfg, l, s, r.value)
      else status == Refusal(cfg, l, s) && userKey == [] && lmKey == []
  {
    var ok, ignored;
    userKey, lmKey := [], [];
    if |l.lm| < 24 {
      return WrongPassword, [], [];
    }
    ghost var lm := if cfg.lanmanAuth && s.lanman.Some? && '@' !in l.username then [Lm] else [];
    ghost var v2 := if s.nt.Some? then LmV2Routes() else [];
    ghost var v1 := if s.nt.Some? && cfg.ntlmAuth then [NtInLm] else [];
    FirstOfTwo(c, l, s, lm, v2 + v1);
    FirstOfTwo(c, l, s, v2, v1);
    if cfg.lanmanAuth && s.lanman.Some? && '@' !in l.username {
      ok, ignored := PwdCheckV1(c, l.lm, s.lanman, l.challenge, []);
      if ok {
        return Ok, s.lanman.value[..8] + ZEROS, s.lanman.value[..8];
      }
    }
    if s.nt.None? {
      return WrongPassword, [], [];
    }
    ok, userKey, lmKey := TryLmV2s(c, l, s);
    if ok {
      return Ok, userKey, lmKey;
    }
    if cfg.ntlmAuth {
      ok, ignored := PwdCheckV1(c, l.lm, s.nt, l.challenge, []);
      if ok {
        if cfg.lanmanAuth && s.lanman.Some? {
          userKey := s.lanman.value[..8] + ZEROS;
          lmKey := s.lanman.value[..8];
        }
        return Ok, userKey, lmKey;
      }
    }
    if '@' in l.username {
      return NotFound, [], [];
    }
    return WrongPassword, [], [];
  }

  /** ntlm_password_check */
  method NtlmPasswordCheck(c: Crypto, cfg: Config, l: Logon, s: Stored)
    returns (status: Status, userKey: seq<byte>, lmKey: seq<byte>)
    ensures Outcome(status, userKey, lmKey) == Decide(c, cfg, l, s)
  {
    var ok;
    lmKey, userKey := [], [];
    if l.cleartextAllowed && |l.challenge| == |ZEROS| && l.challenge == ZEROS {
      var clientLm: Option<Key16> := None;
      if l.lm != [] {
        var password := c.fromDos(l.lm);
        if password.Some? {
          clientLm := c.lmHash(password.value);
        }
      }
      status := HashPasswordCheck(cfg, l.username, clientLm, if l.nt == [] then None else Some(c.md4(l.nt)), s);
      return;
    }
    if |l.nt| > 24 && s.nt.Some? {
      ok, userKey, lmKey := TryNtlmV2(c, l, s);
      FirstOfTwo(c, l, s, V2Routes(), LmRoutes(cfg, l, s));
      if ok {
        return Ok, userKey, lmKey;
      }
    } else if |l.nt| == 24 && s.nt.Some? {
      if cfg.ntlmAuth {
        ok, userKey := PwdCheckV1(c, l.nt, s.nt, l.challenge, userKey);
        if ok {
          if cfg.lanmanAuth && s.lanman.Some? {
            lmKey := s.lanman.value[..8];
          }
          return Ok, userKey, lmKey;
        } else {
          return WrongPassword, userKey, lmKey;
        }
      }
    }
    status, userKey, lmKey := CheckLmField(c, cfg, l, s);
    assert [] + LmRoutes(cfg, l, s) == LmRoutes(cfg, l, s);
  }

  lemma {:induction false} FirstOfTwo(c: Crypto, l: Logon, s: Stored, a: seq<Route>, b: seq<Route>)
    ensures FirstMatch(c, l, s, a + b) ==
            if FirstMatch(c, l, s, a).Some? then FirstMatch(c, l, s, a) else FirstMatch(c, l, s, b)
  {
    if a == [] {
      assert a + b == b;
    } else {
      assert (a + b)[1..] == a[1..] + b;
      FirstOfTwo(c, l, s, a[1..], b);
    }
  }

  // ---------- What the decision guarantees ----------

  /** Keys: none with a refusal; otherwise the right sizes, and the LM key is a prefix of the
      user key unless an NTLMv1 response in the NT field was accepted. */
  lemma KeyShapes(c: Crypto, cfg: Config, l: Logon, s: Stored)
    ensures var o := Decide(c, cfg, l, s);
      && (o.status != Ok ==> o.userKey == [] && o.lmKey == [])
      && |o.userKey| in {0, 16} && |o.lmKey| in {0, 8}
      && (!OnlyV1(cfg, l, s) ==> o.lmKey <= o.userKey)
  {
    if !Cleartext(l) {
      var r := FirstMatch(c, l, s, Routes(cfg, l, s));
      if r.Some? {
        RouteKeyShapes(c, cfg, l, s, r.value);
      }
    }
  }

  lemma RouteKeyShapes(c: Crypto, cfg: Config, l: Logon, s: Stored, r: Route)
    requires RouteMatches(c, l, s, r)
    ensures var (userKey, lmKey) := RouteKeys(c, cfg, l, s, r);
      |userKey| in {0, 16} && |lmKey| in {0, 8} && (r != NtlmV1 ==> lmKey <= userKey)
  {
  }

  predicate Accepts(c: Crypto, cfg: Config, l: Logon, s: Stored) {
    Decide(c, cfg, l, s).status == Ok
  }

  /** Acceptance outside the cleartext path is a matching route. */
  lemma AcceptsIff(c: Crypto, cfg: Config, l: Logon, s: Stored)
    requires !Cleartext(l)
    ensures Accepts(c, cfg, l, s) <==> exists r :: r in Routes(cfg, l, s) && RouteMatches(c, l, s, r)
  {
  }

  /** Turning LANMAN authentication on never refuses a logon that was accepted. */
  lemma LanmanMonotone(c: Crypto, ntlmAuth: bool, l: Logon, s: Stored)
    requires Accepts(c, Config(false, ntlmAuth), l, s)
    ensures Accepts(c, Config(true, ntlmAuth), l, s)
  {
    if !Cleartext(l) {
      var r := FirstMatch(c, l, s, Routes(Config(false, ntlmAuth), l, s)).value;
      assert r in Routes(Config(true, ntlmAuth), l, s);
      AcceptsIff(c, Config(true, ntlmAuth), l, s);
    }
  }

  /** With LANMAN and NTLM authentication off, a logon outside the cleartext path is accepted if
      and only if an NTLMv2 or LMv2 response is right for one of the three variants. */
  lemma StrictConfig(c: Crypto, l: Logon, s: Stored)
    requires !Cleartext(l)
    ensures Accepts(c, Config(false, false), l, s) <==>
      s.nt.Some? && exists v ::
        (|l.nt| > 24 && V2Matches(c, l.nt, s.nt.value, l, v)) || V2Matches(c, l.lm, s.nt.value, l, v)
  {
    var cfg := Config(false, false);
    AcceptsIff(c, cfg, l, s);
    if s.nt.Some? {
      forall v | |l.nt| > 24 && V2Matches(c, l.nt, s.nt.value, l, v) ensures Accepts(c, cfg, l, s) {
        assert NtlmV2(v) in Routes(cfg, l, s);
        assert RouteMatches(c, l, s, NtlmV2(v));
      }
      forall v | V2Matches(c, l.lm, s.nt.value, l, v) ensures Accepts(c, cfg, l, s) {
        assert LmV2(v) in Routes(cfg, l, s);
        assert RouteMatches(c, l, s, LmV2(v));
      }
    }
  }

  /** A right NTLMv2 response is accepted under every configuration. */
  lemma V2AlwaysAccepted(c: Crypto, cfg: Config, l: Logon, s: Stored, v: Variant)
    requires !Cleartext(l) && s.nt.Some? && |l.nt| > 24 && V2Matches(c, l.nt, s.nt.value, l, v)
    ensures Accepts(c, cfg, l, s)
  {
    AcceptsIff(c, cfg, l, s);
    assert NtlmV2(v) in Routes(cfg, l, s);
    assert RouteMatches(c, l, s, NtlmV2(v));
  }

  /** Turning NTLM authentication on can refuse a logon that was accepted: exactly when a wrong
      24-byte NT response comes with an LM field that is right by itself. */
  lemma NtlmNotMonotone(c: Crypto, lanmanAuth: bool, l: Logon, s: Stored)
    requires !Cleartext(l)
    ensures Accepts(c, Config(lanmanAuth, false), l, s) && !Accepts(c, Config(lanmanAuth, true), l, s) <==>
      && |l.nt| == 24 && s.nt.Some? && !V1Matches(c, l.nt, s.nt.value, l.challenge)
      && exists r :: r in LmRoutes(Config(lanmanAuth, false), l, s) && RouteMatches(c, l, s, r)
  {
    var off, on := Config(lanmanAuth, false), Config(lanmanAuth, true);
    AcceptsIff(c, off, l, s);
    AcceptsIff(c, on, l, s);
    if |l.nt| == 24 && s.nt.Some? {
      assert Routes(on, l, s) == [NtlmV1] && Routes(off, l, s) == LmRoutes(off, l, s);
      assert NtlmV1 in Routes(on, l, s);
      assert RouteMatches(c, l, s, NtlmV1) <==> V1Matches(c, l.nt, s.nt.value, l.challenge);
    } else if Accepts(c, off, l, s) {
      var r :| r in Routes(off, l, s) && RouteMatches(c, l, s, r);
      assert r in Routes(on, l, s);
    }
  }

  /** Such a logon exists: a wrong NTLMv1 response beside a right LMv2 response. */
  lemma NtlmNotMonotoneExample() returns (c: Crypto, l: Logon, s: Stored)
    ensures Accepts(c, Config(false, false), l, s) && !Accepts(c, Config(false, true), l, s)
  {
    var zero: Key16 := seq(16, _ => 0);
    c := Crypto((k, ch) => seq(24, _ => 0), k => k, (k, u, d, up) => Some(k), (k, ch, data) => k,
                (k, v) => k, data => zero, data => None, pw => None);
    l := Logon(false, [1, 2, 3, 4, 5, 6, 7, 8], seq(24, _ => 0), seq(24, _ => 1), "user", "user", "domain");
    s := Stored(None, Some(zero));
    assert !Cleartext(l) && l.nt[0] == 1 && |l.nt| == 24;
    assert RouteMatches(c, l, s, LmV2(AsGiven)) by {
      assert l.lm[..16] == zero;
    }
    assert !V1Matches(c, l.nt, zero, l.challenge) by {
      assert c.owf(zero, l.challenge)[0] == 0;
    }
    assert LmRoutes(Config(false, false), l, s) == [] + (LmV2Routes() + []);
    assert LmV2Routes()[0] == LmV2(AsGiven);
    assert LmV2(AsGiven) in LmRoutes(Config(false, false), l, s);
    NtlmNotMonotone(c, false, l, s);
  }

  // ---------- Which logons those are ----------

  /** A cleartext logon: with an NT password and a stored NT hash, exactly the password with that
      hash is accepted. Otherwise a LANMAN password counts, if LANMAN authentication is on and the
      user name is plain. No session keys come of it. */
  lemma CleartextAccepts(c: Crypto, cfg: Config, l: Logon, s: Stored)
    requires l.cleartextAllowed && l.challenge == [0, 0, 0, 0, 0, 0, 0, 0]
    ensures l.nt != [] && s.nt.Some? ==> (Accepts(c, cfg, l, s) <==> c.md4(l.nt) == s.nt.value)
    ensures l.nt == [] || s.nt.None? ==>
      (Accepts(c, cfg, l, s) <==>
        && cfg.lanmanAuth && '@' !in l.username && s.lanman.Some? && l.lm != []
        && c.fromDos(l.lm).Some? && c.lmHash(c.fromDos(l.lm).value) == s.lanman)
    ensures Decide(c, cfg, l, s).userKey == [] && Decide(c, cfg, l, s).lmKey == []
  {
  }

  /** A refused cleartext logon is told that there is no such user exactly if the name has a realm,
      no NT hashes were compared, and no LANMAN password was refused for being one. */
  lemma CleartextRefused(c: Crypto, cfg: Config, l: Logon, s: Stored)
    requires l.cleartextAllowed && l.challenge == [0, 0, 0, 0, 0, 0, 0, 0]
    ensures Decide(c, cfg, l, s).status == NotFound <==>
      && '@' in l.username && (l.nt == [] || s.nt.None?)
      && !(!cfg.lanmanAuth && s.lanman.Some? && l.lm != []
           && c.fromDos(l.lm).Some? && c.lmHash(c.fromDos(l.lm).value).Some?)
  {
  }

  /** An NTLMv2 or LMv2 response is right under some name of the user's domain. */
  predicate AnswersV2(c: Crypto, response: seq<byte>, hash: Key16, l: Logon, domain: string, upper: bool) {
    |l.challenge| == 8 && |response| >= 24 &&
    match c.owfGenV2(hash, l.clientUsername, domain, upper)
    case None => false
    case Some(kr) => c.owfV2(kr, l.challenge, response[16..]) == response[..16]
  }

  predicate AnswersV2Somehow(c: Crypto, response: seq<byte>, hash: Key16, l: Logon) {
    || AnswersV2(c, response, hash, l, l.clientDomain, false)
    || AnswersV2(c, response, hash, l, l.clientDomain, true)
    || AnswersV2(c, response, hash, l, "", false)
  }

  predicate AnswersV1(c: Crypto, response: seq<byte>, hash: Key16, l: Logon) {
    |l.challenge| == 8 && response == c.owf(hash, l.challenge)
  }

  lemma MatchesAre(c: Crypto, response: seq<byte>, hash: Key16, l: Logon)
    ensures (exists v :: V2Matches(c, response, hash, l, v)) <==> AnswersV2Somehow(c, response, hash, l)
    ensures V1Matches(c, response, hash, l.challenge) <==> AnswersV1(c, response, hash, l)
  {
    if AnswersV2(c, response, hash, l, l.clientDomain, false) {
      assert V2Matches(c, response, hash, l, AsGiven);
    }
    if AnswersV2(c, response, hash, l, l.clientDomain, true) {
      assert V2Matches(c, response, hash, l, UpperCased);
    }
    if AnswersV2(c, response, hash, l, "", false) {
      assert V2Matches(c, response, hash, l, NoDomain);
    }
  }

  /** Exactly these responses are accepted, outside the cleartext path. */
  lemma ResponseAccepts(c: Crypto, cfg: Config, l: Logon, s: Stored)
    requires !(l.cleartextAllowed && l.challenge == [0, 0, 0, 0, 0, 0, 0, 0])
    ensures Accepts(c, cfg, l, s) <==>
      if |l.nt| == 24 && s.nt.Some? && cfg.ntlmAuth then AnswersV1(c, l.nt, s.nt.value, l)
      else
        || (s.nt.Some? && |l.nt| > 24 && AnswersV2Somehow(c, l.nt, s.nt.value, l))
        || (s.lanman.Some? && cfg.lanmanAuth && '@' !in l.username && AnswersV1(c, l.lm, s.lanman.value, l))
        || (s.nt.Some? && AnswersV2Somehow(c, l.lm, s.nt.value, l))
        || (s.nt.Some? && cfg.ntlmAuth && AnswersV1(c, l.lm, s.nt.value, l))
  {
    AcceptsIff(c, cfg, l, s);
    if s.nt.Some? {
      MatchesAre(c, l.nt, s.nt.value, l);
      MatchesAre(c, l.lm, s.nt.value, l);
    }
    if s.lanman.Some? {
      MatchesAre(c, l.lm, s.lanman.value, l);
    }
    if OnlyV1(cfg, l, s) {
      assert NtlmV1 in Routes(cfg, l, s);
      assert RouteMatches(c, l, s, NtlmV1) <==> AnswersV1(c, l.nt, s.nt.value, l);
    } else {
      RoutesMatch(c, cfg, l, s);
    }
  }

  lemma RoutesMatch(c: Crypto, cfg: Config, l: Logon, s: Stored)
    requires !OnlyV1(cfg, l, s)
    ensures (exists r :: r in Routes(cfg, l, s) && RouteMatches(c, l, s, r)) <==>
      || (s.nt.Some? && |l.nt| > 24 && exists v :: V2Matches(c, l.nt, s.nt.value, l, v))
      || (s.lanman.Some? && cfg.lanmanAuth && '@' !in l.username && V1Matches(c, l.lm, s.lanman.value, l.challenge))
      || (s.nt.Some? && exists v :: V2Matches(c, l.lm, s.nt.value, l, v))
      || (s.nt.Some? && cfg.ntlmAuth && V1Matches(c, l.lm, s.nt.value, l.challenge))
  {
    var rs := Routes(cfg, l, s);
    forall r ensures r in rs <==> Tried(cfg, l, s, r) {
      RouteIn(cfg, l, s, r);
    }
    if s.nt.Some? {
      forall v | |l.nt| > 24 && V2Matches(c, l.nt, s.nt.value, l, v)
        ensures NtlmV2(v) in rs && RouteMatches(c, l, s, NtlmV2(v)) {
      }
      forall v | V2Matches(c, l.lm, s.nt.value, l, v) ensures LmV2(v) in rs && RouteMatches(c, l, s, LmV2(v)) {
      }
      if cfg.ntlmAuth && V1Matches(c, l.lm, s.nt.value, l.challenge) {
        assert NtInLm in rs && RouteMatches(c, l, s, NtInLm);
      }
    }
    if s.lanman.Some? && cfg.lanmanAuth && '@' !in l.username && V1Matches(c, l.lm, s.lanman.value, l.challenge) {
      assert Lm in rs && RouteMatches(c, l, s, Lm);
    }
  }

  /** What is tried where not only the NTLMv1 response counts. */
  predicate Tried(cfg: Config, l: Logon, s: Stored, r: Route) {
    match r
    case NtlmV1 => false
    case NtlmV2(_) => |l.nt| > 24 && s.nt.Some?
    case Lm => |l.lm| >= 24 && cfg.lanmanAuth && s.lanman.Some? && '@' !in l.username
    case LmV2(_) => s.nt.Some? && |l.lm| >= 24
    case NtInLm => s.nt.Some? && cfg.ntlmAuth && |l.lm| >= 24
  }

  lemma RouteIn(cfg: Config, l: Logon, s: Stored, r: Route)
    requires !OnlyV1(cfg, l, s)
    ensures r in Routes(cfg, l, s) <==> Tried(cfg, l, s, r)
  {
    if r.NtlmV2? || r.LmV2? {
      VariantRoutes(r.v);
    }
  }

  lemma VariantRoutes(v: Variant)
    ensures NtlmV2(v) in V2Routes() && LmV2(v) in LmV2Routes()
  {
    match v {
      case AsGiven => assert V2Routes()[0] == NtlmV2(v) && LmV2Routes()[0] == LmV2(v);
      case UpperCased => assert V2Routes()[1] == NtlmV2(v) && LmV2Routes()[1] == LmV2(v);
      case NoDomain => assert V2Routes()[2] == NtlmV2(v) && LmV2Routes()[2] == LmV2(v);
    }
  }

  /** A refused response is told that there is no such user exactly if the name has a realm and the
      LM field was tried against a stored NT hash. */
  lemma ResponseRefused(c: Crypto, cfg: Config, l: Logon, s: Stored)
    requires !(l.cleartextAllowed && l.challenge == [0, 0, 0, 0, 0, 0, 0, 0]) && !Accepts(c, cfg, l, s)
    ensures Decide(c, cfg, l, s).status == NotFound <==>
      '@' in l.username && s.nt.Some? && |l.lm| >= 24 && !(|l.nt| == 24 && cfg.ntlmAuth)
  {
  }

  /** The keys of an accepted NTLMv1 response. */
  lemma KeysV1(c: Crypto, cfg: Config, l: Logon, s: Stored)
    requires !Cleartext(l) && |l.nt| == 24 && s.nt.Some? && cfg.ntlmAuth && AnswersV1(c, l.nt, s.nt.value, l)
    ensures var o := Decide(c, cfg, l, s);
      && o.userKey == c.sessKeyV1(s.nt.value)
      && o.lmKey == if cfg.lanmanAuth && s.lanman.Some? then s.lanman.value[..8] else []
  {
    assert Routes(cfg, l, s)[0] == NtlmV1;
  }

  /** `v` is the first variant of user and domain for which a response is right. */
  predicate FirstVariant(c: Crypto, response: seq<byte>, hash: Key16, l: Logon, v: Variant) {
    && AnswersV2(c, response, hash, l, if v == NoDomain then "" else l.clientDomain, v == UpperCased)
    && (v != AsGiven ==> !AnswersV2(c, response, hash, l, l.clientDomain, false))
    && (v == NoDomain ==> !AnswersV2(c, response, hash, l, l.clientDomain, true))
  }

  lemma FirstOfThree(c: Crypto, l: Logon, s: Stored, a: Route, b: Route, d: Route, rest: seq<Route>)
    ensures FirstMatch(c, l, s, [a, b, d] + rest) ==
      if RouteMatches(c, l, s, a) then Some(a) else if RouteMatches(c, l, s, b) then Some(b)
      else if RouteMatches(c, l, s, d) then Some(d) else FirstMatch(c, l, s, rest)
  {
    var last := [d] + rest;
    var later := [b] + last;
    assert [a, b, d] + rest == [a] + later;
    FirstCons(c, l, s, a, later);
    FirstCons(c, l, s, b, last);
    FirstCons(c, l, s, d, rest);
  }

  lemma FirstCons(c: Crypto, l: Logon, s: Stored, a: Route, rest: seq<Route>)
    ensures FirstMatch(c, l, s, [a] + rest) == if RouteMatches(c, l, s, a) then Some(a) else FirstMatch(c, l, s, rest)
  {
    assert ([a] + rest)[1..] == rest;
  }

  /** The keys of an NTLMv2 response: they come of what the response itself carries, under the first
      variant for which it is right. */
  lemma KeysV2(c: Crypto, cfg: Config, l: Logon, s: Stored, v: Variant)
    requires !Cleartext(l) && |l.nt| > 24 && s.nt.Some? && FirstVariant(c, l.nt, s.nt.value, l, v)
    ensures var o := Decide(c, cfg, l, s);
      var kr := c.owfGenV2(s.nt.value, l.clientUsername, if v == NoDomain then "" else l.clientDomain, v == UpperCased).value;
      o.userKey == c.sessKeyV2(kr, l.nt[..16]) && o.lmKey == o.userKey[..8]
  {
    FirstOfThree(c, l, s, NtlmV2(AsGiven), NtlmV2(UpperCased), NtlmV2(NoDomain), LmRoutes(cfg, l, s));
    assert Routes(cfg, l, s) == V2Routes() + LmRoutes(cfg, l, s);
  }

  /** The NT field does not decide the logon: it is not left to NTLMv1 alone, and no NTLMv2 response
      in it is right. */
  predicate NtPassed(c: Crypto, cfg: Config, l: Logon, s: Stored) {
    s.nt.Some? ==> (|l.nt| == 24 ==> !cfg.ntlmAuth) && (|l.nt| > 24 ==> !AnswersV2Somehow(c, l.nt, s.nt.value, l))
  }

  /** LANMAN authentication answers the LM field. */
  predicate LanmanRight(c: Crypto, cfg: Config, l: Logon, s: Stored) {
    cfg.lanmanAuth && s.lanman.Some? && '@' !in l.username && AnswersV1(c, l.lm, s.lanman.value, l)
  }

  lemma NtSkipped(c: Crypto, cfg: Config, l: Logon, s: Stored)
    requires NtPassed(c, cfg, l, s)
    ensures FirstMatch(c, l, s, Routes(cfg, l, s)) == FirstMatch(c, l, s, LmRoutes(cfg, l, s))
  {
    var front := if |l.nt| > 24 && s.nt.Some? then V2Routes() else [];
    if s.nt.Some? {
      MatchesAre(c, l.nt, s.nt.value, l);
    }
    SkipRoutes(c, l, s, front, LmRoutes(cfg, l, s));
  }

  lemma LanmanSkipped(c: Crypto, cfg: Config, l: Logon, s: Stored, last: seq<Route>)
    requires |l.lm| >= 24 && s.nt.Some? && !LanmanRight(c, cfg, l, s) && last == if cfg.ntlmAuth then [NtInLm] else []
    ensures FirstMatch(c, l, s, LmRoutes(cfg, l, s)) == FirstMatch(c, l, s, LmV2Routes() + last)
  {
    var front := if cfg.lanmanAuth && s.lanman.Some? && '@' !in l.username then [Lm] else [];
    if s.lanman.Some? {
      MatchesAre(c, l.lm, s.lanman.value, l);
    }
    assert LmRoutes(cfg, l, s) == front + (LmV2Routes() + last);
    SkipRoutes(c, l, s, front, LmV2Routes() + last);
  }

  /** The keys of a LANMAN response, where the NT field does not decide. */
  lemma KeysLm(c: Crypto, cfg: Config, l: Logon, s: Stored)
    requires !Cleartext(l) && NtPassed(c, cfg, l, s) && LanmanRight(c, cfg, l, s)
    ensures var o := Decide(c, cfg, l, s);
      o.userKey == s.lanman.value[..8] + [0, 0, 0, 0, 0, 0, 0, 0] && o.lmKey == s.lanman.value[..8]
  {
    NtSkipped(c, cfg, l, s);
    assert LmRoutes(cfg, l, s)[0] == Lm;
  }

  /** The keys of an LMv2 response, where nothing before it decides: of the NT field when that is
      long, right or not, and else of the response itself. */
  lemma KeysLmV2(c: Crypto, cfg: Config, l: Logon, s: Stored, v: Variant)
    requires !Cleartext(l) && NtPassed(c, cfg, l, s) && !LanmanRight(c, cfg, l, s)
    requires s.nt.Some? && FirstVariant(c, l.lm, s.nt.value, l, v)
    ensures var o := Decide(c, cfg, l, s);
      var kr := c.owfGenV2(s.nt.value, l.clientUsername, if v == NoDomain then "" else l.clientDomain, v == UpperCased).value;
      && o.userKey == c.sessKeyV2(kr, if |l.nt| > 24 then c.owfV2(kr, l.challenge, l.nt[16..]) else l.lm[..16])
      && o.lmKey == o.userKey[..8]
  {
    var last := if cfg.ntlmAuth then [NtInLm] else [];
    NtSkipped(c, cfg, l, s);
    LanmanSkipped(c, cfg, l, s, last);
    FirstOfThree(c, l, s, LmV2(AsGiven), LmV2(UpperCased), LmV2(NoDomain), last);
  }

  /** The keys of an NT response in the LM field, where nothing else is right. */
  lemma KeysNtInLm(c: Crypto, cfg: Config, l: Logon, s: Stored)
    requires !Cleartext(l) && NtPassed(c, cfg, l, s) && !LanmanRight(c, cfg, l, s)
    requires s.nt.Some? && cfg.ntlmAuth && AnswersV1(c, l.lm, s.nt.value, l)
    requires !AnswersV2Somehow(c, l.lm, s.nt.value, l)
    ensures var o := Decide(c, cfg, l, s);
      && o.userKey == (if cfg.lanmanAuth && s.lanman.Some? then s.lanman.value[..8] + [0, 0, 0, 0, 0, 0, 0, 0] else [])
      && o.lmKey == if cfg.lanmanAuth && s.lanman.Some? then s.lanman.value[..8] else []
  {
    NtSkipped(c, cfg, l, s);
    LanmanSkipped(c, cfg, l, s, [NtInLm]);
    NtInLmLast(c, l, s);
  }

  lemma NtInLmLast(c: Crypto, l: Logon, s: Stored)
    requires s.nt.Some? && AnswersV1(c, l.lm, s.nt.value, l) && !AnswersV2Somehow(c, l.lm, s.nt.value, l)
    ensures FirstMatch(c, l, s, LmV2Routes() + [NtInLm]) == Some(NtInLm)
  {
    MatchesAre(c, l.lm, s.nt.value, l);
    SkipRoutes(c, l, s, LmV2Routes(), [NtInLm]);
  }
}
