/** src/server/auth.py: minting and verifying v1 session tokens. */
module Auth {
  import opened PyText
  import opened Base64
  import opened Json
  import Decimal
  import JsonPrint
  import JsonText

  /** The six reasons of `AuthError`. */
  datatype Reason = Malformed | BadVersion | BadSignature | WrongService | MissingSession | Expired

  /** What verification ends in: `TokenClaims`, an `AuthError`, or an exception of another type. */
  datatype Verdict = Claims(serviceId: Text, sessionId: Text, exp: int) | AuthError(reason: Reason) | OtherError

  /** `int(x)`: a number, a TypeError or ValueError, or an exception of another type. */
  datatype Cast = Number(n: int) | Rejected | Escapes

  /** What the interpreter supplies: the MAC, the charset detection of `json.loads` on bytes, and
      `str` and `int` on the values whose conversion is not modelled. */
  datatype Platform = Platform(
    hmac: (seq<Byte>, seq<Byte>) -> seq<Byte>,
    charset: seq<Byte> -> Option<string>,
    strOf: Json -> Text,
    intOf: Json -> Cast
  ) {
    /** Printable ASCII bytes are read as themselves. */
    ghost predicate Sound() {
      forall t: string :: JsonPrint.Ascii(t) ==> charset(AsciiBytes(t)) == Some(t)
    }

    function Str(v: Json): Text {
      if v.Str? then v.text else strOf(v)
    }

    function Int(v: Json): Cast {
      match v
      case Int(n) => Number(n)
      case Bool(b) => Number(if b then 1 else 0)
      case Float(_) => intOf(v)
      case Str(_) => intOf(v)
      case _ => Rejected
    }
  }

  function AsciiBytes(s: string): (b: seq<Byte>)
    requires JsonPrint.Ascii(s)
  {
    seq(|s|, i requires 0 <= i < |s| => s[i] as int)
  }

  function CodePoints(s: string): Text {
    seq(|s|, i requires 0 <= i < |s| => s[i] as int)
  }

  const SERVICE_ID := CodePoints("service_id")
  const SESSION_ID := CodePoints("session_id")
  const EXP := CodePoints("exp")
  const USER_ID := CodePoints("user_id")
  const IAT := CodePoints("iat")

  // ---- Session ids ----

  predicate IsHex(c: nat) {
    '0' as int <= c <= '9' as int || 'a' as int <= c <= 'f' as int || 'A' as int <= c <= 'F' as int
  }

  predicate UuidChar(i: nat, c: nat) {
    if i == 8 || i == 13 || i == 18 || i == 23 then c == '-' as int
    else if i == 14 then c == '4' as int
    else if i == 19 then c in {'8' as int, '9' as int, 'a' as int, 'b' as int, 'A' as int, 'B' as int}
    else IsHex(c)
  }

  /** `_UUID4_RE.match`: a version 4 UUID in either case; `$` also lets one final newline through. */
  predicate IsUuid4(t: Text) {
    (|t| == 36 || (|t| == 37 && t[36] == '\n' as int)) && forall i :: 0 <= i < 36 ==> UuidChar(i, t[i])
  }

  // ---- Verification ----

  /** The decoded object as a dict: of duplicate members the last counts. */
  function Dict(ms: seq<(Text, Json)>): map<Text, Json> {
    if ms == [] then map[]
    else
      var last := ms[|ms| - 1];
      Dict(ms[..|ms| - 1])[last.0 := last.1]
  }

  /** The checks on the claims, in order. */
  function Validate(service: Text, session: Text, exp: int, required: Text, now: int): Verdict {
    if service != required then AuthError(WrongService)
    else if !IsUuid4(session) then (if JsonPrint.IsScalar(session) then AuthError(MissingSession) else OtherError)
    else if exp <= now then AuthError(Expired)
    else Claims(service, session, exp)
  }

  /** Building the claims from the reduced payload, and checking them. */
  function Judge(p: Platform, raw: map<Text, Json>, required: Text, now: int): Verdict {
    if SERVICE_ID !in raw || SESSION_ID !in raw || EXP !in raw then AuthError(Malformed)
    else match p.Int(raw[EXP])
      case Rejected => AuthError(Malformed)
      case Escapes => OtherError
      case Number(exp) => Validate(p.Str(raw[SERVICE_ID]), p.Str(raw[SESSION_ID]), exp, required, now)
  }

  function JudgePayload(p: Platform, payload: seq<Byte>, required: Text, now: int): Verdict {
    match p.charset(payload)
    case None => OtherError
    case Some(text) =>
      match Loads(text)
      case None => AuthError(Malformed)
      case Some(Obj(ms)) => Judge(p, Dict(ms) - {USER_ID} - {IAT}, required, now)
      case Some(_) => OtherError
  }

  function JudgeParts(p: Platform, parts: seq<string>, required: Text, now: int, secret: seq<Byte>): Verdict {
    if |parts| != 3 then AuthError(Malformed)
    else if parts[0] != "v1" then AuthError(BadVersion)
    else match (Decode(parts[1]), Decode(parts[2]))
      case (Some(payload), Some(sig)) =>
        if p.hmac(secret, payload) == sig then JudgePayload(p, payload, required, now) else AuthError(BadSignature)
      case _ => AuthError(Malformed)
  }

  function Bearer(): (s: string) ensures |s| == 7 { "Bearer " }

  /** `verify_session_token` as a function; `header` is None when the header is absent. */
  function Verify(p: Platform, header: Option<string>, required: Text, now: int, secret: seq<Byte>): Verdict {
    match header
    case None => AuthError(Malformed)
    case Some(h) =>
      if Bearer() <= h then JudgeParts(p, Split(h[7..], '.'), required, now, secret) else AuthError(Malformed)
  }

  /** `verify_session_token` as it is written: early exits, and a dict reduced in place. */
  method VerifySessionToken(p: Platform, header: Option<string>, required: Text, now: int, secret: seq<Byte>)
    returns (verdict: Verdict)
    ensures verdict == Verify(p, header, required, now, secret)
  {
    hide Decode, Loads, Split, Validate;
    if header.None? || header.value == "" {
      return AuthError(Malformed);
    }
    if !(Bearer() <= header.value) {
      return AuthError(Malformed);
    }
    var parts := Split(header.value[7..], '.');
    if |parts| != 3 {
      return AuthError(Malformed);
    }
    if parts[0] != "v1" {
      return AuthError(BadVersion);
    }
    var payload := Decode(parts[1]);
    if payload.None? {
      return AuthError(Malformed);
    }
    var sig := Decode(parts[2]);
    if sig.None? {
      return AuthError(Malformed);
    }
    if p.hmac(secret, payload.value) != sig.value {
      return AuthError(BadSignature);
    }
    verdict := ReadClaims(p, payload.value, required, now);
  }

  method ReadClaims(p: Platform, payload: seq<Byte>, required: Text, now: int) returns (verdict: Verdict)
    ensures verdict == JudgePayload(p, payload, required, now)
  {
    hide Loads, IsUuid4;
    var text := p.charset(payload);
    if text.None? {
      return OtherError;
    }
    var loaded := Loads(text.value);
    if loaded.None? {
      return AuthError(Malformed);
    }
    if !loaded.value.Obj? {
      return OtherError;
    }
    var raw := Dict(loaded.value.members);
    raw := raw - {USER_ID};
    raw := raw - {IAT};
    assert USER_ID !in raw && IAT !in raw;
    if SERVICE_ID !in raw || SESSION_ID !in raw || EXP !in raw {
      return AuthError(Malformed);
    }
    var service, session, exp := p.Str(raw[SERVICE_ID]), p.Str(raw[SESSION_ID]), p.Int(raw[EXP]);
    if exp.Rejected? {
      return AuthError(Malformed);
    }
    if exp.Escapes? {
      return OtherError;
    }
    if service != required {
      return AuthError(WrongService);
    }
    if !IsUuid4(session) {
      return if JsonPrint.IsScalar(session) then AuthError(MissingSession) else OtherError;
    }
    if exp.n <= now {
      return AuthError(Expired);
    }
    return Claims(service, session, exp.n);
  }

  // ---- Minting ----

  function PayloadDict(service: Text, session: Text, exp: int): Json {
    Obj([(EXP, Json.Int(exp)), (SERVICE_ID, Json.Str(service)), (SESSION_ID, Json.Str(session))])
  }

  /** The payload text: compact, its keys in sorted order. */
  function PayloadText(service: Text, session: Text, exp: int): (s: string)
    ensures JsonPrint.Ascii(s)
  {
    JsonPrint.DumpsAscii(PayloadDict(service, session, exp), JsonPrint.Compact);
    JsonPrint.Dumps(PayloadDict(service, session, exp), JsonPrint.Compact)
  }

  /** The wire format around a payload signed with the secret. */
  function Sign(p: Platform, secret: seq<Byte>, payload: seq<Byte>): string {
    Framed("v1", Encode(payload), Encode(p.hmac(secret, payload)))
  }

  function Framed(version: string, payload64: string, sig64: string): string {
    version + ['.'] + (payload64 + ['.'] + sig64)
  }

  /** `mint_session_token` */
  function Mint(p: Platform, secret: seq<Byte>, service: Text, session: Text, exp: int): string {
    Sign(p, secret, AsciiBytes(PayloadText(service, session, exp)))
  }

  // ---- Framing ----

  /** Parts without a '.' come apart as they were put together. */
  lemma FramedSplits(version: string, payload64: string, sig64: string)
    requires '.' !in version && '.' !in payload64 && '.' !in sig64
    ensures Split(Framed(version, payload64, sig64), '.') == [version, payload64, sig64]
  {
    hide Split;
    SplitPiece(version, payload64 + ['.'] + sig64, '.');
    SplitPiece(payload64, sig64, '.');
    SplitLast(sig64, '.');
  }

  lemma BearerOf(token: string)
    ensures Bearer() <= Bearer() + token && (Bearer() + token)[7..] == token
  {}

  lemma VerifyFramed(p: Platform, version: string, payload64: string, sig64: string, required: Text, now: int,
                     secret: seq<Byte>)
    requires '.' !in version && '.' !in payload64 && '.' !in sig64
    ensures Verify(p, Some(Bearer() + Framed(version, payload64, sig64)), required, now, secret)
            == JudgeParts(p, [version, payload64, sig64], required, now, secret)
  {
    hide Split, Framed, JudgeParts, Bearer;
    BearerOf(Framed(version, payload64, sig64));
    FramedSplits(version, payload64, sig64);
  }

  /** A signed payload always gets past version, framing, base64 and signature. */
  lemma SignedIsJudged(p: Platform, payload: seq<Byte>, required: Text, now: int, secret: seq<Byte>)
    ensures Verify(p, Some(Bearer() + Sign(p, secret, payload)), required, now, secret)
            == JudgePayload(p, payload, required, now)
  {
    hide Encode, Decode, Verify, Framed, JudgePayload, Bearer;
    var sig := p.hmac(secret, payload);
    EncodedAlphabet(payload);
    EncodedAlphabet(sig);
    DecodeEncode(payload);
    DecodeEncode(sig);
    VerifyFramed(p, "v1", Encode(payload), Encode(sig), required, now, secret);
  }

  // ---- The whole-token round trip ----

  lemma KeysDiffer()
    ensures EXP != SERVICE_ID && EXP != SESSION_ID && SERVICE_ID != SESSION_ID
    ensures USER_ID !in {EXP, SERVICE_ID, SESSION_ID} && IAT !in {EXP, SERVICE_ID, SESSION_ID}
    ensures JsonPrint.IsScalar(EXP) && JsonPrint.IsScalar(SERVICE_ID) && JsonPrint.IsScalar(SESSION_ID)
  {
    assert |EXP| == 3 && |IAT| == 3 && |USER_ID| == 7 && |SERVICE_ID| == 10 && |SESSION_ID| == 10;
    assert EXP[0] == 'e' as int && IAT[0] == 'i' as int;
    assert SERVICE_ID[2] == 'r' as int && SESSION_ID[2] == 's' as int;
  }

  lemma PayloadReads(service: Text, session: Text, exp: int)
    requires JsonPrint.IsScalar(service) && JsonPrint.IsScalar(session)
    ensures Loads(PayloadText(service, session, exp)) == Some(PayloadDict(service, session, exp))
  {
    hide Loads, JsonPrint.Dumps, JsonPrint.IsScalar;
    KeysDiffer();
    JsonPrint.LoadsDumps(PayloadDict(service, session, exp), JsonPrint.Compact);
  }

  lemma PayloadMembers(service: Text, session: Text, exp: int)
    ensures var d := Dict(PayloadDict(service, session, exp).members) - {USER_ID} - {IAT};
            && SERVICE_ID in d && d[SERVICE_ID] == Json.Str(service)
            && SESSION_ID in d && d[SESSION_ID] == Json.Str(session)
            && EXP in d && d[EXP] == Json.Int(exp)
  {
    hide Dict;
    var m1, m2, m3 := (EXP, Json.Int(exp)), (SERVICE_ID, Json.Str(service)), (SESSION_ID, Json.Str(session));
    assert PayloadDict(service, session, exp).members == [m1] + [m2] + [m3];
    DictAppend([m1] + [m2], [m3]);
    DictAppend([m1], [m2]);
    DictOne(m1);
    DictOne(m2);
    DictOne(m3);
    KeysDiffer();
  }

  lemma UuidIsScalar(session: Text)
    requires IsUuid4(session)
    ensures JsonPrint.IsScalar(session)
  {
    forall i | 0 <= i < |session| ensures session[i] < 128 {
      if i < 36 { assert UuidChar(i, session[i]); }
    }
  }

  /** The verdict on a minted token, for every service id and session id of Unicode scalar values:
      the checks on the claims, applied to what was minted. */
  lemma MintedVerdict(p: Platform, secret: seq<Byte>, service: Text, session: Text, exp: int, token: string,
                      required: Text, now: int)
    requires p.Sound() && JsonPrint.IsScalar(service) && JsonPrint.IsScalar(session)
    requires token == Mint(p, secret, service, session, exp)
    ensures Verify(p, Some(Bearer() + token), required, now, secret) == Validate(service, session, exp, required, now)
  {
    hide Verify, Sign, Loads, PayloadText, PayloadDict, Validate, Dict, JsonPrint.IsScalar, Bearer;
    var text := PayloadText(service, session, exp);
    SignedIsJudged(p, AsciiBytes(text), required, now, secret);
    assert p.charset(AsciiBytes(text)) == Some(text);
    PayloadReads(service, session, exp);
    PayloadMembers(service, session, exp);
    PayloadIsObject(service, session, exp);
  }

  lemma PayloadIsObject(service: Text, session: Text, exp: int)
    ensures PayloadDict(service, session, exp).Obj?
  {}

  /** Round trip: for every secret, every service id of Unicode scalar values, every UUID and every
      later expiry, verifying the minted token returns exactly the three claims. */
  lemma RoundTrip(p: Platform, secret: seq<Byte>, service: Text, session: Text, exp: int, now: int)
    requires p.Sound() && JsonPrint.IsScalar(service) && IsUuid4(session) && exp > now
    ensures Verify(p, Some(Bearer() + Mint(p, secret, service, session, exp)), service, now, secret)
            == Claims(service, session, exp)
  {
    hide Verify, Mint, IsUuid4, JsonPrint.IsScalar, Bearer;
    UuidIsScalar(session);
    MintedVerdict(p, secret, service, session, exp, Mint(p, secret, service, session, exp), service, now);
  }

  // ---- The reason is the first failing check ----

  function FirstFailing(checks: seq<(bool, Reason)>): Option<Reason> {
    if checks == [] then None else if !checks[0].0 then Some(checks[0].1) else FirstFailing(checks[1..])
  }

  predicate Usual(raw: map<Text, Json>, service: Text, session: Text, exp: int) {
    && SERVICE_ID in raw && raw[SERVICE_ID] == Json.Str(service)
    && SESSION_ID in raw && raw[SESSION_ID] == Json.Str(session) && JsonPrint.IsScalar(session)
    && EXP in raw && raw[EXP] == Json.Int(exp)
  }

  lemma FiveChecks(c1: (bool, Reason), c2: (bool, Reason), c3: (bool, Reason), c4: (bool, Reason), c5: (bool, Reason))
    ensures FirstFailing([c1, c2, c3, c4, c5])
            == if !c1.0 then Some(c1.1) else if !c2.0 then Some(c2.1) else if !c3.0 then Some(c3.1)
               else if !c4.0 then Some(c4.1) else if !c5.0 then Some(c5.1) else None
  {
    hide FirstFailing;
    OneCheck(c1, [c2, c3, c4, c5]);
    OneCheck(c2, [c3, c4, c5]);
    OneCheck(c3, [c4, c5]);
    OneCheck(c4, [c5]);
    OneCheck(c5, []);
    assert [c1] + [c2, c3, c4, c5] == [c1, c2, c3, c4, c5] && [c2] + [c3, c4, c5] == [c2, c3, c4, c5];
    assert [c3] + [c4, c5] == [c3, c4, c5] && [c4] + [c5] == [c4, c5] && [c5] + [] == [c5];
  }

  lemma OneCheck(c: (bool, Reason), rest: seq<(bool, Reason)>)
    ensures FirstFailing([c] + rest) == if c.0 then FirstFailing(rest) else Some(c.1)
    ensures FirstFailing([]) == None
  {
    assert ([c] + rest)[1..] == rest;
  }

  /** The verdict is a function of the version, the signature, the three claims and the time: the
      first failing check in this order, or the claims. */
  lemma VerdictIsFirstFailure(p: Platform, version: string, payload64: string, sig64: string,
                              payload: seq<Byte>, sig: seq<Byte>, text: string, ms: seq<(Text, Json)>,
                              service: Text, session: Text, exp: int, required: Text, now: int, secret: seq<Byte>)
    requires '.' !in version && '.' !in payload64 && '.' !in sig64
    requires Decode(payload64) == Some(payload) && Decode(sig64) == Some(sig)
    requires p.charset(payload) == Some(text) && Loads(text) == Some(Obj(ms))
    requires Usual(Dict(ms), service, session, exp)
    ensures Verify(p, Some(Bearer() + Framed(version, payload64, sig64)), required, now, secret)
            == match FirstFailing([(version == "v1", BadVersion), (p.hmac(secret, payload) == sig, BadSignature),
                                   (service == required, WrongService), (IsUuid4(session), MissingSession),
                                   (exp > now, Expired)])
               case None => Claims(service, session, exp)
               case Some(reason) => AuthError(reason)
  {
    hide Verify, Framed, Decode, Loads, Dict, IsUuid4, FirstFailing, JsonPrint.IsScalar, Bearer;
    VerifyFramed(p, version, payload64, sig64, required, now, secret);
    FiveChecks((version == "v1", BadVersion), (p.hmac(secret, payload) == sig, BadSignature),
               (service == required, WrongService), (IsUuid4(session), MissingSession), (exp > now, Expired));
    KeysDiffer();
  }

  /** A boolean expiry counts as 1 or 0, a number with a fraction and a text as the number they are cast to; an
      expiry of any other kind, or one the cast rejects, is malformed. */
  lemma ExpiryExactly(p: Platform, raw: map<Text, Json>, v: Json, n: int, required: Text, now: int)
    requires SERVICE_ID in raw && SESSION_ID in raw
    ensures var verdict := Judge(p, raw[EXP := v], required, now);
            var ofN := Judge(p, raw[EXP := Json.Int(n)], required, now);
            && (v == Bool(true) && n == 1 ==> verdict == ofN)
            && (v == Bool(false) && n == 0 ==> verdict == ofN)
            && ((v.Str? || v.Float?) && p.intOf(v) == Number(n) ==> verdict == ofN)
            && ((v.Str? || v.Float?) && p.intOf(v) == Rejected ==> verdict == AuthError(Malformed))
            && ((v.Str? || v.Float?) && p.intOf(v) == Escapes ==> verdict == OtherError)
            && (v.Null? || v.Arr? || v.Obj? ==> verdict == AuthError(Malformed))
  {
    hide Validate;
    KeysDiffer();
  }

  /** A service or session id that is not a text is judged as the text it is cast to. */
  lemma IdsAreCast(p: Platform, raw: map<Text, Json>, k: Text, required: Text, now: int)
    requires k in {SERVICE_ID, SESSION_ID} && k in raw && !raw[k].Str?
    ensures Judge(p, raw, required, now) == Judge(p, raw[k := Json.Str(p.strOf(raw[k]))], required, now)
  {
    hide Validate;
    KeysDiffer();
  }

  // ---- Other members never matter ----

  /** The two dicts agree on the three claims. */
  predicate SameClaims(a: map<Text, Json>, b: map<Text, Json>) {
    forall k :: k in {SERVICE_ID, SESSION_ID, EXP} ==> (k in a <==> k in b) && (k in a ==> a[k] == b[k])
  }

  lemma SameClaimsSameVerdict(p: Platform, a: map<Text, Json>, b: map<Text, Json>, required: Text, now: int)
    requires SameClaims(a, b)
    ensures Judge(p, a - {USER_ID} - {IAT}, required, now) == Judge(p, b - {USER_ID} - {IAT}, required, now)
  {
    hide Validate;
    KeysDiffer();
    assert SERVICE_ID in {SERVICE_ID, SESSION_ID, EXP} && SESSION_ID in {SERVICE_ID, SESSION_ID, EXP};
    assert EXP in {SERVICE_ID, SESSION_ID, EXP};
  }

  /** Re-signing a payload whose three claims are unchanged never changes the verdict. */
  lemma ResignedVerdict(p: Platform, payloadA: seq<Byte>, payloadB: seq<Byte>, textA: string, textB: string,
                        a: seq<(Text, Json)>, b: seq<(Text, Json)>, tokenA: string, tokenB: string,
                        required: Text, now: int, secret: seq<Byte>)
    requires p.charset(payloadA) == Some(textA) && Loads(textA) == Some(Obj(a))
    requires p.charset(payloadB) == Some(textB) && Loads(textB) == Some(Obj(b))
    requires SameClaims(Dict(a), Dict(b))
    requires tokenA == Sign(p, secret, payloadA) && tokenB == Sign(p, secret, payloadB)
    ensures Verify(p, Some(Bearer() + tokenA), required, now, secret)
            == Verify(p, Some(Bearer() + tokenB), required, now, secret)
  {
    hide Verify, Sign, Loads, Dict, Judge, SameClaims, Bearer;
    SignedIsJudged(p, payloadA, required, now, secret);
    SignedIsJudged(p, payloadB, required, now, secret);
    SameClaimsSameVerdict(p, Dict(a), Dict(b), required, now);
  }

  /** Later members win over earlier ones. */
  lemma {:induction false} DictAppend(a: seq<(Text, Json)>, b: seq<(Text, Json)>)
    ensures Dict(a + b) == Dict(a) + Dict(b)
  {
    if b == [] {
      assert a + b == a;
    } else {
      DictAppend(a, b[..|b| - 1]);
      assert (a + b)[..|a + b| - 1] == a + b[..|b| - 1];
    }
  }

  lemma DictOne(m: (Text, Json))
    ensures Dict([m]) == map[m.0 := m.1]
  {
    assert [m][..0] == [];
  }

  /** Adding or dropping a member that is none of the three claims, at any place. */
  lemma OtherMembersIrrelevant(a: seq<(Text, Json)>, m: (Text, Json), b: seq<(Text, Json)>)
    requires m.0 !in {SERVICE_ID, SESSION_ID, EXP}
    ensures SameClaims(Dict(a + [m] + b), Dict(a + b))
  {
    hide Dict;
    DictAppend(a + [m], b);
    DictAppend(a, [m]);
    DictAppend(a, b);
    DictOne(m);
  }

  /** Exchanging two neighbouring members with different keys. */
  lemma OrderIrrelevant(a: seq<(Text, Json)>, m: (Text, Json), n: (Text, Json), b: seq<(Text, Json)>)
    requires m.0 != n.0
    ensures Dict(a + [m] + [n] + b) == Dict(a + [n] + [m] + b)
  {
    hide Dict;
    DictAppend(a + [m] + [n], b);
    DictAppend(a + [m], [n]);
    DictAppend(a, [m]);
    DictAppend(a + [n] + [m], b);
    DictAppend(a + [n], [m]);
    DictAppend(a, [n]);
    DictOne(m);
    DictOne(n);
  }

  predicate DistinctKeys(ms: seq<(Text, Json)>) {
    forall i, j :: 0 <= i < j < |ms| ==> ms[i].0 != ms[j].0
  }

  lemma {:induction false} DictHolds(ms: seq<(Text, Json)>, k: Text, v: Json)
    requires DistinctKeys(ms)
    ensures (k in Dict(ms) && Dict(ms)[k] == v) <==> (k, v) in ms
    ensures k in Dict(ms) <==> exists i :: 0 <= i < |ms| && ms[i].0 == k
  {
    if ms != [] {
      var front, last := ms[..|ms| - 1], ms[|ms| - 1];
      assert ms == front + [last];
      DictHolds(front, k, v);
    }
  }

  /** Reordering members altogether: objects with the same members, no key twice, are the same dict. */
  lemma ReorderedMembersIrrelevant(a: seq<(Text, Json)>, b: seq<(Text, Json)>)
    requires DistinctKeys(a) && DistinctKeys(b) && multiset(a) == multiset(b)
    ensures Dict(a) == Dict(b)
  {
    hide Dict, DistinctKeys;
    forall k, v ensures (k, v) in a <==> (k, v) in b {
      assert (k, v) in multiset(a) <==> (k, v) in multiset(b);
    }
    var da, db := Dict(a), Dict(b);
    forall k | k in da ensures k in db && db[k] == da[k] {
      DictHolds(a, k, da[k]);
      DictHolds(b, k, da[k]);
    }
    forall k | k in db ensures k in da {
      DictHolds(b, k, db[k]);
      DictHolds(a, k, db[k]);
    }
  }

  // ---- What acceptance means ----

  /** Claims are only ever returned for a `Bearer v1` token whose signature part decodes to the MAC
      of its payload part, and they are the required service, a UUID and a later expiry. */
  lemma AcceptedMeans(p: Platform, header: Option<string>, required: Text, now: int, secret: seq<Byte>)
    requires Verify(p, header, required, now, secret).Claims?
    ensures var c := Verify(p, header, required, now, secret);
            c.serviceId == required && IsUuid4(c.sessionId) && c.exp > now
    ensures exists payload64, sig64, payload ::
              && header == Some(Bearer() + Framed("v1", payload64, sig64))
              && Decode(payload64) == Some(payload) && Decode(sig64) == Some(p.hmac(secret, payload))
              && JudgePayload(p, payload, required, now) == Verify(p, header, required, now, secret)
  {
    hide Split, Decode, Loads, Dict, IsUuid4;
    var token := header.value[7..];
    var parts := Split(token, '.');
    SplitThree(token, '.');
    assert token == Framed(parts[0], parts[1], parts[2]);
    assert header.value == Bearer() + token;
    assert Decode(parts[1]) == Some(Decode(parts[1]).value);
  }

  // ---- When verification ends in another exception than AuthError ----

  /** The signed claims make `int` or the logging of the session id raise: the expiry converts to no number and to
      no caught error, or the right service comes with a session id that is no text. */
  predicate ClaimsEscape(p: Platform, raw: map<Text, Json>, required: Text) {
    && SERVICE_ID in raw && SESSION_ID in raw && EXP in raw
    && (p.Int(raw[EXP]).Escapes?
        || (p.Int(raw[EXP]).Number? && p.Str(raw[SERVICE_ID]) == required
            && !JsonPrint.IsScalar(p.Str(raw[SESSION_ID]))))
  }

  /** A signed payload no reading of which ends in claims or an AuthError: its bytes are in no known character
      set, or it is JSON other than an object, or its claims escape. */
  predicate PayloadEscapes(p: Platform, payload: seq<Byte>, required: Text) {
    || p.charset(payload).None?
    || (Loads(p.charset(payload).value).Some?
        && (!Loads(p.charset(payload).value).value.Obj?
            || ClaimsEscape(p, Dict(Loads(p.charset(payload).value).value.members), required)))
  }

  /** The header carries a v1 token whose signature part is the MAC of this payload. */
  predicate CarriesSigned(p: Platform, header: Option<string>, payload: seq<Byte>, secret: seq<Byte>) {
    && header.Some? && Bearer() <= header.value
    && var parts := Split(header.value[7..], '.');
       |parts| == 3 && parts[0] == "v1" && Decode(parts[1]) == Some(payload)
       && Decode(parts[2]) == Some(p.hmac(secret, payload))
  }

  lemma JudgeEscapes(p: Platform, raw: map<Text, Json>, required: Text, now: int)
    ensures Judge(p, raw - {USER_ID} - {IAT}, required, now).OtherError? <==> ClaimsEscape(p, raw, required)
  {
    hide IsUuid4, JsonPrint.IsScalar;
    KeysDiffer();
    if SESSION_ID in raw && IsUuid4(p.Str(raw[SESSION_ID])) { UuidIsScalar(p.Str(raw[SESSION_ID])); }
  }

  lemma PayloadEscapesExactly(p: Platform, payload: seq<Byte>, required: Text, now: int)
    ensures JudgePayload(p, payload, required, now).OtherError? <==> PayloadEscapes(p, payload, required)
  {
    hide Loads, Dict, Judge, ClaimsEscape;
    if p.charset(payload).Some? {
      var v := Loads(p.charset(payload).value);
      if v.Some? && v.value.Obj? { JudgeEscapes(p, Dict(v.value.members), required, now); }
    }
  }

  /** Verification ends in another exception than AuthError exactly for a properly signed token whose payload
      escapes; the time and every other header do not matter. */
  lemma OtherErrorExactly(p: Platform, header: Option<string>, required: Text, now: int, secret: seq<Byte>)
    ensures Verify(p, header, required, now, secret).OtherError?
            <==> exists payload :: CarriesSigned(p, header, payload, secret) && PayloadEscapes(p, payload, required)
  {
    hide Decode, Split, JudgePayload, PayloadEscapes;
    if header.Some? && Bearer() <= header.value {
      var parts := Split(header.value[7..], '.');
      if |parts| == 3 && Decode(parts[1]).Some? {
        var payload := Decode(parts[1]).value;
        PayloadEscapesExactly(p, payload, required, now);
        if Verify(p, header, required, now, secret).OtherError? {
          assert CarriesSigned(p, header, payload, secret);
        }
      }
    }
  }

  /** The promise of an AuthError on any failure fails for the signed payload `[]`. */
  lemma ListPayloadEscapes(p: Platform, required: Text, now: int, secret: seq<Byte>)
    requires p.Sound()
    ensures JsonPrint.Ascii("[]")
    ensures Verify(p, Some(Bearer() + Sign(p, secret, AsciiBytes("[]"))), required, now, secret) == OtherError
  {
    hide Verify, Sign, Bearer, JudgePayload;
    var text := "[]";
    assert JsonPrint.Ascii(text);
    SignedIsJudged(p, AsciiBytes(text), required, now, secret);
    ListIsNoObject(p, text, required, now);
  }

  lemma ListIsNoObject(p: Platform, text: string, required: Text, now: int)
    requires p.Sound() && text == "[]" && JsonPrint.Ascii(text)
    ensures JudgePayload(p, AsciiBytes(text), required, now) == OtherError
  {
    hide Loads, Judge, Dict;
    assert p.charset(AsciiBytes(text)) == Some(text);
    ListLoads(text);
  }

  lemma ListLoads(text: string)
    requires text == "[]"
    ensures Loads(text) == Some(Arr([]))
  {
    hide Value;
    JsonPrint.WordReads(Arr([]), JsonPrint.Compact, "");
    assert text + "" == text && SkipWs(text) == text;
  }

  // ---- Session ids, from the writing side ----

  /** The k-th hexadecimal digit of 16 bytes, upper or lower case. */
  function DigitOfUuid(b: seq<Byte>, upper: seq<bool>, k: nat): nat
    requires |b| == 16 && |upper| == 32 && k < 32
  {
    JsonText.HexDigit(if k % 2 == 0 then b[k / 2] / 16 else b[k / 2] % 16, upper[k]).Text() as int
  }

  function DigitsOfUuid(b: seq<Byte>, upper: seq<bool>, i: nat, j: nat): (t: Text)
    requires |b| == 16 && |upper| == 32 && i <= j <= 32
    ensures |t| == j - i
  {
    seq<nat>(j - i, k requires 0 <= k < j - i => DigitOfUuid(b, upper, i + k))
  }

  /** 16 bytes as `8-4-4-4-12` hexadecimal digits, each in its own case (section 3 of RFC 4122). */
  function UuidText(b: seq<Byte>, upper: seq<bool>): (t: Text)
    requires |b| == 16 && |upper| == 32
    ensures |t| == 36
  {
    DigitsOfUuid(b, upper, 0, 8) + CodePoints("-") + DigitsOfUuid(b, upper, 8, 12) + CodePoints("-")
    + DigitsOfUuid(b, upper, 12, 16) + CodePoints("-") + DigitsOfUuid(b, upper, 16, 20) + CodePoints("-")
    + DigitsOfUuid(b, upper, 20, 32)
  }

  /** Version 4 of the RFC's variant: the high digit of byte 6, and the two high bits of byte 8. */
  predicate IsVersion4(b: seq<Byte>)
    requires |b| == 16
  {
    b[6] / 16 == 4 && b[8] / 64 == 2
  }

  /** Which digit stands at a place of the text, if not a hyphen. */
  function DigitPlace(i: nat): (k: nat)
    requires i < 36
    ensures k < 32
  {
    if i < 8 then i else if i < 13 then (if i == 8 then 0 else i - 1) else if i < 18 then (if i == 13 then 0 else i - 2)
    else if i < 23 then (if i == 18 then 0 else i - 3) else if i == 23 then 0 else i - 4
  }

  lemma UuidTextAt(b: seq<Byte>, upper: seq<bool>, i: nat)
    requires |b| == 16 && |upper| == 32 && i < 36
    ensures UuidText(b, upper)[i] == if i == 8 || i == 13 || i == 18 || i == 23 then '-' as int
                                     else DigitOfUuid(b, upper, DigitPlace(i))
  {
    hide DigitOfUuid;
  }

  lemma UuidDigit(b: seq<Byte>, upper: seq<bool>, k: nat)
    requires |b| == 16 && |upper| == 32 && k < 32
    ensures var d, c := if k % 2 == 0 then b[k / 2] / 16 else b[k / 2] % 16, DigitOfUuid(b, upper, k);
            IsHex(c) && (c == '4' as int <==> d == 4)
            && (c in {'8' as int, '9' as int, 'a' as int, 'b' as int, 'A' as int, 'B' as int} <==> 8 <= d <= 11)
  {
    JsonText.HexDigits(if k % 2 == 0 then b[k / 2] / 16 else b[k / 2] % 16);
  }

  /** The text of 16 bytes is a session id exactly when they are a version 4 UUID. */
  lemma UuidTextExactly(b: seq<Byte>, upper: seq<bool>)
    requires |b| == 16 && |upper| == 32
    ensures IsUuid4(UuidText(b, upper)) <==> IsVersion4(b)
  {
    hide UuidText, DigitOfUuid, IsHex;
    var t := UuidText(b, upper);
    UuidTextAt(b, upper, 14);
    UuidTextAt(b, upper, 19);
    UuidDigit(b, upper, 12);
    UuidDigit(b, upper, 16);
    assert b[8] / 64 == 2 <==> 8 <= b[8] / 16 <= 11;
    if IsVersion4(b) {
      forall i | 0 <= i < 36 ensures UuidChar(i, t[i]) {
        UuidTextAt(b, upper, i);
        UuidDigit(b, upper, DigitPlace(i));
      }
    } else {
      assert !UuidChar(14, t[14]) || !UuidChar(19, t[19]);
    }
  }

  // ---- The final newline the pattern lets through ----

  /** `$` matches before a final newline: a UUID followed by one is a session id too. */
  lemma UuidWithNewline(session: Text)
    requires |session| == 36
    ensures IsUuid4(session + ['\n' as int]) <==> IsUuid4(session)
  {
    var longer := session + ['\n' as int];
    assert forall i :: 0 <= i < 36 ==> longer[i] == session[i];
  }

  /** And it is accepted, minted and returned with its newline. */
  lemma NewlineSessionAccepted(p: Platform, secret: seq<Byte>, service: Text, uuid: Text, exp: int, now: int)
    requires p.Sound() && JsonPrint.IsScalar(service) && |uuid| == 36 && IsUuid4(uuid) && exp > now
    ensures var session := uuid + ['\n' as int];
            Verify(p, Some(Bearer() + Mint(p, secret, service, session, exp)), service, now, secret)
            == Claims(service, session, exp)
  {
    hide Verify, Mint, IsUuid4, JsonPrint.IsScalar, Bearer;
    UuidWithNewline(uuid);
    RoundTrip(p, secret, service, uuid + ['\n' as int], exp, now);
  }

  lemma HexWritten(c: nat) returns (d: nat, upper: bool)
    requires IsHex(c)
    ensures d < 16 && JsonText.HexDigit(d, upper).Text() as int == c
  {
    upper := 'A' as int <= c <= 'F' as int;
    d := if c <= '9' as int then c - '0' as int else if upper then c - 'A' as int + 10 else c - 'a' as int + 10;
    JsonText.HexDigits(d);
  }

  lemma UuidCharIsHex(i: nat, c: nat)
    requires UuidChar(i, c) && i != 8 && i != 13 && i != 18 && i != 23
    ensures IsHex(c)
  {}

  /** The place of a digit in the text. */
  function PlaceOf(k: nat): (i: nat)
    requires k < 32
    ensures i < 36 && DigitPlace(i) == k && i != 8 && i != 13 && i != 18 && i != 23
  {
    if k < 8 then k else if k < 12 then k + 1 else if k < 16 then k + 2 else if k < 20 then k + 3 else k + 4
  }

  lemma {:induction false} NibblesWritten(t: Text, n: nat) returns (ds: seq<nat>, upper: seq<bool>)
    requires IsUuid4(t) && n <= 32
    ensures |ds| == n && |upper| == n
    ensures forall k :: 0 <= k < n ==> ds[k] < 16 && JsonText.HexDigit(ds[k], upper[k]).Text() as int == t[PlaceOf(k)]
  {
    ds, upper := [], [];
    if n > 0 {
      ds, upper := NibblesWritten(t, n - 1);
      var i := PlaceOf(n - 1);
      assert UuidChar(i, t[i]);
      UuidCharIsHex(i, t[i]);
      hide IsUuid4, UuidChar, IsHex;
      var d, u := HexWritten(t[i]);
      ds, upper := ds + [d], upper + [u];
    }
  }

  /** Every session id is the text of a version 4 UUID, or that and a newline. */
  lemma UuidWritten(t: Text) returns (b: seq<Byte>, upper: seq<bool>)
    requires IsUuid4(t)
    ensures |b| == 16 && |upper| == 32 && IsVersion4(b)
    ensures t == UuidText(b, upper) || t == UuidText(b, upper) + CodePoints("\n")
  {
    var ds, cases := NibblesWritten(t, 32);
    b, upper := seq(16, i requires 0 <= i < 16 => 16 * ds[2 * i] + ds[2 * i + 1]), cases;
    hide UuidText, UuidChar, IsVersion4;
    CutUuid(t);
    SameUuid(b, upper, ds, t);
    hide IsUuid4;
    UuidTextExactly(b, upper);
  }

  lemma CutUuid(t: Text)
    requires IsUuid4(t)
    ensures |t| >= 36 && IsUuid4(t[..36]) && (t == t[..36] || t == t[..36] + CodePoints("\n"))
  {
    assert |t| == 37 ==> t == t[..36] + CodePoints("\n");
    hide UuidChar;
    forall i | 0 <= i < 36 ensures UuidChar(i, t[..36][i]) { assert UuidChar(i, t[i]); }
  }

  lemma SameUuid(b: seq<Byte>, upper: seq<bool>, ds: seq<nat>, t: Text)
    requires |b| == 16 && |upper| == 32 && |ds| == 32 && IsUuid4(t)
    requires forall i :: 0 <= i < 16 ==> b[i] == 16 * ds[2 * i] + ds[2 * i + 1]
    requires forall k :: 0 <= k < 32 ==> ds[k] < 16 && JsonText.HexDigit(ds[k], upper[k]).Text() as int == t[PlaceOf(k)]
    ensures t[..36] == UuidText(b, upper)
  {
    forall i | 0 <= i < 36 ensures t[i] == UuidText(b, upper)[i] {
      UuidTextAt(b, upper, i);
      assert UuidChar(i, t[i]);
      if i != 8 && i != 13 && i != 18 && i != 23 { SameDigit(b, upper, ds, t, DigitPlace(i)); }
    }
  }

  lemma SameDigit(b: seq<Byte>, upper: seq<bool>, ds: seq<nat>, t: Text, k: nat)
    requires |b| == 16 && |upper| == 32 && |ds| == 32 && |t| >= 36 && k < 32
    requires forall i :: 0 <= i < 32 ==> ds[i] < 16
    requires forall i :: 0 <= i < 16 ==> b[i] == 16 * ds[2 * i] + ds[2 * i + 1]
    requires JsonText.HexDigit(ds[k], upper[k]).Text() as int == t[PlaceOf(k)]
    ensures DigitOfUuid(b, upper, k) == t[PlaceOf(k)]
  {
    var i := k / 2;
    assert b[i] / 16 == ds[2 * i] && b[i] % 16 == ds[2 * i + 1];
    assert k == 2 * i || k == 2 * i + 1;
  }

  /** Round trip, with the session id from the writing side: for every 16 bytes of a version 4 UUID, printed in any
      case, verifying the minted token returns exactly the three claims; for all other bytes it is refused. */
  lemma UuidRoundTrip(p: Platform, secret: seq<Byte>, service: Text, b: seq<Byte>, upper: seq<bool>, session: Text,
                      exp: int, now: int)
    requires p.Sound() && JsonPrint.IsScalar(service) && exp > now && |b| == 16 && |upper| == 32
    requires session == UuidText(b, upper)
    ensures Verify(p, Some("Bearer " + Mint(p, secret, service, session, exp)), service, now, secret)
            == if IsVersion4(b) then Claims(service, session, exp) else AuthError(MissingSession)
  {
    BearerIs();
    hide Verify, Mint, IsUuid4, JsonPrint.IsScalar, Bearer, UuidText, IsVersion4;
    UuidTextExactly(b, upper);
    UuidTextIsScalar(b, upper);
    MintedVerdict(p, secret, service, session, exp, Mint(p, secret, service, session, exp), service, now);
  }

  lemma BearerIs()
    ensures Bearer() == "Bearer "
  {}

  /** The wire format: `v1`, and the base64 of the payload and of its MAC; the payload is compact JSON with its keys in
      sorted order. */
  lemma MintedToken(p: Platform, secret: seq<Byte>, service: Text, session: Text, exp: int, text: string)
    requires text == PayloadText(service, session, exp)
    ensures Mint(p, secret, service, session, exp)
            == "v1" + "." + (Encode(AsciiBytes(text)) + "." + Encode(p.hmac(secret, AsciiBytes(text))))
    ensures text == "{" + (JsonPrint.Quote(CodePoints("exp")) + (":" + (Decimal.Print(exp) + ("," +
                    (JsonPrint.Quote(CodePoints("service_id")) + (":" + (JsonPrint.Quote(service) + ("," +
                    (JsonPrint.Quote(CodePoints("session_id")) + (":" + (JsonPrint.Quote(session) + "}")))))))))))
  {
    hide JsonPrint.Quote, Decimal.Print, Encode;
    var v, st := PayloadDict(service, session, exp), JsonPrint.Compact;
    assert JsonPrint.Dumps(v, st) == "{" + JsonPrint.DumpMembers(v, 0, st);
    var k2, k1, k0 := JsonPrint.Quote(SESSION_ID), JsonPrint.Quote(SERVICE_ID), JsonPrint.Quote(EXP);
    var s, q := JsonPrint.Quote(session), JsonPrint.Quote(service);
    assert st.Item() == "," && st.Key() == ":" && |v.members| == 3;
    assert v.members[1] == (SERVICE_ID, Json.Str(service)) && v.members[2] == (SESSION_ID, Json.Str(session));
    assert JsonPrint.Dumps(Json.Str(service), st) == q && JsonPrint.Dumps(Json.Str(session), st) == s;
    var m2 := JsonPrint.DumpMembers(v, 2, st);
    assert m2 == k2 + (":" + (s + "}"));
    var m1 := JsonPrint.DumpMembers(v, 1, st);
    assert m1 == k1 + (":" + (q + ("," + m2)));
    assert JsonPrint.DumpMembers(v, 0, st) == k0 + (":" + (Decimal.Print(exp) + ("," + m1)));
  }

  lemma UuidTextIsScalar(b: seq<Byte>, upper: seq<bool>)
    requires |b| == 16 && |upper| == 32
    ensures JsonPrint.IsScalar(UuidText(b, upper))
  {
    hide UuidText, DigitOfUuid;
    forall i | 0 <= i < 36 ensures UuidText(b, upper)[i] < 128 {
      UuidTextAt(b, upper, i);
      UuidDigit(b, upper, DigitPlace(i));
    }
  }

  /** Every session id that verification returns is the text of a version 4 UUID, or that and a newline. */
  lemma ReturnedSessionIsUuid(p: Platform, header: Option<string>, required: Text, now: int, secret: seq<Byte>)
    returns (b: seq<Byte>, upper: seq<bool>)
    requires Verify(p, header, required, now, secret).Claims?
    ensures |b| == 16 && |upper| == 32 && IsVersion4(b)
    ensures var session := Verify(p, header, required, now, secret).sessionId;
            session == UuidText(b, upper) || session == UuidText(b, upper) + CodePoints("\n")
  {
    hide Verify, IsUuid4, UuidText, IsVersion4;
    AcceptedMeans(p, header, required, now, secret);
    b, upper := UuidWritten(Verify(p, header, required, now, secret).sessionId);
  }
}
