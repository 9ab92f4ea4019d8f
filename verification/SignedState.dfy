/**
 The state parameter of an authorization request: a signed payload that the callback checks, and
 the older kind that is looked up in memory once.
 */
module SignedState {
  import opened Text
  import opened Wrappers
  import B = Base64

  /** Times are in nanoseconds; a missing time of creation is filled in with the clock. */
  datatype Info = Info(user: string, credentialId: string, redirectURI: string, createdAt: int)

  datatype Payload = Payload(
    version: int, provider: string, user: string, credentialId: string, redirectURI: string, createdAt: int,
    nonce: string)

  const SECOND := 1_000_000_000

  /** JSON, the keyed hash, and the signing keys that configuration and secrets provide. */
  datatype Env = Env(
    marshal: Payload -> B.Bytes, unmarshal: B.Bytes -> Option<Payload>,
    sign: (B.Bytes, string) -> B.Bytes, signingKey: (string, string) -> Result<string, ()>)

  ghost predicate Faithful(env: Env) {
    forall p :: env.unmarshal(env.marshal(p)) == Some(p)
  }

  /** What two pairs of payload and key have the same signature are equal: the hash has no collisions. */
  ghost predicate Ideal(env: Env) {
    forall a, k, b, l :: env.sign(a, k) == env.sign(b, l) ==> a == b && k == l
  }

  // ---------- Creating ----------

  /** `entropy` is what the random source returns. */
  function PayloadOf(provider: string, user: string, credentialId: string, redirectURI: string, createdAt: int,
                     entropy: B.Bytes): Payload {
    Payload(1, provider, user, credentialId, redirectURI, createdAt / SECOND, B.Encode(B.Url, entropy))
  }

  function CreateState(env: Env, provider: string, info: Info, entropy: B.Bytes): Result<string, ()> {
    match env.signingKey(provider, info.credentialId)
    case Err(e) => Err(e)
    case Ok(key) =>
      var raw := env.marshal(
        PayloadOf(provider, info.user, info.credentialId, info.redirectURI, info.createdAt, entropy));
      Ok(B.Encode(B.Url, raw) + "." + B.Encode(B.Url, env.sign(raw, key)))
  }

  // ---------- Consuming ----------

  predicate Acceptable(p: Payload, provider: string) {
    p.version == 1 && p.provider == provider && p.credentialId != "" && p.nonce != ""
  }

  /** The outcome is an error, or an accepted state, or none. */
  function ConsumeSigned(env: Env, payloadText: string, signatureText: string,
                         provider: string): Result<Option<Info>, ()> {
    match B.Decode(B.Url, payloadText)
    case None => Ok(None)
    case Some(raw) =>
      match B.Decode(B.Url, signatureText)
      case None => Ok(None)
      case Some(signature) =>
        match env.unmarshal(raw)
        case None => Ok(None)
        case Some(p) =>
          if !Acceptable(p, provider) then Ok(None)
          else match env.signingKey(provider, p.credentialId)
            case Err(e) => Err(e)
            case Ok(key) =>
              if signature != env.sign(raw, key) then Ok(None)
              else Ok(Some(Info(p.user, p.credentialId, p.redirectURI, p.createdAt * SECOND)))
  }

  function Consume(env: Env, states: map<string, Info>, state: string, provider: string): Result<Option<Info>, ()> {
    if state == "" then Ok(None)
    else
      var parts := Split('.', state);
      if |parts| == 2 then ConsumeSigned(env, parts[0], parts[1], provider)
      else Ok(if state in states then Some(states[state]) else None)
  }

  class Server {
    var states: map<string, Info>

    constructor ()
      ensures states == map[]
    {
      states := map[];
    }

    /** Only a state that is not made of two parts is looked up, and then it is gone. */
    method ConsumeState(env: Env, state: string, provider: string) returns (outcome: Result<Option<Info>, ()>)
      modifies this
      ensures outcome == Consume(env, old(states), state, provider)
      ensures states == if state == "" || |Split('.', state)| == 2 then old(states) else old(states) - {state}
    {
      if state == "" {
        return Ok(None);
      }
      var parts := Split('.', state);
      if |parts| == 2 {
        outcome := ConsumeSigned(env, parts[0], parts[1], provider);
        return;
      }
      if state !in states {
        assert states == states - {state};
        return Ok(None);
      }
      outcome := Ok(Some(states[state]));
      states := states - {state};
    }

    /** A looked-up state is good for one callback. */
    method ConsumeTwice(env: Env, state: string, provider: string, later: string)
      returns (first: Result<Option<Info>, ()>, second: Result<Option<Info>, ()>)
      requires |Split('.', state)| != 2
      modifies this
      ensures second == Ok(None)
    {
      first := ConsumeState(env, state, provider);
      second := ConsumeState(env, state, later);
    }
  }

  // ---------- States that are looked up ----------

  /**
   A state that is kept in memory, other than the empty one or one of two parts, is given back as it
   was kept, for any provider; and so is no other. Signed ones are never looked up.
   */
  lemma KeptIsGivenBack(env: Env, states: map<string, Info>, state: string, provider: string)
    requires state != "" && |Split('.', state)| != 2
    ensures state in states ==> Consume(env, states, state, provider) == Ok(Some(states[state]))
    ensures state !in states ==> Consume(env, states, state, provider) == Ok(None)
    ensures Consume(env, states - {state}, state, provider) == Ok(None)
    ensures forall other :: other != state ==>
              Consume(env, states, other, provider) == Consume(env, states - {state}, other, provider)
  {
  }

  lemma TwoPartsAreNotLookedUp(env: Env, states: map<string, Info>, others: map<string, Info>, state: string,
                               provider: string)
    requires state == "" || |Split('.', state)| == 2
    ensures Consume(env, states, state, provider) == Consume(env, others, state, provider)
    ensures state == "" ==> Consume(env, states, state, provider) == Ok(None)
  {
  }

  // ---------- Round trip ----------

  lemma SplitAtDot(a: string, b: string)
    requires '.' !in a && '.' !in b
    ensures Split('.', a + "." + b) == [a, b]
  {
    SplitOfJoined('.', a, b);
    SplitOfPiece('.', a);
    SplitOfPiece('.', b);
  }

  lemma CreatedHasTwoParts(env: Env, raw: B.Bytes, signature: B.Bytes)
    ensures var state := B.Encode(B.Url, raw) + "." + B.Encode(B.Url, signature);
            && state != "" && Split('.', state) == [B.Encode(B.Url, raw), B.Encode(B.Url, signature)]
            && B.Decode(B.Url, Split('.', state)[0]) == Some(raw)
            && B.Decode(B.Url, Split('.', state)[1]) == Some(signature)
  {
    B.EncodeHasNoDot(B.Url, raw);
    B.EncodeHasNoDot(B.Url, signature);
    SplitAtDot(B.Encode(B.Url, raw), B.Encode(B.Url, signature));
    B.RoundTrip(B.Url, raw);
    B.RoundTrip(B.Url, signature);
  }

  /**
   A created state is accepted by a callback of its own provider, with the time floored to
   seconds, and by no other. One for the empty credential is accepted by none. The keys may
   change in between: then it is the key at the callback that decides.
   */
  lemma StateRoundTrip(creator: Env, env: Env, states: map<string, Info>, provider: string, info: Info,
                       entropy: B.Bytes, callback: string)
    requires Faithful(creator) && entropy != [] && CreateState(creator, provider, info, entropy).Ok?
    requires env.unmarshal == creator.unmarshal && env.sign == creator.sign
    ensures var state := CreateState(creator, provider, info, entropy).value;
            var outcome := Consume(env, states, state, callback);
            && (callback != provider || info.credentialId == "" ==> outcome == Ok(None))
            && (callback == provider && info.credentialId != "" && env.signingKey(provider, info.credentialId)
                  == creator.signingKey(provider, info.credentialId)
                ==> outcome == Ok(Some(info.(createdAt := info.createdAt / SECOND * SECOND))))
  {
    var key := creator.signingKey(provider, info.credentialId).value;
    var p := PayloadOf(provider, info.user, info.credentialId, info.redirectURI, info.createdAt, entropy);
    var raw := creator.marshal(p);
    CreatedHasTwoParts(creator, raw, creator.sign(raw, key));
    B.RoundTrip(B.Url, entropy);
    assert creator.unmarshal(creator.marshal(p)) == Some(p);
  }

  /** With a changed key the state is rejected, if the hash has no collisions. */
  lemma ChangedKeyRejects(creator: Env, env: Env, states: map<string, Info>, provider: string, info: Info,
                          entropy: B.Bytes)
    requires Faithful(creator) && Ideal(creator) && entropy != [] && CreateState(creator, provider, info, entropy).Ok?
    requires env.unmarshal == creator.unmarshal && env.sign == creator.sign
    requires env.signingKey(provider, info.credentialId).Ok?
    requires env.signingKey(provider, info.credentialId) != creator.signingKey(provider, info.credentialId)
    ensures Consume(env, states, CreateState(creator, provider, info, entropy).value, provider) == Ok(None)
  {
    var key := creator.signingKey(provider, info.credentialId).value;
    var p := PayloadOf(provider, info.user, info.credentialId, info.redirectURI, info.createdAt, entropy);
    var raw := creator.marshal(p);
    CreatedHasTwoParts(creator, raw, creator.sign(raw, key));
    assert creator.unmarshal(creator.marshal(p)) == Some(p);
    var other := env.signingKey(provider, info.credentialId).value;
    assert creator.sign(raw, key) == creator.sign(raw, other) ==> key == other;
  }

  // ---------- What is accepted ----------

  /** A text of two parts carries this payload, signed with the key of its credential. */
  ghost predicate CarriesSigned(env: Env, state: string, p: Payload) {
    var parts := Split('.', state);
    && |parts| == 2 && B.Decode(B.Url, parts[0]).Some? && B.Decode(B.Url, parts[1]).Some?
    && var raw := B.Decode(B.Url, parts[0]).value;
    && env.unmarshal(raw) == Some(p) && env.signingKey(p.provider, p.credentialId).Ok?
    && B.Decode(B.Url, parts[1]).value == env.sign(raw, env.signingKey(p.provider, p.credentialId).value)
  }

  /**
   A two-part text is accepted exactly when it carries a payload of version 1 for this provider, with
   a credential and a nonce, under the right signature; and it then says what the payload says.
   */
  lemma AcceptedExactlyWhen(env: Env, states: map<string, Info>, state: string, provider: string, info: Info)
    requires |Split('.', state)| == 2
    ensures Consume(env, states, state, provider) == Ok(Some(info)) <==>
              exists p :: CarriesSigned(env, state, p)
                && p.version == 1 && p.provider == provider && p.credentialId != "" && p.nonce != ""
                && info == Info(p.user, p.credentialId, p.redirectURI, p.createdAt * 1_000_000_000)
  {
    var parts := Split('.', state);
    assert state != "" by {
      assert Split('.', "") == [""];
    }
    var (payload, signature) := (B.Decode(B.Url, parts[0]), B.Decode(B.Url, parts[1]));
    if payload.Some? && signature.Some? && env.unmarshal(payload.value).Some? {
      var p := env.unmarshal(payload.value).value;
      assert CarriesSigned(env, state, p) <==>
             env.signingKey(p.provider, p.credentialId).Ok?
             && signature.value == env.sign(payload.value, env.signingKey(p.provider, p.credentialId).value);
    }
  }

  // ---------- What an accepted state says ----------

  datatype Issue = Issue(provider: string, info: Info, entropy: B.Bytes)

  /** The signature a state carries, if it has two parts that decode. */
  function SignatureOf(state: string): Option<B.Bytes> {
    var parts := Split('.', state);
    if |parts| != 2 then None else B.Decode(B.Url, parts[1])
  }

  ghost predicate IssuedSignature(env: Env, issued: seq<Issue>, signature: B.Bytes) {
    exists i :: 0 <= i < |issued| && IssueSigns(env, issued[i], signature)
  }

  predicate IssueSigns(env: Env, issue: Issue, signature: B.Bytes) {
    var key := env.signingKey(issue.provider, issue.info.credentialId);
    key.Ok? && signature == env.sign(
      env.marshal(PayloadOf(issue.provider, issue.info.user, issue.info.credentialId, issue.info.redirectURI,
                            issue.info.createdAt, issue.entropy)), key.value)
  }

  /**
   When every signature in circulation was made for an issued state, whatever two-part text is
   accepted says what one issued for this provider said, however the text was put together.
   */
  lemma AcceptedWasIssued(env: Env, issued: seq<Issue>, states: map<string, Info>, state: string, provider: string)
    requires Faithful(env) && Ideal(env) && |Split('.', state)| == 2
    requires SignatureOf(state).Some? && IssuedSignature(env, issued, SignatureOf(state).value)
    requires Consume(env, states, state, provider).Ok? && Consume(env, states, state, provider).value.Some?
    ensures exists i :: 0 <= i < |issued| && issued[i].provider == provider
              && Consume(env, states, state, provider).value.value
                   == issued[i].info.(createdAt := issued[i].info.createdAt / SECOND * SECOND)
  {
    var parts := Split('.', state);
    var raw := B.Decode(B.Url, parts[0]).value;
    var signature := SignatureOf(state).value;
    var i :| 0 <= i < |issued| && IssueSigns(env, issued[i], signature);
    var issue := issued[i];
    var p := PayloadOf(issue.provider, issue.info.user, issue.info.credentialId, issue.info.redirectURI,
                       issue.info.createdAt, issue.entropy);
    var accepted := env.unmarshal(raw).value;
    var key := env.signingKey(provider, accepted.credentialId).value;
    assert signature == env.sign(raw, key);
    assert raw == env.marshal(p);
    assert env.unmarshal(env.marshal(p)) == Some(p);
    assert accepted == p;
  }
}
