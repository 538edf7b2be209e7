/**
 `verifyOffline` of the TypeScript SDK around the canonical text: expiry first, then
 the key, then the signature. Which signatures are good is a set of triples.
 */
module OfflineVerification {
  import opened Options
  import opened JsonText
  import opened CanonicalPayload
  import opened WorkerTexts

  /** `signature` is a good Ed25519 signature of `text` under `key`. */
  datatype Signed = Signed(key: string, signature: string, text: string)

  datatype Reason = Expired | KeyUnavailable | Valid | Invalid | VerificationError

  datatype Verdict = Verdict(valid: bool, expired: bool, reason: Reason)

  /** `expires` is None when `expires_at` is no date, and then compares as never past. */
  datatype Receipt = Receipt(fields: seq<Field>, expires: Option<int>)

  /** The signature, when there is one to decode. */
  function SignatureOf(fields: seq<Field>): Option<string> {
    if exists f :: f in fields && f.name == SIGNATURE then ValueOf(fields, SIGNATURE) else None
  }

  /** It is the value of the field of that name, and there is none without such a field or where it is null. */
  lemma SignatureOfField(fields: seq<Field>)
    requires DistinctNames(fields)
    ensures forall signature :: SignatureOf(fields) == Some(signature) <==> Field(SIGNATURE, Some(signature)) in fields
  {
    if f :| f in fields && f.name == SIGNATURE {
      ValueOfField(fields, f);
    }
  }

  /** Under `key` the signature of the receipt is good for its canonical text. */
  predicate IsSigned(fields: seq<Field>, key: string, good: set<Signed>) {
    SignatureOf(fields).Some? && Signed(key, SignatureOf(fields).value, TypeScriptText(fields)) in good
  }

  class Verifier {
    var publicKeyHex: string

    constructor (publicKeyHex: string)
      ensures this.publicKeyHex == publicKeyHex
    {
      this.publicKeyHex := publicKeyHex;
    }

    /** `fetched` is what /v5/keys would give: None when the request throws, "" when it lists no key. */
    method GetPublicKey(fetched: Option<string>) returns (key: string)
      modifies this
      ensures key == publicKeyHex
      ensures old(publicKeyHex) != "" ==> publicKeyHex == old(publicKeyHex)
      ensures old(publicKeyHex) == "" ==> publicKeyHex == match fetched { case Some(k) => k case None => "" }
    {
      if publicKeyHex != "" {
        return publicKeyHex;
      }
      if fetched == None {
        return "";
      }
      publicKeyHex := fetched.value;
      key := publicKeyHex;
    }

    /** `importable` are the keys that `importKey` takes; `good` are the good signatures. */
    method VerifyOffline(r: Receipt, now: int, fetched: Option<string>, importable: set<string>, good: set<Signed>)
        returns (v: Verdict)
      requires DistinctNames(r.fields)
      modifies this
      ensures var past := r.expires.Some? && r.expires.value < now;
              && (v.reason == Expired <==> past)
              && (past || old(publicKeyHex) != "" ==> publicKeyHex == old(publicKeyHex))
              && (!past && old(publicKeyHex) == "" ==>
                  publicKeyHex == match fetched { case Some(k) => k case None => "" })
              && (v.reason == KeyUnavailable <==> !past && publicKeyHex == "")
              && (v.reason == VerificationError <==>
                  && !past && publicKeyHex != ""
                  && (|| publicKeyHex !in importable
                      || forall signature :: Field(SIGNATURE, Some(signature)) !in r.fields))
              && (v.reason == Valid <==>
                  && !past && publicKeyHex != "" && publicKeyHex in importable
                  && exists signature ::
                       && Field(SIGNATURE, Some(signature)) in r.fields
                       && Signed(publicKeyHex, signature, TypeScriptText(r.fields)) in good)
      ensures v.expired <==> v.reason == Expired
      ensures v.valid <==> v.reason == Valid
    {
      if r.expires.Some? && now > r.expires.value {
        return Verdict(false, true, Expired);
      }
      var key := GetPublicKey(fetched);
      if key == "" {
        return Verdict(false, false, KeyUnavailable);
      }
      SignatureOfField(r.fields);
      var signature := SignatureOf(r.fields);
      var canonical := CanonicalText(r.fields);
      if signature == None || key !in importable {
        return Verdict(false, false, VerificationError);
      }
      var valid := Signed(key, signature.value, canonical) in good;
      v := Verdict(valid, false, if valid then Valid else Invalid);
    }
  }

  /** Under `key` the worker has signed nothing but the payloads it issued. */
  ghost predicate OnlyIssued(good: set<Signed>, key: string, issued: set<seq<Field>>) {
    && (forall payload :: payload in issued ==> DistinctNames(payload))
    && forall s :: s in good && s.key == key ==>
         exists payload :: payload in issued && SignedText(payload) == Some(s.text)
  }

  /**
   Main result: if the key has signed nothing but issued payloads, a receipt whose
   signature is good has exactly the fields of one of them, a field named
   `__proto__` aside.
   */
  lemma VerifiedMeansIssued(fields: seq<Field>, key: string, good: set<Signed>, issued: set<seq<Field>>)
    requires DistinctNames(fields) && OnlyIssued(good, key, issued)
    requires IsSigned(fields, key, good)
    ensures exists payload :: payload in issued && SameFields(Filter(Assigned, payload), Signable(fields))
  {
    var payload :| payload in issued && SignedText(payload) == Some(TypeScriptText(fields));
    WhoChecksWhatWasSigned(payload, fields);
  }

  /**
   And a signature that is good for one receipt is good for another exactly when
   their fields are the same, in whatever order, if it was made for that text alone.
   */
  lemma SignatureCoversTheFields(fields: seq<Field>, fields': seq<Field>, s: Signed)
    requires DistinctNames(fields) && DistinctNames(fields')
    requires SignatureOf(fields) == SignatureOf(fields') == Some(s.signature)
    requires s.text == TypeScriptText(fields)
    ensures IsSigned(fields', s.key, {s}) <==> SameFields(Signable(fields), Signable(fields'))
  {
    TypeScriptTextTellsFields(fields, fields');
  }
}
