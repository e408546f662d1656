/** The records of the benchmark platform's inventory slice. */
module Domain {
  import opened Common

  /** What is said of a model, and what the identities table stores of it. */
  datatype Description = Description(
    vendor: string,
    family: string,
    release: Option<string>,
    reasoningVariant: Option<string>,
    quantization: Option<string>,
    fineTune: Option<string>,
    contextVariant: Option<string>,
    displayName: string)

  /**
   * What a provider row says about the model it serves, with the identifiers that are matched on but never
   * stored with an identity; the extraction from names is an input.
   */
  datatype IdentityHint = IdentityHint(
    description: Description,
    canonicalId: Option<string>,
    huggingFaceId: Option<string>)

  /** The five behaviour-changing dimensions, normalised. */
  datatype Behavior = Behavior(
    release: string, reasoningVariant: string, quantization: string, fineTune: string, contextVariant: string)

  datatype Fingerprint = Fingerprint(vendor: string, family: string, behavior: Behavior)

  /** `_identity_id` hashes a tag and its parts; the hash is taken to be injective. */
  datatype IdentityId =
    | FromIdentifier(identifier: string, behavior: Behavior)
    | FromFingerprint(fingerprint: Fingerprint)
    | FromOffer(provider: string, upstreamModelId: string)
    | Named(name: string)

  datatype ModelIdentity = ModelIdentity(
    identityId: IdentityId, description: Description, provisional: bool, createdAt: real)

  datatype OfferKey = OfferKey(provider: string, upstreamModelId: string)

  /** A refresh hashes the snapshot and the offer; the hash is taken to be injective. */
  datatype AliasId = Recorded(snapshotId: string, offer: OfferKey) | ByHand(name: string)

  /** An identity decision for one provider's source id; `snapshotId` is its cited evidence. */
  datatype AliasDecision = AliasDecision(
    aliasId: AliasId, provider: string, sourceId: string, identityId: IdentityId, how: string, confidence: real,
    snapshotId: Option<string>, reviewer: Option<string>, decidedAt: real, supersededAt: Option<real>)

  datatype Scope = Scope(kind: string, scopeId: string)

  datatype DiscoveredOffer = DiscoveredOffer(
    provider: string, upstreamModelId: string, scope: Scope, hint: IdentityHint)

  function KeyOf(offer: DiscoveredOffer): OfferKey {
    OfferKey(offer.provider, offer.upstreamModelId)
  }

  // Normalisation of names: lower case, runs of other characters become one dash, outer dashes go.

  function Lower(c: char): char {
    if 'A' <= c <= 'Z' then (c as int + 32) as char else c
  }

  function LowerAll(s: string): string {
    seq(|s|, i requires 0 <= i < |s| => Lower(s[i]))
  }

  predicate Alphanumeric(c: char) {
    'a' <= c <= 'z' || '0' <= c <= '9'
  }

  function Dashed(s: string): string {
    if s == "" then ""
    else
      var c, rest := Lower(s[0]), Dashed(s[1..]);
      if Alphanumeric(c) then [c] + rest
      else if rest != "" && rest[0] == '-' then rest
      else "-" + rest
  }

  function StripLeft(s: string, drop: set<char>): string {
    if s != "" && s[0] in drop then StripLeft(s[1..], drop) else s
  }

  function StripRight(s: string, drop: set<char>): string {
    if s != "" && s[|s| - 1] in drop then StripRight(s[..|s| - 1], drop) else s
  }

  function Strip(s: string, drop: set<char>): string {
    StripRight(StripLeft(s, drop), drop)
  }

  function Normalized(value: Option<string>): string {
    match value
    case None => ""
    case Some(s) => Strip(Dashed(s), {'-'})
  }

  /** Lower-case letters and digits only. */
  predicate PlainWord(s: string) {
    forall i :: 0 <= i < |s| ==> Alphanumeric(s[i])
  }

  lemma {:induction false} PlainWordKeepsDashes(s: string)
    requires PlainWord(s)
    ensures Dashed(s) == s
  {
    if s != "" {
      assert Alphanumeric(s[0]) && Lower(s[0]) == s[0];
      PlainWordKeepsDashes(s[1..]);
    }
  }

  /** A plain word is its own normal form. */
  lemma PlainWordIsNormal(s: string)
    requires PlainWord(s)
    ensures Normalized(Some(s)) == s
  {
    PlainWordKeepsDashes(s);
    assert s != "" ==> Alphanumeric(s[0]) && Alphanumeric(s[|s| - 1]);
  }

  const WHITESPACE: set<char> := {' ', '\t', '\n', '\r'}
  const HUGGING_FACE_PREFIX: string := "https://huggingface.co/"

  function HuggingFaceId(value: string): string {
    var text := StripRight(Strip(value, WHITESPACE), {'/'});
    if |text| >= |HUGGING_FACE_PREFIX|
       && LowerAll(text[..|HUGGING_FACE_PREFIX|]) == HUGGING_FACE_PREFIX
    then text[|HUGGING_FACE_PREFIX|..] else text
  }

  function NormalizedIdentifier(value: Option<string>): string {
    match value
    case None => ""
    case Some(s) => Strip(LowerAll(HuggingFaceId(s)), {'/'})
  }

  function BehaviorOf(d: Description): Behavior {
    Behavior(Normalized(d.release), Normalized(d.reasoningVariant), Normalized(d.quantization),
             Normalized(d.fineTune), Normalized(d.contextVariant))
  }

  function FingerprintOf(d: Description): Fingerprint {
    Fingerprint(Normalized(Some(d.vendor)), Normalized(Some(d.family)), BehaviorOf(d))
  }

  predicate Usable(fingerprint: Fingerprint) {
    fingerprint.vendor != "" && fingerprint.vendor != "unknown" && fingerprint.family != ""
  }

  /** The non-empty normalised identifiers of an offer, canonical first; both may be equal. */
  function IdentifiersOf(offer: DiscoveredOffer): (ids: seq<string>) {
    var canonical := NormalizedIdentifier(offer.hint.canonicalId);
    var huggingFace := NormalizedIdentifier(offer.hint.huggingFaceId);
    (if canonical != "" then [canonical] else []) + (if huggingFace != "" then [huggingFace] else [])
  }
}
