/**
 * What makes two discovered offers the same model, said of what the providers wrote: which names normalise
 * to the same one, which identifiers of an offer count, and which dimensions of a description do.
 */
module OfferNames {
  import opened Common
  import opened Domain
  import opened IdentifierComponents
  import opened IdentityReconciler

  // ----- Descriptions -----

  /** A word in letters of either case and digits. */
  predicate Word(s: string) {
    PlainWord(LowerAll(s))
  }

  predicate Separators(s: string) {
    forall i :: 0 <= i < |s| ==> !Alphanumeric(Lower(s[i]))
  }

  lemma {:induction false} WordsAreLowered(s: string)
    requires Word(s)
    ensures Dashed(s) == LowerAll(s)
  {
    if s != "" {
      assert LowerAll(s)[0] == Lower(s[0]) && Alphanumeric(LowerAll(s)[0]);
      forall i | 0 <= i < |s[1..]| ensures Alphanumeric(LowerAll(s[1..])[i]) {
        assert LowerAll(s)[i + 1] == LowerAll(s[1..])[i];
      }
      WordsAreLowered(s[1..]);
      assert LowerAll(s) == [Lower(s[0])] + LowerAll(s[1..]);
    }
  }

  /** Each capital letter is lowered to its small one; small letters and digits stay. */
  lemma LettersLoseTheirCase(s: string)
    ensures LowerAll("ABCDEFGHIJKLMNOPQRSTUVWXYZ") == "abcdefghijklmnopqrstuvwxyz"
    ensures PlainWord(s) ==> LowerAll(s) == s
  {
    if PlainWord(s) {
      forall i | 0 <= i < |s| ensures Lower(s[i]) == s[i] {
        assert Alphanumeric(s[i]);
      }
    }
  }

  lemma {:induction false} SeparatorsShrink(seps: string, b: string)
    requires seps != "" && Separators(seps) && Word(b) && b != ""
    ensures Dashed(seps + b) == "-" + LowerAll(b)
  {
    assert (seps + b)[0] == seps[0] && (seps + b)[1..] == seps[1..] + b;
    if |seps| == 1 {
      assert seps[1..] + b == b;
      WordsAreLowered(b);
      assert Alphanumeric(LowerAll(b)[0]);
    } else {
      assert Separators(seps[1..]);
      SeparatorsShrink(seps[1..], b);
    }
  }

  lemma {:induction false} WordThenRest(a: string, rest: string)
    requires Word(a)
    ensures Dashed(a + rest) == LowerAll(a) + Dashed(rest)
  {
    if a == "" {
      assert a + rest == rest && LowerAll(a) + Dashed(rest) == Dashed(rest);
    } else {
      assert LowerAll(a)[0] == Lower(a[0]) && Alphanumeric(LowerAll(a)[0]);
      forall i | 0 <= i < |a[1..]| ensures Alphanumeric(LowerAll(a[1..])[i]) {
        assert LowerAll(a)[i + 1] == LowerAll(a[1..])[i];
      }
      WordThenRest(a[1..], rest);
      assert (a + rest)[1..] == a[1..] + rest;
      assert LowerAll(a) == [Lower(a[0])] + LowerAll(a[1..]);
    }
  }

  lemma StripsToItself(s: string, drop: set<char>)
    requires s != "" && s[0] !in drop && s[|s| - 1] !in drop
    ensures Strip(s, drop) == s
  {
  }

  /** Two words, whatever separates them and whatever their case, normalise to both in lower case with one dash. */
  lemma SeparatorsBecomeOneDash(a: string, seps: string, b: string)
    requires Word(a) && a != "" && Word(b) && b != "" && seps != "" && Separators(seps)
    ensures Normalized(Some(a + seps + b)) == LowerAll(a) + "-" + LowerAll(b)
  {
    assert a + seps + b == a + (seps + b);
    WordThenRest(a, seps + b);
    SeparatorsShrink(seps, b);
    var s := LowerAll(a) + ("-" + LowerAll(b));
    assert s == LowerAll(a) + "-" + LowerAll(b);
    assert Alphanumeric(LowerAll(a)[0]) && Alphanumeric(LowerAll(b)[|b| - 1]);
    assert s[0] == LowerAll(a)[0] && s[|s| - 1] == LowerAll(b)[|b| - 1];
    StripsToItself(s, {'-'});
  }

  /** Nothing said, and nothing but separators, are the same. */
  lemma {:induction false} SeparatorsSayNothing(seps: string)
    requires Separators(seps)
    ensures Dashed(seps) == (if seps == "" then "" else "-")
    ensures Normalized(Some(seps)) == Normalized(None) == ""
  {
    if seps != "" {
      assert Separators(seps[1..]);
      SeparatorsSayNothing(seps[1..]);
    }
  }

  ghost predicate SameDimension(a: Option<string>, b: Option<string>) {
    Normalized(a) == Normalized(b)
  }

  /** Behaviour is release, reasoning variant, quantization, fine-tune and context variant, and nothing else. */
  lemma SameBehaviorIff(a: Description, b: Description)
    ensures BehaviorOf(a) == BehaviorOf(b) <==>
              SameDimension(a.release, b.release) && SameDimension(a.reasoningVariant, b.reasoningVariant)
              && SameDimension(a.quantization, b.quantization) && SameDimension(a.fineTune, b.fineTune)
              && SameDimension(a.contextVariant, b.contextVariant)
  {
  }

  /** Two descriptions are of one model when vendor, family and behaviour agree; the display name does not count. */
  lemma SameFingerprintIff(a: Description, b: Description)
    ensures FingerprintOf(a) == FingerprintOf(b) <==>
              SameDimension(Some(a.vendor), Some(b.vendor)) && SameDimension(Some(a.family), Some(b.family))
              && BehaviorOf(a) == BehaviorOf(b)
  {
  }

  /** Only a description that names a vendor other than unknown, and a family, is ever matched by its fingerprint. */
  lemma MatchedByFingerprintIsNamed(items: seq<Item>, known: seq<Known>, aliases: Aliases, i: nat)
    requires i < |items| && items[i].fingerprint == FingerprintOf(items[i].description)
    requires Assigned(items, known, aliases, i).how == EXACT_FINGERPRINT
    ensures Normalized(Some(items[i].description.vendor)) !in {"", "unknown"}
    ensures Normalized(Some(items[i].description.family)) != ""
  {
  }

  // ----- Identifiers -----

  predicate IdentifierChar(c: char) {
    Alphanumeric(c) || c in {'-', '_', '.', '/'}
  }

  /** An identifier as the hub writes it, in lower case: no slash at either end. */
  predicate PlainIdentifier(s: string) {
    s != "" && s[0] != '/' && s[|s| - 1] != '/' && forall i :: 0 <= i < |s| ==> IdentifierChar(s[i])
  }

  lemma LowerKeepsOthers(c: char)
    ensures c in {'/', ' ', '\t', '\n', '\r'} <==> Lower(c) in {'/', ' ', '\t', '\n', '\r'}
    ensures IdentifierChar(Lower(c)) ==> c !in WHITESPACE
  {
  }

  lemma {:induction false} SlashesAtTheEnd(s: string, n: nat)
    requires s != "" && s[|s| - 1] != '/'
    ensures StripRight(s + seq(n, i => '/'), {'/'}) == s
    decreases n
  {
    var slashes := seq(n, i => '/');
    if n == 0 {
      assert s + slashes == s;
    } else {
      assert (s + slashes)[|s + slashes| - 1] == '/';
      assert (s + slashes)[..|s + slashes| - 1] == s + seq(n - 1, i => '/');
      SlashesAtTheEnd(s, n - 1);
    }
  }

  lemma {:induction false} SlashesAround(s: string, n: nat)
    requires s != "" && s[0] != '/' && s[|s| - 1] != '/'
    ensures Strip(seq(n, i => '/') + s, {'/'}) == s
    decreases n
  {
    var slashes := seq(n, i => '/');
    if n == 0 {
      assert slashes + s == s;
      StripsToItself(s, {'/'});
    } else {
      assert (slashes + s)[0] == '/' && (slashes + s)[1..] == seq(n - 1, i => '/') + s;
      SlashesAround(s, n - 1);
    }
  }

  lemma LoweredSlashes(n: nat, s: string)
    ensures LowerAll(seq(n, i => '/') + s) == seq(n, i => '/') + LowerAll(s)
  {
  }

  /** Slashes in front of an identifier do not matter either. */
  lemma SlashedIdentifier(written: string, plain: string, n: nat)
    requires n > 0 && PlainIdentifier(plain) && LowerAll(written) == plain
    ensures NormalizedIdentifier(Some(seq(n, i => '/') + written)) == plain
  {
    var slashed := seq(n, i => '/') + written;
    assert |written| == |plain|;
    assert Lower(written[|written| - 1]) == plain[|plain| - 1];
    LowerKeepsOthers(written[|written| - 1]);
    assert slashed[0] == '/' && slashed[|slashed| - 1] == written[|written| - 1];
    StripsToItself(slashed, WHITESPACE);
    assert StripRight(slashed, {'/'}) == slashed;
    if |slashed| >= |HUGGING_FACE_PREFIX| {
      assert LowerAll(slashed[..|HUGGING_FACE_PREFIX|])[0] == '/' && HUGGING_FACE_PREFIX[0] == 'h';
    }
    assert HuggingFaceId(slashed) == slashed;
    LoweredSlashes(n, written);
    SlashesAround(plain, n);
  }

  /** Case, trailing slashes and the hub's address do not matter: each of them normalises to the plain identifier. */
  lemma WritingsOfAnIdentifier(written: string, plain: string, n: nat)
    requires PlainIdentifier(plain) && LowerAll(written) == plain
    ensures NormalizedIdentifier(Some(written + seq(n, i => '/'))) == plain
    ensures NormalizedIdentifier(Some("https://huggingface.co/" + written + seq(n, i => '/'))) == plain
  {
    var slashes := seq(n, i => '/');
    assert |written| == |plain|;
    assert Lower(written[0]) == plain[0] && Lower(written[|written| - 1]) == plain[|plain| - 1];
    LowerKeepsOthers(written[0]);
    LowerKeepsOthers(written[|written| - 1]);
    WritingStripped(written, slashes);
    SlashesAtTheEnd(written, n);
    WritingIsNoAddress(written, plain);
    StripsToItself(plain, {'/'});
    var url := HUGGING_FACE_PREFIX + written;
    WritingStripped(url, slashes);
    assert url + slashes == HUGGING_FACE_PREFIX + written + slashes;
    assert url[|url| - 1] == written[|written| - 1];
    SlashesAtTheEnd(url, n);
    assert url[..|HUGGING_FACE_PREFIX|] == HUGGING_FACE_PREFIX && url[|HUGGING_FACE_PREFIX|..] == written;
    PrefixIsLower();
  }

  lemma PrefixIsLower()
    ensures LowerAll(HUGGING_FACE_PREFIX) == HUGGING_FACE_PREFIX
  {
  }

  lemma WritingStripped(s: string, slashes: string)
    requires s != "" && s[0] !in WHITESPACE && s[|s| - 1] !in WHITESPACE
    requires forall i :: 0 <= i < |slashes| ==> slashes[i] == '/'
    ensures Strip(s + slashes, WHITESPACE) == s + slashes
  {
    var t := s + slashes;
    assert t[0] == s[0];
    assert t[|t| - 1] == if slashes == "" then s[|s| - 1] else '/';
    StripsToItself(t, WHITESPACE);
  }

  lemma WritingIsNoAddress(written: string, plain: string)
    requires PlainIdentifier(plain) && LowerAll(written) == plain
    ensures |written| >= |HUGGING_FACE_PREFIX| ==> LowerAll(written[..|HUGGING_FACE_PREFIX|]) != HUGGING_FACE_PREFIX
  {
    if |written| >= |HUGGING_FACE_PREFIX| {
      assert HUGGING_FACE_PREFIX[5] == ':';
      assert LowerAll(written[..|HUGGING_FACE_PREFIX|])[5] == plain[5] && IdentifierChar(plain[5]);
    }
  }

  /** The offer carries the identifier, as its canonical id or as its Hugging Face id. */
  ghost predicate Carries(offer: DiscoveredOffer, s: string) {
    s != "" && (NormalizedIdentifier(offer.hint.canonicalId) == s || NormalizedIdentifier(offer.hint.huggingFaceId) == s)
  }

  lemma ItemListsWhatItCarries(offers: seq<DiscoveredOffer>, i: nat, s: string)
    requires i < |offers|
    ensures s in ItemsOf(offers)[i].identifiers <==> Carries(offers[i], s)
  {
  }

  /** Two offers are linked exactly when their behaviour is equal and they carry a common identifier. */
  lemma OffersAreLinkedIff(offers: seq<DiscoveredOffer>, i: nat, j: nat)
    requires i < |offers| && j < |offers|
    ensures Linked(Nodes(ItemsOf(offers)), i, j) <==>
              BehaviorOf(offers[i].hint.description) == BehaviorOf(offers[j].hint.description)
              && exists s :: Carries(offers[i], s) && Carries(offers[j], s)
  {
    var nodes := Nodes(ItemsOf(offers));
    forall s ensures s in nodes[i].identifiers <==> Carries(offers[i], s) {
      ItemListsWhatItCarries(offers, i, s);
    }
    forall s ensures s in nodes[j].identifiers <==> Carries(offers[j], s) {
      ItemListsWhatItCarries(offers, j, s);
    }
  }

  lemma SameClassSameLabel(items: seq<Item>, i: nat, j: nat)
    requires i < |items| && j < |items| && i != j && Linked(Nodes(items), i, j)
    ensures HasPartner(Nodes(items), i) && HasPartner(Nodes(items), j) && LabelOf(items, i) == LabelOf(items, j)
    ensures items[i].fingerprint.behavior == items[j].fingerprint.behavior
  {
    var nodes := Nodes(items);
    LinkedConnects(nodes, i, j);
    ConnectedSymmetric(nodes, i, j);
    ConnectedSharesClass(nodes, i, j);
    assert j in ClassOf(nodes, i) && i in ClassOf(nodes, j);
    LabelExists(nodes, i);
    LabelExists(nodes, j);
    LabelIsUnique(nodes, ClassOf(nodes, i), LabelOf(items, i), LabelOf(items, j));
  }

  lemma PartnerIsAssigned(items: seq<Item>, known: seq<Known>, i: nat)
    requires i < |items| && HasPartner(Nodes(items), i)
    ensures Assigned(items, known, map[], i)
         == Assignment(FromIdentifier(LabelOf(items, i), items[i].fingerprint.behavior), PROVIDER_CANONICAL_ID, true)
  {
    assert ComponentTargets(items, map[], i) == {};
  }

  /** So without aliases two offers of equal behaviour that carry a common identifier are given one identity by it. */
  lemma SharedIdentifierSharesIdentity(offers: seq<DiscoveredOffer>, known: seq<Known>, i: nat, j: nat, s: string)
    requires i < |offers| && j < |offers| && i != j
    requires BehaviorOf(offers[i].hint.description) == BehaviorOf(offers[j].hint.description)
    requires Carries(offers[i], s) && Carries(offers[j], s)
    ensures Assigned(ItemsOf(offers), known, map[], i) == Assigned(ItemsOf(offers), known, map[], j)
    ensures Assigned(ItemsOf(offers), known, map[], i).how == PROVIDER_CANONICAL_ID
  {
    OffersAreLinkedIff(offers, i, j);
    SameClassSameLabel(ItemsOf(offers), i, j);
    PartnerIsAssigned(ItemsOf(offers), known, i);
    PartnerIsAssigned(ItemsOf(offers), known, j);
  }
}
