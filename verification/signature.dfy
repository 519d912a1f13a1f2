/** The provider's keyed signature (`get_signature` / `verify_signature`).
    The digest algorithm (SHA-256, hex-encoded) is a parameter `hash`:
    every property below holds whatever function it is, so what is proved
    is the canonical pre-image the digest is taken over. */
module Signature {
  import opened Wrappers
  import opened PhpStrings
  import opened PhpArrays
  import opened PhpArrayLaws

  /** The separator the provider puts between signed pieces. */
  const Delimiter := "{up}"

  /** The parameters that are never signed: the signature itself. */
  predicate Unsigned(k: string) {
    k == "sign" || k == "signature"
  }

  /** The entries that enter the signature: `ksort`, then `sign` and
      `signature` removed. */
  function SignedEntries(p: Params): (r: Params)
    ensures forall e :: e in r <==> e in p && !Unsigned(e.0)
    ensures DistinctKeys(p) ==> StrictlySorted(r)
  {
    var sorted := KSort(p);
    var r := Unset(Unset(sorted, "sign"), "signature");
    assert forall e :: e in sorted <==> e in p by {
      assert forall e :: e in sorted <==> e in multiset(sorted);
    }
    UnsetKeepsOrder(sorted, "sign");
    UnsetKeepsOrder(Unset(sorted, "sign"), "signature");
    r
  }

  /** The string that is hashed: methodName, the signed values by ascending
      key, and the secret, joined with the delimiter. */
  function Preimage(methodName: string, p: Params, secret: string): string {
    Join(Delimiter, [methodName] + Values(SignedEntries(p)) + [secret])
  }

  /** `get_signature(methodName, params, secret)`. */
  function GetSignature(hash: string -> string, methodName: string, p: Params, secret: string): (r: string)
    ensures var vs := Values(SignedEntries(p));
      r == hash(methodName + Delimiter + (if vs == [] then "" else Join(Delimiter, vs) + Delimiter) + secret)
  {
    PreimageShape(methodName, p, secret);
    hash(Preimage(methodName, p, secret))
  }

  /** `verify_signature(params, methodName, secret)`, with the comparison read
      as exact string equality; an absent `signature` compares as "". */
  predicate VerifySignature(hash: string -> string, p: Params, methodName: string, secret: string)
    ensures "signature" !in KeysOf(p) ==>
              (VerifySignature(hash, p, methodName, secret) <==> GetSignature(hash, methodName, p, secret) == "")
    ensures "signature" in KeysOf(p) ==>
              (VerifySignature(hash, p, methodName, secret) <==>
               Lookup(p, "signature") == Some(GetSignature(hash, methodName, p, secret)))
  {
    Lookup(p, "signature").GetOr("") == GetSignature(hash, methodName, p, secret)
  }

  /** The pre-image written out: `method{up}v1{up}...{up}vn{up}secret`. */
  lemma PreimageShape(methodName: string, p: Params, secret: string)
    ensures var vs := Values(SignedEntries(p));
      Preimage(methodName, p, secret) ==
        methodName + Delimiter + (if vs == [] then "" else Join(Delimiter, vs) + Delimiter) + secret
  {
    JoinFramed(Delimiter, methodName, Values(SignedEntries(p)), secret);
  }

  /** Reference definition: the signed values are those of the entries
      other than `sign`/`signature`, in strictly ascending key order. Any
      arrangement with that property gives the same pre-image. */
  lemma PreimageFromAnySortedArrangement(methodName: string, p: Params, secret: string, s: Params)
    requires DistinctKeys(p)
    requires StrictlySorted(s)
    requires forall e :: e in s <==> e in p && !Unsigned(e.0)
    ensures Preimage(methodName, p, secret) == Join(Delimiter, [methodName] + Values(s) + [secret])
  {
    StrictlySortedUnique(SignedEntries(p), s);
  }

  /** Insertion order is irrelevant, and so are `sign`/`signature`: two
      well-formed arrays with the same signed entries have one signature. */
  lemma SignatureDependsOnlyOnSignedEntries(hash: string -> string, methodName: string, p: Params, q: Params, secret: string)
    requires DistinctKeys(p) && DistinctKeys(q)
    requires forall e: Entry :: !Unsigned(e.0) ==> (e in p <==> e in q)
    ensures GetSignature(hash, methodName, p, secret) == GetSignature(hash, methodName, q, secret)
  {
    PreimageFromAnySortedArrangement(methodName, p, secret, SignedEntries(q));
  }

  /** Setting `sign` or `signature` never changes what is signed. */
  lemma SignedEntriesIgnoreUnsigned(p: Params, k: string, v: string)
    requires Unsigned(k)
    ensures SignedEntries(Assign(p, k, v)) == SignedEntries(p)
  {
    var a := Assign(p, k, v);
    UnsetKSort(a, "sign");
    UnsetKSort(Unset(a, "sign"), "signature");
    UnsetKSort(p, "sign");
    UnsetKSort(Unset(p, "sign"), "signature");
    if k == "sign" {
      UnsetAssignSame(p, k, v);
    } else {
      UnsetAssignOther(p, k, v, "sign");
      UnsetAssignSame(Unset(p, "sign"), k, v);
    }
  }

  /** Round trip: a request carrying the signature computed over it verifies. */
  lemma SignThenVerify(hash: string -> string, methodName: string, p: Params, secret: string)
    ensures VerifySignature(hash, Assign(p, "signature", GetSignature(hash, methodName, p, secret)), methodName, secret)
  {
    SignedEntriesIgnoreUnsigned(p, "signature", GetSignature(hash, methodName, p, secret));
  }

  /** The exact check accepts exactly one signature for a request: the
      digest of the request's own signed entries. */
  lemma VerifyAcceptsOnlyTheDigest(hash: string -> string, methodName: string, p: Params, secret: string, sig: string)
    ensures VerifySignature(hash, Assign(p, "signature", sig), methodName, secret) <==>
            sig == GetSignature(hash, methodName, p, secret)
  {
    SignedEntriesIgnoreUnsigned(p, "signature", sig);
  }

  /** A different method name gives a different pre-image. */
  lemma PreimageBindsMethod(m1: string, m2: string, p: Params, secret: string)
    requires m1 != m2
    ensures Preimage(m1, p, secret) != Preimage(m2, p, secret)
  {
    var rest := Values(SignedEntries(p)) + [secret];
    PreimageAfterMethod(m1, p, secret);
    PreimageAfterMethod(m2, p, secret);
    JoinInjectiveFirst(Delimiter, m1, m2, rest);
  }

  lemma PreimageAfterMethod(methodName: string, p: Params, secret: string)
    ensures Preimage(methodName, p, secret) == Join(Delimiter, [methodName] + (Values(SignedEntries(p)) + [secret]))
  {
    var vs := Values(SignedEntries(p));
    assert [methodName] + vs + [secret] == [methodName] + (vs + [secret]);
  }

  /** A different secret gives a different pre-image. */
  lemma PreimageBindsSecret(methodName: string, p: Params, s1: string, s2: string)
    requires s1 != s2
    ensures Preimage(methodName, p, s1) != Preimage(methodName, p, s2)
  {
    var front := [methodName] + Values(SignedEntries(p));
    assert front + [s1] == front + [s1] + [];
    assert front + [s2] == front + [s2] + [];
    if Preimage(methodName, p, s1) == Preimage(methodName, p, s2) {
      JoinInjectiveAt(Delimiter, front, s1, s2, []);
    }
  }

  /** The signed entries after changing the value of one signed key. */
  lemma SignedEntriesSetValue(p: Params, k: string, v: string)
    ensures SignedEntries(SetValue(p, k, v)) == SetValue(SignedEntries(p), k, v)
  {
    SetValueKSort(p, k, v);
    UnsetSetValue(KSort(p), k, v, "sign");
    UnsetSetValue(Unset(KSort(p), "sign"), k, v, "signature");
  }

  /** In an array without repeated keys, changing the value at index i
      touches that index only. */
  lemma SetValueAtIndex(c: Params, i: nat, v: string)
    requires DistinctKeys(c) && i < |c|
    ensures Values(SetValue(c, c[i].0, v)) == Values(c)[..i] + [v] + Values(c)[i + 1..]
  {
    var a := Values(SetValue(c, c[i].0, v));
    var b := Values(c)[..i] + [v] + Values(c)[i + 1..];
    assert |a| == |b|;
    forall j | 0 <= j < |a|
      ensures a[j] == b[j]
    {
      if j < i {
        assert c[j].0 != c[i].0;
      } else if j > i {
        assert c[i].0 != c[j].0;
      }
    }
  }

  /** The signed values after changing the value of the signed key at
      index i: the old list with that one element replaced. */
  lemma SignedValuesAfterSetValue(p: Params, i: nat, v: string)
    requires DistinctKeys(p) && i < |SignedEntries(p)|
    ensures var c := SignedEntries(p);
      Values(SignedEntries(SetValue(p, c[i].0, v))) == Values(c)[..i] + [v] + Values(c)[i + 1..]
  {
    var c := SignedEntries(p);
    SignedEntriesSetValue(p, c[i].0, v);
    StrictlySortedHasDistinctKeys(c);
    SetValueAtIndex(c, i, v);
  }

  /** Changing the value of any one signed parameter changes the pre-image. */
  lemma PreimageBindsEachValue(methodName: string, p: Params, secret: string, k: string, v1: string, v2: string)
    requires DistinctKeys(p)
    requires k in KeysOf(p) && !Unsigned(k)
    requires v1 != v2
    ensures Preimage(methodName, SetValue(p, k, v1), secret) != Preimage(methodName, SetValue(p, k, v2), secret)
  {
    var c := SignedEntries(p);
    var e :| e in p && e.0 == k;
    assert e in c;
    var i :| 0 <= i < |c| && c[i] == e;
    SignedValuesAfterSetValue(p, i, v1);
    SignedValuesAfterSetValue(p, i, v2);
    FramedJoinInjectiveAt(Delimiter, methodName, Values(c), i, v1, v2, secret);
  }

  lemma SignedValuesOfOneEntry(k: string, v: string)
    requires !Unsigned(k)
    ensures Values(SignedEntries([(k, v)])) == [v]
  {
    var one: Params := [(k, v)];
    assert KSort(one) == one;
    assert Unset(one, "sign") == one;
    assert Unset(one, "signature") == one;
  }

  lemma SignedValuesOfTwoEntries(k1: string, v1: string, k2: string, v2: string)
    requires !Unsigned(k1) && !Unsigned(k2) && Less(k1, k2)
    ensures Values(SignedEntries([(k1, v1), (k2, v2)])) == [v1, v2]
  {
    var two: Params := [(k1, v1), (k2, v2)];
    LessAsymmetric(k1, k2);
    assert KSort([two[1]]) == [two[1]];
    assert KSort(two) == Insert(two[0], [two[1]]) == two;
    assert Unset([two[1]], "sign") == [two[1]];
    assert Unset(two, "sign") == two;
    assert Unset([two[1]], "signature") == [two[1]];
    assert Unset(two, "signature") == two;
  }

  /** The delimiter join does not sign key names: a value containing the
      delimiter reads like two parameters. */
  lemma PreimageDoesNotBindKeyNames(methodName: string, secret: string, k1: string, k2: string, x: string, y: string)
    requires !Unsigned(k1) && !Unsigned(k2) && Less(k1, k2)
    ensures Preimage(methodName, [(k1, x + Delimiter + y)], secret) ==
            Preimage(methodName, [(k1, x), (k2, y)], secret)
  {
    SignedValuesOfOneEntry(k1, x + Delimiter + y);
    SignedValuesOfTwoEntries(k1, x, k2, y);
    assert Join(Delimiter, [x, y]) == x + Delimiter + y by {
      assert [x, y][1..] == [y];
    }
    JoinFramed(Delimiter, methodName, [x + Delimiter + y], secret);
    JoinFramed(Delimiter, methodName, [x, y], secret);
  }

  /** Some strings PHP's loose `==` reads as the number zero: "0", and
      "0e" followed by digits. (PHP reads more spellings as zero; these
      are the ones the properties below need.) */
  predicate MagicZero(s: string) {
    s == "0" || (|s| > 2 && s[0] == '0' && s[1] == 'e' && forall i :: 2 <= i < |s| ==> '0' <= s[i] <= '9')
  }

  /** What is known of a string comparison `eq` standing for PHP's loose
      `==`: every string equals itself, and any two of the zero spellings
      above are equal. PHP 8's `==` on strings has both properties; its
      full numeric-string rules are not defined here, so the loose
      comparison is a parameter and only these facts are used. */
  ghost predicate PhpLooseAtLeast(eq: (string, string) -> bool) {
    && (forall a :: eq(a, a))
    && (forall a, b :: MagicZero(a) && MagicZero(b) ==> eq(a, b))
  }

  /** The least comparison with those facts: equal strings, or two
      spellings of zero. */
  predicate LooseEquals(a: string, b: string) {
    a == b || (MagicZero(a) && MagicZero(b))
  }

  /** `LooseEquals` has the known facts, and every comparison that has
      them (PHP's `==` among them) accepts at least what it accepts. */
  lemma LooseEqualsIsLeast(eq: (string, string) -> bool, a: string, b: string)
    ensures PhpLooseAtLeast(LooseEquals)
    ensures PhpLooseAtLeast(eq) && LooseEquals(a, b) ==> eq(a, b)
  {
  }

  /** `verify_signature` as written: the supplied signature and the digest
      compared with the loose comparison `eq`. */
  predicate VerifySignatureAsWritten(eq: (string, string) -> bool, hash: string -> string, p: Params, methodName: string, secret: string)
    ensures PhpLooseAtLeast(eq) && VerifySignature(hash, p, methodName, secret) ==>
              VerifySignatureAsWritten(eq, hash, p, methodName, secret)
    ensures PhpLooseAtLeast(eq) && Lookup(p, "signature") == Some("0") && MagicZero(GetSignature(hash, methodName, p, secret)) ==>
              VerifySignatureAsWritten(eq, hash, p, methodName, secret)
  {
    eq(Lookup(p, "signature").GetOr(""), GetSignature(hash, methodName, p, secret))
  }

  /** How the supplied signature is compared with the digest: `Loose(eq)`
      is PHP's `==` as `verify_signature` is written, `Strict` exact
      equality. */
  datatype Comparison = Loose(eq: (string, string) -> bool) | Strict

  /** A comparison that has the facts known of it: exact equality, or a
      loose comparison with `PhpLooseAtLeast`. */
  ghost predicate Admissible(cmp: Comparison) {
    cmp.Loose? ==> PhpLooseAtLeast(cmp.eq)
  }

  /** `verify_signature` under the given comparison. */
  predicate Verifies(cmp: Comparison, hash: string -> string, p: Params, methodName: string, secret: string) {
    match cmp
    case Loose(eq) => VerifySignatureAsWritten(eq, hash, p, methodName, secret)
    case Strict => VerifySignature(hash, p, methodName, secret)
  }

  /** A request carrying its own computed signature passes under either
      comparison. */
  lemma SignThenVerifyEither(cmp: Comparison, hash: string -> string, methodName: string, p: Params, secret: string)
    requires Admissible(cmp)
    ensures Verifies(cmp, hash, Assign(p, "signature", GetSignature(hash, methodName, p, secret)), methodName, secret)
  {
    SignThenVerify(hash, methodName, p, secret);
  }

  /** The loose check's hole: for a request whose digest reads as zero,
      the forged signature "0" passes the check as written and fails the
      exact one. */
  lemma AsWrittenAcceptsZeroSignature(eq: (string, string) -> bool, hash: string -> string, methodName: string, p: Params, secret: string)
    requires PhpLooseAtLeast(eq)
    requires MagicZero(GetSignature(hash, methodName, p, secret)) && GetSignature(hash, methodName, p, secret) != "0"
    ensures var forged := Assign(p, "signature", "0");
            VerifySignatureAsWritten(eq, hash, forged, methodName, secret) && !VerifySignature(hash, forged, methodName, secret)
  {
    SignedEntriesIgnoreUnsigned(p, "signature", "0");
  }

  /** Such a request exists: with a digest that comes out as "0e1234",
      a payment notification signed "0" passes the check as written. */
  lemma ZeroSignatureExample(eq: (string, string) -> bool)
    requires PhpLooseAtLeast(eq)
    ensures var hash := (s: string) => "0e1234";
            var forged := Assign([("orderSum", "1500.00")], "signature", "0");
            VerifySignatureAsWritten(eq, hash, forged, "pay", "secret") && !VerifySignature(hash, forged, "pay", "secret")
  {
    var hash := (s: string) => "0e1234";
    var digest := GetSignature(hash, "pay", [("orderSum", "1500.00")], "secret");
    assert digest == "0e1234";
    assert MagicZero(digest);
    AsWrittenAcceptsZeroSignature(eq, hash, "pay", [("orderSum", "1500.00")], "secret");
  }
}
