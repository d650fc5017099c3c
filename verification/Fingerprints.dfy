/** The digest that tells the wrapper whether the user secrets of a request changed. */
module Fingerprints {
  import opened Strings

  const NUL: char := '\0'

  /** SHA-256 is taken to be injective, so a digest is represented by what was hashed. */
  datatype Fingerprint = NoSecrets | Sha(preimage: string)

  type Secrets = map<string, string>

  /** What is hashed for the keys in this order: each name and each value, NUL-terminated. */
  ghost function Encoding(keys: seq<string>, secrets: Secrets): string
    requires forall k :: k in keys ==> k in secrets
  {
    if keys == [] then ""
    else keys[0] + [NUL] + (secrets[keys[0]] + [NUL] + Encoding(keys[1..], secrets))
  }

  ghost function FingerprintOf(secrets: Secrets): Fingerprint {
    if secrets == map[] then NoSecrets
    else
      var keys := Ordered(secrets.Keys);
      assert forall k :: k in keys ==> k in Elements(keys);
      Sha(Encoding(keys, secrets))
  }

  lemma {:induction false} EncodingAppend(keys: seq<string>, k: string, secrets: Secrets)
    requires forall x :: x in keys + [k] ==> x in secrets
    requires k in secrets
    ensures (forall x :: x in keys ==> x in secrets)
    ensures Encoding(keys + [k], secrets) == Encoding(keys, secrets) + k + [NUL] + secrets[k] + [NUL]
  {
    assert forall x :: x in keys ==> x in keys + [k];
    if keys != [] {
      EncodingAppend(keys[1..], k, secrets);
      assert (keys + [k])[1..] == keys[1..] + [k];
      Regroup(keys[0], secrets[keys[0]], Encoding(keys[1..], secrets), k, secrets[k]);
    }
  }

  lemma Regroup(a: string, b: string, rest: string, k: string, v: string)
    ensures a + [NUL] + (b + [NUL] + (rest + k + [NUL] + v + [NUL])) ==
            a + [NUL] + (b + [NUL] + rest) + k + [NUL] + v + [NUL]
  {
  }

  /** The keys in whatever order the map is walked. */
  method Keys(secrets: Secrets) returns (keys: seq<string>)
    ensures Elements(keys) == secrets.Keys
    ensures forall i, j :: 0 <= i < j < |keys| ==> keys[i] != keys[j]
  {
    keys := [];
    var todo := secrets.Keys;
    while todo != {}
      invariant todo <= secrets.Keys
      invariant Elements(keys) == secrets.Keys - todo
      invariant forall i, j :: 0 <= i < j < |keys| ==> keys[i] != keys[j]
      decreases |todo|
    {
      var k :| k in todo;
      assert k !in Elements(keys);
      assert Elements(keys + [k]) == Elements(keys) + {k};
      keys := keys + [k];
      todo := todo - {k};
    }
  }

  method Hash(keys: seq<string>, secrets: Secrets) returns (hashed: string)
    requires forall k :: k in keys ==> k in secrets
    ensures hashed == Encoding(keys, secrets)
  {
    hashed := "";
    for i := 0 to |keys|
      invariant hashed == Encoding(keys[..i], secrets)
    {
      assert keys[..i + 1] == keys[..i] + [keys[i]];
      EncodingAppend(keys[..i], keys[i], secrets);
      hashed := hashed + keys[i] + [NUL] + secrets[keys[i]] + [NUL];
    }
    assert keys[..|keys|] == keys;
  }

  /** Whatever order the map is walked in, the result is the same fingerprint. */
  method Compute(secrets: Secrets) returns (fp: Fingerprint)
    ensures fp == FingerprintOf(secrets)
  {
    if |secrets| == 0 {
      return NoSecrets;
    }
    var keys := Keys(secrets);
    keys := SortDistinct(keys);
    SortedIsUnique(keys, Ordered(secrets.Keys));
    assert forall k :: k in keys ==> k in Elements(keys);
    var hashed := Hash(keys, secrets);
    fp := Sha(hashed);
  }

  ghost predicate NulFree(secrets: Secrets) {
    forall k :: k in secrets ==> NUL !in k && NUL !in secrets[k]
  }

  /** A NUL-free field ends at the first NUL. */
  lemma {:induction false} FieldIsUnique(a: string, restA: string, b: string, restB: string)
    requires NUL !in a && NUL !in b
    requires a + [NUL] + restA == b + [NUL] + restB
    ensures a == b && restA == restB
  {
    var whole := a + [NUL] + restA;
    assert whole[|a|] == NUL && whole[|b|] == NUL;
    assert forall i :: 0 <= i < |a| ==> whole[i] == a[i] && a[i] in a;
    assert forall i :: 0 <= i < |b| ==> whole[i] == b[i] && b[i] in b;
    assert |a| == |b|;
    assert a == whole[..|a|] == b;
    assert restA == whole[|a| + 1..] == restB;
  }

  /** The hashed text of NUL-free secrets can be read back field by field. */
  lemma {:induction false} EncodingIsInjective(ka: seq<string>, a: Secrets, kb: seq<string>, b: Secrets)
    requires (forall k :: k in ka ==> k in a) && (forall k :: k in kb ==> k in b)
    requires NulFree(a) && NulFree(b)
    requires Encoding(ka, a) == Encoding(kb, b)
    ensures ka == kb && forall k :: k in ka ==> a[k] == b[k]
  {
    if ka == [] || kb == [] {
      assert ka == kb;
    } else {
      var restA := a[ka[0]] + [NUL] + Encoding(ka[1..], a);
      var restB := b[kb[0]] + [NUL] + Encoding(kb[1..], b);
      FieldIsUnique(ka[0], restA, kb[0], restB);
      FieldIsUnique(a[ka[0]], Encoding(ka[1..], a), b[kb[0]], Encoding(kb[1..], b));
      EncodingIsInjective(ka[1..], a, kb[1..], b);
      assert ka == [ka[0]] + ka[1..] && kb == [kb[0]] + kb[1..];
    }
  }

  /** For NUL-free names and values, equal fingerprints mean equal secrets. */
  lemma Canonical(a: Secrets, b: Secrets)
    requires NulFree(a) && NulFree(b)
    ensures FingerprintOf(a) == FingerprintOf(b) <==> a == b
  {
    if FingerprintOf(a) == FingerprintOf(b) && a != map[] {
      var ka, kb := Ordered(a.Keys), Ordered(b.Keys);
      assert (forall k :: k in ka <==> k in Elements(ka)) && (forall k :: k in kb <==> k in Elements(kb));
      EncodingIsInjective(ka, a, kb, b);
      assert a.Keys == b.Keys;
    }
  }

  // ----- exactly which secrets share their fingerprint -----

  lemma OrderedOne(k: string)
    ensures Ordered({k}) == [k]
  {
    assert StrictlySorted([k]) && Elements([k]) == {k};
    SortedIsUnique([k], Ordered({k}));
  }

  lemma SingleFingerprint(k: string, v: string)
    ensures FingerprintOf(map[k := v]) == Sha(k + [NUL] + v + [NUL])
  {
    var one: Secrets := map[k := v];
    assert one.Keys == {k} && k in one;
    OrderedOne(k);
    assert Encoding([k], one) == k + [NUL] + (v + [NUL] + "");
  }

  /** A NUL in the value could as well be the end of the name. */
  lemma NulMoves(k: string, x: string, y: string)
    ensures FingerprintOf(map[k := x + [NUL] + y]) == FingerprintOf(map[k + [NUL] + x := y])
  {
    SingleFingerprint(k, x + [NUL] + y);
    SingleFingerprint(k + [NUL] + x, y);
    assert k + [NUL] + (x + [NUL] + y) + [NUL] == k + [NUL] + x + [NUL] + y + [NUL];
  }

  /** Everything after the first name could as well be one value. */
  lemma FirstNameTakesAll(a: Secrets) returns (b: Secrets)
    requires a != map[]
    ensures |b| == 1 && FingerprintOf(a) == FingerprintOf(b)
  {
    var keys := Ordered(a.Keys);
    NoElements(keys);
    assert forall k :: k in keys ==> k in Elements(keys);
    assert a.Keys == {} ==> a == map[];
    var rest := a[keys[0]] + [NUL] + Encoding(keys[1..], a);
    EndsWithNul(keys[1..], a);
    assert rest[|rest| - 1] == NUL;
    b := map[keys[0] := rest[..|rest| - 1]];
    SingleFingerprint(keys[0], rest[..|rest| - 1]);
    LastIsNul(keys[0], rest);
  }

  lemma LastIsNul(k: string, rest: string)
    requires rest != "" && rest[|rest| - 1] == NUL
    ensures k + [NUL] + rest == k + [NUL] + rest[..|rest| - 1] + [NUL]
  {
  }

  lemma {:induction false} EndsWithNul(keys: seq<string>, secrets: Secrets)
    requires forall k :: k in keys ==> k in secrets
    ensures keys != [] ==> Encoding(keys, secrets) != "" && Encoding(keys, secrets)[|Encoding(keys, secrets)| - 1] == NUL
  {
    if |keys| > 1 {
      EndsWithNul(keys[1..], secrets);
    }
  }

  function Nuls(s: string): nat {
    multiset(s)[NUL]
  }

  lemma {:induction false} AtLeastTwoNulsEach(keys: seq<string>, secrets: Secrets)
    requires forall k :: k in keys ==> k in secrets
    ensures Nuls(Encoding(keys, secrets)) >= 2 * |keys|
    ensures Nuls(Encoding(keys, secrets)) == 2 * |keys| ==>
              forall k :: k in keys ==> NUL !in k && NUL !in secrets[k]
  {
    if keys != [] {
      AtLeastTwoNulsEach(keys[1..], secrets);
      var k, rest := keys[0], Encoding(keys[1..], secrets);
      NulsOfEntry(k, secrets[k], rest);
      assert forall j :: j in keys <==> j == k || j in keys[1..];
    }
  }

  lemma NulsOfEntry(k: string, v: string, rest: string)
    ensures Nuls(k + [NUL] + (v + [NUL] + rest)) == Nuls(k) + Nuls(v) + Nuls(rest) + 2
    ensures Nuls(k) == 0 <==> NUL !in k
    ensures Nuls(v) == 0 <==> NUL !in v
  {
  }

  /** A single secret without NULs has its fingerprint to itself. */
  lemma SingleIsUnique(a: Secrets, b: Secrets)
    requires |a| == 1 && NulFree(a) && FingerprintOf(a) == FingerprintOf(b)
    ensures a == b
  {
    var ka, kb := Ordered(a.Keys), Ordered(b.Keys);
    assert (forall k :: k in ka <==> k in Elements(ka)) && (forall k :: k in kb <==> k in Elements(kb));
    var k :| k in a;
    assert a.Keys == {k} by { OneKey(a, k); }
    OrderedOne(k);
    NulsOfEntry(k, a[k], "");
    assert Encoding(ka, a) == k + [NUL] + (a[k] + [NUL] + "");
    AtLeastTwoNulsEach(kb, b);
    NoElements(kb);
    assert b != map[] && kb != [];
    assert |kb| == 1;
    assert NulFree(b);
    Canonical(a, b);
  }

  lemma OneKey(a: Secrets, k: string)
    requires |a| == 1 && k in a
    ensures a.Keys == {k}
  {
    assert |a.Keys| == 1 && |a.Keys - {k}| == 0;
  }

  lemma NameImitated(k: string, v: string, i: nat)
    requires i < |k| && k[i] == NUL
    ensures var b: Secrets := map[k[..i] := k[i + 1..] + [NUL] + v];
            b != map[k := v] && FingerprintOf(b) == FingerprintOf(map[k := v])
  {
    assert k == k[..i] + [NUL] + k[i + 1..];
    NulMoves(k[..i], k[i + 1..], v);
    var b: Secrets := map[k[..i] := k[i + 1..] + [NUL] + v];
    assert |k[..i]| < |k| && k[..i] in b;
  }

  lemma ValueImitated(k: string, v: string, i: nat)
    requires i < |v| && v[i] == NUL
    ensures var b: Secrets := map[k + [NUL] + v[..i] := v[i + 1..]];
            b != map[k := v] && FingerprintOf(b) == FingerprintOf(map[k := v])
  {
    assert v == v[..i] + [NUL] + v[i + 1..];
    NulMoves(k, v[..i], v[i + 1..]);
    var b: Secrets := map[k + [NUL] + v[..i] := v[i + 1..]];
    assert |k + [NUL] + v[..i]| > |k| && k !in b;
  }

  lemma SingleImitated(k: string, v: string) returns (b: Secrets)
    requires NUL in k || NUL in v
    ensures b != map[k := v] && FingerprintOf(b) == FingerprintOf(map[k := v])
  {
    if NUL in k {
      var i :| 0 <= i < |k| && k[i] == NUL;
      NameImitated(k, v, i);
      b := map[k[..i] := k[i + 1..] + [NUL] + v];
    } else {
      var i :| 0 <= i < |v| && v[i] == NUL;
      ValueImitated(k, v, i);
      b := map[k + [NUL] + v[..i] := v[i + 1..]];
    }
  }

  /** Two secrets, or a NUL anywhere, can be imitated by other secrets. */
  lemma Imitated(a: Secrets) returns (b: Secrets)
    requires a != map[] && !(|a| == 1 && NulFree(a))
    ensures b != a && FingerprintOf(b) == FingerprintOf(a)
  {
    if |a| == 1 {
      var k :| k in a;
      OneKey(a, k);
      assert a == map[k := a[k]];
      b := SingleImitated(k, a[k]);
    } else {
      b := FirstNameTakesAll(a);
    }
  }

  /** So a fingerprint is shared exactly if there is a secret, and not just one without NULs. */
  lemma SharedExactlyIf(a: Secrets)
    ensures (exists b :: b != a && FingerprintOf(b) == FingerprintOf(a)) <==> a != map[] && !(|a| == 1 && NulFree(a))
  {
    if a != map[] && !(|a| == 1 && NulFree(a)) {
      var b := Imitated(a);
    } else if b :| b != a && FingerprintOf(b) == FingerprintOf(a) {
      if a != map[] {
        SingleIsUnique(a, b);
      }
    }
  }

  /** For example, a NUL in a value can be read as the end of a longer name. */
  lemma NulCanCollide()
    ensures var a: Secrets := map["a" := "b" + [NUL] + "c"];
            var b: Secrets := map["a" + [NUL] + "b" := "c"];
            a != b && FingerprintOf(a) == FingerprintOf(b)
  {
    NulMoves("a", "b", "c");
    var b: Secrets := map["a" + [NUL] + "b" := "c"];
    assert |"a"| != |"a" + [NUL] + "b"| && "a" !in b;
  }
}
