/** strip_user_pass_url and obscure_user_pass_url of onvif/util.py, on the user information and the
    query multimap yarl reads from a URL. */
module Credentials {
  import opened Wrappers
  import opened Urls

  type Query = seq<(string, string)>

  const CREDENTIAL_KEYS: seq<string> := ["username", "password", "user", "pass"]
  const MASK: string := "********"

  /** The parts of a URL these functions look at; `rest` stands for everything else. */
  datatype Parts = Parts(user: Option<string>, password: Option<string>, query: Query, rest: string)

  predicate Given(o: Option<string>) {
    o.Some? && o.value != ""
  }

  // ------------------------------------------------------------------ multimaps

  /** `key in query`: yarl's query tells letter cases apart. */
  predicate HasKey(q: Query, key: string) {
    exists i :: 0 <= i < |q| && q[i].0 == key
  }

  /** The pairs whose key, in any letter case, is none of `keys`, in order. */
  function Without(q: Query, keys: seq<string>): Query {
    if q == [] then []
    else (if exists i :: 0 <= i < |keys| && Lower(q[0].0) == Lower(keys[i]) then [] else [q[0]]) + Without(q[1..], keys)
  }

  /** CIMultiDict.popall */
  function PopAll(q: Query, key: string): Query {
    Without(q, [key])
  }

  /** Those of the keys the query has, as they are spelled. */
  function Present(q: Query, keys: seq<string>): seq<string> {
    if keys == [] then [] else Present(q, keys[..|keys| - 1]) + if HasKey(q, keys[|keys| - 1]) then [keys[|keys| - 1]] else []
  }

  function Masks(keys: seq<string>): (m: Query)
    ensures |m| == |keys| && forall i :: 0 <= i < |keys| ==> m[i] == (keys[i], MASK)
  {
    seq(|keys|, i requires 0 <= i < |keys| => (keys[i], MASK))
  }

  lemma {:induction false} WithoutConcat(a: Query, b: Query, keys: seq<string>)
    ensures Without(a + b, keys) == Without(a, keys) + Without(b, keys)
    decreases |a|
  {
    if a == [] {
      assert a + b == b;
    } else {
      assert (a + b)[1..] == a[1..] + b;
      WithoutConcat(a[1..], b, keys);
    }
  }

  lemma {:induction false} WithoutMore(q: Query, keys: seq<string>, key: string)
    ensures Without(Without(q, keys), [key]) == Without(q, keys + [key])
    decreases |q|
  {
    if q != [] {
      WithoutMore(q[1..], keys, key);
      var head: Query := if exists i :: 0 <= i < |keys| && Lower(q[0].0) == Lower(keys[i]) then [] else [q[0]];
      WithoutConcat(head, Without(q[1..], keys), [key]);
      assert forall i :: 0 <= i < |keys| ==> (keys + [key])[i] == keys[i];
      assert (keys + [key])[|keys|] == key && [key][0] == key;
    }
  }

  lemma {:induction false} WithoutKeeps(q: Query, keys: seq<string>)
    ensures forall p :: p in Without(q, keys) <==> p in q && forall i :: 0 <= i < |keys| ==> Lower(p.0) != Lower(keys[i])
    ensures (forall p :: p in q ==> forall i :: 0 <= i < |keys| ==> Lower(p.0) != Lower(keys[i])) ==> Without(q, keys) == q
    decreases |q|
  {
    if q != [] {
      WithoutKeeps(q[1..], keys);
    }
  }

  /** A key in no letter case among the removed ones keeps its order and multiplicity: it is left
      alone in what is left alone. */
  lemma {:induction false} OthersKeepOrderAndMultiplicity(q: Query, keys: seq<string>, key: string)
    requires forall i :: 0 <= i < |keys| ==> Lower(key) != Lower(keys[i])
    ensures Values(Without(q, keys), key) == Values(q, key)
    decreases |q|
  {
    if q != [] {
      OthersKeepOrderAndMultiplicity(q[1..], keys, key);
      assert Without(q, keys) == Without(q[1..], keys) || Without(q, keys)[1..] == Without(q[1..], keys);
    }
  }

  /** getall: the values under a key, in order. */
  function Values(q: Query, key: string): seq<string> {
    if q == [] then [] else (if q[0].0 == key then [q[0].1] else []) + Values(q[1..], key)
  }

  lemma {:induction false} PresentAre(q: Query, keys: seq<string>)
    ensures forall k :: k in Present(q, keys) <==> k in keys && HasKey(q, k)
    decreases |keys|
  {
    if keys != [] {
      var front, last := keys[..|keys| - 1], keys[|keys| - 1];
      PresentAre(q, front);
      assert forall k :: k in keys <==> k in front || k == last;
    }
  }

  /** Queries with the same credential keys. */
  lemma {:induction false} PresentAgree(q: Query, r: Query, keys: seq<string>)
    requires forall k :: k in keys ==> (HasKey(q, k) <==> HasKey(r, k))
    ensures Present(q, keys) == Present(r, keys)
    decreases |keys|
  {
    if keys != [] {
      assert keys[|keys| - 1] in keys;
      PresentAgree(q, r, keys[..|keys| - 1]);
    }
  }

  lemma PresentNext(q: Query, i: nat)
    requires i < |CREDENTIAL_KEYS|
    ensures var key, before := CREDENTIAL_KEYS[i], Present(q, CREDENTIAL_KEYS[..i]);
            Present(q, CREDENTIAL_KEYS[..i + 1]) == if HasKey(q, key) then before + [key] else before
  {
    assert CREDENTIAL_KEYS[..i + 1][..i] == CREDENTIAL_KEYS[..i];
  }

  // ------------------------------------------------------------------ the operations

  function StrippedQuery(q: Query): Query {
    Without(q, Present(q, CREDENTIAL_KEYS))
  }

  function ObscuredQuery(q: Query): Query {
    Without(q, Present(q, CREDENTIAL_KEYS)) + Masks(Present(q, CREDENTIAL_KEYS))
  }

  function Stripped(u: Parts): Parts {
    var bare := if Given(u.user) || Given(u.password) then u.(user := None, password := None) else u;
    bare.(query := StrippedQuery(u.query))
  }

  function Obscured(u: Parts): Parts {
    var hidden :=
      if !Given(u.user) then u
      else if Given(u.password) then u.(password := Some(MASK)) else u.(user := Some(MASK));
    hidden.(query := ObscuredQuery(u.query))
  }

  /** strip_user_pass_url */
  method StripUserPass(u: Parts) returns (r: Parts)
    ensures r == Stripped(u)
  {
    r := u;
    if Given(u.user) || Given(u.password) {
      r := r.(user := None, password := None);
    }
    var query := r.query;
    var newQuery: Option<Query> := None;
    for i := 0 to |CREDENTIAL_KEYS|
      invariant newQuery.None? <==> Present(query, CREDENTIAL_KEYS[..i]) == []
      invariant newQuery.Some? ==> newQuery.value == Without(query, Present(query, CREDENTIAL_KEYS[..i]))
    {
      var key := CREDENTIAL_KEYS[i];
      PresentNext(query, i);
      if HasKey(query, key) {
        if newQuery.None? {
          WithoutKeeps(query, []);
          newQuery := Some(query);
        }
        WithoutMore(query, Present(query, CREDENTIAL_KEYS[..i]), key);
        newQuery := Some(PopAll(newQuery.value, key));
      }
    }
    assert CREDENTIAL_KEYS[..|CREDENTIAL_KEYS|] == CREDENTIAL_KEYS;
    if newQuery.Some? {
      r := r.(query := newQuery.value);
    } else {
      WithoutKeeps(query, []);
    }
  }

  /** obscure_user_pass_url */
  method ObscureUserPass(u: Parts) returns (r: Parts)
    ensures r == Obscured(u)
  {
    r := u;
    if Given(u.user) {
      if Given(u.password) {
        r := r.(password := Some(MASK));
      } else {
        r := r.(user := Some(MASK));
      }
    }
    var query := r.query;
    var newQuery: Option<Query> := None;
    for i := 0 to |CREDENTIAL_KEYS|
      invariant newQuery.None? <==> Present(query, CREDENTIAL_KEYS[..i]) == []
      invariant newQuery.Some? ==>
          newQuery.value == Without(query, Present(query, CREDENTIAL_KEYS[..i])) + Masks(Present(query, CREDENTIAL_KEYS[..i]))
    {
      var key := CREDENTIAL_KEYS[i];
      PresentNext(query, i);
      if HasKey(query, key) {
        if newQuery.None? {
          WithoutKeeps(query, []);
          newQuery := Some(query);
          assert query + Masks([]) == query;
        }
        ObscureOne(query, i);
        newQuery := Some(PopAll(newQuery.value, key) + [(key, MASK)]);
      }
    }
    assert CREDENTIAL_KEYS[..|CREDENTIAL_KEYS|] == CREDENTIAL_KEYS;
    if newQuery.Some? {
      r := r.(query := newQuery.value);
    } else {
      WithoutKeeps(query, []);
      assert query + Masks([]) == query;
    }
  }

  /** The credential keys are lower case and differ from each other. */
  lemma KeysAreDistinct(i: nat, j: nat)
    requires i < j < |CREDENTIAL_KEYS|
    ensures Lower(CREDENTIAL_KEYS[i]) != Lower(CREDENTIAL_KEYS[j])
  {
    assert |CREDENTIAL_KEYS[0]| == 8 && |CREDENTIAL_KEYS[1]| == 8 && |CREDENTIAL_KEYS[2]| == 4 && |CREDENTIAL_KEYS[3]| == 4;
    assert Lower("username")[0] == 'u' && Lower("password")[0] == 'p' && Lower("user")[0] == 'u' && Lower("pass")[0] == 'p';
  }

  /** Popping a key leaves the masks of the earlier keys alone. */
  lemma MasksOfOthers(q: Query, i: nat)
    requires i < |CREDENTIAL_KEYS|
    ensures var masks := Masks(Present(q, CREDENTIAL_KEYS[..i])); Without(masks, [CREDENTIAL_KEYS[i]]) == masks
  {
    var before := Present(q, CREDENTIAL_KEYS[..i]);
    PresentAre(q, CREDENTIAL_KEYS[..i]);
    forall p | p in Masks(before)
      ensures Lower(p.0) != Lower([CREDENTIAL_KEYS[i]][0])
    {
      assert p.0 in before;
      var j :| 0 <= j < i && CREDENTIAL_KEYS[..i][j] == p.0;
      KeysAreDistinct(j, i);
    }
    WithoutKeeps(Masks(before), [CREDENTIAL_KEYS[i]]);
  }

  /** Popping one more key and setting it to the mask. */
  lemma ObscureOne(q: Query, i: nat)
    requires i < |CREDENTIAL_KEYS|
    ensures var key, before := CREDENTIAL_KEYS[i], Present(q, CREDENTIAL_KEYS[..i]);
            PopAll(Without(q, before) + Masks(before), key) + [(key, MASK)]
            == Without(q, before + [key]) + Masks(before + [key])
  {
    var key, before := CREDENTIAL_KEYS[i], Present(q, CREDENTIAL_KEYS[..i]);
    WithoutMore(q, before, key);
    WithoutConcat(Without(q, before), Masks(before), [key]);
    MasksOfOthers(q, i);
    assert Masks(before + [key]) == Masks(before) + [(key, MASK)];
  }

  // ------------------------------------------------------------------ what they promise

  lemma SomethingIn<T>(s: seq<T>)
    ensures s != [] ==> exists x :: x in s
  {
    if s != [] {
      assert s[0] in s;
    }
  }

  /** Exactly these parameters are kept: those whose key matches, in any letter case, no credential
      key that the query has spelled in lower case. */
  lemma KeptExactlyWhen(q: Query, p: (string, string))
    ensures p in StrippedQuery(q) <==>
              && p in q
              && forall k, i :: k in CREDENTIAL_KEYS && 0 <= i < |q| && q[i].0 == k ==> Lower(p.0) != Lower(k)
  {
    var found := Present(q, CREDENTIAL_KEYS);
    PresentAre(q, CREDENTIAL_KEYS);
    WithoutKeeps(q, found);
    assert forall i :: 0 <= i < |found| ==> found[i] in found;
    assert forall k :: k in found ==> exists i :: 0 <= i < |found| && found[i] == k;
  }

  lemma StrippedHasNoKeys(q: Query)
    ensures Present(StrippedQuery(q), CREDENTIAL_KEYS) == []
  {
    var found := Present(q, CREDENTIAL_KEYS);
    PresentAre(q, CREDENTIAL_KEYS);
    WithoutKeeps(q, found);
    forall k | k in CREDENTIAL_KEYS
      ensures !HasKey(StrippedQuery(q), k)
    {
      forall i | 0 <= i < |StrippedQuery(q)|
        ensures StrippedQuery(q)[i].0 != k
      {
        assert StrippedQuery(q)[i] in StrippedQuery(q);
        assert HasKey(q, StrippedQuery(q)[i].0);
      }
    }
    PresentAre(StrippedQuery(q), CREDENTIAL_KEYS);
    SomethingIn(Present(StrippedQuery(q), CREDENTIAL_KEYS));
  }

  lemma ObscuredKeysAreOld(q: Query, p: (string, string))
    requires p in ObscuredQuery(q)
    ensures HasKey(q, p.0)
  {
    var found := Present(q, CREDENTIAL_KEYS);
    PresentAre(q, CREDENTIAL_KEYS);
    WithoutKeeps(q, found);
    assert p in Without(q, found) || p in Masks(found);
    assert p in Masks(found) ==> p.0 in found;
  }

  lemma FoundKeyIsMasked(q: Query, k: string)
    requires k in Present(q, CREDENTIAL_KEYS)
    ensures HasKey(ObscuredQuery(q), k)
  {
    var found := Present(q, CREDENTIAL_KEYS);
    var i :| 0 <= i < |found| && found[i] == k;
    assert ObscuredQuery(q)[|Without(q, found)| + i] == (k, MASK);
  }

  lemma ObscuredHasSameKeys(q: Query)
    ensures Present(ObscuredQuery(q), CREDENTIAL_KEYS) == Present(q, CREDENTIAL_KEYS)
  {
    var masked := ObscuredQuery(q);
    PresentAre(q, CREDENTIAL_KEYS);
    forall k | k in CREDENTIAL_KEYS
      ensures HasKey(masked, k) <==> HasKey(q, k)
    {
      if HasKey(q, k) {
        FoundKeyIsMasked(q, k);
      }
      if HasKey(masked, k) {
        var i :| 0 <= i < |masked| && masked[i].0 == k;
        ObscuredKeysAreOld(q, masked[i]);
      }
    }
    PresentAgree(masked, q, CREDENTIAL_KEYS);
  }

  lemma MasksGo(keys: seq<string>)
    ensures Without(Masks(keys), keys) == []
  {
    WithoutKeeps(Masks(keys), keys);
    forall p | p in Masks(keys)
      ensures p !in Without(Masks(keys), keys)
    {
      var i :| 0 <= i < |keys| && Masks(keys)[i] == p;
      assert Lower(p.0) == Lower(keys[i]);
    }
    SomethingIn(Without(Masks(keys), keys));
  }

  lemma {:induction false} WithoutTwice(q: Query, keys: seq<string>)
    ensures Without(Without(q, keys), keys) == Without(q, keys)
  {
    WithoutKeeps(q, keys);
    WithoutKeeps(Without(q, keys), keys);
  }

  /** Stripping twice is stripping once. */
  lemma StripIdempotent(u: Parts)
    ensures Stripped(Stripped(u)) == Stripped(u)
  {
    StrippedHasNoKeys(u.query);
    WithoutKeeps(StrippedQuery(u.query), []);
  }

  /** Obscuring twice is obscuring once. */
  lemma ObscureIdempotent(u: Parts)
    ensures Obscured(Obscured(u)) == Obscured(u)
  {
    var found := Present(u.query, CREDENTIAL_KEYS);
    ObscuredHasSameKeys(u.query);
    WithoutConcat(Without(u.query, found), Masks(found), found);
    WithoutTwice(u.query, found);
    MasksGo(found);
    assert Without(u.query, found) + [] == Without(u.query, found);
  }

  /** A given password is as it was after obscuring exactly when no user is given with it, or it
      was the mask already; a missing one stays missing. */
  lemma PasswordObscuredExactlyWhen(u: Parts)
    ensures Obscured(u).password == u.password <==>
              !Given(u.password) || !Given(u.user) || u.password.value == MASK
    ensures Given(u.password) && Given(u.user) ==> Obscured(u).password == Some(MASK)
  {
  }

  /** Obscuring first makes no difference to stripping. */
  lemma StripAbsorbsObscure(u: Parts)
    ensures Stripped(Obscured(u)) == Stripped(u)
  {
    var found := Present(u.query, CREDENTIAL_KEYS);
    ObscuredHasSameKeys(u.query);
    WithoutConcat(Without(u.query, found), Masks(found), found);
    WithoutTwice(u.query, found);
    MasksGo(found);
    assert Without(u.query, found) + [] == Without(u.query, found);
  }

  /** The credential keys, by name. */
  lemma CredentialKeys(key: string)
    ensures key in CREDENTIAL_KEYS <==> key == "username" || key == "password" || key == "user" || key == "pass"
  {
    assert CREDENTIAL_KEYS[0] == "username" && CREDENTIAL_KEYS[1] == "password";
    assert CREDENTIAL_KEYS[2] == "user" && CREDENTIAL_KEYS[3] == "pass";
  }

  /** Stripping takes user and password if either is given, and obscuring masks the password given
      with a user, or a user given alone, and touches neither otherwise. The query is treated alike
      in each case, and the rest is never touched. */
  lemma UserInformation(u: Parts)
    ensures var s := Stripped(u);
            && s.rest == u.rest && s.query == StrippedQuery(u.query)
            && (Given(u.user) || Given(u.password) ==> s.user.None? && s.password.None?)
            && (!Given(u.user) && !Given(u.password) ==> s.user == u.user && s.password == u.password)
    ensures var o := Obscured(u);
            && o.rest == u.rest && o.query == ObscuredQuery(u.query)
            && (Given(u.user) && Given(u.password) ==> o.user == u.user && o.password == Some("********"))
            && (Given(u.user) && !Given(u.password) ==> o.user == Some("********") && o.password == u.password)
            && (!Given(u.user) ==> o.user == u.user && o.password == u.password)
  {
  }

  /** A credential key the query has in lower case is given the mask, once, and nothing else; stripping
      leaves no value under it. */
  lemma MaskedOnce(q: Query, key: string)
    requires key in CREDENTIAL_KEYS && exists i :: 0 <= i < |q| && q[i].0 == key
    ensures Values(ObscuredQuery(q), key) == ["********"]
    ensures Values(StrippedQuery(q), key) == []
  {
    var found := Present(q, CREDENTIAL_KEYS);
    PresentAre(q, CREDENTIAL_KEYS);
    assert HasKey(q, key) && key in found;
    NoneLeft(q, found, key);
    ValuesConcat(Without(q, found), Masks(found), key);
    PresentDistinct(q, |CREDENTIAL_KEYS|);
    assert CREDENTIAL_KEYS[..|CREDENTIAL_KEYS|] == CREDENTIAL_KEYS;
    OneMask(found, key);
  }

  lemma NoneLeft(q: Query, keys: seq<string>, key: string)
    requires key in keys
    ensures Values(Without(q, keys), key) == []
  {
    WithoutKeeps(q, keys);
    var k :| 0 <= k < |keys| && keys[k] == key;
    forall p | p in Without(q, keys)
      ensures p.0 != key
    {
      assert Lower(p.0) != Lower(keys[k]);
    }
    NoValues(Without(q, keys), key);
  }

  lemma {:induction false} NoValues(q: Query, key: string)
    requires forall p :: p in q ==> p.0 != key
    ensures Values(q, key) == []
    decreases |q|
  {
    if q != [] {
      assert q[0] in q;
      NoValues(q[1..], key);
    }
  }

  predicate Distinct(keys: seq<string>) {
    forall i, j :: 0 <= i < j < |keys| ==> keys[i] != keys[j]
  }

  lemma {:induction false} PresentDistinct(q: Query, n: nat)
    requires n <= |CREDENTIAL_KEYS|
    ensures Distinct(Present(q, CREDENTIAL_KEYS[..n]))
    decreases n
  {
    if n > 0 {
      var key, before := CREDENTIAL_KEYS[n - 1], Present(q, CREDENTIAL_KEYS[..n - 1]);
      PresentDistinct(q, n - 1);
      PresentNext(q, n - 1);
      PresentAre(q, CREDENTIAL_KEYS[..n - 1]);
      forall i | 0 <= i < |before|
        ensures before[i] != key
      {
        assert before[i] in before;
        var j :| 0 <= j < n - 1 && CREDENTIAL_KEYS[..n - 1][j] == before[i];
        KeysAreDistinct(j, n - 1);
      }
    }
  }

  lemma {:induction false} OneMask(keys: seq<string>, key: string)
    requires key in keys && Distinct(keys)
    ensures Values(Masks(keys), key) == [MASK]
    decreases |keys|
  {
    assert Masks(keys)[1..] == Masks(keys[1..]);
    if keys[0] == key {
      NoMaskedValues(keys[1..], key);
    } else {
      OneMask(keys[1..], key);
    }
  }

  /** A parameter whose key matches no credential key of the query, in any letter case, keeps its
      values, order and multiplicity through both. */
  lemma OtherParametersSurvive(q: Query, key: string)
    requires forall k :: k in CREDENTIAL_KEYS && HasKey(q, k) ==> Lower(key) != Lower(k)
    ensures Values(StrippedQuery(q), key) == Values(q, key) == Values(ObscuredQuery(q), key)
  {
    var found := Present(q, CREDENTIAL_KEYS);
    PresentAre(q, CREDENTIAL_KEYS);
    forall i | 0 <= i < |found|
      ensures Lower(key) != Lower(found[i])
    {
      assert found[i] in found;
    }
    OthersKeepOrderAndMultiplicity(q, found, key);
    ValuesConcat(Without(q, found), Masks(found), key);
    NoMaskedValues(found, key);
  }

  lemma {:induction false} ValuesConcat(a: Query, b: Query, key: string)
    ensures Values(a + b, key) == Values(a, key) + Values(b, key)
    decreases |a|
  {
    if a == [] {
      assert a + b == b;
    } else {
      assert (a + b)[1..] == a[1..] + b;
      ValuesConcat(a[1..], b, key);
    }
  }

  lemma {:induction false} NoMaskedValues(keys: seq<string>, key: string)
    requires forall i :: 0 <= i < |keys| ==> keys[i] != key
    ensures Values(Masks(keys), key) == []
    decreases |keys|
  {
    if keys != [] {
      assert Masks(keys)[1..] == Masks(keys[1..]);
      NoMaskedValues(keys[1..], key);
    }
  }
}
