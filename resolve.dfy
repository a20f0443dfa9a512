/** The fuzzy name resolution inside `insert` (src/engine/blackdesert.rs):
    each parsed name is replaced by an existing ledger key when the key's
    cleaned form starts or ends with the cleaned name, or else by the most
    similar key scoring above 0.6. */
module Resolve {
  import opened Wrappers
  import opened Text
  import opened Loot

  /** The range of `strsim::normalized_damerau_levenshtein`. */
  type Score = r: real | 0.0 <= r <= 1.0

  /** The similarity threshold of name resolution. */
  const Threshold: real := 0.6

  predicate IsNameChar(c: char) {
    IsAlphanumeric(c) || IsWhitespace(c)
  }

  /** A name with everything but letters, digits and whitespace removed. */
  function Clean(s: string): string {
    Filter(IsNameChar, s)
  }

  /** `str::ends_with`. */
  predicate EndsWith(s: string, suffix: string) {
    |suffix| <= |s| && s[|s| - |suffix|..] == suffix
  }

  /** The cleaned key starts or ends with the cleaned name (case-sensitive). */
  predicate HasAffix(key: string, clean: string) {
    clean <= Clean(key) || EndsWith(Clean(key), clean)
  }

  /** The score compared against the threshold: lower-cased cleaned forms. */
  function Rate(similarity: (string, string) -> Score, key: string, clean: string): Score {
    similarity(LowerAll(Clean(key)), LowerAll(clean))
  }

  /** The first key at or after `i` with the affix property (or |keys|). */
  function FirstAffix(keys: seq<string>, clean: string, i: nat): (a: nat)
    requires i <= |keys|
    ensures i <= a <= |keys|
    ensures a < |keys| ==> HasAffix(keys[a], clean)
    ensures forall k :: i <= k < a ==> !HasAffix(keys[k], clean)
    decreases |keys| - i
  {
    if i == |keys| || HasAffix(keys[i], clean) then i else FirstAffix(keys, clean, i + 1)
  }

  /** The index among `keys[..n]` that the similarity scan settles on, or -1:
      the first key of highest score, provided that score exceeds 0.6. */
  function BestMatch(similarity: (string, string) -> Score, keys: seq<string>, clean: string, n: nat): (j: int)
    requires n <= |keys|
    ensures -1 <= j < n
    ensures j == -1 <==> forall k :: 0 <= k < n ==> Rate(similarity, keys[k], clean) <= Threshold
    ensures j >= 0 ==> Rate(similarity, keys[j], clean) > Threshold
    ensures j >= 0 ==> forall k :: 0 <= k < n ==> Rate(similarity, keys[k], clean) <= Rate(similarity, keys[j], clean)
    ensures j >= 0 ==> forall k :: 0 <= k < j ==> Rate(similarity, keys[k], clean) < Rate(similarity, keys[j], clean)
  {
    if n == 0 then -1
    else
      var j := BestMatch(similarity, keys, clean, n - 1);
      var r := Rate(similarity, keys[n - 1], clean);
      var best := if j == -1 then 0.0 else Rate(similarity, keys[j], clean);
      if r > Threshold && r > best then n - 1 else j
  }

  /** The specification of resolving one name against the ledger keys, taken
      in the order the table yields them. */
  function ResolveName(similarity: (string, string) -> Score, keys: seq<string>, name: string): string {
    var clean := Clean(name);
    var a := FirstAffix(keys, clean, 0);
    if a < |keys| then keys[a]
    else
      var j := BestMatch(similarity, keys, clean, |keys|);
      if j == -1 then name else keys[j]
  }

  /** Name resolution applied to every parsed event, in order. */
  function ResolveAll(similarity: (string, string) -> Score, keys: seq<string>, events: seq<LootData>): (r: seq<LootData>)
    ensures |r| == |events|
    ensures forall i :: 0 <= i < |events| ==> r[i] == events[i].(name := ResolveName(similarity, keys, events[i].name))
  {
    seq(|events|, i requires 0 <= i < |events| => events[i].(name := ResolveName(similarity, keys, events[i].name)))
  }

  /** The inner loop of name resolution over the keys, for one event. */
  method ResolveOne(similarity: (string, string) -> Score, keys: seq<string>, name: string) returns (resolved: string)
    ensures resolved == ResolveName(similarity, keys, name)
  {
    resolved := name;
    var rate: real := 0.0;
    var cleanLootName := Clean(name);
    ghost var a := FirstAffix(keys, cleanLootName, 0);
    var i := 0;
    while i < |keys|
      invariant 0 <= i <= |keys| && i <= a
      invariant
        var j := BestMatch(similarity, keys, cleanLootName, i);
        (j == -1 ==> resolved == name && rate == 0.0)
        && (j >= 0 ==> resolved == keys[j] && rate == Rate(similarity, keys[j], cleanLootName))
    {
      var key := keys[i];
      var cleanedKey := Clean(key);
      if cleanLootName <= cleanedKey || EndsWith(cleanedKey, cleanLootName) {
        assert HasAffix(keys[i], cleanLootName);
        assert a == i;
        resolved := key;
        return;
      }
      assert i < a by {
        assert !HasAffix(keys[i], cleanLootName);
      }
      var result := similarity(LowerAll(cleanedKey), LowerAll(cleanLootName));
      assert result == Rate(similarity, keys[i], cleanLootName);
      ghost var j := BestMatch(similarity, keys, cleanLootName, i);
      assert rate == if j == -1 then 0.0 else Rate(similarity, keys[j], cleanLootName);
      if result > Threshold && result > rate {
        resolved := key;
        rate := result;
      }
      assert BestMatch(similarity, keys, cleanLootName, i + 1)
        == if result > Threshold && result > (if j == -1 then 0.0 else Rate(similarity, keys[j], cleanLootName)) then i else j;
      i := i + 1;
    }
    assert a == |keys|;
  }

  /** The resolution loop of `insert` over all parsed events. */
  method ResolveNames(similarity: (string, string) -> Score, keys: seq<string>, events: seq<LootData>)
    returns (resolved: seq<LootData>)
    ensures resolved == ResolveAll(similarity, keys, events)
  {
    resolved := [];
    for i := 0 to |events|
      invariant |resolved| == i
      invariant forall k :: 0 <= k < i ==> resolved[k] == events[k].(name := ResolveName(similarity, keys, events[k].name))
    {
      var v := events[i];
      var name := ResolveOne(similarity, keys, v.name);
      resolved := resolved + [v.(name := name)];
    }
  }

  // ---------------------------------------------------------------------
  // what resolution promises

  /** A resolved name is the parsed name or one of the keys; with no keys it
      is always the parsed name. */
  lemma ResolveKeyOrSelf(similarity: (string, string) -> Score, keys: seq<string>, name: string)
    ensures ResolveName(similarity, keys, name) == name || ResolveName(similarity, keys, name) in keys
    ensures keys == [] ==> ResolveName(similarity, keys, name) == name
  {
  }

  /** The first key whose cleaned form starts or ends with the cleaned name
      wins outright, whatever the scores of the keys before it. */
  lemma ResolveByAffix(similarity: (string, string) -> Score, keys: seq<string>, name: string, a: nat)
    requires a < |keys| && HasAffix(keys[a], Clean(name))
    requires forall k :: 0 <= k < a ==> !HasAffix(keys[k], Clean(name))
    ensures ResolveName(similarity, keys, name) == keys[a]
  {
    var f := FirstAffix(keys, Clean(name), 0);
    assert f <= a;
    assert f >= a;
  }

  /** Key `j` has the highest score, above 0.6, and no earlier key ties it. */
  predicate FirstBest(similarity: (string, string) -> Score, keys: seq<string>, clean: string, j: int) {
    && 0 <= j < |keys|
    && Rate(similarity, keys[j], clean) > Threshold
    && (forall k :: 0 <= k < |keys| ==> Rate(similarity, keys[k], clean) <= Rate(similarity, keys[j], clean))
    && (forall k :: 0 <= k < j ==> Rate(similarity, keys[k], clean) < Rate(similarity, keys[j], clean))
  }

  /** Without an affix match, the name goes to the first key of highest
      score when that score exceeds 0.6, and stays itself otherwise. */
  lemma ResolveBySimilarity(similarity: (string, string) -> Score, keys: seq<string>, name: string)
    requires forall k :: 0 <= k < |keys| ==> !HasAffix(keys[k], Clean(name))
    ensures (forall k :: 0 <= k < |keys| ==> Rate(similarity, keys[k], Clean(name)) <= Threshold)
      ==> ResolveName(similarity, keys, name) == name
    ensures forall j :: FirstBest(similarity, keys, Clean(name), j) ==> ResolveName(similarity, keys, name) == keys[j]
  {
    var clean := Clean(name);
    var b := BestMatch(similarity, keys, clean, |keys|);
    assert FirstAffix(keys, clean, 0) == |keys|;
    forall j | FirstBest(similarity, keys, clean, j)
      ensures ResolveName(similarity, keys, name) == keys[j]
    {
      assert b >= 0;
    }
  }
}
