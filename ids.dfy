/** The per-type id generator: a map from a unit's base name to the number of
    ids handed out for it so far. Each call returns the current count for its
    key and then increments that count. The pure functions below describe a
    single call and a series of calls; the class is the generator object. */
module Ids {

  /** The count the generator holds for `key`; a key never seen reads as 0,
      the zero value of a missing map entry. */
  function Count(ids: map<string, nat>, key: string): nat
  {
    if key in ids then ids[key] else 0
  }

  /** The generator's counts after one call for `key`. */
  function Bump(ids: map<string, nat>, key: string): map<string, nat>
  {
    ids[key := Count(ids, key) + 1]
  }

  /** The ids returned by successive calls for `keys`, starting from `ids`. */
  function Issue(ids: map<string, nat>, keys: seq<string>): (r: seq<nat>)
    ensures |r| == |keys|
    decreases |keys|
  {
    if keys == [] then [] else [Count(ids, keys[0])] + Issue(Bump(ids, keys[0]), keys[1..])
  }

  /** The generator's counts after successive calls for `keys`. */
  function After(ids: map<string, nat>, keys: seq<string>): map<string, nat>
    decreases |keys|
  {
    if keys == [] then ids else After(Bump(ids, keys[0]), keys[1..])
  }

  /** How many times `x` occurs in `s`. */
  function Occurrences(s: seq<string>, x: string): nat
    decreases |s|
  {
    if s == [] then 0 else (if s[0] == x then 1 else 0) + Occurrences(s[1..], x)
  }

  /** `n` calls for the same key. */
  function Repeat(key: string, n: nat): (r: seq<string>)
    ensures |r| == n
    ensures forall i :: 0 <= i < n ==> r[i] == key
  {
    seq(n, _ => key)
  }

  lemma {:induction false} OccurrencesAppend(s: seq<string>, t: seq<string>, x: string)
    ensures Occurrences(s + t, x) == Occurrences(s, x) + Occurrences(t, x)
    decreases |s|
  {
    if s == [] {
      assert s + t == t;
    } else {
      assert (s + t)[1..] == s[1..] + t;
      OccurrencesAppend(s[1..], t, x);
    }
  }

  /** One call changes the count of its own key by one and of no other key. */
  lemma BumpCount(ids: map<string, nat>, key: string, k: string)
    ensures Count(Bump(ids, key), k) == Count(ids, k) + (if k == key then 1 else 0)
  {
  }

  /** The `i`-th call of a series returns the key's starting count plus the
      number of earlier calls for the same key. */
  lemma {:induction false} IssueAt(ids: map<string, nat>, keys: seq<string>, i: nat)
    requires i < |keys|
    ensures Issue(ids, keys)[i] == Count(ids, keys[i]) + Occurrences(keys[..i], keys[i])
    decreases |keys|
  {
    if i > 0 {
      var rest := keys[1..];
      IssueAt(Bump(ids, keys[0]), rest, i - 1);
      BumpCount(ids, keys[0], keys[i]);
      assert keys[..i] == [keys[0]] + rest[..i - 1];
      assert Occurrences(keys[..i], keys[i])
          == (if keys[0] == keys[i] then 1 else 0) + Occurrences(rest[..i - 1], keys[i]);
    }
  }

  /** Within any series of calls, later calls for the same key return strictly
      larger ids: ids for one key are handed out in increasing order and are
      pairwise distinct. */
  lemma IssuedIncreasing(ids: map<string, nat>, keys: seq<string>, i: nat, j: nat)
    requires i < j < |keys|
    requires keys[i] == keys[j]
    ensures Issue(ids, keys)[i] < Issue(ids, keys)[j]
  {
    IssueAt(ids, keys, i);
    IssueAt(ids, keys, j);
    assert keys[..j] == keys[..i] + [keys[i]] + keys[i + 1..j];
    OccurrencesAppend(keys[..i] + [keys[i]], keys[i + 1..j], keys[i]);
    OccurrencesAppend(keys[..i], [keys[i]], keys[i]);
  }

  /** `n` successive calls for one key return its count, then the count plus
      one, and so on: 0, 1, 2, ... for a fresh generator. */
  lemma {:induction false} IssueRepeat(ids: map<string, nat>, key: string, n: nat)
    ensures forall i :: 0 <= i < n ==> Issue(ids, Repeat(key, n))[i] == Count(ids, key) + i
    decreases n
  {
    if n > 0 {
      IssueRepeat(Bump(ids, key), key, n - 1);
      assert Repeat(key, n)[1..] == Repeat(key, n - 1);
    }
  }

  /** After a series of calls each key's count has grown by the number of
      calls made for it; in particular a key never called keeps its count. */
  lemma {:induction false} AfterCount(ids: map<string, nat>, keys: seq<string>, k: string)
    ensures Count(After(ids, keys), k) == Count(ids, k) + Occurrences(keys, k)
    decreases |keys|
  {
    if keys != [] {
      AfterCount(Bump(ids, keys[0]), keys[1..], k);
      BumpCount(ids, keys[0], k);
    }
  }

  /** Calls for other keys leave a key's count unchanged. */
  lemma {:induction false} OtherKeysUnchanged(ids: map<string, nat>, keys: seq<string>, k: string)
    requires k !in keys
    ensures Count(After(ids, keys), k) == Count(ids, k)
    decreases |keys|
  {
    if keys != [] {
      assert k !in keys[1..];
      OtherKeysUnchanged(Bump(ids, keys[0]), keys[1..], k);
    }
  }

  /** The generator object: the closure's captured map made explicit. */
  class IdGenerator {
    var ids: map<string, nat>

    constructor ()
      ensures ids == map[]
    {
      ids := map[];
    }

    /** One call: return the current count for `key`, then increment it. */
    method Next(key: string) returns (id: nat)
      modifies this
      ensures id == Count(old(ids), key)
      ensures ids == Bump(old(ids), key)
    {
      id := Count(ids, key);
      ids := ids[key := id + 1];
    }
  }
}
