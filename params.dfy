/**
 * The query parameters of the page address, as the `URLSearchParams` interface of the
 * WHATWG URL Standard (section 6.2) sees them: an ordered list of name-value pairs.
 * Percent-encoding and parsing of the query string are not modelled.
 *
 * The operations are plain list functions; what the standard promises about each is
 * stated and proved by the lemmas after it.
 */
module UrlParams {
  import opened Wrappers

  datatype Param = Param(key: string, value: string)

  predicate NoKey(ps: seq<Param>, key: string) {
    forall i :: 0 <= i < |ps| ==> ps[i].key != key
  }

  /** `getAll(key)`: the values of the pairs named `key`, in list order. */
  function GetAll(ps: seq<Param>, key: string): (r: seq<string>)
    ensures |r| <= |ps|
  {
    if ps == [] then []
    else if ps[0].key == key then [ps[0].value] + GetAll(ps[1..], key)
    else GetAll(ps[1..], key)
  }

  /** `getAll` finds nothing exactly when no pair has the name. */
  lemma {:induction false} GetAllEmpty(ps: seq<Param>, key: string)
    ensures GetAll(ps, key) == [] <==> NoKey(ps, key)
  {
    if ps != [] {
      GetAllEmpty(ps[1..], key);
      assert NoKey(ps, key) <==> ps[0].key != key && NoKey(ps[1..], key);
    }
  }

  lemma {:induction false} GetAllConcat(a: seq<Param>, b: seq<Param>, key: string)
    ensures GetAll(a + b, key) == GetAll(a, key) + GetAll(b, key)
  {
    if a == [] {
      assert a + b == b;
    } else {
      assert (a + b)[0] == a[0] && (a + b)[1..] == a[1..] + b;
      GetAllConcat(a[1..], b, key);
    }
  }

  /** `get(key)`: the value of the first pair named `key`, or null when there is none. */
  function Get(ps: seq<Param>, key: string): (r: Option<string>)
    ensures r.Some? ==> Param(key, r.value) in ps
  {
    if ps == [] then None
    else if ps[0].key == key then Some(ps[0].value)
    else Get(ps[1..], key)
  }

  /** `get` is the head of `getAll`: null exactly when `getAll` is empty. */
  lemma {:induction false} GetIsFirst(ps: seq<Param>, key: string)
    ensures Get(ps, key) == if GetAll(ps, key) == [] then None else Some(GetAll(ps, key)[0])
  {
    if ps != [] && ps[0].key != key {
      GetIsFirst(ps[1..], key);
    }
  }

  /** `delete(key)`: removes every pair named `key`; the others keep their order. */
  function Delete(ps: seq<Param>, key: string): (r: seq<Param>)
    ensures NoKey(r, key) && |r| <= |ps|
  {
    if ps == [] then []
    else if ps[0].key == key then Delete(ps[1..], key)
    else [ps[0]] + Delete(ps[1..], key)
  }

  /** After `delete`, `getAll` finds nothing and `get` gives null. */
  lemma DeleteRemovesAll(ps: seq<Param>, key: string)
    ensures GetAll(Delete(ps, key), key) == []
    ensures Get(Delete(ps, key), key) == None
  {
    GetAllEmpty(Delete(ps, key), key);
    GetIsFirst(Delete(ps, key), key);
  }

  /** Deleting a name that is not there changes nothing. */
  lemma {:induction false} DeleteAbsent(ps: seq<Param>, key: string)
    requires NoKey(ps, key)
    ensures Delete(ps, key) == ps
  {
    if ps != [] {
      assert ps[0].key != key;
      DeleteAbsent(ps[1..], key);
    }
  }

  /** `delete` leaves the values of every other name as they were. */
  lemma {:induction false} DeleteKeepsOthers(ps: seq<Param>, key: string, other: string)
    requires other != key
    ensures GetAll(Delete(ps, key), other) == GetAll(ps, other)
  {
    if ps != [] {
      DeleteKeepsOthers(ps[1..], key, other);
    }
  }

  /** `append(key, value)`: adds one pair at the end. */
  function Append(ps: seq<Param>, key: string, value: string): (r: seq<Param>)
    ensures |r| == |ps| + 1
  {
    ps + [Param(key, value)]
  }

  /** `append` adds `value` as the last value of `key`. */
  lemma AppendAdds(ps: seq<Param>, key: string, value: string)
    ensures GetAll(Append(ps, key, value), key) == GetAll(ps, key) + [value]
  {
    GetAllConcat(ps, [Param(key, value)], key);
  }

  /** `append` leaves the values of every other name as they were. */
  lemma AppendKeepsOthers(ps: seq<Param>, key: string, value: string, other: string)
    requires other != key
    ensures GetAll(Append(ps, key, value), other) == GetAll(ps, other)
  {
    GetAllConcat(ps, [Param(key, value)], other);
  }

  /** `set(key, value)`: the first pair named `key` takes the new value and the later ones
      are removed; with no such pair, the new one is appended. */
  function Set(ps: seq<Param>, key: string, value: string): (r: seq<Param>)
    ensures |r| <= |ps| + 1
  {
    if ps == [] then [Param(key, value)]
    else if ps[0].key == key then [Param(key, value)] + Delete(ps[1..], key)
    else [ps[0]] + Set(ps[1..], key, value)
  }

  /** After `set`, the name has exactly the one new value. */
  lemma {:induction false} SetReplaces(ps: seq<Param>, key: string, value: string)
    ensures GetAll(Set(ps, key, value), key) == [value]
    ensures Get(Set(ps, key, value), key) == Some(value)
  {
    if ps != [] {
      if ps[0].key == key {
        GetAllEmpty(Delete(ps[1..], key), key);
      } else {
        SetReplaces(ps[1..], key, value);
      }
    }
    GetIsFirst(Set(ps, key, value), key);
  }

  /** `set` leaves the values of every other name as they were. */
  lemma {:induction false} SetKeepsOthers(ps: seq<Param>, key: string, value: string, other: string)
    requires other != key
    ensures GetAll(Set(ps, key, value), other) == GetAll(ps, other)
  {
    if ps != [] {
      if ps[0].key == key {
        DeleteKeepsOthers(ps[1..], key, other);
      } else {
        SetKeepsOthers(ps[1..], key, value, other);
      }
    }
  }

  /** Apart from the pairs named `key`, `set` leaves the list exactly as it was. */
  lemma {:induction false} SetOnlyTouchesKey(ps: seq<Param>, key: string, value: string)
    ensures Delete(Set(ps, key, value), key) == Delete(ps, key)
  {
    if ps != [] {
      if ps[0].key == key {
        var rest := Delete(ps[1..], key);
        assert ([Param(key, value)] + rest)[1..] == rest;
        DeleteAbsent(rest, key);
      } else {
        SetOnlyTouchesKey(ps[1..], key, value);
        var rest := Set(ps[1..], key, value);
        assert ([ps[0]] + rest)[1..] == rest;
      }
    }
  }

  /** Pairs before the first one named `key` pass through `set` untouched. */
  lemma {:induction false} SetSkipsPrefix(a: seq<Param>, b: seq<Param>, key: string, value: string)
    requires NoKey(a, key)
    ensures Set(a + b, key, value) == a + Set(b, key, value)
  {
    if a == [] {
      assert a + b == b;
    } else {
      assert (a + b)[0] == a[0] && (a + b)[1..] == a[1..] + b;
      SetSkipsPrefix(a[1..], b, key, value);
      assert a == [a[0]] + a[1..];
    }
  }

  /** `set` keeps the place of the first pair named `key`, and appends when there is none. */
  lemma SetInPlace(ps: seq<Param>, key: string, value: string, i: nat)
    requires i < |ps| && ps[i].key == key && NoKey(ps[..i], key)
    ensures Set(ps, key, value) == ps[..i] + [Param(key, value)] + Delete(ps[i + 1..], key)
  {
    assert ps == ps[..i] + ps[i..];
    SetSkipsPrefix(ps[..i], ps[i..], key, value);
    assert ps[i..][1..] == ps[i + 1..];
  }

  lemma SetAppendsWhenAbsent(ps: seq<Param>, key: string, value: string)
    requires NoKey(ps, key)
    ensures Set(ps, key, value) == ps + [Param(key, value)]
  {
    SetSkipsPrefix(ps, [], key, value);
    assert ps + [] == ps;
  }
}
