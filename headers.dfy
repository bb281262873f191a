/**
 * The request header multimap (hyper's `HeaderMap`), modelled as a sequence
 * of (name, value) entries. A name may occur several times; the values of one
 * name keep their order. Names are compared without regard to ASCII case, as
 * `HeaderMap::remove` and `HeaderMap::insert` do for both `&str` and
 * `HeaderName` keys.
 */
module Headers {
  import opened Wrappers

  datatype Header = Header(name: string, value: string)

  function LowerChar(c: char): char {
    if 'A' <= c <= 'Z' then (c as int + 32) as char else c
  }

  /** ASCII lower-casing, the normal form of a `HeaderName`. */
  function Lower(s: string): (r: string)
    ensures |r| == |s|
    ensures forall i :: 0 <= i < |s| ==> r[i] == LowerChar(s[i])
  {
    seq(|s|, i requires 0 <= i < |s| => LowerChar(s[i]))
  }

  lemma LowerIdempotent(s: string)
    ensures Lower(Lower(s)) == Lower(s)
  {
    assert forall i :: 0 <= i < |s| ==> Lower(Lower(s))[i] == Lower(s)[i];
  }

  /** Two header names denote the same header. */
  predicate NameEq(a: string, b: string) {
    Lower(a) == Lower(b)
  }

  /** Every value stored under `key`, in order: `HeaderMap::get_all`. */
  function ValuesOf(h: seq<Header>, key: string): seq<string> {
    if h == [] then []
    else (if NameEq(h[0].name, key) then [h[0].value] else []) + ValuesOf(h[1..], key)
  }

  lemma {:induction false} ValuesOfEmpty(h: seq<Header>, key: string)
    ensures ValuesOf(h, key) == [] <==> forall i :: 0 <= i < |h| ==> !NameEq(h[i].name, key)
  {
    if h != [] {
      ValuesOfEmpty(h[1..], key);
      assert forall i :: 1 <= i < |h| ==> h[i] == h[1..][i - 1];
    }
  }

  /** The value `HeaderMap::remove` returns: the first value stored under `key`. */
  function Get(h: seq<Header>, key: string): (r: Option<string>)
    ensures r == None <==> ValuesOf(h, key) == []
    ensures r.Some? ==> r.value == ValuesOf(h, key)[0]
  {
    if h == [] then None
    else if NameEq(h[0].name, key) then Some(h[0].value)
    else Get(h[1..], key)
  }

  /** The map `HeaderMap::remove` leaves: every entry named `key` is gone. */
  function Remove(h: seq<Header>, key: string): (r: seq<Header>)
    ensures ValuesOf(r, key) == []
    ensures forall n :: !NameEq(n, key) ==> ValuesOf(r, n) == ValuesOf(h, n)
    ensures forall i :: 0 <= i < |r| ==> r[i] in h
  {
    if h == [] then []
    else if NameEq(h[0].name, key) then Remove(h[1..], key)
    else
      var t := Remove(h[1..], key);
      assert ([h[0]] + t)[1..] == t;
      [h[0]] + t
  }

  /** Removing a name that is not there leaves the map as it was. */
  lemma {:induction false} RemoveAbsent(h: seq<Header>, key: string)
    requires ValuesOf(h, key) == []
    ensures Remove(h, key) == h
  {
    if h != [] {
      RemoveAbsent(h[1..], key);
      assert [h[0]] + h[1..] == h;
    }
  }

  /**
   * The map `HeaderMap::insert` leaves: exactly one entry named `key`, holding
   * `v`. An existing entry keeps its place; its later duplicates are dropped.
   */
  function Insert(h: seq<Header>, key: string, v: string): (r: seq<Header>)
    ensures ValuesOf(r, key) == [v]
    ensures forall n :: !NameEq(n, key) ==> ValuesOf(r, n) == ValuesOf(h, n)
  {
    LowerIdempotent(key);
    if h == [] then
      assert [Header(Lower(key), v)][1..] == [];
      [Header(Lower(key), v)]
    else if NameEq(h[0].name, key) then
      var t := Remove(h[1..], key);
      assert ([Header(Lower(key), v)] + t)[1..] == t;
      [Header(Lower(key), v)] + t
    else
      var t := Insert(h[1..], key, v);
      assert ([h[0]] + t)[1..] == t;
      [h[0]] + t
  }
}
