/**
 * `URLSearchParams` as the web hooks use it: an ordered list of name/value
 * pairs (a name may occur more than once) with `get`, `set` and `delete`, and
 * the router navigation a hook makes with the resulting query. Percent
 * encoding of the query text is not modelled: a navigation carries the pairs.
 */
module UrlSearchParams {
  import opened Wrappers
  import Seqs

  type Entries = seq<(string, string)>

  /** `router.push('?' + params)` or `router.replace('?' + params)`. */
  datatype Navigation = Push(query: Entries) | Replace(query: Entries)
  {
    function Query(): Entries
    {
      match this
      case Push(q) => q
      case Replace(q) => q
    }
  }

  /** `router.replace` when the `replace` option is set, `router.push` otherwise. */
  function Navigate(query: Entries, replace: bool): (nav: Navigation)
    ensures nav.Query() == query
    ensures nav.Replace? <==> replace
  {
    if replace then Replace(query) else Push(query)
  }

  /** `params.get(name)`: the value of the first pair with that name. */
  function Get(e: Entries, name: string): (r: Option<string>)
    ensures r.None? <==> forall k :: 0 <= k < |e| ==> e[k].0 != name
  {
    if e == [] then None else if e[0].0 == name then Some(e[0].1) else Get(e[1..], name)
  }

  function NamedOther(name: string): ((string, string)) -> bool
  {
    (p: (string, string)) => p.0 != name
  }

  /** `params.delete(name)`: every pair with that name is removed; the others keep their order. */
  function Delete(e: Entries, name: string): Entries
  {
    Seqs.Filter(e, NamedOther(name))
  }

  /**
   * `params.set(name, value)`: the first pair with that name takes the new
   * value in place and the later ones are removed; without one, the pair is
   * appended.
   */
  function Set(e: Entries, name: string, value: string): Entries
  {
    if e == [] then [(name, value)]
    else if e[0].0 == name then [(name, value)] + Delete(e[1..], name)
    else [e[0]] + Set(e[1..], name, value)
  }

  lemma DeleteFront(e: Entries, name: string)
    requires e != []
    ensures Delete(e, name) == if e[0].0 == name then Delete(e[1..], name) else [e[0]] + Delete(e[1..], name)
  {
    var p := NamedOther(name);
    if |e| == 1 {
      assert e[1..] == [];
    } else {
      assert e == [e[0]] + e[1..];
      Seqs.FilterFront(e, p);
    }
  }

  /** After `delete`, the name is gone and every other name reads as before. */
  lemma {:induction false} GetDelete(e: Entries, name: string, other: string)
    ensures Get(Delete(e, name), name).None?
    ensures other != name ==> Get(Delete(e, name), other) == Get(e, other)
  {
    if e != [] {
      DeleteFront(e, name);
      GetDelete(e[1..], name, other);
      assert ([e[0]] + Delete(e[1..], name))[1..] == Delete(e[1..], name);
    }
  }

  /** After `set`, the name reads the new value and every other name reads as before. */
  lemma {:induction false} GetSet(e: Entries, name: string, value: string, other: string)
    ensures Get(Set(e, name, value), name) == Some(value)
    ensures other != name ==> Get(Set(e, name, value), other) == Get(e, other)
  {
    if e != [] {
      if e[0].0 == name {
        GetDelete(e[1..], name, other);
        assert ([(name, value)] + Delete(e[1..], name))[1..] == Delete(e[1..], name);
      } else {
        GetSet(e[1..], name, value, other);
        assert ([e[0]] + Set(e[1..], name, value))[1..] == Set(e[1..], name, value);
      }
    }
  }

  /**
   * `set` keeps every pair before the first one with the name, puts the new
   * value in that pair's place, and appends it when the name is absent.
   */
  lemma {:induction false} SetPosition(e: Entries, name: string, value: string, i: nat)
    requires i <= |e|
    requires forall k :: 0 <= k < i ==> e[k].0 != name
    requires i < |e| ==> e[i].0 == name
    ensures |Set(e, name, value)| > i
    ensures Set(e, name, value)[..i] == e[..i]
    ensures Set(e, name, value)[i] == (name, value)
    ensures i == |e| ==> Set(e, name, value) == e + [(name, value)]
  {
    if i > 0 {
      SetPosition(e[1..], name, value, i - 1);
      var r := Set(e, name, value);
      assert r == [e[0]] + Set(e[1..], name, value);
      assert r[..i] == [e[0]] + Set(e[1..], name, value)[..i - 1];
      assert e[..i] == [e[0]] + e[1..][..i - 1];
      if i == |e| {
        assert e == [e[0]] + e[1..];
      }
    }
  }

  /** A copy of the current query that a hook edits before it navigates. */
  class SearchParams {
    var entries: Entries

    /** `new URLSearchParams(searchParams.toString())`. */
    constructor (query: Entries)
      ensures entries == query
    {
      entries := query;
    }

    method SetParam(name: string, value: string)
      modifies this
      ensures entries == Set(old(entries), name, value)
    {
      entries := Set(entries, name, value);
    }

    method DeleteParam(name: string)
      modifies this
      ensures entries == Delete(old(entries), name)
    {
      entries := Delete(entries, name);
    }
  }
}
