/** A URL query as `URLSearchParams` holds it: an ordered list of
    name/value pairs, already decoded, in which a name may repeat. */
module SearchParams {
  import opened JsValue

  type Params = seq<(string, string)>

  predicate HasName(ps: Params, name: string) {
    exists i :: 0 <= i < |ps| && ps[i].0 == name
  }

  /** `params.get(name)`: the value of the first pair with that name, or
      `None` (JavaScript's `null`) when there is none. */
  function Get(ps: Params, name: string): (r: Option<string>)
    ensures r.None? <==> !HasName(ps, name)
    ensures r.Some? ==> exists i :: 0 <= i < |ps| && ps[i] == (name, r.value)
                                    && forall j :: 0 <= j < i ==> ps[j].0 != name
    decreases |ps|
  {
    if ps == [] then None
    else if ps[0].0 == name then Some(ps[0].1)
    else
      var r := Get(ps[1..], name);
      assert forall i :: 1 <= i < |ps| ==> ps[i] == ps[1..][i - 1];
      r
  }

  /** The pairs of `ps` without those named `name`. */
  function Without(ps: Params, name: string): (r: Params)
    ensures !HasName(r, name)
    ensures forall n :: n != name ==> Get(r, n) == Get(ps, n)
    decreases |ps|
  {
    if ps == [] then []
    else if ps[0].0 == name then Without(ps[1..], name)
    else [ps[0]] + Without(ps[1..], name)
  }

  /** `params.set(name, value)`: the first pair with that name takes the new
      value and the later ones are removed; with no such pair, the pair is
      appended. */
  function Set(ps: Params, name: string, value: string): (r: Params)
    decreases |ps|
  {
    if ps == [] then [(name, value)]
    else if ps[0].0 == name then [(name, value)] + Without(ps[1..], name)
    else [ps[0]] + Set(ps[1..], name, value)
  }

  /** After `set`, `get` gives the new value, exactly one pair has the name,
      and every other name reads as before. */
  lemma {:induction false} SetThenGet(ps: Params, name: string, value: string)
    ensures Get(Set(ps, name, value), name) == Some(value)
    ensures forall n :: n != name ==> Get(Set(ps, name, value), n) == Get(ps, n)
    ensures forall i, j ::
              (0 <= i < j < |Set(ps, name, value)| && Set(ps, name, value)[i].0 == name)
              ==> Set(ps, name, value)[j].0 != name
    decreases |ps|
  {
    var r := Set(ps, name, value);
    if ps == [] {
    } else if ps[0].0 == name {
      var w := Without(ps[1..], name);
      assert r == [(name, value)] + w;
      forall i, j | 0 <= i < j < |r| && r[i].0 == name ensures r[j].0 != name {
        assert r[j] == w[j - 1];
      }
    } else {
      SetThenGet(ps[1..], name, value);
      var t := Set(ps[1..], name, value);
      assert r == [ps[0]] + t;
      forall n | n != name ensures Get(r, n) == Get(ps, n) {
        if ps[0].0 != n {
          assert r[1..] == t;
        }
      }
      forall i, j | 0 <= i < j < |r| && r[i].0 == name ensures r[j].0 != name {
        assert r[j] == t[j - 1];
        assert i > 0;
        assert r[i] == t[i - 1];
      }
    }
  }
}
