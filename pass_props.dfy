/** The passable-props registry (`passPropsMap`, `passPropsId`, `addPassableProps`,
    `getPassableProps`, `prps`; dist/core.mjs:43-63, src/renderer.mjs:43-63): a map
    from generated keys to props bundles, each entry claimable once. */
module PassProps {
  import opened Values
  import opened HexKeys

  /** `let passPropsId = 100000`. */
  const FIRST_ID: nat := 100000

  /** The attribute that carries a key into a component: `{ "data-props": id }`. */
  const PROPS_ATTRIBUTE: string := "data-props"

  datatype Registry = Registry(entries: map<string, Val>, nextId: nat)

  function Initial(): Registry {
    Registry(map[], FIRST_ID)
  }

  /** Every stored key is a key handed out for a counter value below the current one. */
  predicate Inv(r: Registry) {
    r.nextId >= FIRST_ID
    && forall k :: k in r.entries ==> IsHex(k) && FromHex(k) < r.nextId
  }

  /** `addPassableProps(props)`: the new registry and the key returned. */
  function Add(r: Registry, props: Val): (res: (Registry, string))
    ensures |res.1| % 2 == 0 && IsHex(res.1) && FromHex(res.1) == r.nextId
    ensures res.0.entries.Keys == r.entries.Keys + {res.1} && res.0.entries[res.1] == props
    ensures res.0.nextId == r.nextId + 1
  {
    var id := PropsKey(r.nextId);
    (Registry(r.entries[id := props], r.nextId + 1), id)
  }

  /** `getPassableProps(id)`: the new registry and the bundle returned (`undefined`
      when nothing is stored under `id`). */
  function Get(r: Registry, id: string): (res: (Registry, Val))
    ensures res.0.entries.Keys == r.entries.Keys - {id} && res.0.nextId == r.nextId
    ensures id in r.entries ==> res.1 == r.entries[id]
    ensures id !in r.entries ==> res.1 == Undefined
  {
    var props := if id in r.entries then r.entries[id] else Undefined;
    (r.(entries := r.entries - {id}), props)
  }

  /** `addPassableProps` returns the even-length hexadecimal key of the counter, which
      was not in use, stores the bundle under it and nothing else, and advances the
      counter by exactly one. */
  lemma AddIsFresh(r: Registry, props: Val)
    requires Inv(r)
    ensures var (r', id) := Add(r, props);
      id == PropsKey(r.nextId) && |id| % 2 == 0 && FromHex(id) == r.nextId
      && id !in r.entries
      && r'.entries == r.entries[id := props] && r'.nextId == r.nextId + 1
      && Inv(r')
  {
    var (r', id) := Add(r, props);
    forall k | k in r'.entries ensures IsHex(k) && FromHex(k) < r'.nextId {
    }
  }

  /** `getPassableProps` keeps the invariant and removes exactly the claimed key. */
  lemma GetKeepsInv(r: Registry, id: string)
    requires Inv(r)
    ensures Inv(Get(r, id).0) && Get(r, id).0.entries.Keys == r.entries.Keys - {id}
  {
  }

  /** A bundle stored by `addPassableProps` is returned by the first claim of its key,
      which removes it; a second claim returns `undefined` and changes nothing. */
  lemma ClaimOnce(r: Registry, props: Val)
    requires Inv(r)
    ensures var (r1, id) := Add(r, props);
      var (r2, first) := Get(r1, id);
      var (r3, second) := Get(r2, id);
      first == props && second == Undefined && r3 == r2
      && r2 == Registry(r.entries, r.nextId + 1)
  {
    var (r1, id) := Add(r, props);
    AddIsFresh(r, props);
    var (r2, first) := Get(r1, id);
    assert r2.entries == r.entries;
  }

  /** Successive `addPassableProps` calls. */
  function AddAll(r: Registry, bundles: seq<Val>): (Registry, seq<string>)
    decreases |bundles|
  {
    if bundles == [] then (r, [])
    else
      var (r1, id) := Add(r, bundles[0]);
      var (r2, ids) := AddAll(r1, bundles[1..]);
      (r2, [id] + ids)
  }

  /** The keys of successive calls encode consecutive counter values, so they increase
      strictly in allocation order and are pairwise distinct. */
  lemma {:induction false} AddAllKeys(r: Registry, bundles: seq<Val>)
    ensures var (r', ids) := AddAll(r, bundles);
      |ids| == |bundles| && r'.nextId == r.nextId + |bundles|
      && (forall i :: 0 <= i < |ids| ==> ids[i] == PropsKey(r.nextId + i))
      && (forall i, j :: 0 <= i < j < |ids| ==> ids[i] != ids[j])
    decreases |bundles|
  {
    if bundles != [] {
      var r1 := Add(r, bundles[0]).0;
      var id := Add(r, bundles[0]).1;
      AddAllKeys(r1, bundles[1..]);
      var rest := AddAll(r1, bundles[1..]).1;
      var ids := AddAll(r, bundles).1;
      assert ids == [id] + rest;
      assert forall i :: 0 <= i < |ids| ==> ids[i] == PropsKey(r.nextId + i) by {
        forall i | 0 <= i < |ids| ensures ids[i] == PropsKey(r.nextId + i) {
          if i > 0 {
            assert ids[i] == rest[i - 1];
          }
        }
      }
      forall i, j | 0 <= i < j < |ids| ensures ids[i] != ids[j] {
        KeysDistinct(r.nextId + i, r.nextId + j);
      }
    }
  }
}
