/**
 * The duplicate rule every template registry shares: templates are loaded
 * one path at a time, the first load failure aborts, and a template whose
 * name (or id) is already in the set is skipped, so the first one of each
 * name is kept. The sets are `HashSet`s of entries that compare and hash by
 * name; here they are maps from that name to the template.
 */
module FirstWins {
  import opened Wrappers

  /** `t` inserted unless its name is taken. */
  function Insert<T>(kept: map<string, T>, t: T, name: T -> string): map<string, T> {
    if name(t) in kept then kept else kept[name(t) := t]
  }

  /** The templates `ts` inserted in order. */
  function InsertAll<T>(kept: map<string, T>, ts: seq<T>, name: T -> string): map<string, T>
    decreases |ts|
  {
    if ts == [] then kept else InsertAll(Insert(kept, ts[0], name), ts[1..], name)
  }

  /**
   * `load_templates_from_path_list`: each path loaded and inserted in
   * order, the first failing load aborting with its error.
   */
  function LoadAll<P, T, E>(kept: map<string, T>, ps: seq<P>, load: P -> Result<T, E>, name: T -> string)
    : Result<map<string, T>, E>
    decreases |ps|
  {
    if ps == [] then Ok(kept)
    else
      var t :- load(ps[0]);
      LoadAll(Insert(kept, t, name), ps[1..], load, name)
  }

  /** Some template of `ts` has name `n`. */
  ghost predicate NamedIn<T>(ts: seq<T>, name: T -> string, n: string) {
    exists k :: 0 <= k < |ts| && name(ts[k]) == n
  }

  /** `ts[k]` is the first template of `ts` with its name. */
  ghost predicate FirstOfName<T>(ts: seq<T>, name: T -> string, k: nat) {
    k < |ts| && forall j :: 0 <= j < k ==> name(ts[j]) != name(ts[k])
  }

  /**
   * Inserting keeps every name already present with its template, and adds
   * exactly the names of `ts`.
   */
  lemma {:induction false} InsertAllKeys<T>(kept: map<string, T>, ts: seq<T>, name: T -> string)
    ensures forall n :: n in kept ==> n in InsertAll(kept, ts, name) && InsertAll(kept, ts, name)[n] == kept[n]
    ensures forall n :: n in InsertAll(kept, ts, name) <==> n in kept || NamedIn(ts, name, n)
    decreases |ts|
  {
    if ts != [] {
      var s' := Insert(kept, ts[0], name);
      InsertAllKeys(s', ts[1..], name);
      forall n | NamedIn(ts, name, n) ensures n in s' || NamedIn(ts[1..], name, n) {
        var k :| 0 <= k < |ts| && name(ts[k]) == n;
        if k > 0 {
          assert name(ts[1..][k - 1]) == n;
        }
      }
      forall n | NamedIn(ts[1..], name, n) ensures NamedIn(ts, name, n) {
        var k :| 0 <= k < |ts[1..]| && name(ts[1..][k]) == n;
        assert name(ts[k + 1]) == n;
      }
    }
  }

  /** The first template of each name not already present is the one kept for it. */
  lemma {:induction false} InsertAllFirstWins<T>(kept: map<string, T>, ts: seq<T>, name: T -> string, k: nat)
    requires FirstOfName(ts, name, k) && name(ts[k]) !in kept
    ensures name(ts[k]) in InsertAll(kept, ts, name) && InsertAll(kept, ts, name)[name(ts[k])] == ts[k]
    decreases |ts|
  {
    var s' := Insert(kept, ts[0], name);
    if k == 0 {
      InsertAllKeys(s', ts[1..], name);
    } else {
      assert name(ts[0]) != name(ts[k]);
      assert ts[1..][k - 1] == ts[k];
      forall j | 0 <= j < k - 1 ensures name(ts[1..][j]) != name(ts[1..][k - 1]) {
        assert ts[1..][j] == ts[j + 1];
      }
      InsertAllFirstWins(s', ts[1..], name, k - 1);
    }
  }

  /**
   * Loading is all loads first, then the insertions: the result fails iff
   * some load fails, with the error of the first one that does.
   */
  lemma {:induction false} LoadAllTwoPhase<P, T, E>(kept: map<string, T>, ps: seq<P>, load: P -> Result<T, E>, name: T -> string)
    ensures MapAll(load, ps).Err? ==> LoadAll(kept, ps, load, name) == Err(MapAll(load, ps).error)
    ensures MapAll(load, ps).Ok? ==> LoadAll(kept, ps, load, name) == Ok(InsertAll(kept, MapAll(load, ps).value, name))
    decreases |ps|
  {
    if ps != [] {
      var t := load(ps[0]);
      if t.Ok? {
        LoadAllTwoPhase(Insert(kept, t.value, name), ps[1..], load, name);
        var rest := MapAll(load, ps[1..]);
        if rest.Ok? {
          var ts := [t.value] + rest.value;
          assert ts[0] == t.value && ts[1..] == rest.value;
        }
      }
    }
  }

  /** A path whose load fails, with every earlier one loading, is the error of the whole load. */
  lemma LoadAllFirstError<P, T, E>(kept: map<string, T>, ps: seq<P>, load: P -> Result<T, E>, name: T -> string, k: nat)
    requires k < |ps| && load(ps[k]).Err?
    requires forall j :: 0 <= j < k ==> load(ps[j]).Ok?
    ensures LoadAll(kept, ps, load, name) == Err(load(ps[k]).error)
  {
    MapAllFirstError(load, ps, k);
    LoadAllTwoPhase(kept, ps, load, name);
  }

  /** The state a load leaves behind, path by path, up to and including the first failing load. */
  function Effects<P, T, E, R>(r: R, ps: seq<P>, load: P -> Result<T, E>, after: (R, P) -> R): R
    decreases |ps|
  {
    if ps == [] then r
    else if load(ps[0]).Err? then after(r, ps[0])
    else Effects(after(r, ps[0]), ps[1..], load, after)
  }

  /** One step of `Effects`. */
  lemma EffectsStep<P, T, E, R>(r: R, ps: seq<P>, load: P -> Result<T, E>, after: (R, P) -> R)
    requires ps != []
    ensures Effects(r, ps, load, after)
      == if load(ps[0]).Err? then after(r, ps[0]) else Effects(after(r, ps[0]), ps[1..], load, after)
  {
  }

  /**
   * When every load succeeds and each step sets one key, the keys being
   * distinct, every key ends up holding its value, and every other key keeps
   * what it had.
   */
  lemma {:induction false} EffectsUpdates<P, T, E, V>(r: map<string, V>, ps: seq<P>, load: P -> Result<T, E>,
                                                     after: (map<string, V>, P) -> map<string, V>,
                                                     key: P -> string, val: P -> V)
    requires forall k :: 0 <= k < |ps| ==> load(ps[k]).Ok?
    requires forall m, k :: 0 <= k < |ps| ==> after(m, ps[k]) == m[key(ps[k]) := val(ps[k])]
    requires forall i, j :: 0 <= i < j < |ps| ==> key(ps[i]) != key(ps[j])
    ensures forall k :: 0 <= k < |ps| ==> key(ps[k]) in Effects(r, ps, load, after) && Effects(r, ps, load, after)[key(ps[k])] == val(ps[k])
    ensures forall n :: n in r && (forall k :: 0 <= k < |ps| ==> key(ps[k]) != n) ==>
      n in Effects(r, ps, load, after) && Effects(r, ps, load, after)[n] == r[n]
    decreases |ps|
  {
    if ps != [] {
      var rest := ps[1..];
      var r' := after(r, ps[0]);
      assert r' == r[key(ps[0]) := val(ps[0])];
      assert forall k :: 0 <= k < |rest| ==> rest[k] == ps[k + 1];
      EffectsUpdates(r', rest, load, after, key, val);
      assert Effects(r, ps, load, after) == Effects(r', rest, load, after);
    }
  }

  /** The set change of one path: its template inserted when it loads. */
  function Inserter<P, T, E>(load: P -> Result<T, E>, name: T -> string): (map<string, T>, P) -> map<string, T> {
    (m: map<string, T>, p: P) => if load(p).Ok? then Insert(m, load(p).value, name) else m
  }

  /** A successful load's set is the one the insertions leave, path by path. */
  lemma {:induction false} LoadAllEffects<P, T, E>(kept: map<string, T>, ps: seq<P>, load: P -> Result<T, E>, name: T -> string)
    ensures LoadAll(kept, ps, load, name).Ok? ==>
      LoadAll(kept, ps, load, name).value == Effects(kept, ps, load, Inserter(load, name))
    decreases |ps|
  {
    if ps != [] && load(ps[0]).Ok? {
      assert Inserter(load, name)(kept, ps[0]) == Insert(kept, load(ps[0]).value, name);
      LoadAllEffects(Insert(kept, load(ps[0]).value, name), ps[1..], load, name);
    }
  }

  /** Every template is filed under its own name. */
  ghost predicate KeyedBy<T>(m: map<string, T>, name: T -> string) {
    forall n :: n in m ==> name(m[n]) == n
  }

  /** Insertion, path by path and however far it gets, files every template under its own name. */
  lemma {:induction false} EffectsKeyed<P, T, E>(kept: map<string, T>, ps: seq<P>, load: P -> Result<T, E>, name: T -> string)
    requires KeyedBy(kept, name)
    ensures KeyedBy(Effects(kept, ps, load, Inserter(load, name)), name)
    decreases |ps|
  {
    if ps != [] {
      var kept' := Inserter(load, name)(kept, ps[0]);
      assert KeyedBy(kept', name);
      if load(ps[0]).Ok? {
        EffectsKeyed(kept', ps[1..], load, name);
      }
    }
  }

  /**
   * The loop of `load_templates_from_path_list` with a loader that changes
   * nothing else: each path loaded and inserted into the set unless its
   * name is taken, the first failing load aborting.
   */
  method LoadEach<P, T, E>(kept: map<string, T>, ps: seq<P>, load: P -> Result<T, E>, name: T -> string)
    returns (r: Result<(), E>, kept': map<string, T>)
    ensures r.Ok? <==> LoadAll(kept, ps, load, name).Ok?
    ensures r.Ok? ==> LoadAll(kept, ps, load, name) == Ok(kept')
    ensures r.Err? ==> r.error == LoadAll(kept, ps, load, name).error
    ensures kept' == Effects(kept, ps, load, Inserter(load, name))
  {
    var insert := Inserter(load, name);
    kept' := kept;
    LoadAllEffects(kept, ps, load, name);
    assert ps[0..] == ps;
    for i := 0 to |ps|
      invariant LoadAll(kept, ps, load, name) == LoadAll(kept', ps[i..], load, name)
      invariant Effects(kept, ps, load, insert) == Effects(kept', ps[i..], load, insert)
    {
      assert ps[i..][0] == ps[i] && ps[i..][1..] == ps[i + 1..];
      EffectsStep(kept', ps[i..], load, insert);
      var t := load(ps[i]);
      if t.Err? {
        return Err(t.error), kept';
      }
      if name(t.value) !in kept' {
        kept' := kept'[name(t.value) := t.value];
      }
    }
    assert ps[|ps|..] == [];
    return Ok(()), kept';
  }
}
