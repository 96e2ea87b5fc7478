/**
 * Export and import of a stack's state as a flat dictionary from entry names
 * to tensors. Export walks the layers in index order and, for each layer,
 * inserts its tensors in the order `W`, `B`, `scale`, `shift`,
 * `running_mean`, `running_var`, skipping what the layer does not own.
 * Import walks the same order and assigns each tensor from the dictionary as
 * soon as it is found, so a missing entry stops it with everything before that
 * entry already assigned: import is not atomic. Import checks no sizes.
 */
module Snapshot {
  import opened Wrappers
  import opened Tensors
  import opened Layers
  import opened StateKeys

  type State = map<string, Tensor>

  /** Key `k` names a tensor that the stack `ls` owns. */
  predicate Required(ls: seq<Layer>, k: Key) {
    k.index < |ls| && Carries(ls[k.index], k.role)
  }

  /** Whether `a` comes before `b` in the order import reads the entries. */
  predicate Before(a: Key, b: Key) {
    a.index < b.index || (a.index == b.index && Rank(a.role) < Rank(b.role))
  }

  // ---------------------------------------------------------------- export

  /** Inserts the tensors of roles `rs` of layer `i` into `m`, in order. */
  function PutFields(m: State, i: nat, l: Layer, rs: seq<Role>): State
    requires forall r :: r in rs ==> Carries(l, r)
    decreases |rs|
  {
    if rs == [] then m
    else PutFields(m[KeyName(Key(i, rs[0])) := Field(l, rs[0])], i, l, rs[1..])
  }

  /** Exporting one layer is the sequence of insertions written out for its capabilities. */
  lemma PutFieldsOfLayer(m: State, i: nat, l: Layer)
    ensures l.Stateless? ==> PutFields(m, i, l, Roles(l)) == m
    ensures l.Param? ==> PutFields(m, i, l, Roles(l)) == m[KeyName(Key(i, Weight)) := l.W][KeyName(Key(i, Bias)) := l.B]
    ensures l.ParamStats? ==>
      PutFields(m, i, l, Roles(l))
      == m[KeyName(Key(i, Weight)) := l.W][KeyName(Key(i, Bias)) := l.B]
          [KeyName(Key(i, Scale)) := l.scale][KeyName(Key(i, Shift)) := l.shift]
          [KeyName(Key(i, RunningMean)) := l.runningMean][KeyName(Key(i, RunningVar)) := l.runningVar]
  {
    var rs := Roles(l);
    if l.Param? {
      var m1 := m[KeyName(Key(i, Weight)) := l.W];
      assert rs == [Weight, Bias];
      assert PutFields(m, i, l, rs) == PutFields(m1, i, l, [Bias]);
    } else if l.ParamStats? {
      var m1 := m[KeyName(Key(i, Weight)) := l.W];
      var m2 := m1[KeyName(Key(i, Bias)) := l.B];
      var m3 := m2[KeyName(Key(i, Scale)) := l.scale];
      var m4 := m3[KeyName(Key(i, Shift)) := l.shift];
      var m5 := m4[KeyName(Key(i, RunningMean)) := l.runningMean];
      assert rs == [Weight, Bias, Scale, Shift, RunningMean, RunningVar];
      assert PutFields(m, i, l, rs) == PutFields(m1, i, l, [Bias, Scale, Shift, RunningMean, RunningVar]);
      assert PutFields(m1, i, l, [Bias, Scale, Shift, RunningMean, RunningVar])
          == PutFields(m2, i, l, [Scale, Shift, RunningMean, RunningVar]);
      assert PutFields(m2, i, l, [Scale, Shift, RunningMean, RunningVar])
          == PutFields(m3, i, l, [Shift, RunningMean, RunningVar]);
      assert PutFields(m3, i, l, [Shift, RunningMean, RunningVar])
          == PutFields(m4, i, l, [RunningMean, RunningVar]);
      assert PutFields(m4, i, l, [RunningMean, RunningVar]) == PutFields(m5, i, l, [RunningVar]);
    }
  }

  /** The dictionary once layers `0 .. n - 1` have been exported. */
  function ExportPrefix(ls: seq<Layer>, n: nat): State
    requires n <= |ls|
  {
    if n == 0 then map[]
    else PutFields(ExportPrefix(ls, n - 1), n - 1, ls[n - 1], Roles(ls[n - 1]))
  }

  /** `state_dict()`. */
  function Export(ls: seq<Layer>): State {
    ExportPrefix(ls, |ls|)
  }

  lemma {:induction false} PutFieldsContents(m: State, i: nat, l: Layer, rs: seq<Role>)
    requires forall r :: r in rs ==> Carries(l, r)
    ensures forall k: Key :: KeyName(k) in PutFields(m, i, l, rs) <==> KeyName(k) in m || (k.index == i && k.role in rs)
    ensures forall k: Key :: k.index == i && k.role in rs ==> PutFields(m, i, l, rs)[KeyName(k)] == Field(l, k.role)
    ensures forall k: Key :: !(k.index == i && k.role in rs) && KeyName(k) in m ==>
      PutFields(m, i, l, rs)[KeyName(k)] == m[KeyName(k)]
    decreases |rs|
  {
    if rs != [] {
      var k0 := Key(i, rs[0]);
      var m' := m[KeyName(k0) := Field(l, rs[0])];
      KeyNamesDistinct();
      PutFieldsContents(m', i, l, rs[1..]);
      assert forall r :: r in rs <==> r == rs[0] || r in rs[1..];
    }
  }

  lemma {:induction false} PutFieldsNames(m: State, i: nat, l: Layer, rs: seq<Role>)
    requires forall r :: r in rs ==> Carries(l, r)
    ensures forall name :: name in PutFields(m, i, l, rs) ==>
      name in m || exists r :: r in rs && name == KeyName(Key(i, r))
    decreases |rs|
  {
    if rs != [] {
      var m' := m[KeyName(Key(i, rs[0])) := Field(l, rs[0])];
      PutFieldsNames(m', i, l, rs[1..]);
      forall name | name in PutFields(m, i, l, rs) && name !in m
        ensures exists r :: r in rs && name == KeyName(Key(i, r))
      {
        if name in m' {
          assert rs[0] in rs && name == KeyName(Key(i, rs[0]));
        } else {
          var r :| r in rs[1..] && name == KeyName(Key(i, r));
          assert r in rs;
        }
      }
    }
  }

  lemma {:induction false} ExportPrefixContents(ls: seq<Layer>, n: nat)
    requires n <= |ls|
    ensures forall k: Key :: KeyName(k) in ExportPrefix(ls, n) <==> Required(ls, k) && k.index < n
    ensures forall k: Key :: Required(ls, k) && k.index < n ==> ExportPrefix(ls, n)[KeyName(k)] == Field(ls[k.index], k.role)
  {
    if n > 0 {
      var i := n - 1;
      ExportPrefixContents(ls, i);
      ExportStepContents(ls, i, n);
      var e := ExportPrefix(ls, n);
      forall k: Key ensures KeyName(k) in e <==> Required(ls, k) && k.index < n {
        if k.index == i {
          assert Required(ls, k) <==> k.role in Roles(ls[i]);
        }
      }
      forall k: Key | Required(ls, k) && k.index < n ensures e[KeyName(k)] == Field(ls[k.index], k.role) {
        if k.index == i {
          assert k.role in Roles(ls[i]);
        } else {
          assert KeyName(k) in ExportPrefix(ls, i);
        }
      }
    }
  }

  /** Exporting layer `i` adds the entries of its own tensors and keeps every other entry. */
  lemma ExportStepContents(ls: seq<Layer>, i: nat, n: nat)
    requires n == i + 1 <= |ls|
    ensures forall k: Key :: KeyName(k) in ExportPrefix(ls, n) <==>
      KeyName(k) in ExportPrefix(ls, i) || (k.index == i && k.role in Roles(ls[i]))
    ensures forall k: Key :: k.index == i && k.role in Roles(ls[i]) ==> ExportPrefix(ls, n)[KeyName(k)] == Field(ls[i], k.role)
    ensures forall k: Key :: !(k.index == i && k.role in Roles(ls[i])) && KeyName(k) in ExportPrefix(ls, i) ==>
      ExportPrefix(ls, n)[KeyName(k)] == ExportPrefix(ls, i)[KeyName(k)]
  {
    assert ExportPrefix(ls, n) == PutFields(ExportPrefix(ls, i), i, ls[i], Roles(ls[i]));
    PutFieldsContents(ExportPrefix(ls, i), i, ls[i], Roles(ls[i]));
  }

  lemma {:induction false} ExportPrefixNames(ls: seq<Layer>, n: nat)
    requires n <= |ls|
    ensures forall name :: name in ExportPrefix(ls, n) ==>
      exists k: Key :: Required(ls, k) && k.index < n && name == KeyName(k)
  {
    if n > 0 {
      var i := n - 1;
      ExportPrefixNames(ls, i);
      ExportStepNames(ls, i, n);
      forall name | name in ExportPrefix(ls, n)
        ensures exists k: Key :: Required(ls, k) && k.index < n && name == KeyName(k)
      {
        NameOfPrefix(ls, i, n, name);
      }
    }
  }

  /** Exporting layer `i` adds only the names of its own tensors. */
  lemma ExportStepNames(ls: seq<Layer>, i: nat, n: nat)
    requires n == i + 1 <= |ls|
    ensures forall name :: name in ExportPrefix(ls, n) ==>
      name in ExportPrefix(ls, i) || exists r :: r in Roles(ls[i]) && name == KeyName(Key(i, r))
  {
    assert ExportPrefix(ls, n) == PutFields(ExportPrefix(ls, i), i, ls[i], Roles(ls[i]));
    PutFieldsNames(ExportPrefix(ls, i), i, ls[i], Roles(ls[i]));
  }

  /** The step of `ExportPrefixNames` for one name: it came from the layers before `i`, or from layer `i`. */
  lemma NameOfPrefix(ls: seq<Layer>, i: nat, n: nat, name: string)
    requires n == i + 1 <= |ls|
    requires name in ExportPrefix(ls, i) ==> exists k: Key :: Required(ls, k) && k.index < i && name == KeyName(k)
    requires name in ExportPrefix(ls, i) || exists r :: r in Roles(ls[i]) && name == KeyName(Key(i, r))
    ensures exists k: Key :: Required(ls, k) && k.index < n && name == KeyName(k)
  {
    if name in ExportPrefix(ls, i) {
      var k: Key :| Required(ls, k) && k.index < i && name == KeyName(k);
      assert Required(ls, k) && k.index < n && name == KeyName(k);
    } else {
      var r :| r in Roles(ls[i]) && name == KeyName(Key(i, r));
      var k := Key(i, r);
      assert Required(ls, k) && k.index < n && name == KeyName(k);
    }
  }

  /**
   * The exported dictionary has an entry for exactly the tensors the stack
   * owns, under the name `layer_{i}_{field}`, holding that tensor.
   */
  lemma ExportContents(ls: seq<Layer>)
    ensures forall k: Key :: KeyName(k) in Export(ls) <==> Required(ls, k)
    ensures forall k: Key :: Required(ls, k) ==> Export(ls)[KeyName(k)] == Field(ls[k.index], k.role)
  {
    ExportPrefixContents(ls, |ls|);
  }

  /** The exported dictionary has no other entry: every name in it is the name of an owned tensor. */
  lemma ExportOnlyKeys(ls: seq<Layer>)
    ensures forall name :: name in Export(ls) ==> exists k: Key :: Required(ls, k) && name == KeyName(k)
  {
    ExportPrefixNames(ls, |ls|);
  }

  // ---------------------------------------------------------------- import

  /** How an import ends: every tensor assigned, or the first missing entry (a `KeyError`). */
  datatype LoadOutcome = Loaded | MissingKey(key: Key)

  /**
   * Assigns the tensors of roles `rs` of layer `i` from `s`, in order; stops at
   * the first role whose entry is absent and reports it.
   */
  function LoadFields(i: nat, l: Layer, rs: seq<Role>, s: State): (r: (Layer, Option<Key>))
    requires forall r :: r in rs ==> Carries(l, r)
    ensures SameStructure(r.0, l)
    decreases |rs|
  {
    if rs == [] then (l, None)
    else
      var name := KeyName(Key(i, rs[0]));
      if name in s then LoadFields(i, SetField(l, rs[0], s[name]), rs[1..], s)
      else (l, Some(Key(i, rs[0])))
  }

  /** One iteration of `load_state_dict`'s loop: all tensors of layer `i`. */
  function LoadLayer(i: nat, l: Layer, s: State): (r: (Layer, Option<Key>))
    ensures SameStructure(r.0, l)
  {
    LoadFields(i, l, Roles(l), s)
  }

  /** `load_state_dict(s)` from layer `i` on: the layers afterwards and the outcome. */
  function LoadFrom(ls: seq<Layer>, i: nat, s: State): (r: (seq<Layer>, LoadOutcome))
    requires i <= |ls|
    ensures |r.0| == |ls| && forall j :: 0 <= j < |ls| ==> SameStructure(r.0[j], ls[j])
    decreases |ls| - i
  {
    if i == |ls| then (ls, Loaded)
    else
      var (l, missing) := LoadLayer(i, ls[i], s);
      if missing.Some? then (ls[i := l], MissingKey(missing.value))
      else LoadFrom(ls[i := l], i + 1, s)
  }

  lemma {:induction false} LoadFieldsContents(i: nat, l: Layer, rs: seq<Role>, s: State)
    requires forall r :: r in rs ==> Carries(l, r)
    requires forall a, b :: 0 <= a < b < |rs| ==> Rank(rs[a]) < Rank(rs[b])
    ensures forall r :: Carries(l, r) && r !in rs ==> Field(LoadFields(i, l, rs, s).0, r) == Field(l, r)
    ensures LoadFields(i, l, rs, s).1.None? ==> forall r :: r in rs ==>
      KeyName(Key(i, r)) in s && Field(LoadFields(i, l, rs, s).0, r) == s[KeyName(Key(i, r))]
    ensures LoadFields(i, l, rs, s).1.Some? ==>
      var k := LoadFields(i, l, rs, s).1.value;
      && k.index == i && k.role in rs && KeyName(k) !in s
      && (forall r :: r in rs && Rank(r) < Rank(k.role) ==>
            KeyName(Key(i, r)) in s && Field(LoadFields(i, l, rs, s).0, r) == s[KeyName(Key(i, r))])
      && (forall r :: r in rs && Rank(k.role) <= Rank(r) ==> Field(LoadFields(i, l, rs, s).0, r) == Field(l, r))
    decreases |rs|
  {
    if rs != [] {
      var r0, rest := rs[0], rs[1..];
      assert forall r :: r in rs <==> r == r0 || r in rest;
      assert forall r :: r in rest ==> Rank(r0) < Rank(r);
      var name := KeyName(Key(i, r0));
      var res := LoadFields(i, l, rs, s);
      if name in s {
        var l1 := SetField(l, r0, s[name]);
        assert res == LoadFields(i, l1, rest, s);
        LoadFieldsContents(i, l1, rest, s);
        forall r | Carries(l, r) && r !in rs ensures Field(res.0, r) == Field(l, r) {
          assert Field(res.0, r) == Field(l1, r);
        }
        if res.1.None? {
          forall r | r in rs ensures KeyName(Key(i, r)) in s && Field(res.0, r) == s[KeyName(Key(i, r))] {
            if r == r0 {
              assert r0 !in rest;
            }
          }
        } else {
          var k := res.1.value;
          forall r | r in rs && Rank(r) < Rank(k.role)
            ensures KeyName(Key(i, r)) in s && Field(res.0, r) == s[KeyName(Key(i, r))]
          {
            if r == r0 {
              assert r0 !in rest;
            }
          }
          forall r | r in rs && Rank(k.role) <= Rank(r) ensures Field(res.0, r) == Field(l, r) {
            assert r in rest;
            assert Field(res.0, r) == Field(l1, r);
          }
        }
      } else {
        assert res == (l, Some(Key(i, r0)));
      }
    }
  }

  /** The tensors of one layer after one iteration of the import loop. */
  lemma LoadLayerContents(i: nat, l: Layer, s: State)
    ensures LoadLayer(i, l, s).1.None? ==> forall r :: Carries(l, r) ==>
      KeyName(Key(i, r)) in s && Field(LoadLayer(i, l, s).0, r) == s[KeyName(Key(i, r))]
    ensures LoadLayer(i, l, s).1.Some? ==>
      var k := LoadLayer(i, l, s).1.value;
      && k.index == i && Carries(l, k.role) && KeyName(k) !in s
      && (forall r :: Carries(l, r) && Rank(r) < Rank(k.role) ==>
            KeyName(Key(i, r)) in s && Field(LoadLayer(i, l, s).0, r) == s[KeyName(Key(i, r))])
      && (forall r :: Carries(l, r) && Rank(k.role) <= Rank(r) ==> Field(LoadLayer(i, l, s).0, r) == Field(l, r))
  {
    LoadFieldsContents(i, l, Roles(l), s);
  }

  lemma {:induction false} LoadFromKeepsPrefix(ls: seq<Layer>, i: nat, s: State)
    requires i <= |ls|
    ensures forall j :: 0 <= j < i ==> LoadFrom(ls, i, s).0[j] == ls[j]
    decreases |ls| - i
  {
    if i < |ls| {
      var (l, missing) := LoadLayer(i, ls[i], s);
      if missing.None? {
        LoadFromKeepsPrefix(ls[i := l], i + 1, s);
      }
    }
  }

  lemma {:induction false} LoadFromLoaded(ls: seq<Layer>, i: nat, s: State)
    requires i <= |ls|
    ensures LoadFrom(ls, i, s).1.Loaded? ==> forall k: Key :: Required(ls, k) && i <= k.index ==>
      KeyName(k) in s && Field(LoadFrom(ls, i, s).0[k.index], k.role) == s[KeyName(k)]
    decreases |ls| - i
  {
    KeyNamesDistinct();
    if i < |ls| {
      var (l, missing) := LoadLayer(i, ls[i], s);
      if missing.None? {
        var ls1 := ls[i := l];
        var res := LoadFrom(ls1, i + 1, s);
        assert LoadFrom(ls, i, s) == res;
        LoadFromLoaded(ls1, i + 1, s);
        LoadFromKeepsPrefix(ls1, i + 1, s);
        LoadLayerContents(i, ls[i], s);
        if res.1.Loaded? {
          forall k: Key | Required(ls, k) && i <= k.index
            ensures KeyName(k) in s && Field(res.0[k.index], k.role) == s[KeyName(k)]
          {
            if k.index > i {
              assert Required(ls1, k);
            }
          }
        }
      }
    }
  }

  lemma {:induction false} LoadFromMissing(ls: seq<Layer>, i: nat, s: State)
    requires i <= |ls|
    ensures LoadFrom(ls, i, s).1.MissingKey? ==>
      var k0 := LoadFrom(ls, i, s).1.key;
      && Required(ls, k0) && i <= k0.index && KeyName(k0) !in s
      && (forall k: Key :: Required(ls, k) && i <= k.index && Before(k, k0) ==>
            KeyName(k) in s && Field(LoadFrom(ls, i, s).0[k.index], k.role) == s[KeyName(k)])
    decreases |ls| - i, 1
  {
    if i < |ls| {
      var (l, missing) := LoadLayer(i, ls[i], s);
      var ls1 := ls[i := l];
      LoadLayerContents(i, ls[i], s);
      if missing.None? {
        LoadMissingLater(ls, i, s);
      } else {
        var k0 := missing.value;
        assert LoadFrom(ls, i, s) == (ls1, MissingKey(k0));
        forall k: Key | Required(ls, k) && i <= k.index && Before(k, k0)
          ensures KeyName(k) in s && Field(ls1[k.index], k.role) == s[KeyName(k)]
        {
          assert k == Key(i, k.role);
        }
      }
    }
  }

  /** The step of `LoadFromMissing` where layer `i` loads completely. */
  lemma {:induction false} LoadMissingLater(ls: seq<Layer>, i: nat, s: State)
    requires i < |ls| && LoadLayer(i, ls[i], s).1.None?
    ensures LoadFrom(ls, i, s).1.MissingKey? ==>
      var k0 := LoadFrom(ls, i, s).1.key;
      && Required(ls, k0) && i <= k0.index && KeyName(k0) !in s
      && (forall k: Key :: Required(ls, k) && i <= k.index && Before(k, k0) ==>
            KeyName(k) in s && Field(LoadFrom(ls, i, s).0[k.index], k.role) == s[KeyName(k)])
    decreases |ls| - i, 0
  {
    var l := LoadLayer(i, ls[i], s).0;
    var ls1 := ls[i := l];
    var res := LoadFrom(ls1, i + 1, s);
    assert LoadFrom(ls, i, s) == res;
    LoadFromMissing(ls1, i + 1, s);
    LoadFromKeepsPrefix(ls1, i + 1, s);
    LoadLayerContents(i, ls[i], s);
    if res.1.MissingKey? {
      var k0 := res.1.key;
      assert Required(ls1, k0);
      forall k: Key | Required(ls, k) && i <= k.index && Before(k, k0)
        ensures KeyName(k) in s && Field(res.0[k.index], k.role) == s[KeyName(k)]
      {
        if k.index > i {
          assert Required(ls1, k);
        } else {
          assert k == Key(i, k.role);
          assert res.0[i] == l;
        }
      }
    }
  }

  lemma {:induction false} LoadFromMissingUntouched(ls: seq<Layer>, i: nat, s: State)
    requires i <= |ls|
    ensures LoadFrom(ls, i, s).1.MissingKey? ==>
      var k0 := LoadFrom(ls, i, s).1.key;
      forall k: Key :: Required(ls, k) && !Before(k, k0) ==>
        Field(LoadFrom(ls, i, s).0[k.index], k.role) == Field(ls[k.index], k.role)
    decreases |ls| - i
  {
    if i < |ls| {
      var (l, missing) := LoadLayer(i, ls[i], s);
      var ls1 := ls[i := l];
      if missing.None? {
        var res := LoadFrom(ls1, i + 1, s);
        assert LoadFrom(ls, i, s) == res;
        LoadFromMissingUntouched(ls1, i + 1, s);
        LoadFromMissing(ls1, i + 1, s);
        if res.1.MissingKey? {
          var k0 := res.1.key;
          forall k: Key | Required(ls, k) && !Before(k, k0)
            ensures Field(res.0[k.index], k.role) == Field(ls[k.index], k.role)
          {
            assert Required(ls1, k);
          }
        }
      } else {
        LoadLayerContents(i, ls[i], s);
      }
    }
  }

  /** Import succeeds exactly when every tensor the stack owns has its entry. */
  lemma LoadSucceedsIff(ls: seq<Layer>, s: State)
    ensures LoadFrom(ls, 0, s).1.Loaded? <==> forall k: Key :: Required(ls, k) ==> KeyName(k) in s
  {
    LoadFromLoaded(ls, 0, s);
    LoadFromMissing(ls, 0, s);
  }

  /** A successful import leaves every owned tensor equal to its entry, and the structure as it was. */
  lemma LoadAssignsAll(ls: seq<Layer>, s: State)
    requires LoadFrom(ls, 0, s).1.Loaded?
    ensures forall k: Key :: Required(ls, k) ==>
      KeyName(k) in s && Field(LoadFrom(ls, 0, s).0[k.index], k.role) == s[KeyName(k)]
  {
    LoadFromLoaded(ls, 0, s);
  }

  /**
   * A failed import reports the first missing entry in reading order; every
   * tensor before it has already been assigned from the dictionary and every
   * tensor from it on is as it was.
   */
  lemma LoadStopsAtFirstMissing(ls: seq<Layer>, s: State)
    requires LoadFrom(ls, 0, s).1.MissingKey?
    ensures var k0 := LoadFrom(ls, 0, s).1.key;
      && Required(ls, k0) && KeyName(k0) !in s
      && (forall k: Key :: Required(ls, k) && Before(k, k0) ==>
            KeyName(k) in s && Field(LoadFrom(ls, 0, s).0[k.index], k.role) == s[KeyName(k)])
      && (forall k: Key :: Required(ls, k) && !Before(k, k0) ==>
            Field(LoadFrom(ls, 0, s).0[k.index], k.role) == Field(ls[k.index], k.role))
  {
    LoadFromMissing(ls, 0, s);
    LoadFromMissingUntouched(ls, 0, s);
  }

  /**
   * Importing what one stack exported into a stack of the same structure makes
   * the second stack equal to the first, whatever its tensors were.
   */
  lemma LoadExported(source: seq<Layer>, target: seq<Layer>)
    requires |target| == |source| && forall j :: 0 <= j < |source| ==> SameStructure(target[j], source[j])
    ensures LoadFrom(target, 0, Export(source)) == (source, Loaded)
  {
    var s := Export(source);
    ExportContents(source);
    LoadSucceedsIff(target, s);
    LoadAssignsAll(target, s);
    var r := LoadFrom(target, 0, s);
    assert forall k: Key :: Required(target, k) <==> Required(source, k);
    assert r.1.Loaded?;
    forall j | 0 <= j < |source| ensures r.0[j] == source[j] {
      forall role | Carries(r.0[j], role) ensures Field(r.0[j], role) == Field(source[j], role) {
        assert Required(target, Key(j, role));
      }
      DeterminedByFields(r.0[j], source[j]);
    }
    assert r.0 == source;
  }

  /** Round trip: importing a stack's own export changes nothing and succeeds. */
  lemma LoadOwnExport(ls: seq<Layer>)
    ensures LoadFrom(ls, 0, Export(ls)) == (ls, Loaded)
  {
    LoadExported(ls, ls);
  }

  /**
   * Import is not atomic: a dictionary holding layer 0's entries but not
   * layer 1's changes layer 0 and then fails.
   */
  lemma LoadIsNotAtomic()
    ensures var ls := [Param(Dense, [1.0], [1.0]), Param(Dense, [2.0], [2.0])];
      var s := map[KeyName(Key(0, Weight)) := [5.0], KeyName(Key(0, Bias)) := [5.0]];
      LoadFrom(ls, 0, s) == ([Param(Dense, [5.0], [5.0]), Param(Dense, [2.0], [2.0])], MissingKey(Key(1, Weight)))
  {
    var ls := [Param(Dense, [1.0], [1.0]), Param(Dense, [2.0], [2.0])];
    var s := map[KeyName(Key(0, Weight)) := [5.0], KeyName(Key(0, Bias)) := [5.0]];
    KeyNamesDistinct();
    assert KeyName(Key(1, Weight)) !in s;
    var l0 := Param(Dense, [5.0], [5.0]);
    assert LoadLayer(0, ls[0], s) == (l0, None);
    assert LoadLayer(1, ls[1], s) == (ls[1], Some(Key(1, Weight)));
    var ls1 := ls[0 := l0];
    assert LoadFrom(ls, 0, s) == LoadFrom(ls1, 1, s);
    assert LoadLayer(1, ls1[1], s) == (ls1[1], Some(Key(1, Weight)));
    assert LoadFrom(ls1, 1, s) == (ls1[1 := ls1[1]], MissingKey(Key(1, Weight)));
    assert ls1[1 := ls1[1]] == [Param(Dense, [5.0], [5.0]), Param(Dense, [2.0], [2.0])];
  }
}
