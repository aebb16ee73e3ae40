/** A fingerprint-only update does exactly what its name says. */
module PresetFingerprint {
  import opened Bytes
  import opened Lookup
  import opened PresetFile
  import opened PresetConfig
  import opened PresetText

  function AsSet<K>(keys: seq<K>): set<K> {
    set k | k in keys
  }

  lemma {:induction false} DistinctCount<K>(keys: seq<K>)
    requires Distinct(keys)
    ensures |AsSet(keys)| == |keys|
  {
    if keys == [] {
    } else {
      var n := |keys| - 1;
      DistinctCount(keys[..n]);
      assert keys[n] !in keys[..n];
      assert AsSet(keys) == AsSet(keys[..n]) + {keys[n]};
    }
  }

  /** As many distinct keys as there are, none of them foreign: they are all there. */
  lemma {:induction false} Pigeonhole<K>(keys: seq<K>, all: seq<K>)
    requires Distinct(keys) && Distinct(all) && |keys| == |all| && forall k <- keys :: k in all
    ensures forall k <- all :: k in keys
  {
    DistinctCount(keys);
    DistinctCount(all);
    SameSize(AsSet(keys), AsSet(all));
    forall k <- all ensures k in keys {
      assert k in AsSet(all);
    }
  }

  /** A set within another of the same size is all of it. */
  lemma {:induction false} SameSize<T>(a: set<T>, b: set<T>)
    requires a <= b && |a| == |b|
    ensures a == b
  {
    if a != b {
      var x :| x in b && x !in a;
      SubsetSize(a, b - {x});
    }
  }

  lemma {:induction false} SubsetSize<T>(a: set<T>, b: set<T>)
    requires a <= b
    ensures |a| <= |b|
    decreases a
  {
    if x :| x in a { SubsetSize(a - {x}, b - {x}); }
  }

  /** Every preset of a valid update stands for one of the current ones, so none has to be named. */
  lemma {:induction false} ValidIDs(presets: seq<Preset>, current: seq<Preset>, target: string,
                                    newID: nat -> Option<string>)
    requires Valid(presets, current, target) && "" !in IDs(current)
    ensures forall i :: 0 <= i < |presets| ==>
              presets[i].id in IDs(current) && IDFor(presets, newID, i) == presets[i].id
  {
    forall i | 0 <= i < |presets|
      ensures presets[i].id in IDs(current) && IDFor(presets, newID, i) == presets[i].id
    {
      assert Allowed(presets[i], current, target);
    }
  }

  /** What became of the current preset with the same ID. */
  predicate OnlyFingerprintOf(target: string, p: Preset, c: Preset) {
    SameButFingerprint(p, c)
    && if c.id == target then FingerprintOf(p) != FingerprintOf(c) && GoodFingerprint(FingerprintOf(p))
       else FingerprintOf(p) == FingerprintOf(c)
  }

  lemma {:induction false} OwnByID(presets: seq<Preset>, i: nat)
    requires Distinct(IDs(presets)) && i < |presets|
    ensures ByID(presets, presets[i].id) == Some(presets[i])
  {
    FindsOwn(IDs(presets), presets, i);
    assert IDs(presets)[i] == presets[i].id;
  }

  lemma {:induction false} SomeChange(presets: seq<Preset>, current: seq<Preset>, target: string) returns (k: nat)
    requires Valid(presets, current, target)
    ensures k < |presets| && Changes(presets[k], current) && presets[k].id == target
  {
    k :| 0 <= k < |presets| && Changes(presets[k], current);
    assert Allowed(presets[k], current, target);
  }

  lemma {:induction false} TargetChanges(presets: seq<Preset>, current: seq<Preset>, target: string, i: nat)
    requires Valid(presets, current, target) && Distinct(IDs(presets)) && i < |presets| && presets[i].id == target
    ensures Changes(presets[i], current)
  {
    var k := SomeChange(presets, current, target);
    SameIndex(IDs(presets), k, i);
  }

  lemma {:induction false} PresetKept(presets: seq<Preset>, current: seq<Preset>, target: string, i: nat, j: nat)
    requires Valid(presets, current, target) && Distinct(IDs(current)) && Distinct(IDs(presets))
    requires i < |presets| && j < |current| && presets[i].id == current[j].id
    ensures OnlyFingerprintOf(target, presets[i], current[j])
  {
    OwnByID(current, j);
    assert Allowed(presets[i], current, target);
    assert current[j].(id := presets[i].id) == current[j];
    if current[j].id == target {
      TargetChanges(presets, current, target, i);
    }
  }

  /**
   * When the current IDs are unique and none is empty, an update that both the validator and
   * EnsurePresetIDs accept is a reordering of the current presets in which nothing differs but the
   * fingerprint of the target, and whatever the server keeps secret; and no preset gets a new ID.
   */
  lemma {:induction false} FingerprintOnlyIsExact(presets: seq<Preset>, current: seq<Preset>, target: string,
                                                  newID: nat -> Option<string>)
    requires Distinct(IDs(current)) && "" !in IDs(current)
    requires Valid(presets, current, target)
    requires forall i, j :: 0 <= i < j < |presets| ==> IDFor(presets, newID, i) != IDFor(presets, newID, j)
    ensures forall i :: 0 <= i < |presets| ==> IDFor(presets, newID, i) == presets[i].id
    ensures Distinct(IDs(presets)) && |presets| == |current|
    ensures forall id :: id in IDs(presets) <==> id in IDs(current)
    ensures target in IDs(current)
    ensures forall i, j :: 0 <= i < |presets| && 0 <= j < |current| && presets[i].id == current[j].id ==>
              OnlyFingerprintOf(target, presets[i], current[j])
  {
    ValidIDs(presets, current, target, newID);
    assert Distinct(IDs(presets)) by {
      forall i, j | 0 <= i < j < |presets| ensures IDs(presets)[i] != IDs(presets)[j] {
        assert IDFor(presets, newID, i) != IDFor(presets, newID, j);
      }
    }
    Pigeonhole(IDs(presets), IDs(current));
    forall i, j | 0 <= i < |presets| && 0 <= j < |current| && presets[i].id == current[j].id
      ensures OnlyFingerprintOf(target, presets[i], current[j])
    {
      PresetKept(presets, current, target, i, j);
    }
    var k :| 0 <= k < |presets| && Changes(presets[k], current);
    assert Allowed(presets[k], current, target) && presets[k].id in IDs(current);
  }

  /** The metadata that only the server sees is not looked at: it may change, or not, in any preset. */
  lemma {:induction false} SecretMetaIsNotCompared(presets: seq<Preset>, others: seq<Preset>, current: seq<Preset>,
                                                   target: string)
    requires |others| == |presets|
    requires forall i :: 0 <= i < |presets| ==> others[i] == presets[i].(secretMeta := others[i].secretMeta)
    ensures Valid(others, current, target) <==> Valid(presets, current, target)
  {
    forall i | 0 <= i < |presets|
      ensures Changes(others[i], current) <==> Changes(presets[i], current)
      ensures Allowed(others[i], current, target) <==> Allowed(presets[i], current, target)
    {
      assert others[i].id == presets[i].id && others[i].meta == presets[i].meta;
    }
  }

  lemma {:induction false} FingerprintedOne(current: seq<Preset>, target: string, fingerprint: string, i: nat)
    requires Distinct(IDs(current)) && i < |current|
    ensures var p := Fingerprinted(current[i], target, fingerprint);
            var changes := current[i].id == target && fingerprint != FingerprintOf(current[i]);
            (Changes(p, current) <==> changes)
            && (Allowed(p, current, target) <==> (changes ==> GoodFingerprint(fingerprint)))
  {
    FindsOwn(IDs(current), current, i);
    var p, c := Fingerprinted(current[i], target, fingerprint), current[i];
    assert p.id == c.id && p.meta - {FINGERPRINT} == c.meta - {FINGERPRINT};
  }

  /**
   * A compact update passes every structural check: it is accepted exactly when the fingerprint it
   * brings may be saved and differs from the present one.
   */
  lemma {:induction false} CompactUpdatePasses(current: seq<Preset>, target: string, fingerprint: string, t: nat)
    requires Distinct(IDs(current)) && target != "" && t < |current| && current[t].id == target
    ensures Valid(FingerprintedAll(current, target, fingerprint), current, target)
            <==> GoodFingerprint(fingerprint) && fingerprint != FingerprintOf(current[t])
  {
    var presets := FingerprintedAll(current, target, fingerprint);
    forall i | 0 <= i < |current|
      ensures Changes(presets[i], current) <==> i == t && fingerprint != FingerprintOf(current[t])
      ensures Allowed(presets[i], current, target)
              <==> (i == t && fingerprint != FingerprintOf(current[t]) ==> GoodFingerprint(fingerprint))
    {
      FingerprintedOne(current, target, fingerprint, i);
      assert IDs(current)[i] == IDs(current)[t] ==> i == t;
    }
    if GoodFingerprint(fingerprint) && fingerprint != FingerprintOf(current[t]) {
      assert Changes(presets[t], current);
    }
    if Valid(presets, current, target) {
      assert Allowed(presets[t], current, target);
    }
  }

  /**
   * Saving a fingerprint rewrites nothing else in the file: every other key keeps its raw value, be
   * it the name of a file or an environment variable, and so do the fields.
   */
  lemma {:induction false} FingerprintSaveKeepsRawValues(raw: seq<Input>, current: seq<Preset>, target: string,
                                                         fingerprint: string, i: nat, k: string)
    requires i < |current| && Distinct(PresetKeys(current))
    requires Trim(current[i].id) in InputKeys(raw)
    requires var r := FindInput(raw, Trim(current[i].id)).value;
             k in r.meta && k in current[i].meta && !(k == FINGERPRINT && current[i].id == target)
    requires !(k == PASSWORD && ENCRYPTED_PASSWORD in current[i].meta)
    ensures var r := FindInput(raw, Trim(current[i].id)).value;
            var e := Merged(raw, current, FingerprintedAll(current, target, fingerprint), current)[i];
            && e.title == r.title && e.kind == r.kind && e.host == r.host && e.tabColor == r.tabColor
            && k in e.meta && e.meta[k] == r.meta[k]
  {
    var p := Fingerprinted(current[i], target, fingerprint);
    FindsOwn(PresetKeys(current), current, i);
    assert Merged(raw, current, FingerprintedAll(current, target, fingerprint), current)[i]
           == SavedInput(raw, current, p);
  }
}
