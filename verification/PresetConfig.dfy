/**
 * The fingerprint-only update of presets: application/controller/preset_config.go, and
 * EnsurePresetIDs of application/configuration/preset.go.
 */
module PresetConfig {
  import opened Bytes
  import opened Lookup
  import opened PresetText
  import opened PresetFile

  const FINGERPRINT := "Fingerprint"
  const MAX_FINGERPRINT_BYTES := 256
  const MAX_ID_LENGTH := 255

  function IDs(presets: seq<Preset>): seq<string> {
    seq(|presets|, i requires 0 <= i < |presets| => presets[i].id)
  }

  /** currentByID: of several presets with the same ID the last one counts. */
  function ByID(presets: seq<Preset>, id: string): Option<Preset> {
    Find(IDs(presets), presets, id)
  }

  function FingerprintOf(p: Preset): string {
    At(p.meta, FINGERPRINT)
  }

  /** The same preset but for its fingerprint; absent and empty fingerprints are both possible. */
  predicate SameButFingerprint(p: Preset, c: Preset) {
    p.id == c.id && p.title == c.title && p.kind == c.kind && p.host == c.host && p.tabColor == c.tabColor
    && p.meta - {FINGERPRINT} == c.meta - {FINGERPRINT}
  }

  /** A fingerprint that may be saved. */
  predicate GoodFingerprint(fingerprint: string) {
    var f := Trim(fingerprint);
    f != "" && ByteLength(f) <= MAX_FINGERPRINT_BYTES && ':' in f
    && forall i :: 0 <= i < |f| ==> f[i] >= '\U{21}' && f[i] != '\U{7F}'
  }

  // ---------- The loops of the source ----------

  /** Every key of `a` but the fingerprint is in `b` with the same value. */
  method Covers(a: map<string, string>, b: map<string, string>) returns (covered: bool)
    ensures covered <==> forall k <- a.Keys :: k != FINGERPRINT ==> k in b && b[k] == a[k]
  {
    var keys := a.Keys;
    while keys != {}
      invariant keys <= a.Keys
      invariant forall k <- a.Keys - keys :: k != FINGERPRINT ==> k in b && b[k] == a[k]
    {
      var key :| key in keys;
      keys := keys - {key};
      if key == FINGERPRINT {
        continue;
      }
      if key !in b || b[key] != a[key] {
        return false;
      }
    }
    covered := true;
  }

  lemma {:induction false} CoveringBothWays(a: map<string, string>, b: map<string, string>)
    ensures a - {FINGERPRINT} == b - {FINGERPRINT}
            <==> (forall k <- a.Keys :: k != FINGERPRINT ==> k in b && b[k] == a[k])
                 && (forall k <- b.Keys :: k != FINGERPRINT ==> k in a && a[k] == b[k])
  {
    var x, y := a - {FINGERPRINT}, b - {FINGERPRINT};
    if x == y {
      forall k <- a.Keys | k != FINGERPRINT ensures k in b && b[k] == a[k] {
        assert k in x && k in y;
      }
      forall k <- b.Keys | k != FINGERPRINT ensures k in a && a[k] == b[k] {
        assert k in y && k in x;
      }
    }
  }

  /** samePresetMetaExceptFingerprint; the two loops take the keys in any order. */
  method SameMeta(next: map<string, string>, current: map<string, string>) returns (same: bool)
    ensures same <==> next - {FINGERPRINT} == current - {FINGERPRINT}
  {
    CoveringBothWays(next, current);
    var forth := Covers(next, current);
    if !forth {
      return false;
    }
    same := Covers(current, next);
  }

  /** validatePresetFingerprint */
  method ValidateFingerprint(fingerprint: string) returns (ok: bool)
    ensures ok <==> GoodFingerprint(fingerprint)
    ensures ok <==> var f := Trim(fingerprint);
                    && 0 < ByteLength(f) <= 256 && ':' in f
                    && forall i :: 0 <= i < |f| ==> f[i] > ' ' && f[i] != '\U{7F}'
  {
    var f := Trim(fingerprint);
    if f == "" || ByteLength(f) > MAX_FINGERPRINT_BYTES || ':' !in f {
      return false;
    }
    for i := 0 to |f|
      invariant forall j :: 0 <= j < i ==> f[j] >= '\U{21}' && f[j] != '\U{7F}'
    {
      if f[i] < '\U{21}' || f[i] == '\U{7F}' {
        return false;
      }
    }
    ok := true;
  }

  /** The fingerprint of a preset differs from the one the running configuration has for it. */
  predicate Changes(p: Preset, current: seq<Preset>) {
    ByID(current, p.id).Some? && FingerprintOf(p) != FingerprintOf(ByID(current, p.id).value)
  }

  /** What is asked of each preset of a fingerprint-only update. */
  predicate Allowed(p: Preset, current: seq<Preset>, target: string) {
    ByID(current, p.id).Some? && SameButFingerprint(p, ByID(current, p.id).value.(id := p.id))
    && (Changes(p, current) ==> p.id == target && GoodFingerprint(FingerprintOf(p)))
  }

  /** What validateFingerprintOnlyPresetUpdate accepts. */
  predicate Valid(presets: seq<Preset>, current: seq<Preset>, target: string) {
    && target != "" && |presets| == |current|
    && (forall i :: 0 <= i < |presets| ==> Allowed(presets[i], current, target))
    && (exists i :: 0 <= i < |presets| && Changes(presets[i], current))
    && (forall i, j :: 0 <= i < j < |presets| ==> !(Changes(presets[i], current) && Changes(presets[j], current)))
  }

  /** One round of the loop: the preset may pass, and whether it changes its fingerprint. */
  method ValidateOne(p: Preset, ghost current: seq<Preset>, currentByID: map<string, Preset>, target: string)
    returns (ok: bool, changes: bool)
    requires Indexes(currentByID, IDs(current), current)
    ensures ok <==> Allowed(p, current, target)
    ensures ok ==> changes == Changes(p, current)
  {
    ok, changes := false, false;
    if p.id !in currentByID {
      return;
    }
    var c := currentByID[p.id];
    if p.title != c.title || p.kind != c.kind || p.host != c.host || p.tabColor != c.tabColor {
      return;
    }
    var same := SameMeta(p.meta, c.meta);
    if !same {
      return;
    }
    if FingerprintOf(p) == FingerprintOf(c) {
      return true, false;
    }
    if p.id != target {
      return;
    }
    ok := ValidateFingerprint(FingerprintOf(p));
    changes := true;
  }

  /** Of the first `i` presets all pass, and at most one, `changed` tells whether one, is changed. */
  predicate ValidSoFar(allowed: seq<bool>, changes: seq<bool>, i: nat, changed: bool)
    requires i <= |allowed| == |changes|
  {
    && (forall j :: 0 <= j < i ==> allowed[j])
    && (changed <==> exists j :: 0 <= j < i && changes[j])
    && (forall j, k :: 0 <= j < k < i ==> !(changes[j] && changes[k]))
  }

  function AllowedAll(presets: seq<Preset>, current: seq<Preset>, target: string): seq<bool> {
    seq(|presets|, i requires 0 <= i < |presets| => Allowed(presets[i], current, target))
  }

  function ChangesAll(presets: seq<Preset>, current: seq<Preset>): seq<bool> {
    seq(|presets|, i requires 0 <= i < |presets| => Changes(presets[i], current))
  }

  lemma {:induction false} ValidWhole(presets: seq<Preset>, current: seq<Preset>, target: string)
    requires target != "" && |presets| == |current|
    ensures Valid(presets, current, target)
            <==> ValidSoFar(AllowedAll(presets, current, target), ChangesAll(presets, current), |presets|, true)
  {
    var allowed, changes := AllowedAll(presets, current, target), ChangesAll(presets, current);
    assert forall i :: 0 <= i < |presets| ==> allowed[i] == Allowed(presets[i], current, target);
    assert forall i :: 0 <= i < |presets| ==> changes[i] == Changes(presets[i], current);
  }

  lemma {:induction false} OneMoreValid(allowed: seq<bool>, changes: seq<bool>, i: nat, changed: bool)
    requires i < |allowed| == |changes| && ValidSoFar(allowed, changes, i, changed)
    ensures if allowed[i] && !(changed && changes[i]) then ValidSoFar(allowed, changes, i + 1, changed || changes[i])
            else !ValidSoFar(allowed, changes, |allowed|, true)
  {
  }

  /** The loop of validateFingerprintOnlyPresetUpdate */
  method ValidateAll(presets: seq<Preset>, ghost current: seq<Preset>, currentByID: map<string, Preset>, target: string)
    returns (ok: bool)
    requires Indexes(currentByID, IDs(current), current)
    ensures ok <==> ValidSoFar(AllowedAll(presets, current, target), ChangesAll(presets, current), |presets|, true)
  {
    ghost var allowed, changes := AllowedAll(presets, current, target), ChangesAll(presets, current);
    var changedFingerprint := false;
    for i := 0 to |presets|
      invariant ValidSoFar(allowed, changes, i, changedFingerprint)
    {
      OneMoreValid(allowed, changes, i, changedFingerprint);
      var passes, differs := ValidateOne(presets[i], current, currentByID, target);
      if !passes {
        return false;
      }
      if !differs {
        continue;
      }
      if changedFingerprint {
        return false;
      }
      changedFingerprint := true;
    }
    ok := changedFingerprint;
  }

  /** validateFingerprintOnlyPresetUpdate */
  method ValidateFingerprintOnlyUpdate(presets: seq<Preset>, current: seq<Preset>, target: string)
    returns (ok: bool)
    ensures ok <==> Valid(presets, current, target)
  {
    if target == "" || |presets| != |current| {
      return false;
    }
    ValidWhole(presets, current, target);
    var currentByID := IndexBy(IDs(current), current);
    ok := ValidateAll(presets, current, currentByID, target);
  }

  /** A preset of the compact update: the target gets the fingerprint, all others are copied. */
  function Fingerprinted(p: Preset, target: string, fingerprint: string): Preset {
    if p.id == target then p.(meta := p.meta[FINGERPRINT := fingerprint]) else p
  }

  function FingerprintedAll(current: seq<Preset>, target: string, fingerprint: string): seq<Preset> {
    seq(|current|, i requires 0 <= i < |current| => Fingerprinted(current[i], target, fingerprint))
  }

  /** applyCompactFingerprintUpdate */
  method ApplyCompactUpdate(current: seq<Preset>, target: string, fingerprint: string)
    returns (found: bool, presets: seq<Preset>)
    ensures found <==> exists i :: 0 <= i < |current| && current[i].id == target
    ensures presets == FingerprintedAll(current, target, fingerprint)
  {
    presets, found := [], false;
    for i := 0 to |current|
      invariant found <==> exists j :: 0 <= j < i && current[j].id == target
      invariant presets == FingerprintedAll(current, target, fingerprint)[..i]
    {
      var copied := current[i];
      if copied.id != target {
        presets := presets + [copied];
        continue;
      }
      copied := copied.(meta := copied.meta[FINGERPRINT := fingerprint]);
      presets := presets + [copied];
      found := true;
    }
  }

  datatype Ensured = Ensured(presets: seq<Preset>, changed: bool) | Refused

  /** The ID the i-th preset ends up with; `newID(i)` is the one drawn for it, unless drawing fails. */
  function IDFor(presets: seq<Preset>, newID: nat -> Option<string>, i: nat): string
    requires i < |presets|
  {
    if presets[i].id != "" then presets[i].id else if newID(i).Some? then newID(i).value else ""
  }

  predicate UsableID(presets: seq<Preset>, newID: nat -> Option<string>, i: nat)
    requires i < |presets|
  {
    (presets[i].id == "" ==> newID(i).Some?) && ByteLength(IDFor(presets, newID, i)) <= MAX_ID_LENGTH
  }

  /** The first `n` presets have their IDs, and the others are as they were. */
  predicate NamedUpTo(presets: seq<Preset>, normalized: seq<Preset>, ids: seq<string>, n: nat)
    requires |ids| == |presets|
  {
    |normalized| == |presets|
    && forall j :: 0 <= j < |presets| ==> normalized[j] == if j < n then presets[j].(id := ids[j]) else presets[j]
  }

  predicate UsableUpTo(presets: seq<Preset>, newID: nat -> Option<string>, n: nat)
    requires n <= |presets|
  {
    forall j :: 0 <= j < n ==> UsableID(presets, newID, j)
  }

  predicate UnnamedBefore(presets: seq<Preset>, n: nat)
    requires n <= |presets|
  {
    exists j :: 0 <= j < n && presets[j].id == ""
  }

  lemma {:induction false} NotDistinct(ids: seq<string>, i: nat)
    requires i < |ids| && !Distinct(ids[..i + 1])
    ensures exists j, k :: 0 <= j < k < |ids| && ids[j] == ids[k]
  {
    var j, k :| 0 <= j < k < i + 1 && ids[..i + 1][j] == ids[..i + 1][k];
    assert ids[j] == ids[k];
  }

  /** The body of EnsurePresetIDs, up to the test for IDs seen before. */
  method NormalizeID(presets: seq<Preset>, newID: nat -> Option<string>, i: nat, ghost id: string)
    returns (r: Option<Preset>)
    requires i < |presets| && id == IDFor(presets, newID, i)
    ensures r.Some? <==> UsableID(presets, newID, i)
    ensures r.Some? ==> r.value == presets[i].(id := id)
  {
    var preset := presets[i];
    if preset.id == "" {
      var drawn := newID(i);
      if drawn.None? {
        return None;
      }
      preset := preset.(id := drawn.value);
    }
    r := if ByteLength(preset.id) > MAX_ID_LENGTH then None else Some(preset);
  }

  /** EnsurePresetIDs */
  method EnsurePresetIDs(presets: seq<Preset>, newID: nat -> Option<string>) returns (r: Ensured)
    ensures r.Ensured?
            <==> (forall i :: 0 <= i < |presets| ==> UsableID(presets, newID, i))
                 && forall i, j :: 0 <= i < j < |presets| ==> IDFor(presets, newID, i) != IDFor(presets, newID, j)
    ensures r.Ensured? ==>
              && |r.presets| == |presets| && Distinct(IDs(r.presets))
              && (forall i :: 0 <= i < |presets| ==> r.presets[i] == presets[i].(id := IDFor(presets, newID, i)))
              && (r.changed <==> exists i :: 0 <= i < |presets| && presets[i].id == "")
  {
    var normalized, changed := presets, false;
    var seen: set<string> := {};
    ghost var ids := seq(|presets|, i requires 0 <= i < |presets| => IDFor(presets, newID, i));
    for i := 0 to |presets|
      invariant NamedUpTo(presets, normalized, ids, i) && UsableUpTo(presets, newID, i)
      invariant forall id :: id in seen <==> id in ids[..i]
      invariant Distinct(ids[..i])
      invariant changed <==> UnnamedBefore(presets, i)
    {
      var named := NormalizeID(presets, newID, i, ids[i]);
      if named.None? {
        return Refused;
      }
      changed := changed || normalized[i].id == "";
      normalized := normalized[i := named.value];
      assert ids[..i + 1] == ids[..i] + [ids[i]];
      DistinctSnoc(ids[..i], ids[i]);
      if normalized[i].id in seen {
        NotDistinct(ids, i);
        return Refused;
      }
      seen := seen + {normalized[i].id};
    }
    assert ids[..|presets|] == ids && IDs(normalized) == ids;
    r := Ensured(normalized, changed);
  }
}
