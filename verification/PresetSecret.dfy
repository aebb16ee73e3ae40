/** Password metadata when presets are taken in: application/configuration/preset_secret.go. */
module PresetSecret {
  import opened Bytes
  import opened Lookup
  import opened PresetFile
  import opened PresetMeaning

  /**
   * The preset encryption. `seal` takes the number of the preset as well, since every encryption
   * draws a new nonce; both calls may fail.
   */
  datatype Vault = Vault(hasKey: bool, seal: (nat, string) -> Option<string>, open: string -> Option<string>)
  {
    /** All that is used of it: what was sealed opens again. */
    ghost predicate Lawful() {
      forall n, text :: seal(n, text).Some? ==> open(seal(n, text).value) == Some(text)
    }
  }

  datatype Applied = Applied(presets: seq<Preset>, changed: bool) | Refused

  /** The password a preset stands for, if it has one: the plain one, else what the sealed one opens to. */
  function PasswordOf(v: Vault, p: Preset): Option<string> {
    if PASSWORD in p.meta then Some(p.meta[PASSWORD])
    else if ENCRYPTED_PASSWORD in p.meta && v.hasKey then v.open(p.meta[ENCRYPTED_PASSWORD])
    else None
  }

  predicate HasPassword(p: Preset) {
    PASSWORD in p.meta || ENCRYPTED_PASSWORD in p.meta
  }

  /**
   * `q` is what `p` became: the same preset with the same password, sealed if there is a key, and
   * the plain password beside it in the secret metadata.
   */
  predicate Taken(v: Vault, p: Preset, q: Preset) {
    && q == p.(meta := q.meta, secretMeta := q.secretMeta)
    && (if PASSWORD !in p.meta then q.meta == p.meta
        else if !v.hasKey then q.meta == p.meta - {ENCRYPTED_PASSWORD}
        else ENCRYPTED_PASSWORD in q.meta && PASSWORD !in q.meta
             && q.meta - {ENCRYPTED_PASSWORD} == p.meta - {PASSWORD, ENCRYPTED_PASSWORD})
    && if HasPassword(p)
       then PasswordOf(v, p).Some? && PasswordOf(v, q) == PasswordOf(v, p)
            && q.secretMeta == p.secretMeta[PASSWORD := PasswordOf(v, p).value]
       else q.secretMeta == p.secretMeta
  }

  /** Why a preset cannot be taken in: sealing fails, or there is no opening what is sealed. */
  predicate Unusable(v: Vault, i: nat, p: Preset) {
    if PASSWORD in p.meta then v.hasKey && v.seal(i, p.meta[PASSWORD]).None?
    else ENCRYPTED_PASSWORD in p.meta && PasswordOf(v, p).None?
  }

  /** What `changed` reports: the presets now differ from what the file says. */
  predicate Migrated(v: Vault, p: Preset) {
    PASSWORD in p.meta && (v.hasKey || ENCRYPTED_PASSWORD in p.meta)
  }

  /** One round of the loop of ApplyPresetSecrets. */
  method TakeIn(v: Vault, i: nat, p: Preset) returns (ok: bool, q: Preset, changed: bool)
    requires v.Lawful()
    ensures ok <==> !Unusable(v, i, p)
    ensures ok ==> Taken(v, p, q) && changed == Migrated(v, p)
  {
    q, ok, changed := p, true, false;
    var hasPlaintext, hasEncrypted := PASSWORD in p.meta, ENCRYPTED_PASSWORD in p.meta;
    if !hasPlaintext && !hasEncrypted {
      return;
    }
    if hasPlaintext {
      var plaintext := p.meta[PASSWORD];
      q := q.(secretMeta := q.secretMeta[PASSWORD := plaintext]);
      if !v.hasKey {
        if hasEncrypted {
          q := q.(meta := q.meta - {ENCRYPTED_PASSWORD});
          changed := true;
        }
        return;
      }
      var encrypted := v.seal(i, plaintext);
      if encrypted.None? {
        return false, q, changed;
      }
      q := q.(meta := q.meta[ENCRYPTED_PASSWORD := encrypted.value] - {PASSWORD});
      return true, q, true;
    }
    if !v.hasKey {
      return false, q, changed;
    }
    var plaintext := v.open(p.meta[ENCRYPTED_PASSWORD]);
    if plaintext.None? {
      return false, q, changed;
    }
    q := q.(secretMeta := q.secretMeta[PASSWORD := plaintext.value]);
  }

  /** ApplyPresetSecrets */
  method ApplyPresetSecrets(v: Vault, presets: seq<Preset>) returns (r: Applied)
    requires v.Lawful()
    ensures r.Applied? <==> forall i :: 0 <= i < |presets| ==> !Unusable(v, i, presets[i])
    ensures r.Applied? ==> AllTaken(v, presets, r.presets)
    ensures r.Applied? ==> (r.changed <==> exists i :: 0 <= i < |presets| && Migrated(v, presets[i]))
  {
    var processed, changed := [], false;
    for i := 0 to |presets|
      invariant forall j :: 0 <= j < i ==> !Unusable(v, j, presets[j])
      invariant |processed| == i && forall j :: 0 <= j < i ==> Taken(v, presets[j], processed[j])
      invariant changed <==> exists j :: 0 <= j < i && Migrated(v, presets[j])
    {
      var ok, q, migrated := TakeIn(v, i, presets[i]);
      if !ok {
        return Refused;
      }
      processed, changed := processed + [q], changed || migrated;
    }
    r := Applied(processed, changed);
  }

  predicate AllTaken(v: Vault, presets: seq<Preset>, taken: seq<Preset>) {
    |presets| == |taken| && forall i :: 0 <= i < |presets| ==> Taken(v, presets[i], taken[i])
  }

  /** What is reported is whether the metadata that goes to the file moved. */
  lemma {:induction false} ReportsWhatMoved(v: Vault, p: Preset, q: Preset)
    requires Taken(v, p, q)
    ensures Migrated(v, p) <==> q.meta != p.meta
  {
    assert ENCRYPTED_PASSWORD !in p.meta ==> p.meta - {ENCRYPTED_PASSWORD} == p.meta;
  }

  /** Taken in once, a preset stays exactly as it is, and nothing is left to migrate. */
  lemma {:induction false} TakenInIsSettled(v: Vault, p: Preset, q: Preset, again: Preset)
    requires Taken(v, p, q) && Taken(v, q, again)
    ensures again == q && !Migrated(v, q)
  {
    assert HasPassword(p) ==> q.secretMeta[PASSWORD := q.secretMeta[PASSWORD]] == q.secretMeta;
    assert PASSWORD in q.meta ==> q.meta - {ENCRYPTED_PASSWORD} == q.meta;
  }

  /** Saving presets that were taken in, and saving them again, leaves the file as the first save did. */
  lemma {:induction false} SavingTakenPresetsSettles(v: Vault, asked: seq<Preset>, presets: seq<Preset>,
                                                     raw: seq<Input>, concrete: seq<Preset>, runtime: seq<Preset>)
    requires AllTaken(v, asked, presets) && Distinct(PresetKeys(presets))
    ensures var file := Merged(raw, concrete, presets, runtime);
            Merged(file, presets, presets, presets) == file
  {
    forall i | 0 <= i < |presets| ensures !HasBothPasswords(presets[i]) {
      assert Taken(v, asked[i], presets[i]);
    }
    SavingAgainChangesNothing(raw, concrete, presets, runtime);
  }
}
