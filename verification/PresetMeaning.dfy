/** What the merge of PresetFile promises: the file says what was saved, and saving again changes nothing. */
module PresetMeaning {
  import opened Bytes
  import opened Lookup
  import opened PresetText
  import opened PresetFile

  // ---------- Which entries the file holds ----------

  lemma {:induction false} UntouchedAppend(a: seq<Input>, b: seq<Input>, presets: seq<Preset>, runtime: seq<Preset>)
    ensures Untouched(a + b, presets, runtime) == Untouched(a, presets, runtime) + Untouched(b, presets, runtime)
  {
    if b == [] {
      assert a + b == a;
    } else {
      var n := |b| - 1;
      assert (a + b)[..|a + b| - 1] == a + b[..n];
      UntouchedAppend(a, b[..n], presets, runtime);
    }
  }

  lemma {:induction false} UntouchedCounts(raw: seq<Input>, presets: seq<Preset>, runtime: seq<Preset>, x: Input)
    ensures multiset(Untouched(raw, presets, runtime))[x]
            == if LeftAlone(presets, runtime, x) then multiset(raw)[x] else 0
  {
    if raw == [] {
    } else {
      var n := |raw| - 1;
      assert raw == raw[..n] + [raw[n]];
      UntouchedCounts(raw[..n], presets, runtime, x);
    }
  }

  /**
   * The saved presets come first, each once and in order; then exactly the raw entries whose ID
   * belongs neither to a saved preset nor to one of the running configuration.
   */
  lemma {:induction false} EntriesOfTheFile(raw: seq<Input>, concrete: seq<Preset>, presets: seq<Preset>,
                                            runtime: seq<Preset>, x: Input)
    ensures var file := Merged(raw, concrete, presets, runtime);
            |presets| <= |file|
            && (forall i :: 0 <= i < |presets| ==> file[i].id == presets[i].id)
            && multiset(file[|presets|..])[x]
               == if Trim(x.id) in PresetKeys(presets) || Trim(x.id) in PresetKeys(runtime) then 0 else multiset(raw)[x]
  {
    UntouchedCounts(raw, presets, runtime, x);
    assert Merged(raw, concrete, presets, runtime)[|presets|..] == Untouched(raw, presets, runtime);
  }

  // ---------- What the entries say when the file is read again ----------

  /** `c` is what the running configuration made of the raw entry `r`. */
  predicate CameFrom(w: World, c: Preset, r: Input) {
    && c.title == r.title && c.host == r.host && c.kind == Trim(r.kind) && c.tabColor == Trim(r.tabColor)
    && forall k <- r.meta.Keys * c.meta.Keys :: Resolve(w, r.meta[k]) == Some(c.meta[k])
  }

  ghost predicate AllCameFrom(w: World, concrete: seq<Preset>, raw: seq<Input>) {
    forall id, c, r :: FindPreset(concrete, id) == Some(c) && FindInput(raw, id) == Some(r) ==> CameFrom(w, c, r)
  }

  /** The file knows the preset, and so does the running configuration. */
  predicate Known(raw: seq<Input>, concrete: seq<Preset>, p: Preset) {
    FindInput(raw, Trim(p.id)).Some? && FindPreset(concrete, Trim(p.id)).Some?
  }

  /** The raw value is kept for this key: it is there, and the saved value is the current one. */
  predicate KeepsRaw(raw: seq<Input>, concrete: seq<Preset>, p: Preset, k: string)
    requires k in p.meta
  {
    Known(raw, concrete, p)
    && k in FindInput(raw, Trim(p.id)).value.meta
    && k in FindPreset(concrete, Trim(p.id)).value.meta
    && FindPreset(concrete, Trim(p.id)).value.meta[k] == p.meta[k]
  }

  /** Read back, the entry has the fields that were saved, as far as reading trims them alike. */
  lemma {:induction false} FieldsReadBack(w: World, raw: seq<Input>, concrete: seq<Preset>, p: Preset)
    requires AllCameFrom(w, concrete, raw)
    ensures var e := SavedInput(raw, concrete, p);
            e.id == p.id && e.title == p.title && e.host == p.host
            && Trim(e.kind) == Trim(p.kind) && Trim(e.tabColor) == Trim(p.tabColor)
  {
    if Known(raw, concrete, p) {
      var r, c := FindInput(raw, Trim(p.id)).value, FindPreset(concrete, Trim(p.id)).value;
      assert CameFrom(w, c, r);
      TrimTrim(r.kind);
      TrimTrim(r.tabColor);
    }
  }

  /**
   * Read back, a saved metadata key has the value that was saved: always where the raw value was
   * kept, and otherwise exactly when the value has no "://" in it (a value that names a file or an
   * environment variable reads as whatever those hold).
   */
  lemma {:induction false} KeyReadsBack(w: World, raw: seq<Input>, concrete: seq<Preset>, p: Preset, k: string)
    requires AllCameFrom(w, concrete, raw) && k in p.meta
    requires !(k == PASSWORD && ENCRYPTED_PASSWORD in p.meta)
    ensures k in SavedInput(raw, concrete, p).meta
    ensures var read := Resolve(w, SavedInput(raw, concrete, p).meta[k]);
            if KeepsRaw(raw, concrete, p, k) then read == Some(p.meta[k])
            else !NamesSource(p.meta[k]) ==> (read == Some(p.meta[k]) <==> SchemeEnd(p.meta[k]).None?)
  {
    if !NamesSource(p.meta[k]) { ReadBackAsItself(w, p.meta[k]); }
    if Known(raw, concrete, p) {
      var r, c := FindInput(raw, Trim(p.id)).value, FindPreset(concrete, Trim(p.id)).value;
      assert CameFrom(w, c, r);
    }
  }

  /** The password keys of an entry follow the saved preset alone; other raw keys stay. */
  lemma {:induction false} KeysNobodySaved(raw: seq<Input>, concrete: seq<Preset>, p: Preset, k: string)
    requires k !in p.meta
    ensures var e := SavedInput(raw, concrete, p);
            if !Known(raw, concrete, p) then k !in e.meta
            else var r := FindInput(raw, Trim(p.id)).value;
                 (k in e.meta <==> k in r.meta
                                   && (IsPasswordKey(k) ==> At(p.meta, "Authentication") == "Password"
                                                            && !(k == PASSWORD && ENCRYPTED_PASSWORD in p.meta)))
                 && (k in e.meta ==> e.meta[k] == r.meta[k])
  {
  }

  // ---------- Saving twice ----------

  predicate HasBothPasswords(p: Preset) {
    PASSWORD in p.meta && ENCRYPTED_PASSWORD in p.meta
  }

  /** Untouched entries are the ones left alone. */
  lemma {:induction false} UntouchedAlone(raw: seq<Input>, presets: seq<Preset>, runtime: seq<Preset>)
    ensures forall j :: 0 <= j < |Untouched(raw, presets, runtime)| ==>
              LeftAlone(presets, runtime, Untouched(raw, presets, runtime)[j])
  {
    if raw == [] {
    } else {
      UntouchedAlone(raw[..|raw| - 1], presets, runtime);
    }
  }

  lemma {:induction false} AllUntouched(raw: seq<Input>, presets: seq<Preset>)
    requires forall j :: 0 <= j < |raw| ==> Trim(raw[j].id) !in PresetKeys(presets)
    ensures Untouched(raw, presets, presets) == raw
  {
    if raw == [] {
    } else {
      AllUntouched(raw[..|raw| - 1], presets);
      assert raw == raw[..|raw| - 1] + [raw[|raw| - 1]];
    }
  }

  lemma {:induction false} NoneUntouched(raw: seq<Input>, presets: seq<Preset>)
    requires forall j :: 0 <= j < |raw| ==> Trim(raw[j].id) in PresetKeys(presets)
    ensures Untouched(raw, presets, presets) == []
  {
    if raw == [] {
    } else {
      NoneUntouched(raw[..|raw| - 1], presets);
    }
  }

  /** Merging a preset again into its own merged metadata changes nothing. */
  lemma {:induction false} MetaSettled(raw: map<string, string>, current: map<string, string>,
                                       next: map<string, string>)
    ensures var once := MergedMeta(raw, current, next); MergedMeta(once, next, next) == once
  {
  }

  /** Metadata written as it is stays so, unless it has both passwords. */
  lemma {:induction false} MetaUnmerged(next: map<string, string>)
    ensures MergedMeta(next, next, next) == next <==> !(PASSWORD in next && ENCRYPTED_PASSWORD in next)
  {
    if PASSWORD in next && ENCRYPTED_PASSWORD in next {
      assert PASSWORD !in MergedMeta(next, next, next);
    }
  }

  lemma {:induction false} EntrySettled(raw: seq<Input>, concrete: seq<Preset>, p: Preset)
    ensures MergedInput(SavedInput(raw, concrete, p), p, p) == SavedInput(raw, concrete, p)
            <==> (HasBothPasswords(p) ==> Known(raw, concrete, p))
  {
    if Known(raw, concrete, p) {
      MetaSettled(FindInput(raw, Trim(p.id)).value.meta, FindPreset(concrete, Trim(p.id)).value.meta, p.meta);
    } else {
      MetaUnmerged(p.meta);
    }
  }

  /** Behind distinct keys, other keys do not matter. */
  lemma {:induction false} FindsBefore<V>(keys: seq<string>, saved: seq<V>, others: seq<string>, tail: seq<V>, i: nat)
    requires i < |keys| == |saved| && |others| == |tail| && Distinct(keys)
    requires forall j :: 0 <= j < |others| ==> others[j] !in keys
    ensures Find(keys + others, saved + tail, keys[i]) == Some(saved[i])
  {
    var all := keys + others;
    assert forall j :: 0 <= j < |keys| ==> all[j] == keys[j];
    assert forall j :: |keys| <= j < |all| ==> all[j] == others[j - |keys|];
    assert all[i] == keys[i];
    assert (saved + tail)[i] == saved[i];
  }

  /** In the merged file each saved preset finds its own entry. */
  lemma {:induction false} OwnPreset(presets: seq<Preset>, i: nat)
    requires Distinct(PresetKeys(presets)) && i < |presets|
    ensures FindPreset(presets, Trim(presets[i].id)) == Some(presets[i])
  {
    FindsOwn(PresetKeys(presets), presets, i);
    assert PresetKeys(presets)[i] == Trim(presets[i].id);
  }

  lemma {:induction false} KeysAppend(a: seq<Input>, b: seq<Input>)
    ensures InputKeys(a + b) == InputKeys(a) + InputKeys(b)
  {
  }

  lemma {:induction false} OwnInput(saved: seq<Input>, tail: seq<Input>, presets: seq<Preset>, i: nat)
    requires Distinct(PresetKeys(presets)) && i < |presets| == |saved| && InputKeys(saved) == PresetKeys(presets)
    requires forall j :: 0 <= j < |tail| ==> InputKeys(tail)[j] !in PresetKeys(presets)
    ensures FindInput(saved + tail, Trim(presets[i].id)) == Some(saved[i])
  {
    var keys, others := InputKeys(saved), InputKeys(tail);
    assert keys[i] == Trim(presets[i].id);
    KeysAppend(saved, tail);
    FindsBefore(keys, saved, others, tail, i);
  }

  lemma {:induction false} FindsOwnEntry(saved: seq<Input>, tail: seq<Input>, presets: seq<Preset>, i: nat)
    requires Distinct(PresetKeys(presets)) && i < |presets| == |saved| && InputKeys(saved) == PresetKeys(presets)
    requires forall j :: 0 <= j < |tail| ==> InputKeys(tail)[j] !in PresetKeys(presets)
    ensures SavedInput(saved + tail, presets, presets[i]) == MergedInput(saved[i], presets[i], presets[i])
  {
    OwnPreset(presets, i);
    OwnInput(saved, tail, presets, i);
  }

  /** The rest of the merged file is left alone again. */
  lemma {:induction false} RestLeftAlone(saved: seq<Input>, tail: seq<Input>, presets: seq<Preset>)
    requires |presets| == |saved| && InputKeys(saved) == PresetKeys(presets)
    requires forall j :: 0 <= j < |tail| ==> InputKeys(tail)[j] !in PresetKeys(presets)
    ensures Untouched(saved + tail, presets, presets) == tail
  {
    forall j | 0 <= j < |saved| ensures Trim(saved[j].id) in PresetKeys(presets) {
      assert InputKeys(saved)[j] == Trim(saved[j].id);
    }
    forall j | 0 <= j < |tail| ensures Trim(tail[j].id) !in PresetKeys(presets) {
      assert InputKeys(tail)[j] == Trim(tail[j].id);
    }
    UntouchedAppend(saved, tail, presets, presets);
    NoneUntouched(saved, presets);
    AllUntouched(tail, presets);
    assert [] + tail == tail;
  }

  lemma {:induction false} KeysOfSaved(raw: seq<Input>, concrete: seq<Preset>, presets: seq<Preset>)
    ensures InputKeys(SavedInputs(raw, concrete, presets)) == PresetKeys(presets)
  {
  }

  lemma {:induction false} SecondMerge(raw: seq<Input>, concrete: seq<Preset>, presets: seq<Preset>,
                                       runtime: seq<Preset>)
    requires Distinct(PresetKeys(presets))
    ensures var file := Merged(raw, concrete, presets, runtime);
            var again := Merged(file, presets, presets, presets);
            |again| == |file| && again[|presets|..] == file[|presets|..]
            && forall i :: 0 <= i < |presets| ==>
                 again[i] == MergedInput(SavedInput(raw, concrete, presets[i]), presets[i], presets[i])
  {
    var saved, tail := SavedInputs(raw, concrete, presets), Untouched(raw, presets, runtime);
    UntouchedAlone(raw, presets, runtime);
    KeysOfSaved(raw, concrete, presets);
    RestLeftAlone(saved, tail, presets);
    forall i | 0 <= i < |presets|
      ensures SavedInput(saved + tail, presets, presets[i]) == MergedInput(saved[i], presets[i], presets[i])
    {
      FindsOwnEntry(saved, tail, presets, i);
    }
  }

  /**
   * Saving the same presets again leaves the file as it is, exactly when no preset that is new to
   * the file was given both a plain and an encrypted password.
   */
  lemma {:induction false} SavingAgainChangesNothing(raw: seq<Input>, concrete: seq<Preset>, presets: seq<Preset>,
                                                     runtime: seq<Preset>)
    requires Distinct(PresetKeys(presets))
    ensures var file := Merged(raw, concrete, presets, runtime);
            Merged(file, presets, presets, presets) == file
            <==> forall i :: 0 <= i < |presets| && HasBothPasswords(presets[i]) ==> Known(raw, concrete, presets[i])
  {
    var file := Merged(raw, concrete, presets, runtime);
    var again := Merged(file, presets, presets, presets);
    SecondMerge(raw, concrete, presets, runtime);
    forall i | 0 <= i < |presets|
      ensures again[i] == file[i] <==> (HasBothPasswords(presets[i]) ==> Known(raw, concrete, presets[i]))
    {
      EntrySettled(raw, concrete, presets[i]);
    }
    assert again == again[..|presets|] + again[|presets|..] && file == file[..|presets|] + file[|presets|..];
  }
}
