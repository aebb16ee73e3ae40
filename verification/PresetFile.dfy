/** Saving presets into the configuration file: application/configuration/preset_file.go. */
module PresetFile {
  import opened Bytes
  import opened Lookup
  import opened PresetText

  const PASSWORD := "Password"
  const ENCRYPTED_PASSWORD := "Encrypted Password"

  /** presetInput, as it stands in the file; metadata values are not resolved yet. */
  datatype Input = Input(id: string, title: string, kind: string, host: string, tabColor: string,
                         meta: map<string, string>)

  /** Preset. A nil map and an empty one are not told apart. */
  datatype Preset = Preset(id: string, title: string, kind: string, host: string, tabColor: string,
                           meta: map<string, string>, secretMeta: map<string, string>)

  /** An absent key reads as the empty string. */
  function At(meta: map<string, string>, key: string): string {
    if key in meta then meta[key] else ""
  }

  predicate IsPasswordKey(key: string) {
    key == PASSWORD || key == ENCRYPTED_PASSWORD
  }

  /** preserveRawString */
  function Preserved(raw: string, current: string, next: string): string {
    if next == current then raw else next
  }

  /** The raw value stands when the saved value is the current one. */
  function SavedValue(raw: map<string, string>, current: map<string, string>, key: string, value: string): string {
    if key in current && value == current[key] && key in raw then raw[key] else value
  }

  /** A raw key nobody saved stays, but for a password that is no longer used. */
  predicate Survives(next: map<string, string>, key: string) {
    key !in next && !(IsPasswordKey(key) && At(next, "Authentication") != "Password")
  }

  /** Saved keys and surviving raw keys. */
  function KeptMeta(raw: map<string, string>, current: map<string, string>, next: map<string, string>)
    : map<string, string>
  {
    map k | k in next.Keys + raw.Keys && (k in next || Survives(next, k)) ::
      if k in next then SavedValue(raw, current, k, next[k]) else raw[k]
  }

  function MergedMeta(raw: map<string, string>, current: map<string, string>, next: map<string, string>)
    : map<string, string>
  {
    var kept := KeptMeta(raw, current, next);
    if ENCRYPTED_PASSWORD in next then kept - {PASSWORD} else kept
  }

  function FromPreset(p: Preset): Input {
    Input(p.id, p.title, p.kind, p.host, p.tabColor, p.meta)
  }

  function MergedInput(raw: Input, current: Preset, p: Preset): Input {
    Input(p.id,
          Preserved(raw.title, current.title, p.title),
          Preserved(raw.kind, current.kind, p.kind),
          Preserved(raw.host, current.host, p.host),
          Preserved(raw.tabColor, current.tabColor, p.tabColor),
          MergedMeta(raw.meta, current.meta, p.meta))
  }

  function InputKeys(inputs: seq<Input>): seq<string> {
    seq(|inputs|, i requires 0 <= i < |inputs| => Trim(inputs[i].id))
  }

  function PresetKeys(presets: seq<Preset>): seq<string> {
    seq(|presets|, i requires 0 <= i < |presets| => Trim(presets[i].id))
  }

  /** The last of several entries with the same trimmed ID counts. */
  function FindInput(inputs: seq<Input>, id: string): Option<Input> {
    Find(InputKeys(inputs), inputs, id)
  }

  function FindPreset(presets: seq<Preset>, id: string): Option<Preset> {
    Find(PresetKeys(presets), presets, id)
  }

  function SavedInput(raw: seq<Input>, concrete: seq<Preset>, p: Preset): Input {
    var id := Trim(p.id);
    var r, c := FindInput(raw, id), FindPreset(concrete, id);
    if r.Some? && c.Some? then MergedInput(r.value, c.value, p) else FromPreset(p)
  }

  function SavedInputs(raw: seq<Input>, concrete: seq<Preset>, presets: seq<Preset>): seq<Input> {
    seq(|presets|, i requires 0 <= i < |presets| => SavedInput(raw, concrete, presets[i]))
  }

  /** Neither saved now nor known to the running configuration. */
  predicate LeftAlone(presets: seq<Preset>, runtime: seq<Preset>, input: Input) {
    Trim(input.id) !in PresetKeys(presets) && Trim(input.id) !in PresetKeys(runtime)
  }

  function Untouched(raw: seq<Input>, presets: seq<Preset>, runtime: seq<Preset>): seq<Input> {
    if raw == [] then []
    else Untouched(raw[..|raw| - 1], presets, runtime)
         + if LeftAlone(presets, runtime, raw[|raw| - 1]) then [raw[|raw| - 1]] else []
  }

  /** mergePresetInputs, said without maps and their order. */
  function Merged(raw: seq<Input>, concrete: seq<Preset>, presets: seq<Preset>, runtime: seq<Preset>): seq<Input> {
    SavedInputs(raw, concrete, presets) + Untouched(raw, presets, runtime)
  }

  // ---------- The loops of the source ----------

  /** The first loop of mergePresetMeta, with the keys in any order. */
  method SaveKeys(raw: map<string, string>, current: map<string, string>, next: map<string, string>)
    returns (merged: map<string, string>)
    ensures merged.Keys == next.Keys
    ensures forall k <- next.Keys :: merged[k] == SavedValue(raw, current, k, next[k])
  {
    merged := map[];
    var keys := next.Keys;
    while keys != {}
      invariant keys <= next.Keys && merged.Keys == next.Keys - keys
      invariant forall k <- merged.Keys :: merged[k] == SavedValue(raw, current, k, next[k])
    {
      var key :| key in keys;
      keys := keys - {key};
      var value := next[key];
      if key in current && value == current[key] {
        if key in raw {
          merged := merged[key := raw[key]];
          continue;
        }
        merged := merged[key := value];
        continue;
      }
      merged := merged[key := value];
    }
  }

  /** The second loop of mergePresetMeta, with the keys in any order. */
  method KeepRawKeys(raw: map<string, string>, next: map<string, string>, saved: map<string, string>)
    returns (merged: map<string, string>)
    requires saved.Keys == next.Keys
    ensures forall k :: k in merged <==> k in next || (k in raw && Survives(next, k))
    ensures forall k <- merged.Keys :: merged[k] == if k in saved then saved[k] else raw[k]
  {
    merged := saved;
    var keys := raw.Keys;
    while keys != {}
      invariant keys <= raw.Keys
      invariant forall k :: k in merged <==> k in next || (k in raw.Keys - keys && Survives(next, k))
      invariant forall k <- merged.Keys :: merged[k] == if k in saved then saved[k] else raw[k]
    {
      var key :| key in keys;
      keys := keys - {key};
      if key !in merged {
        if IsPasswordKey(key) && At(next, "Authentication") != "Password" {
          continue;
        }
        merged := merged[key := raw[key]];
      }
    }
  }

  /** mergePresetMeta */
  method MergePresetMeta(raw: map<string, string>, current: map<string, string>, next: map<string, string>)
    returns (merged: map<string, string>)
    ensures merged == MergedMeta(raw, current, next)
  {
    var saved := SaveKeys(raw, current, next);
    merged := KeepRawKeys(raw, next, saved);
    assert merged.Keys == KeptMeta(raw, current, next).Keys;
    assert merged == KeptMeta(raw, current, next);
    if ENCRYPTED_PASSWORD in next {
      merged := merged - {PASSWORD};
    }
  }

  method MergePresetInput(raw: Input, current: Preset, p: Preset) returns (merged: Input)
    ensures merged == MergedInput(raw, current, p)
  {
    var meta := MergePresetMeta(raw.meta, current.meta, p.meta);
    merged := raw.(id := p.id,
                   title := Preserved(raw.title, current.title, p.title),
                   kind := Preserved(raw.kind, current.kind, p.kind),
                   host := Preserved(raw.host, current.host, p.host),
                   tabColor := Preserved(raw.tabColor, current.tabColor, p.tabColor),
                   meta := meta);
  }

  lemma {:induction false} OneMoreSaved(raw: seq<Input>, concrete: seq<Preset>, presets: seq<Preset>, i: nat)
    requires i < |presets|
    ensures var keys, saved := PresetKeys(presets), SavedInputs(raw, concrete, presets);
            && keys[..i + 1] == keys[..i] + [Trim(presets[i].id)]
            && saved[..i + 1] == saved[..i] + [SavedInput(raw, concrete, presets[i])]
  {
    TakeNext(PresetKeys(presets), i);
    TakeNext(SavedInputs(raw, concrete, presets), i);
  }

  /** One round of the first loop of mergePresetInputs. */
  method SaveOne(raw: seq<Input>, rawByID: map<string, Input>, concrete: seq<Preset>,
                 concreteByID: map<string, Preset>, p: Preset)
    returns (input: Input)
    requires Indexes(rawByID, InputKeys(raw), raw) && Indexes(concreteByID, PresetKeys(concrete), concrete)
    ensures input == SavedInput(raw, concrete, p)
  {
    var id := Trim(p.id);
    if id in rawByID && id in concreteByID {
      input := MergePresetInput(rawByID[id], concreteByID[id], p);
      return;
    }
    input := FromPreset(p);
  }

  /** The first loop of mergePresetInputs. */
  method SaveInputs(raw: seq<Input>, concrete: seq<Preset>, presets: seq<Preset>)
    returns (merged: seq<Input>, touched: set<string>)
    ensures forall id :: id in touched <==> id in PresetKeys(presets)
    ensures merged == SavedInputs(raw, concrete, presets)
  {
    var rawByID := IndexBy(InputKeys(raw), raw);
    var concreteByID := IndexBy(PresetKeys(concrete), concrete);
    ghost var keys, saved := PresetKeys(presets), SavedInputs(raw, concrete, presets);
    merged, touched := [], {};
    for i := 0 to |presets|
      invariant forall id :: id in touched <==> id in keys[..i]
      invariant merged == saved[..i]
    {
      OneMoreSaved(raw, concrete, presets, i);
      touched := touched + {Trim(presets[i].id)};
      var input := SaveOne(raw, rawByID, concrete, concreteByID, presets[i]);
      merged := merged + [input];
    }
    assert keys[..|presets|] == keys && saved[..|presets|] == saved;
  }

  /** mergePresetInputs */
  method MergePresetInputs(raw: seq<Input>, concrete: seq<Preset>, presets: seq<Preset>, runtime: seq<Preset>)
    returns (merged: seq<Input>)
    ensures merged == Merged(raw, concrete, presets, runtime)
  {
    var runtimeByID := IndexBy(PresetKeys(runtime), runtime);
    var touched;
    merged, touched := SaveInputs(raw, concrete, presets);
    ghost var saved := merged;
    for i := 0 to |raw|
      invariant merged == saved + Untouched(raw[..i], presets, runtime)
    {
      assert raw[..i + 1][..i] == raw[..i];
      var stays := LeaveAlone(raw[i], presets, touched, runtime, runtimeByID);
      if stays {
        merged := merged + [raw[i]];
      }
    }
    assert raw[..|raw|] == raw;
  }

  /** The tests of the second loop of mergePresetInputs. */
  method LeaveAlone(input: Input, ghost presets: seq<Preset>, touched: set<string>, ghost runtime: seq<Preset>,
                    runtimeByID: map<string, Preset>) returns (stays: bool)
    requires forall id :: id in touched <==> id in PresetKeys(presets)
    requires Indexes(runtimeByID, PresetKeys(runtime), runtime)
    ensures stays <==> LeftAlone(presets, runtime, input)
  {
    var id := Trim(input.id);
    if id in touched {
      return false;
    }
    if |runtimeByID| > 0 {
      if id in runtimeByID {
        return false;
      }
    }
    assert |runtimeByID| == 0 ==> id !in runtimeByID;
    stays := true;
  }
}
