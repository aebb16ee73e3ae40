/** Strings of the preset configuration: trimming, lengths in bytes, and resolved values. */
module PresetText {
  import opened Bytes

  /** unicode.IsSpace */
  predicate IsSpace(c: char) {
    c in "\t\n\r \U{0B}\U{0C}\U{85}\U{A0}\U{1680}\U{2028}\U{2029}\U{202F}\U{205F}\U{3000}"
    || '\U{2000}' <= c <= '\U{200A}'
  }

  function TrimLeft(s: string): string {
    if s != [] && IsSpace(s[0]) then TrimLeft(s[1..]) else s
  }

  function TrimRight(s: string): string {
    if s != [] && IsSpace(s[|s| - 1]) then TrimRight(s[..|s| - 1]) else s
  }

  /** strings.TrimSpace */
  function Trim(s: string): string {
    TrimRight(TrimLeft(s))
  }

  lemma {:induction false} TrimLeftEnds(s: string)
    ensures TrimLeft(s) == [] || !IsSpace(TrimLeft(s)[0])
  {
    if s == [] || !IsSpace(s[0]) {
    } else {
      TrimLeftEnds(s[1..]);
    }
  }

  lemma {:induction false} TrimRightEnds(s: string)
    ensures TrimRight(s) <= s
    ensures TrimRight(s) == [] || !IsSpace(TrimRight(s)[|TrimRight(s)| - 1])
  {
    if s == [] || !IsSpace(s[|s| - 1]) {
    } else {
      TrimRightEnds(s[..|s| - 1]);
    }
  }

  lemma {:induction false} TrimStays(s: string)
    requires s == [] || (!IsSpace(s[0]) && !IsSpace(s[|s| - 1]))
    ensures Trim(s) == s
  {
    assert TrimLeft(s) == s && TrimRight(s) == s;
  }

  lemma {:induction false} TrimTrim(s: string)
    ensures Trim(Trim(s)) == Trim(s)
  {
    TrimmedEnds(s);
    TrimStays(Trim(s));
  }

  predicate AllSpace(s: string) {
    forall k :: 0 <= k < |s| ==> IsSpace(s[k])
  }

  lemma {:induction false} TrimLeftCuts(s: string) returns (a: string)
    ensures s == a + TrimLeft(s) && AllSpace(a)
  {
    if s == [] || !IsSpace(s[0]) {
      a := [];
    } else {
      var rest := TrimLeftCuts(s[1..]);
      Assoc([s[0]], rest, TrimLeft(s[1..]));
      assert s == [s[0]] + s[1..];
      a := [s[0]] + rest;
    }
  }

  lemma {:induction false} TrimRightCuts(s: string)
    ensures |TrimRight(s)| <= |s| && forall k :: |TrimRight(s)| <= k < |s| ==> IsSpace(s[k])
  {
    if s == [] || !IsSpace(s[|s| - 1]) {
    } else {
      TrimRightCuts(s[..|s| - 1]);
    }
  }

  lemma {:induction false} TrimRightLeaves(s: string) returns (b: string)
    ensures s == TrimRight(s) + b && AllSpace(b)
  {
    TrimRightEnds(s);
    TrimRightCuts(s);
    b := s[|TrimRight(s)|..];
  }

  /** Only space is cut off, on both sides, and all of it. */
  lemma {:induction false} TrimCutsSpace(s: string) returns (a: string, b: string)
    ensures s == a + Trim(s) + b && AllSpace(a) && AllSpace(b)
    ensures Trim(s) == [] || (!IsSpace(Trim(s)[0]) && !IsSpace(Trim(s)[|Trim(s)| - 1]))
  {
    a := TrimLeftCuts(s);
    b := TrimRightLeaves(TrimLeft(s));
    Assoc(a, Trim(s), b);
    TrimmedEnds(s);
  }

  lemma {:induction false} TrimmedEnds(s: string)
    ensures Trim(s) == [] || (!IsSpace(Trim(s)[0]) && !IsSpace(Trim(s)[|Trim(s)| - 1]))
  {
    TrimLeftEnds(s);
    TrimRightEnds(TrimLeft(s));
    assert Trim(s) != [] ==> Trim(s)[0] == TrimLeft(s)[0];
  }

  /** Length in the UTF-8 encoding, which is what len gives. */
  function ByteLength(s: string): nat {
    if s == [] then 0 else
    (if s[0] < '\U{80}' then 1 else if s[0] < '\U{800}' then 2 else if s[0] < '\U{10000}' then 3 else 4)
    + ByteLength(s[1..])
  }

  /** Where the first "://" stands. */
  function SchemeEnd(s: string): (r: Option<nat>)
    ensures r.Some? ==> r.value + 3 <= |s|
  {
    if |s| < 3 then None
    else if s[..3] == "://" then Some(0)
    else match SchemeEnd(s[1..])
         case Some(i) => Some(i + 1)
         case None => None
  }

  /**
   * strings.ToLower on the characters that become ASCII letters: besides A to Z these are the
   * dotted capital I and the Kelvin sign. Every other character stays outside ASCII, so that it
   * occurs in no scheme name.
   */
  function LowerChar(c: char): char {
    if 'A' <= c <= 'Z' then c - 'A' + 'a' else if c == '\U{130}' then 'i' else if c == '\U{212A}' then 'k' else c
  }

  function Lower(s: string): string {
    seq(|s|, i requires 0 <= i < |s| => LowerChar(s[i]))
  }

  /** Files and environment variables as they are when a value is resolved. */
  datatype World = World(file: string -> Option<string>, environment: string -> string)

  /** String.Parse */
  function Resolve(w: World, s: string): Option<string> {
    match SchemeEnd(s)
    case None => Some(s)
    case Some(i) =>
      var scheme, rest := Lower(s[..i]), s[i + 3..];
      if scheme == "file" then w.file(rest)
      else if scheme == "environment" then Some(w.environment(rest))
      else if scheme == "literal" then Some(rest)
      else None
  }

  predicate SeparatorAt(s: string, i: nat) {
    i + 3 <= |s| && s[i] == ':' && s[i + 1] == '/' && s[i + 2] == '/'
  }

  /** At `i` stands the first "://". */
  predicate FirstSeparator(s: string, i: nat) {
    SeparatorAt(s, i) && forall j: nat :: j < i ==> !SeparatorAt(s, j)
  }

  lemma {:induction false} SchemeEndStep(s: string)
    ensures SchemeEnd(s) == if SeparatorAt(s, 0) then Some(0)
                            else if s == [] then None
                            else match SchemeEnd(s[1..]) case Some(i) => Some(i + 1) case None => None
  {
    if |s| >= 3 {
      assert s[..3] == "://" <==> SeparatorAt(s, 0) by {
        assert s[..3] == [s[0], s[1], s[2]];
      }
    }
  }

  /** The scheme ends where "://" stands first, if it does anywhere. */
  lemma {:induction false} SchemeEndIsFirst(s: string)
    ensures match SchemeEnd(s)
            case Some(i) => FirstSeparator(s, i)
            case None => forall j: nat :: !SeparatorAt(s, j)
  {
    SchemeEndStep(s);
    if s == [] || SeparatorAt(s, 0) {
    } else {
      SchemeEndIsFirst(s[1..]);
      forall j: nat | j > 0 ensures SeparatorAt(s, j) <==> SeparatorAt(s[1..], j - 1) {
      }
    }
  }

  /**
   * What stands before the first "://", in any letter case, says where a value comes from: "file" from
   * that file, "environment" from that variable, "literal" from the value itself; anything else is
   * refused.
   */
  lemma {:induction false} SchemesResolve(w: World, s: string, i: nat)
    requires FirstSeparator(s, i)
    ensures Lower(s[..i]) == "file" ==> Resolve(w, s) == w.file(s[i + 3..])
    ensures Lower(s[..i]) == "environment" ==> Resolve(w, s) == Some(w.environment(s[i + 3..]))
    ensures Lower(s[..i]) == "literal" ==> Resolve(w, s) == Some(s[i + 3..])
    ensures Lower(s[..i]) !in {"file", "environment", "literal"} ==> Resolve(w, s) == None
  {
    SchemeEndIsFirst(s);
  }

  /** For instance, as they are usually written. */
  lemma {:induction false} UsualSchemes(w: World, rest: string)
    ensures Resolve(w, "file://" + rest) == w.file(rest)
    ensures Resolve(w, "environment://" + rest) == Some(w.environment(rest))
    ensures Resolve(w, "literal://" + rest) == Some(rest)
  {
    InSmallLetters(w, "file", rest);
    InSmallLetters(w, "environment", rest);
    InSmallLetters(w, "literal", rest);
    assert "file" + "://" == "file://" && "literal" + "://" == "literal://";
    assert "environment" + "://" == "environment://";
  }

  lemma {:induction false} InSmallLetters(w: World, scheme: string, rest: string)
    requires forall k :: 0 <= k < |scheme| ==> 'a' <= scheme[k] <= 'z'
    ensures Resolve(w, scheme + "://" + rest)
            == if scheme == "file" then w.file(rest)
               else if scheme == "environment" then Some(w.environment(rest))
               else if scheme == "literal" then Some(rest) else None
  {
    var s := scheme + "://" + rest;
    assert s[..|scheme|] == scheme && s[|scheme| + 3..] == rest && Lower(scheme) == scheme;
    assert forall j: nat :: j < |scheme| ==> s[j] == scheme[j];
    SchemesResolve(w, s, |scheme|);
  }

  /** Written to the file as it is, such a value is read back as something from outside. */
  predicate NamesSource(s: string) {
    SchemeEnd(s).Some? && Lower(s[..SchemeEnd(s).value]) in {"file", "environment"}
  }

  /** Unless it names a source outside, a value is read back as itself exactly when it has no "://". */
  lemma {:induction false} ReadBackAsItself(w: World, s: string)
    requires !NamesSource(s)
    ensures Resolve(w, s) == Some(s) <==> SchemeEnd(s).None?
  {
    if SchemeEnd(s).Some? {
      assert |s[SchemeEnd(s).value + 3..]| < |s|;
    }
  }
}
