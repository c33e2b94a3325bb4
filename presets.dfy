/** Named bundles of registration parameters (ardent/presets/registration_parameters.py):
    the module-level table and the case- and whitespace-insensitive lookup. */
module Presets {
  import opened Outcomes

  /** A Python value as far as the modelled code cares: None, a number, a
      string, or any other object (an array, a solver state) by identity. */
  datatype Value = NoneValue | Number(x: real) | Text(s: string) | Object(id: nat)

  /** A keyword-argument dictionary. */
  type Params = map<string, Value>

  /** The characters Python's str.strip() removes (those for which str.isspace() holds). */
  predicate IsWhitespace(c: char)
  {
    ('\t' <= c <= '\r') || ('\U{1c}' <= c <= ' ') || c == '\U{85}' || c == '\U{a0}'
    || c == '\U{1680}' || ('\U{2000}' <= c <= '\U{200a}') || c == '\U{2028}' || c == '\U{2029}'
    || c == '\U{202f}' || c == '\U{205f}' || c == '\U{3000}'
  }

  predicate AllWhitespace(s: string)
  {
    forall i :: 0 <= i < |s| ==> IsWhitespace(s[i])
  }

  /** No whitespace at either end. */
  predicate Trimmed(t: string)
  {
    t == [] || (!IsWhitespace(t[0]) && !IsWhitespace(t[|t| - 1]))
  }

  /** str.lstrip(): drops the leading whitespace. */
  function StripLeading(s: string): string
  {
    if s != [] && IsWhitespace(s[0]) then StripLeading(s[1..]) else s
  }

  /** str.rstrip(): drops the trailing whitespace. */
  function StripTrailing(s: string): string
  {
    if s != [] && IsWhitespace(s[|s| - 1]) then StripTrailing(s[..|s| - 1]) else s
  }

  /** str.strip(): no whitespace is left at either end. */
  function Strip(s: string): (r: string)
    ensures |r| <= |s| && Trimmed(r)
  {
    StripLeadingSuffix(s);
    StripTrailingPrefix(StripLeading(s));
    StripTrailing(StripLeading(s))
  }

  predicate IsUpper(c: char)
  {
    'A' <= c <= 'Z'
  }

  function LowerChar(c: char): char
  {
    if IsUpper(c) then (c as int + 32) as char else c
  }

  /** str.lower() on ASCII letters. */
  function Lower(s: string): (r: string)
    ensures |r| == |s|
  {
    seq(|s|, i requires 0 <= i < |s| => LowerChar(s[i]))
  }

  /** The key a preset name is looked up under: `preset.strip().lower()`.
      It has no whitespace at either end and no upper-case letter. */
  function Normalize(name: string): (key: string)
    ensures |key| <= |name| && Trimmed(key)
    ensures forall i :: 0 <= i < |key| ==> !IsUpper(key[i])
  {
    LowerChars(Strip(name));
    Lower(Strip(name))
  }

  /** get_registration_presets: the stored entry for the normalised name, or
      NotImplementedError naming it and the recognised presets. */
  function GetRegistrationPresets(table: map<string, Params>, preset: string): (r: Result<Params>)
    ensures r.Ok? <==> Normalize(preset) in table
    ensures r.Ok? ==> r.value == table[Normalize(preset)]
    ensures r.Err? ==> r.error == UnknownPreset(Normalize(preset), table.Keys) && r.error.Class() == NotImplementedError
  {
    var key := Normalize(preset);
    if key in table then Ok(table[key]) else Err(UnknownPreset(key, table.Keys))
  }

  // Properties of the normalisation

  /** lstrip leaves the suffix that starts after the leading whitespace. */
  lemma {:induction false} StripLeadingSuffix(s: string)
    ensures var r := StripLeading(s);
            |r| <= |s| && r == s[|s| - |r|..] && (r == [] || !IsWhitespace(r[0]))
    ensures forall i :: 0 <= i < |s| - |StripLeading(s)| ==> IsWhitespace(s[i])
    decreases |s|
  {
    if s != [] && IsWhitespace(s[0]) {
      var t := s[1..];
      StripLeadingSuffix(t);
      var r := StripLeading(t);
      assert t[|t| - |r|..] == s[|s| - |r|..];
      forall i | 1 <= i < |s| - |r|
        ensures IsWhitespace(s[i])
      {
        assert s[i] == t[i - 1];
      }
    }
  }

  /** rstrip leaves the prefix that ends before the trailing whitespace. */
  lemma {:induction false} StripTrailingPrefix(s: string)
    ensures var r := StripTrailing(s);
            |r| <= |s| && r == s[..|r|] && (r == [] || !IsWhitespace(r[|r| - 1]))
    ensures forall i :: |StripTrailing(s)| <= i < |s| ==> IsWhitespace(s[i])
    decreases |s|
  {
    if s != [] && IsWhitespace(s[|s| - 1]) {
      var t := s[..|s| - 1];
      StripTrailingPrefix(t);
      var r := StripTrailing(t);
      assert t[..|r|] == s[..|r|];
      forall i | |r| <= i < |s| - 1
        ensures IsWhitespace(s[i])
      {
        assert s[i] == t[i];
      }
    }
  }

  /** lower() changes only upper-case letters, leaves none, and never changes
      whether a character is whitespace. */
  lemma LowerChars(s: string)
    ensures forall i :: 0 <= i < |s| ==> !IsUpper(Lower(s)[i])
    ensures forall i :: 0 <= i < |s| ==> (Lower(s)[i] == s[i] || IsUpper(s[i]))
    ensures forall i :: 0 <= i < |s| ==> (IsWhitespace(Lower(s)[i]) <==> IsWhitespace(s[i]))
  {
  }

  lemma {:induction false} StripLeadingPadded(w: string, s: string)
    requires AllWhitespace(w)
    ensures StripLeading(w + s) == StripLeading(s)
    decreases |w|
  {
    if w != [] {
      assert (w + s)[1..] == w[1..] + s;
      StripLeadingPadded(w[1..], s);
    } else {
      assert w + s == s;
    }
  }

  lemma {:induction false} StripTrailingPadded(s: string, w: string)
    requires AllWhitespace(w)
    ensures StripTrailing(s + w) == StripTrailing(s)
    decreases |w|
  {
    if w != [] {
      assert (s + w)[..|s + w| - 1] == s + w[..|w| - 1];
      StripTrailingPadded(s, w[..|w| - 1]);
    } else {
      assert s + w == s;
    }
  }


  /** A trimmed string is left as it is by str.strip(). */
  lemma StripOfTrimmed(t: string)
    requires Trimmed(t)
    ensures Strip(t) == t
  {
  }

  /** lstrip of a string with text appended: the stripping stops inside the
      original string unless that string is all whitespace. */
  lemma {:induction false} StripLeadingAppend(s: string, w: string)
    ensures StripLeading(s) != [] ==> StripLeading(s + w) == StripLeading(s) + w
    ensures StripLeading(s) == [] ==> StripLeading(s + w) == StripLeading(w)
    decreases |s|
  {
    if s == [] {
      assert s + w == w;
    } else if IsWhitespace(s[0]) {
      assert (s + w)[1..] == s[1..] + w;
      StripLeadingAppend(s[1..], w);
    }
  }

  /** Surrounding whitespace makes no difference to str.strip(). */
  lemma StripPadded(w1: string, s: string, w2: string)
    requires AllWhitespace(w1) && AllWhitespace(w2)
    ensures Strip(w1 + s + w2) == Strip(s)
  {
    assert w1 + s + w2 == w1 + (s + w2);
    StripLeadingPadded(w1, s + w2);
    StripLeadingAppend(s, w2);
    if StripLeading(s) != [] {
      StripTrailingPadded(StripLeading(s), w2);
    } else {
      assert w2 == w2 + [];
      StripLeadingPadded(w2, []);
    }
  }

  /** str.strip() is idempotent. */
  lemma StripIdempotent(s: string)
    ensures Strip(Strip(s)) == Strip(s)
  {
    StripOfTrimmed(Strip(s));
  }

  lemma {:induction false} StripLeadingLower(s: string)
    ensures StripLeading(Lower(s)) == Lower(StripLeading(s))
    decreases |s|
  {
    LowerChars(s);
    if s != [] {
      assert Lower(s)[1..] == Lower(s[1..]);
      StripLeadingLower(s[1..]);
    }
  }

  lemma {:induction false} StripTrailingLower(s: string)
    ensures StripTrailing(Lower(s)) == Lower(StripTrailing(s))
    decreases |s|
  {
    LowerChars(s);
    if s != [] {
      assert Lower(s)[..|s| - 1] == Lower(s[..|s| - 1]);
      StripTrailingLower(s[..|s| - 1]);
    }
  }

  /** Lower-casing and stripping commute: case never changes what is whitespace. */
  lemma StripLower(s: string)
    ensures Strip(Lower(s)) == Lower(Strip(s))
  {
    StripLeadingLower(s);
    StripTrailingLower(StripLeading(s));
  }

  /** Names that differ only in the case of their letters name the same preset. */
  lemma NormalizeIgnoresCase(a: string, b: string)
    requires Lower(a) == Lower(b)
    ensures Normalize(a) == Normalize(b)
  {
    StripLower(a);
    StripLower(b);
  }

  /** Names that differ only in surrounding whitespace name the same preset. */
  lemma NormalizeIgnoresPadding(w1: string, s: string, w2: string)
    requires AllWhitespace(w1) && AllWhitespace(w2)
    ensures Normalize(w1 + s + w2) == Normalize(s)
  {
    StripPadded(w1, s, w2);
  }

  /** A lower-case name without surrounding whitespace is its own key; inner
      spaces are kept. */
  lemma NormalizeKeepsTrimmedLowerCase(s: string)
    requires Trimmed(s)
    requires forall i :: 0 <= i < |s| ==> !IsUpper(s[i])
    ensures Normalize(s) == s
  {
    StripOfTrimmed(s);
    LowerChars(s);
    assert Lower(s) == s;
  }

  /** Normalising twice is normalising once. */
  lemma NormalizeIdempotent(s: string)
    ensures Normalize(Normalize(s)) == Normalize(s)
  {
    StripLower(Strip(s));
    StripIdempotent(s);
  }

  /** Looking up an already normalised name gives the same outcome as the raw name. */
  lemma LookupNormalized(table: map<string, Params>, preset: string)
    ensures GetRegistrationPresets(table, Normalize(preset)) == GetRegistrationPresets(table, preset)
  {
    NormalizeIdempotent(preset);
  }

  /** The module-level `preset_parameters` dictionary, filled in place. */
  class PresetRegistry {
    var table: map<string, Params>

    /** `preset_parameters = {}`. */
    constructor()
      ensures table == map[]
    {
      table := map[];
    }

    /** `preset_parameters.update(entries)`: new names added, existing names replaced. */
    method Update(entries: map<string, Params>)
      modifies this
      ensures table == old(table) + entries
    {
      table := table + entries;
    }
  }
}
