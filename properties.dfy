/**
 * The config plugin's handling of `gradle.properties`: `parsePropertiesFile`,
 * a line parser for a simplified `.properties` format (split on the first
 * `=` only; no `:` or white-space separators, no escapes, no continuation
 * lines), and the merge that copies Unity's own properties into the host
 * project's property list.
 */
module GradleProperties {
  import opened Optional
  import opened Text

  /** An item of a host `gradle.properties` list, as the Expo config plugins
      represent it: a property, a comment or a blank line. */
  datatype PropertiesItem =
    | Property(key: string, value: string)
    | Comment(text: string)
    | Empty

  /** One line of the file; `ParseLineMeaning` states what it yields. */
  function ParseLine(line: string): Option<PropertiesItem>
  {
    var trimmed := Trim(line);
    if trimmed == [] || trimmed[0] == '#' || trimmed[0] == '!' then None
    else
      var eqIndex := IndexOf(trimmed, '=');
      if eqIndex == -1 then None
      else Some(Property(Trim(trimmed[..eqIndex]), Trim(trimmed[eqIndex + 1..])))
  }

  /** Blank lines, lines whose trimmed text starts with `#` or `!`, and
      lines without `=` give nothing; otherwise the line gives a property
      whose key is the trimmed text before the first `=` (so it holds no
      `=`) and whose value is the trimmed text after it (so a value may
      itself contain `=`). */
  lemma ParseLineMeaning(line: string)
    ensures ParseLine(line).Some? <==>
      var t := Trim(line);
      t != [] && t[0] != '#' && t[0] != '!' && '=' in t
    ensures ParseLine(line).Some? ==>
      ParseLine(line).value.Property? && '=' !in ParseLine(line).value.key
    ensures ParseLine(line).Some? ==> exists i :: SplitsAtFirstEquals(Trim(line), i, ParseLine(line).value)
  {
    var trimmed := Trim(line);
    if trimmed != [] && trimmed[0] != '#' && trimmed[0] != '!' && '=' in trimmed {
      var eqIndex := IndexOf(trimmed, '=');
      assert SplitsAtFirstEquals(trimmed, eqIndex, ParseLine(line).value);
      NoEqualsInSlice(trimmed[..eqIndex]);
    }
  }

  /** `item` is the property obtained by cutting the trimmed line `t` at
      position `i`, which holds its first `=`. */
  ghost predicate SplitsAtFirstEquals(t: string, i: int, item: PropertiesItem)
  {
    && 0 <= i < |t| && t[i] == '=' && '=' !in t[..i]
    && item == Property(Trim(t[..i]), Trim(t[i + 1..]))
  }

  /** Trimming cannot introduce a character the text did not have. */
  lemma NoEqualsInSlice(s: string)
    requires '=' !in s
    ensures '=' !in Trim(s)
  {
    TrimMeaning(s);
    var a :| Slice(s, Trim(s), a);
    assert Trim(s) == s[a..a + |Trim(s)|];
  }

  /** The entries one line yields: its own, or none. */
  function LineEntries(line: string): seq<PropertiesItem>
  {
    match ParseLine(line)
    case Some(item) => [item]
    case None => []
  }

  /** The entries a list of lines yields, in line order. */
  function ParsedEntries(lines: seq<string>): seq<PropertiesItem>
  {
    if lines == [] then []
    else ParsedEntries(lines[..|lines| - 1]) + LineEntries(lines[|lines| - 1])
  }

  /** Every entry is a property, and there are never more entries than lines. */
  lemma {:induction false} ParsedEntriesShape(lines: seq<string>)
    ensures |ParsedEntries(lines)| <= |lines|
    ensures forall e :: e in ParsedEntries(lines) ==> e.Property?
  {
    if lines != [] {
      ParsedEntriesShape(lines[..|lines| - 1]);
    }
  }

  /** Entries keep source-line order: the entries of two consecutive runs of
      lines are those of the first run followed by those of the second. */
  lemma {:induction false} ParsedEntriesAppend(a: seq<string>, b: seq<string>)
    ensures ParsedEntries(a + b) == ParsedEntries(a) + ParsedEntries(b)
    decreases |b|
  {
    if b == [] {
      assert a + b == a;
    } else {
      var b', last := b[..|b| - 1], b[|b| - 1];
      assert (a + b)[..|a + b| - 1] == a + b';
      assert (a + b)[|a + b| - 1] == last;
      ParsedEntriesAppend(a, b');
      calc {
        ParsedEntries(a + b);
        ParsedEntries(a + b') + LineEntries(last);
        ParsedEntries(a) + ParsedEntries(b') + LineEntries(last);
        ParsedEntries(a) + (ParsedEntries(b') + LineEntries(last));
      }
    }
  }

  /** A single line yields its own entry or nothing. */
  lemma SingleLineEntries(line: string)
    ensures ParsedEntries([line]) == if ParseLine(line).Some? then [ParseLine(line).value] else []
  {
  }

  /** The entries of a whole file; a missing file (None) has none. */
  function FileEntries(file: Option<string>): (entries: seq<PropertiesItem>)
    ensures forall e :: e in entries ==> e.Property?
  {
    match file
    case None => []
    case Some(text) =>
      ParsedEntriesShape(SplitLines(text));
      ParsedEntries(SplitLines(text))
  }

  /** `parsePropertiesFile`: a missing file (None) yields no entries;
      otherwise the file is split on line feeds and each line parsed. */
  method ParsePropertiesFile(file: Option<string>) returns (entries: seq<PropertiesItem>)
    ensures entries == FileEntries(file)
  {
    if file.None? {
      return [];
    }
    var lines := SplitLines(file.value);
    entries := [];
    var n := 0;
    while n < |lines|
      invariant n <= |lines|
      invariant entries == ParsedEntries(lines[..n])
    {
      assert lines[..n + 1][..n] == lines[..n];
      assert ParsedEntries(lines[..n + 1]) == entries + LineEntries(lines[n]);
      match ParseLine(lines[n]) {
        case Some(item) =>
          entries := entries + [item];
        case None =>
      }
      n := n + 1;
    }
    assert lines[..n] == lines;
  }

  /** The Unity properties the host project needs: `unity.*`,
      `unityStreamingAssets` and `unityTemplateVersion`. */
  predicate IsUnityKey(key: string)
  {
    "unity." <= key || key == "unityStreamingAssets" || key == "unityTemplateVersion"
  }

  /** The keys of the property items of a host list. */
  function PropertyKeys(items: seq<PropertiesItem>): set<string>
  {
    set p | p in items && p.Property? :: p.key
  }

  /** The Unity entries the merge appends, in order, given the host keys
      captured before the loop: qualifying keys that the host lacks. Keys
      are not added to `existing` as the loop runs, so a key repeated in
      the Unity file is appended every time. */
  function Appended(unityProps: seq<PropertiesItem>, existing: set<string>): seq<PropertiesItem>
    requires forall p :: p in unityProps ==> p.Property?
  {
    if unityProps == [] then []
    else
      var init := Appended(unityProps[..|unityProps| - 1], existing);
      var prop := unityProps[|unityProps| - 1];
      if IsUnityKey(prop.key) && prop.key !in existing then init + [prop] else init
  }

  /** What is appended is exactly the qualifying Unity entries whose keys the
      host lacked: nothing else, and none of them left out. */
  lemma {:induction false} AppendedMembers(unityProps: seq<PropertiesItem>, existing: set<string>)
    requires forall p :: p in unityProps ==> p.Property?
    ensures forall p :: p in Appended(unityProps, existing) <==>
      p in unityProps && IsUnityKey(p.key) && p.key !in existing
    ensures |Appended(unityProps, existing)| <= |unityProps|
  {
    if unityProps != [] {
      var init := unityProps[..|unityProps| - 1];
      AppendedMembers(init, existing);
      assert unityProps == init + [unityProps[|unityProps| - 1]];
    }
  }

  /** Nothing is appended when every qualifying key is already present. */
  lemma {:induction false} AppendedNone(unityProps: seq<PropertiesItem>, existing: set<string>)
    requires forall p :: p in unityProps ==> p.Property?
    requires forall p :: p in unityProps && IsUnityKey(p.key) ==> p.key in existing
    ensures Appended(unityProps, existing) == []
  {
    if unityProps != [] {
      AppendedNone(unityProps[..|unityProps| - 1], existing);
    }
  }

  /** The merge, applied to the host list `host`: `host` followed by the
      entries `Appended` selects. */
  function Merged(host: seq<PropertiesItem>, unityProps: seq<PropertiesItem>): seq<PropertiesItem>
    requires forall p :: p in unityProps ==> p.Property?
  {
    host + Appended(unityProps, PropertyKeys(host))
  }

  /** The keys of the Unity file that the merge looks for. */
  function UnityKeys(unityProps: seq<PropertiesItem>): set<string>
    requires forall p :: p in unityProps ==> p.Property?
  {
    set p | p in unityProps && IsUnityKey(p.key) :: p.key
  }

  /** After the merge the host has every qualifying Unity key, and no key
      besides those and its own. */
  lemma MergedKeys(host: seq<PropertiesItem>, unityProps: seq<PropertiesItem>)
    requires forall p :: p in unityProps ==> p.Property?
    ensures PropertyKeys(Merged(host, unityProps)) == PropertyKeys(host) + UnityKeys(unityProps)
  {
    var merged := Merged(host, unityProps);
    AppendedMembers(unityProps, PropertyKeys(host));
    forall k | k in PropertyKeys(merged)
      ensures k in PropertyKeys(host) + UnityKeys(unityProps)
    {
      var p :| p in merged && p.Property? && p.key == k;
      if p !in host {
        assert p in Appended(unityProps, PropertyKeys(host));
      }
    }
    forall k | k in UnityKeys(unityProps)
      ensures k in PropertyKeys(merged)
    {
      var p :| p in unityProps && IsUnityKey(p.key) && p.key == k;
      if k !in PropertyKeys(host) {
        assert p in merged;
      }
    }
  }

  /** A second merge of the same Unity file adds nothing. */
  lemma MergeIdempotent(host: seq<PropertiesItem>, unityProps: seq<PropertiesItem>)
    requires forall p :: p in unityProps ==> p.Property?
    ensures Merged(Merged(host, unityProps), unityProps) == Merged(host, unityProps)
  {
    var once := Merged(host, unityProps);
    MergedKeys(host, unityProps);
    forall p | p in unityProps && IsUnityKey(p.key)
      ensures p.key in PropertyKeys(once)
    {
      assert p.key in UnityKeys(unityProps);
    }
    AppendedNone(unityProps, PropertyKeys(once));
  }

  /** Duplicate qualifying keys in the Unity file are all appended in one
      pass, since the host keys are captured before the loop. */
  lemma DuplicatesAppendedTogether(host: seq<PropertiesItem>, key: string, v1: string, v2: string)
    requires IsUnityKey(key) && key !in PropertyKeys(host)
    ensures Merged(host, [Property(key, v1), Property(key, v2)]) ==
      host + [Property(key, v1), Property(key, v2)]
  {
    var u := [Property(key, v1), Property(key, v2)];
    var keys := PropertyKeys(host);
    assert u[..1] == [Property(key, v1)];
    assert u[..1][..0] == [];
    assert Appended(u[..1], keys) == [Property(key, v1)];
    assert Appended(u, keys) == Appended(u[..1], keys) + [Property(key, v2)];
  }

  /** The host's `gradle.properties` list, which the merge extends in place
      (`config.modResults`). */
  class PropertiesMod {
    var modResults: seq<PropertiesItem>

    constructor (items: seq<PropertiesItem>)
      ensures modResults == items
    {
      modResults := items;
    }

    /** The merge loop: the host keys are captured once, then each
        qualifying Unity entry whose key the host lacked is pushed. */
    method MergeUnityProperties(unityProps: seq<PropertiesItem>)
      requires forall p :: p in unityProps ==> p.Property?
      modifies this
      ensures modResults == Merged(old(modResults), unityProps)
    {
      var existingKeys := PropertyKeys(modResults);
      ghost var host := modResults;
      var n := 0;
      while n < |unityProps|
        invariant n <= |unityProps|
        invariant modResults == host + Appended(unityProps[..n], existingKeys)
      {
        assert unityProps[..n + 1][..n] == unityProps[..n];
        var prop := unityProps[n];
        if IsUnityKey(prop.key) && prop.key !in existingKeys {
          modResults := modResults + [prop];
        }
        n := n + 1;
      }
      assert unityProps[..n] == unityProps;
    }

    /** The `withGradleProperties` step: parse Unity's `gradle.properties`
        (None when the file is missing) and merge it into the host list.
        The host list is an unchanged prefix of the result. */
    method WithGradleProperties(unityFile: Option<string>)
      modifies this
      ensures modResults == Merged(old(modResults), FileEntries(unityFile))
      ensures modResults[..|old(modResults)|] == old(modResults)
    {
      var unityProps := ParsePropertiesFile(unityFile);
      MergeUnityProperties(unityProps);
    }
  }
}
