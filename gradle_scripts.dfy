/**
 * The config plugin's text patches of Gradle scripts: the `include` lines
 * it appends to `settings.gradle`, and the dependency and `abiFilters`
 * snippets it inserts into `app/build.gradle`. Every patch is guarded by
 * `includes(...)`, so each one leaves its own output unchanged.
 */
module GradleScripts {
  import opened Optional
  import opened Text

  // ---------------------------------------------------------------------
  // settings.gradle

  const IncludeSnippet := "include ':unityLibrary'"

  /** The line that points Gradle at the Unity export's `unityLibrary` directory. */
  function ProjectSnippet(unityLibDir: string): string
  {
    "project(':unityLibrary').projectDir = new File('" + unityLibDir + "')"
  }

  const BlockComment := "\n// Unity as a Library\n"

  /** The block appended to `settings.gradle` when `:unityLibrary` is not yet included. */
  function UnityLibraryBlock(unityLibDir: string): string
  {
    BlockComment + IncludeSnippet + ("\n" + ProjectSnippet(unityLibDir) + "\n")
  }

  /** Include `:unityLibrary` unless the text already does: afterwards the
      contents include it; if they already did they are unchanged, and
      otherwise the old contents are a prefix of the new. */
  function IncludeUnityLibrary(contents: string, unityLibDir: string): (r: string)
    ensures Contains(r, IncludeSnippet)
    ensures Contains(contents, IncludeSnippet) ==> r == contents
    ensures !Contains(contents, IncludeSnippet) ==> |r| > |contents| && r[..|contents|] == contents
  {
    if Contains(contents, IncludeSnippet) then contents
    else
      ContainsInside(contents, BlockComment, IncludeSnippet, "\n" + ProjectSnippet(unityLibDir) + "\n");
      contents + UnityLibraryBlock(unityLibDir)
  }

  /** The `include` line for one `.androidlib` subproject. */
  function SubprojectInclude(sub: string): string
  {
    "include ':unityLibrary:" + sub + "'"
  }

  /** The `.androidlib` subprojects: the entries of the `unityLibrary`
      directory listing (None when the directory is missing) whose name ends
      in `.androidlib` and that hold a `build.gradle`. */
  function Subprojects(listing: Option<seq<string>>, hasBuildGradle: set<string>): (subs: seq<string>)
    ensures forall s :: s in subs <==>
      listing.Some? && s in listing.value && EndsWith(s, ".androidlib") && s in hasBuildGradle
  {
    match listing
    case None => []
    case Some(names) => FilterSubprojects(names, hasBuildGradle)
  }

  function FilterSubprojects(names: seq<string>, hasBuildGradle: set<string>): (subs: seq<string>)
    ensures forall s :: s in subs <==>
      s in names && EndsWith(s, ".androidlib") && s in hasBuildGradle
  {
    if names == [] then []
    else
      var name := names[0];
      var rest := FilterSubprojects(names[1..], hasBuildGradle);
      if EndsWith(name, ".androidlib") && name in hasBuildGradle then [name] + rest else rest
  }

  /** `s.endsWith(suffix)`. */
  predicate EndsWith(s: string, suffix: string)
  {
    |suffix| <= |s| && s[|s| - |suffix|..] == suffix
  }

  /** One iteration of the subproject loop: append the include line unless
      the contents already hold it. */
  function AppendIfAbsent(contents: string, sub: string): (r: string)
    ensures Contains(r, SubprojectInclude(sub))
    ensures |contents| <= |r| && r[..|contents|] == contents
    ensures Contains(contents, SubprojectInclude(sub)) ==> r == contents
  {
    var subInclude := SubprojectInclude(sub);
    if Contains(contents, subInclude) then contents
    else
      var line := subInclude + "\n";
      ContainsInside(contents, [], subInclude, "\n");
      assert [] + subInclude + "\n" == line;
      contents + line
  }

  /** The subproject loop over `subs`, in order. */
  function AppendSubprojects(contents: string, subs: seq<string>): string
  {
    if subs == [] then contents
    else AppendIfAbsent(AppendSubprojects(contents, subs[..|subs| - 1]), subs[|subs| - 1])
  }

  /** The loop only appends, and afterwards every subproject is included. */
  lemma {:induction false} AppendSubprojectsIncludesAll(contents: string, subs: seq<string>)
    ensures var r := AppendSubprojects(contents, subs);
      |contents| <= |r| && r[..|contents|] == contents &&
      forall s :: s in subs ==> Contains(r, SubprojectInclude(s))
  {
    if subs != [] {
      var init := subs[..|subs| - 1];
      AppendSubprojectsIncludesAll(contents, init);
      var mid := AppendSubprojects(contents, init);
      var r := AppendIfAbsent(mid, subs[|subs| - 1]);
      assert r[..|mid|] == mid;
      assert r[..|contents|] == mid[..|contents|];
      forall s | s in init ensures Contains(r, SubprojectInclude(s)) {
        ContainsAppend(mid, r[|mid|..], SubprojectInclude(s));
        assert mid + r[|mid|..] == r;
      }
      assert subs == init + [subs[|subs| - 1]];
    }
  }

  /** Contents that already include every subproject are left alone. */
  lemma {:induction false} AppendSubprojectsNoOp(contents: string, subs: seq<string>)
    requires forall s :: s in subs ==> Contains(contents, SubprojectInclude(s))
    ensures AppendSubprojects(contents, subs) == contents
  {
    if subs != [] {
      AppendSubprojectsNoOp(contents, subs[..|subs| - 1]);
    }
  }

  /** The whole `withSettingsGradle` step, as a function of its inputs. */
  function SettingsGradle(contents: string, unityLibDir: string, subs: seq<string>): string
  {
    AppendSubprojects(IncludeUnityLibrary(contents, unityLibDir), subs)
  }

  /** The settings step only appends, includes `:unityLibrary` and every
      subproject, and a second run with the same inputs changes nothing. */
  lemma SettingsGradleIdempotent(contents: string, unityLibDir: string, subs: seq<string>)
    ensures var once := SettingsGradle(contents, unityLibDir, subs);
      && |contents| <= |once| && once[..|contents|] == contents
      && Contains(once, IncludeSnippet)
      && (forall s :: s in subs ==> Contains(once, SubprojectInclude(s)))
      && SettingsGradle(once, unityLibDir, subs) == once
  {
    var included := IncludeUnityLibrary(contents, unityLibDir);
    var once := AppendSubprojects(included, subs);
    AppendSubprojectsIncludesAll(included, subs);
    PrefixContains(included, once, IncludeSnippet);
    PrefixOfPrefix(contents, included, once);
    assert IncludeUnityLibrary(once, unityLibDir) == once;
    AppendSubprojectsNoOp(once, subs);
  }

  /** A prefix of a prefix is a prefix. */
  lemma PrefixOfPrefix(a: string, b: string, c: string)
    requires |a| <= |b| <= |c| && b[..|a|] == a && c[..|b|] == b
    ensures c[..|a|] == a
  {
    assert c[..|a|] == c[..|b|][..|a|];
  }

  /** `settings.gradle`, whose contents the step rewrites in place
      (`config.modResults.contents`). */
  class SettingsMod {
    var contents: string

    constructor (text: string)
      ensures contents == text
    {
      contents := text;
    }

    /** `withSettingsGradle`: include `:unityLibrary`, then walk the
        `.androidlib` subprojects found in `unityLibDir` (given as a
        directory listing and the names holding a `build.gradle`). */
    method WithSettingsGradle(unityLibDir: string, listing: Option<seq<string>>, hasBuildGradle: set<string>)
      modifies this
      ensures contents == SettingsGradle(old(contents), unityLibDir, Subprojects(listing, hasBuildGradle))
    {
      if !Contains(contents, IncludeSnippet) {
        contents := contents + UnityLibraryBlock(unityLibDir);
      }
      assert contents == IncludeUnityLibrary(old(contents), unityLibDir);
      if listing.Some? {
        var subprojects := FilterSubprojects(listing.value, hasBuildGradle);
        AppendSubprojectLines(subprojects);
      }
    }

    /** The subproject loop: each include line is appended unless the
        contents already hold it. */
    method AppendSubprojectLines(subprojects: seq<string>)
      modifies this
      ensures contents == AppendSubprojects(old(contents), subprojects)
    {
      var n := 0;
      while n < |subprojects|
        invariant n <= |subprojects|
        invariant contents == AppendSubprojects(old(contents), subprojects[..n])
      {
        assert subprojects[..n + 1][..n] == subprojects[..n];
        var subInclude := SubprojectInclude(subprojects[n]);
        if !Contains(contents, subInclude) {
          contents := contents + subInclude + "\n";
        }
        n := n + 1;
      }
      assert subprojects[..n] == subprojects;
    }
  }

  // ---------------------------------------------------------------------
  // app/build.gradle

  const DepSnippet := "implementation project(':unityLibrary')"
  const AbiFiltersWord := "abiFilters"
  const AbiSnippet := "ndk { " + AbiFiltersWord + " 'armeabi-v7a', 'arm64-v8a' }"

  /** `s[i..e]` is a match of the regular expression `<keyword>\s*\{`. */
  ghost predicate MatchesAt(s: string, keyword: string, i: int, e: int)
  {
    && 0 <= i && i + |keyword| < e <= |s|
    && s[i..i + |keyword|] == keyword
    && (forall m :: i + |keyword| <= m < e - 1 ==> IsWhiteSpace(s[m]))
    && s[e - 1] == '{'
  }

  /** The regular expression `<keyword>\s*\{` tried at position `i`: the
      position just past the `{` of the match starting there, if any. Since
      `{` is not white space, at most one match starts at `i`. */
  function MatchAt(s: string, keyword: string, i: nat): (r: Option<nat>)
    requires i <= |s|
    ensures r.Some? ==> MatchesAt(s, keyword, i, r.value)
    ensures r.None? ==> forall e :: !MatchesAt(s, keyword, i, e)
  {
    if i + |keyword| <= |s| && s[i..i + |keyword|] == keyword then
      var k := SkipWhiteSpace(s, i + |keyword|);
      if k < |s| && s[k] == '{' then Some(k + 1)
      else
        assert forall e :: !MatchesAt(s, keyword, i, e);
        None
    else None
  }

  /** The leftmost match of `<keyword>\s*\{` at or after `from`, as its
      start and the position just past its `{`. */
  function FirstMatch(s: string, keyword: string, from: nat): (r: Option<(nat, nat)>)
    requires from <= |s|
    ensures r.Some? ==> from <= r.value.0 <= |s| && MatchAt(s, keyword, r.value.0) == Some(r.value.1)
    ensures r.Some? ==> forall j :: from <= j < r.value.0 ==> MatchAt(s, keyword, j).None?
    ensures r.None? ==> forall j :: from <= j <= |s| ==> MatchAt(s, keyword, j).None?
    decreases |s| - from
  {
    match MatchAt(s, keyword, from)
    case Some(e) => Some((from, e))
    case None => if from == |s| then None else FirstMatch(s, keyword, from + 1)
  }

  /** `s.replace(/<keyword>\s*\{/, m => m + insertion)`: `insertion` placed
      right after the first match, or `s` unchanged when there is none. */
  function InsertAfterFirstMatch(s: string, keyword: string, insertion: string): (r: string)
    ensures FirstMatch(s, keyword, 0).None? ==> r == s
    ensures FirstMatch(s, keyword, 0).Some? ==>
      var e := FirstMatch(s, keyword, 0).value.1;
      |r| == |s| + |insertion| && r[..e] == s[..e] && r[e..e + |insertion|] == insertion
      && r[e + |insertion|..] == s[e..]
    ensures FirstMatch(s, keyword, 0).Some? ==> Contains(r, insertion)
  {
    match FirstMatch(s, keyword, 0)
    case None => s
    case Some((_, e)) =>
      ContainsMiddle(s[..e], insertion, s[e..]);
      s[..e] + insertion + s[e..]
  }

  /** Add `implementation project(':unityLibrary')` right after the first
      `dependencies<ws>{`, only when the snippet is absent and the pattern
      occurs; otherwise the text is unchanged. Afterwards the snippet is
      present exactly when it was before or the pattern occurred. */
  function AddUnityDependency(contents: string): (r: string)
    ensures Contains(contents, DepSnippet) ==> r == contents
    ensures FirstMatch(contents, "dependencies", 0).None? ==> r == contents
    ensures !Contains(contents, DepSnippet) ==>
      r == InsertAfterFirstMatch(contents, "dependencies", "\n    " + DepSnippet)
    ensures Contains(r, DepSnippet) <==>
      Contains(contents, DepSnippet) || FirstMatch(contents, "dependencies", 0).Some?
  {
    if Contains(contents, DepSnippet) then contents
    else if FirstMatch(contents, "dependencies", 0).None? then contents
    else
      ContainsMiddle("\n    ", DepSnippet, []);
      assert "\n    " + DepSnippet + [] == "\n    " + DepSnippet;
      InsertedContains(contents, "dependencies", "\n    " + DepSnippet, DepSnippet);
      InsertAfterFirstMatch(contents, "dependencies", "\n    " + DepSnippet)
  }

  /** What an inserted text contains, the result contains. */
  lemma InsertedContains(s: string, keyword: string, insertion: string, t: string)
    requires FirstMatch(s, keyword, 0).Some? && Contains(insertion, t)
    ensures Contains(InsertAfterFirstMatch(s, keyword, insertion), t)
  {
    var e := FirstMatch(s, keyword, 0).value.1;
    var r := InsertAfterFirstMatch(s, keyword, insertion);
    assert r == s[..e] + insertion + s[e..];
    ContainsPrepend(s[..e], insertion, t);
    ContainsAppend(s[..e] + insertion, s[e..], t);
  }

  /** Add the NDK `abiFilters` line right after the first
      `defaultConfig<ws>{`; skipped whenever the text `abiFilters` appears
      anywhere, or the pattern does not occur. */
  function AddAbiFilters(contents: string): (r: string)
    ensures Contains(contents, AbiFiltersWord) ==> r == contents
    ensures FirstMatch(contents, "defaultConfig", 0).None? ==> r == contents
    ensures !Contains(contents, AbiFiltersWord) ==>
      r == InsertAfterFirstMatch(contents, "defaultConfig", "\n        " + AbiSnippet)
    ensures Contains(r, AbiFiltersWord) <==>
      Contains(contents, AbiFiltersWord) || FirstMatch(contents, "defaultConfig", 0).Some?
  {
    if Contains(contents, AbiFiltersWord) then contents
    else if FirstMatch(contents, "defaultConfig", 0).None? then contents
    else
      AbiSnippetNamesAbiFilters();
      ContainsPrepend("\n        ", AbiSnippet, AbiFiltersWord);
      InsertedContains(contents, "defaultConfig", "\n        " + AbiSnippet, AbiFiltersWord);
      InsertAfterFirstMatch(contents, "defaultConfig", "\n        " + AbiSnippet)
  }

  lemma AbiSnippetNamesAbiFilters()
    ensures Contains(AbiSnippet, AbiFiltersWord)
  {
    ContainsMiddle("ndk { ", AbiFiltersWord, " 'armeabi-v7a', 'arm64-v8a' }");
  }

  /** Each insertion leaves its own output unchanged. */
  lemma InsertionsIdempotent(contents: string)
    ensures AddUnityDependency(AddUnityDependency(contents)) == AddUnityDependency(contents)
    ensures AddAbiFilters(AddAbiFilters(contents)) == AddAbiFilters(contents)
  {
  }

  /** Each character an occurrence covers is a character of the text found. */
  lemma OccurrenceHolds(s: string, t: string, i: int, k: int)
    requires OccursAt(s, t, i) && i <= k < i + |t|
    ensures s[k] in t
  {
  }

  /** An occurrence that ends before the insertion point is kept in place. */
  lemma OccursBefore(a: string, insertion: string, b: string, t: string, i: int)
    requires OccursAt(a + b, t, i) && i + |t| <= |a|
    ensures OccursAt(a + insertion + b, t, i)
  {
    assert (a + b)[..|a|] == a == (a + insertion + b)[..|a|];
    assert t == (a + b)[..|a|][i..i + |t|];
  }

  /** An occurrence that starts at or after the insertion point is shifted
      by the inserted length. */
  lemma OccursAfter(a: string, insertion: string, b: string, t: string, i: int)
    requires OccursAt(a + b, t, i) && |a| <= i
    ensures OccursAt(a + insertion + b, t, i + |insertion|)
  {
    var k := i - |a|;
    assert (a + b)[|a|..] == b == (a + insertion + b)[|a| + |insertion|..];
    assert t == (a + b)[|a|..][k..k + |t|];
  }

  /** Text put in right after a `{` cannot split an occurrence of a text
      that holds no `{`: such a text stays contained. */
  lemma SplitAfterBraceKeeps(a: string, insertion: string, b: string, t: string)
    requires a != [] && a[|a| - 1] == '{' && '{' !in t && Contains(a + b, t)
    ensures Contains(a + insertion + b, t)
  {
    ContainsMeaning(a + b, t);
    var i :| OccursAt(a + b, t, i);
    if i + |t| <= |a| {
      OccursBefore(a, insertion, b, t, i);
    } else if |a| <= i {
      OccursAfter(a, insertion, b, t, i);
    } else {
      OccurrenceHolds(a + b, t, i, |a| - 1);
      assert false;
    }
    ContainsMeaning(a + insertion + b, t);
  }

  /** Every insertion goes in right after a `{`, so a text holding no `{`
      that was contained stays contained. */
  lemma InsertionKeeps(s: string, keyword: string, insertion: string, t: string)
    requires '{' !in t && Contains(s, t)
    ensures Contains(InsertAfterFirstMatch(s, keyword, insertion), t)
  {
    if FirstMatch(s, keyword, 0).Some? {
      var e := FirstMatch(s, keyword, 0).value.1;
      assert s == s[..e] + s[e..];
      SplitAfterBraceKeeps(s[..e], insertion, s[e..], t);
      assert InsertAfterFirstMatch(s, keyword, insertion) == s[..e] + insertion + s[e..];
    }
  }

  /** The `withAppBuildGradle` step: the dependency, then the `abiFilters`.
      The dependency the first insertion leaves (or finds) survives the
      second, and the result names `abiFilters` exactly when the text after
      the first insertion did or has a `defaultConfig<ws>{` block. */
  function AppBuildGradle(contents: string): (r: string)
    ensures Contains(contents, DepSnippet) || FirstMatch(contents, "dependencies", 0).Some? ==>
      Contains(r, DepSnippet)
    ensures var withDep := AddUnityDependency(contents);
      Contains(r, AbiFiltersWord) <==>
        Contains(withDep, AbiFiltersWord) || FirstMatch(withDep, "defaultConfig", 0).Some?
  {
    var withDep := AddUnityDependency(contents);
    if Contains(withDep, DepSnippet) && !Contains(withDep, AbiFiltersWord) then
      InsertionKeeps(withDep, "defaultConfig", "\n        " + AbiSnippet, DepSnippet);
      AddAbiFilters(withDep)
    else AddAbiFilters(withDep)
  }
}
