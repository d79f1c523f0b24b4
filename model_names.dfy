/**
 * How the playground names the models it lists: the provider guessed from the
 * model id (`getModelProvider`) and the display name derived from it
 * (`formatModelName`), and the selector entries built from the user's quotas.
 */
module ModelNames {
  import opened Text
  import opened Seqs

  /** The `{ chef, chefSlug }` pair `getModelProvider` returns. */
  datatype Provider = Provider(chef: string, chefSlug: string)

  const OpenAI := Provider("OpenAI", "openai")
  const Anthropic := Provider("Anthropic", "anthropic")
  const Google := Provider("Google", "google")
  const Meta := Provider("Meta", "meta")
  const UnknownProvider := Provider("未知提供商", "unknown")

  predicate IsOpenAIName(n: string) { Contains(n, "gpt") || Contains(n, "openai") }
  predicate IsAnthropicName(n: string) { Contains(n, "claude") || Contains(n, "anthropic") }
  predicate IsGoogleName(n: string) { Contains(n, "gemini") || Contains(n, "google") }
  predicate IsMetaName(n: string) { Contains(n, "llama") || Contains(n, "meta") }

  /**
   * The provider of a model: the lower-cased id is matched against the four keyword
   * pairs in a fixed order and the first pair that matches decides.
   */
  function GetModelProvider(modelName: string): (r: Provider)
    ensures var n := Lower(modelName);
      && (r == OpenAI <==> IsOpenAIName(n))
      && (r == Anthropic <==> !IsOpenAIName(n) && IsAnthropicName(n))
      && (r == Google <==> !IsOpenAIName(n) && !IsAnthropicName(n) && IsGoogleName(n))
      && (r == Meta <==> !IsOpenAIName(n) && !IsAnthropicName(n) && !IsGoogleName(n) && IsMetaName(n))
      && (r == UnknownProvider <==>
            !IsOpenAIName(n) && !IsAnthropicName(n) && !IsGoogleName(n) && !IsMetaName(n))
  {
    var lowerName := Lower(modelName);
    if IsOpenAIName(lowerName) then OpenAI
    else if IsAnthropicName(lowerName) then Anthropic
    else if IsGoogleName(lowerName) then Google
    else if IsMetaName(lowerName) then Meta
    else UnknownProvider
  }

  /** Provider detection ignores ASCII case. */
  lemma ProviderIgnoresCase(modelName: string)
    ensures GetModelProvider(Lower(modelName)) == GetModelProvider(modelName)
  {
    LowerIdempotent(modelName);
  }

  // formatModelName, step 1: drop one leading provider path segment.

  /** `name.replace(/^(openai\/|anthropic\/|google\/|meta\/)/, '')`. */
  function StripProviderPrefix(name: string): (r: string)
    ensures |r| <= |name| && r == name[|name| - |r|..]
  {
    if StartsWith(name, "openai/") then name[7..]
    else if StartsWith(name, "anthropic/") then name[10..]
    else if StartsWith(name, "google/") then name[7..]
    else if StartsWith(name, "meta/") then name[5..]
    else name
  }

  // formatModelName, step 2: `name.replace(/(\d+)-(\d+)/g, '$1.$2')`.

  /** The length of the run of digits at the front of `s` (what a greedy `\d+` takes). */
  function DigitRun(s: string): (k: nat)
    ensures k <= |s|
  {
    if |s| > 0 && IsDigit(s[0]) then 1 + DigitRun(s[1..]) else 0
  }

  /** The run is made of digits. */
  lemma {:induction false} DigitRunDigits(s: string, i: nat)
    requires i < DigitRun(s)
    ensures IsDigit(s[i])
  {
    if i > 0 {
      DigitRunDigits(s[1..], i - 1);
    }
  }

  /** `\d+-\d+` matches at the front of `s`. */
  predicate VersionAtFront(s: string) {
    var d := DigitRun(s);
    0 < d < |s| && s[d] == '-' && DigitRun(s[d + 1..]) > 0
  }

  /**
   * The global replacement, scanning left to right: where `digits-digits` starts,
   * its dash becomes a dot and the scan resumes after the second digit run; anywhere
   * else one character is copied.
   */
  function DotVersions(s: string): (r: string)
    ensures |r| == |s|
    decreases |s|
  {
    if |s| == 0 then []
    else if VersionAtFront(s) then
      s[..DigitRun(s)] + "." + s[DigitRun(s) + 1..VersionEnd(s)] + DotVersions(s[VersionEnd(s)..])
    else [s[0]] + DotVersions(s[1..])
  }

  /** Where the match of `\d+-\d+` at the front of `s` ends. */
  function VersionEnd(s: string): (m: nat)
    requires VersionAtFront(s)
    ensures DigitRun(s) + 1 < m <= |s|
  {
    DigitRun(s) + 1 + DigitRun(s[DigitRun(s) + 1..])
  }

  /** The one change `DotVersions` can make at an index: a dash between two digits becomes a dot. */
  lemma {:induction false} DotVersionsChangeAt(s: string, k: nat)
    requires k < |s|
    ensures DotVersions(s)[k] != s[k] ==>
      s[k] == '-' && DotVersions(s)[k] == '.' && 0 < k < |s| - 1 && IsDigit(s[k - 1]) && IsDigit(s[k + 1])
    decreases |s|
  {
    var r := DotVersions(s);
    if VersionAtFront(s) {
      var d := DigitRun(s);
      var m := d + 1 + DigitRun(s[d + 1..]);
      var tail := DotVersions(s[m..]);
      assert r == s[..d] + "." + s[d + 1..m] + tail;
      if k < d || d < k < m {
        assert r[k] == s[k];
      } else if k == d {
        DigitRunDigits(s, d - 1);
        DigitRunDigits(s[d + 1..], 0);
        assert r[k] == '.' && s[k + 1] == s[d + 1..][0];
      } else {
        DotVersionsChangeAt(s[m..], k - m);
        assert r[k] == tail[k - m] && s[k] == s[m..][k - m];
        if k > m { assert s[k - 1] == s[m..][k - m - 1]; }
        if k + 1 < |s| { assert s[k + 1] == s[m..][k - m + 1]; }
      }
    } else if k > 0 {
      var tail := DotVersions(s[1..]);
      assert r == [s[0]] + tail;
      DotVersionsChangeAt(s[1..], k - 1);
      assert r[k] == tail[k - 1] && s[k] == s[1..][k - 1];
      if k > 1 { assert s[k - 1] == s[1..][k - 2]; }
      if k + 1 < |s| { assert s[k + 1] == s[1..][k]; }
    }
  }

  // formatModelName, step 3: `name.split(/[-_]/)`.

  predicate IsSeparator(c: char) { c == '-' || c == '_' }

  predicate NoSeparator(s: string) { forall k :: 0 <= k < |s| ==> !IsSeparator(s[k]) }

  /** The pieces between separators, empty pieces included, as `String.prototype.split` returns them. */
  function SplitSeparators(s: string): (parts: seq<string>)
    ensures |parts| >= 1
    ensures forall i :: 0 <= i < |parts| ==> NoSeparator(parts[i])
  {
    if s == [] then [""]
    else
      var rest := SplitSeparators(s[1..]);
      if IsSeparator(s[0]) then [""] + rest
      else
        var first := [s[0]] + rest[0];
        assert NoSeparator(first) by {
          assert forall k :: 1 <= k < |first| ==> first[k] == rest[0][k - 1];
        }
        [first] + rest[1..]
  }

  // formatModelName, step 4: capitalise each non-empty piece and join with spaces.

  predicate NonEmpty(part: string) { |part| > 0 }

  /** `word.charAt(0).toUpperCase() + word.slice(1)`. */
  function Capitalize(word: string): (r: string)
    ensures |r| == |word|
    ensures NoSeparator(word) ==> NoSeparator(r)
  {
    if word == [] then [] else [UpperChar(word[0])] + word[1..]
  }

  /** `words.join(' ')`. */
  function JoinWords(words: seq<string>): string {
    if words == [] then ""
    else if |words| == 1 then words[0]
    else words[0] + " " + JoinWords(words[1..])
  }

  /** `.map(word => word.charAt(0).toUpperCase() + word.slice(1))`. */
  function CapitalizeAll(parts: seq<string>): (r: seq<string>)
    ensures |r| == |parts|
  {
    seq(|parts|, i requires 0 <= i < |parts| => Capitalize(parts[i]))
  }

  /** The non-empty pieces of a model id after the prefix strip and the version rewrite. */
  function Words(modelName: string): seq<string> {
    Filter(SplitSeparators(DotVersions(StripProviderPrefix(modelName))), NonEmpty)
  }

  /** The display name the model selector shows for a model id. */
  function FormatModelName(modelName: string): string {
    JoinWords(CapitalizeAll(Words(modelName)))
  }

  /** Joining separator-free words with spaces gives a separator-free string. */
  lemma {:induction false} JoinWordsNoSeparator(words: seq<string>)
    requires forall i :: 0 <= i < |words| ==> NoSeparator(words[i])
    ensures NoSeparator(JoinWords(words))
  {
    if |words| > 1 {
      JoinWordsNoSeparator(words[1..]);
      var tail := JoinWords(words[1..]);
      var r := words[0] + " " + tail;
      forall k | 0 <= k < |r| ensures !IsSeparator(r[k]) {
        if k > |words[0]| { assert r[k] == tail[k - |words[0]| - 1]; }
      }
    }
  }

  /** A formatted model name never contains `-` or `_`. */
  lemma FormatModelNameNoSeparators(modelName: string)
    ensures NoSeparator(FormatModelName(modelName))
  {
    var all := SplitSeparators(DotVersions(StripProviderPrefix(modelName)));
    var parts := Words(modelName);
    var words := CapitalizeAll(parts);
    forall i | 0 <= i < |words| ensures NoSeparator(words[i]) {
      assert parts[i] in all;
    }
    JoinWordsNoSeparator(words);
  }

  /**
   * Where no `digits-digits` starts, one character is copied and the scan moves on by
   * one: a digit run not followed by `-digit` (the `4o` in `gpt-4o-…`) is kept as is.
   */
  lemma DotVersionsStep(s: string)
    requires s != [] && !VersionAtFront(s)
    ensures DotVersions(s) == [s[0]] + DotVersions(s[1..])
  {
  }

  /** Text without digits passes through the version rewrite unchanged. */
  lemma {:induction false} DotVersionsSkipsNonDigits(a: string, b: string)
    requires forall k :: 0 <= k < |a| ==> !IsDigit(a[k])
    ensures DotVersions(a + b) == a + DotVersions(b)
  {
    if a == [] {
      assert a + b == b;
    } else {
      var s := a + b;
      var tail := a[1..];
      assert s[0] == a[0] && s[1..] == tail + b;
      assert forall k :: 0 <= k < |tail| ==> tail[k] == a[k + 1];
      assert DigitRun(s) == 0;
      DotVersionsStep(s);
      DotVersionsSkipsNonDigits(tail, b);
      assert [a[0]] + (tail + DotVersions(b)) == a + DotVersions(b);
    }
  }

  lemma {:induction false} DigitRunOf(digits: string, rest: string)
    requires |digits| > 0 && AllDigits(digits)
    requires rest != [] ==> !IsDigit(rest[0])
    ensures DigitRun(digits + rest) == |digits|
  {
    assert (digits + rest)[1..] == digits[1..] + rest;
    if |digits| > 1 {
      DigitRunOf(digits[1..], rest);
    }
  }

  /** A `digits-digits` version number has its dash turned into a dot. */
  lemma DotVersionsAtVersion(major: string, minor: string, rest: string)
    requires |major| > 0 && AllDigits(major) && |minor| > 0 && AllDigits(minor)
    requires rest != [] ==> !IsDigit(rest[0])
    ensures DotVersions(major + "-" + minor + rest) == major + "." + minor + DotVersions(rest)
  {
    var s := major + "-" + minor + rest;
    VersionShape(major, minor, rest);
    DotVersionsAtFront(s);
  }

  /** In `major-minor…` a version starts at the front and ends after `minor`. */
  lemma VersionShape(major: string, minor: string, rest: string)
    requires |major| > 0 && AllDigits(major) && |minor| > 0 && AllDigits(minor)
    requires rest != [] ==> !IsDigit(rest[0])
    ensures var s, d, m := major + "-" + minor + rest, |major|, |major| + 1 + |minor|;
      && VersionAtFront(s) && DigitRun(s) == d && VersionEnd(s) == m
      && s[..d] == major && s[d + 1..m] == minor && s[m..] == rest
  {
    VersionFrontOf(major, minor, rest);
    DigitRunOf(minor, rest);
    VersionSlices(major, minor, rest);
  }

  /** The three pieces of `major-minor…`, as slices. */
  lemma VersionSlices(major: string, minor: string, rest: string)
    ensures var s, d, m := major + "-" + minor + rest, |major|, |major| + 1 + |minor|;
      && s[..d] == major && s[d + 1..m] == minor && s[m..] == rest && s[d + 1..] == minor + rest
  {
    var s, d, m := major + "-" + minor + rest, |major|, |major| + 1 + |minor|;
    assert s[..d] == major;
    assert s[d + 1..] == minor + rest;
    assert s[d + 1..m] == minor;
    assert s[m..] == rest;
  }

  /** The first digit run of `major-minor…` is `major`, and `minor…` follows the dash. */
  lemma VersionFrontOf(major: string, minor: string, rest: string)
    requires |major| > 0 && AllDigits(major)
    ensures var s := major + "-" + minor + rest;
      DigitRun(s) == |major| && s[|major|] == '-' && s[|major| + 1..] == minor + rest
  {
    var s := major + "-" + minor + rest;
    var after := minor + rest;
    assert s == major + (['-'] + after);
    DigitRunOf(major, ['-'] + after);
  }

  /** Where a version number starts, its dash becomes a dot and the scan resumes after it. */
  lemma DotVersionsAtFront(s: string)
    requires VersionAtFront(s)
    ensures DotVersions(s) == s[..DigitRun(s)] + "." + s[DigitRun(s) + 1..VersionEnd(s)] + DotVersions(s[VersionEnd(s)..])
  {
  }

  /** A separator-free word followed by a separator is split off as the first piece. */
  lemma {:induction false} SplitSeparatorsWord(w: string, sep: char, rest: string)
    requires NoSeparator(w) && IsSeparator(sep)
    ensures SplitSeparators(w + [sep] + rest) == [w] + SplitSeparators(rest)
  {
    if w == [] {
      assert [] + [sep] + rest == [sep] + rest;
      assert ([sep] + rest)[1..] == rest;
    } else {
      assert (w + [sep] + rest)[1..] == w[1..] + [sep] + rest;
      SplitSeparatorsWord(w[1..], sep, rest);
      assert [w[0]] + w[1..] == w;
    }
  }

  /** A separator-free string is a single piece. */
  lemma {:induction false} SplitSeparatorsSingle(w: string)
    requires NoSeparator(w)
    ensures SplitSeparators(w) == [w]
  {
    if w != [] {
      SplitSeparatorsSingle(w[1..]);
      assert [w[0]] + w[1..] == w;
    }
  }

  /** `"google/gemini-2-5-pro"` is shown as `"Gemini 2.5 Pro"`. */
  lemma FormatModelNameExample()
    ensures FormatModelName("google/gemini-2-5-pro") == "Gemini 2.5 Pro"
  {
    ExampleWords();
    ExampleCapitalize();
    ExampleJoin();
  }

  lemma ExampleWords()
    ensures Words("google/gemini-2-5-pro") == ["gemini", "2.5", "pro"]
  {
    var parts := ["gemini", "2.5", "pro"];
    ExampleStrip();
    ExampleDots();
    ExampleSplit();
    FilterKeepsAll(parts, NonEmpty);
  }

  lemma ExampleCapitalize()
    ensures CapitalizeAll(["gemini", "2.5", "pro"]) == ["Gemini", "2.5", "Pro"]
  {
    var parts := ["gemini", "2.5", "pro"];
    assert Capitalize(parts[0]) == "Gemini" by { assert parts[0][1..] == "emini"; }
    assert Capitalize(parts[1]) == "2.5" by { assert parts[1][1..] == ".5"; }
    assert Capitalize(parts[2]) == "Pro" by { assert parts[2][1..] == "ro"; }
  }

  lemma ExampleJoin()
    ensures JoinWords(["Gemini", "2.5", "Pro"]) == "Gemini 2.5 Pro"
  {
    var words := ["Gemini", "2.5", "Pro"];
    assert words[1..][1..] == ["Pro"];
    assert JoinWords(words[1..]) == "2.5 Pro";
  }

  lemma ExampleStrip()
    ensures StripProviderPrefix("google/gemini-2-5-pro") == "gemini-2-5-pro"
  {
    var id := "google/gemini-2-5-pro";
    assert !StartsWith(id, "openai/") by { assert id[0] != "openai/"[0]; }
    assert !StartsWith(id, "anthropic/") by { assert id[0] != "anthropic/"[0]; }
    assert id[..7] == "google/";
  }

  /** A name with one version number and no other digits gets exactly that dash turned into a dot. */
  lemma DotVersionsOneVersion(pre: string, major: string, minor: string, post: string)
    requires forall k :: 0 <= k < |pre| ==> !IsDigit(pre[k])
    requires forall k :: 0 <= k < |post| ==> !IsDigit(post[k])
    requires |major| > 0 && AllDigits(major) && |minor| > 0 && AllDigits(minor)
    ensures DotVersions(pre + (major + "-" + minor + post)) == pre + (major + "." + minor + post)
  {
    DotVersionsVersionFirst(major, minor, post);
    DotVersionsSkipsNonDigits(pre, major + "-" + minor + post);
  }

  /** A version number followed by digit-free text. */
  lemma DotVersionsVersionFirst(major: string, minor: string, post: string)
    requires forall k :: 0 <= k < |post| ==> !IsDigit(post[k])
    requires |major| > 0 && AllDigits(major) && |minor| > 0 && AllDigits(minor)
    ensures DotVersions(major + "-" + minor + post) == major + "." + minor + post
  {
    DotVersionsNoDigits(post);
    DotVersionsAtVersion(major, minor, post);
  }

  /** Digit-free text has no version number to rewrite. */
  lemma DotVersionsNoDigits(a: string)
    requires forall k :: 0 <= k < |a| ==> !IsDigit(a[k])
    ensures DotVersions(a) == a
  {
    assert a + [] == a;
    DotVersionsSkipsNonDigits(a, []);
  }

  lemma ExampleDots()
    ensures DotVersions("gemini-2-5-pro") == "gemini-2.5-pro"
  {
    assert "gemini-2-5-pro" == "gemini-" + ("2" + "-" + "5" + "-pro");
    assert "gemini-2.5-pro" == "gemini-" + ("2" + "." + "5" + "-pro");
    DotVersionsOneVersion("gemini-", "2", "5", "-pro");
  }

  /** Three separator-free words joined by dashes split back into those words. */
  lemma SplitThreeWords(w1: string, w2: string, w3: string)
    requires NoSeparator(w1) && NoSeparator(w2) && NoSeparator(w3)
    ensures SplitSeparators(w1 + "-" + w2 + "-" + w3) == [w1, w2, w3]
  {
    var rest := w2 + ['-'] + w3;
    assert w1 + "-" + w2 + "-" + w3 == w1 + ['-'] + rest;
    SplitSeparatorsSingle(w3);
    SplitSeparatorsWord(w2, '-', w3);
    SplitSeparatorsWord(w1, '-', rest);
  }

  lemma ExampleSplit()
    ensures SplitSeparators("gemini-2.5-pro") == ["gemini", "2.5", "pro"]
  {
    assert "gemini-2.5-pro" == "gemini" + "-" + "2.5" + "-" + "pro";
    assert NoSeparator("gemini") && NoSeparator("2.5") && NoSeparator("pro");
    SplitThreeWords("gemini", "2.5", "pro");
  }

  // The selector entries built from the user's quota list.

  /** One item of the user's quota list, with the fields the selector copies. */
  datatype UserQuota = UserQuota(modelName: string, quota: string, maxQuota: string)

  /** One entry of the model selector. */
  datatype ModelOption = ModelOption(
    id: string, name: string, chef: string, chefSlug: string,
    providers: seq<string>, quota: string, maxQuota: string)

  function ToModelOption(q: UserQuota): ModelOption {
    var provider := GetModelProvider(q.modelName);
    ModelOption(q.modelName, FormatModelName(q.modelName), provider.chef, provider.chefSlug,
                [provider.chefSlug], q.quota, q.maxQuota)
  }

  /** The selector list: one entry per quota item, in the same order. */
  function ModelList(quotas: seq<UserQuota>): (r: seq<ModelOption>)
    ensures |r| == |quotas|
  {
    seq(|quotas|, i requires 0 <= i < |quotas| => ToModelOption(quotas[i]))
  }

  /**
   * Every selector entry is keyed by its model id, shows its formatted name, carries
   * its quota figures, and lists exactly its own provider.
   */
  lemma ModelListEntry(quotas: seq<UserQuota>, i: nat)
    requires i < |quotas|
    ensures var e := ModelList(quotas)[i];
      && e.id == quotas[i].modelName
      && e.name == FormatModelName(quotas[i].modelName)
      && Provider(e.chef, e.chefSlug) == GetModelProvider(quotas[i].modelName)
      && e.providers == [e.chefSlug]
      && e.quota == quotas[i].quota && e.maxQuota == quotas[i].maxQuota
  {
  }

  /** Entry names never contain `-` or `_`, whatever the model ids. */
  lemma ModelListNamesHaveNoSeparators(quotas: seq<UserQuota>, i: nat)
    requires i < |quotas|
    ensures NoSeparator(ModelList(quotas)[i].name)
  {
    FormatModelNameNoSeparators(quotas[i].modelName);
  }
}
