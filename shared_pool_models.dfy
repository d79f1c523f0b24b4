/**
 * The shared-pool quota table: the per-model entries sorted by remaining quota,
 * the fixed display-name table, the icon choice, the reset-time label and the
 * availability badge.
 */
module SharedPoolModels {
  import opened Text

  /** The per-model figures of the pool (only the ones the table reads). */
  datatype ModelStats = ModelStats(totalQuota: real, status: int, availableCookies: int)

  /** One entry of `quotas_by_model`: a model name with its figures. */
  datatype ModelData = ModelData(name: string, stats: ModelStats)

  // Sorting by remaining quota, largest first.

  predicate SortedByQuota(s: seq<ModelData>) {
    forall p, q :: 0 <= p < q < |s| ==> s[p].stats.totalQuota >= s[q].stats.totalQuota
  }

  /** The first `n` entries are in order. */
  predicate SortedUpTo(s: seq<ModelData>, n: nat) {
    forall p, q :: 0 <= p < q < n && q < |s| ==> s[p].stats.totalQuota >= s[q].stats.totalQuota
  }

  /**
   * While `s[j]` moves left inside the first `i + 1` entries: those entries are in order
   * when `s[j]` is left out, and `s[j]` has more quota than every entry after it.
   */
  predicate Inserting(s: seq<ModelData>, i: nat, j: nat) {
    && j <= i < |s|
    && (forall p, q :: 0 <= p < q <= i && p != j && q != j ==> s[p].stats.totalQuota >= s[q].stats.totalQuota)
    && (forall q :: j < q <= i ==> s[j].stats.totalQuota > s[q].stats.totalQuota)
  }

  lemma InsertStart(s: seq<ModelData>, i: nat)
    requires i < |s| && SortedUpTo(s, i)
    ensures Inserting(s, i, i)
  {
  }

  /** Swapping the moving entry with a smaller left neighbour keeps the invariant. */
  lemma InsertStep(s: seq<ModelData>, i: nat, j: nat)
    requires Inserting(s, i, j) && 0 < j && s[j - 1].stats.totalQuota < s[j].stats.totalQuota
    ensures Inserting(s[j - 1 := s[j]][j := s[j - 1]], i, j - 1)
  {
  }

  /** Once the left neighbour has at least its quota, the first `i + 1` entries are in order. */
  lemma InsertDone(s: seq<ModelData>, i: nat, j: nat)
    requires Inserting(s, i, j) && (j == 0 || s[j - 1].stats.totalQuota >= s[j].stats.totalQuota)
    ensures SortedUpTo(s, i + 1)
  {
  }

  /**
   * `modelArray.sort((a, b) => b.stats.total_quota - a.stats.total_quota)`, as an
   * insertion sort: each entry moves left past the entries with a smaller quota.
   */
  method SortByQuota(a: array<ModelData>)
    modifies a
    ensures SortedByQuota(a[..])
    ensures multiset(a[..]) == multiset(old(a[..]))
  {
    var i := 0;
    while i < a.Length
      invariant 0 <= i <= a.Length
      invariant SortedUpTo(a[..], i)
      invariant multiset(a[..]) == multiset(old(a[..]))
    {
      InsertLeft(a, i);
      i := i + 1;
    }
  }

  /** Moves `a[i]` left until the entry before it has at least its quota. */
  method InsertLeft(a: array<ModelData>, i: nat)
    requires i < a.Length && SortedUpTo(a[..], i)
    modifies a
    ensures SortedUpTo(a[..], i + 1)
    ensures multiset(a[..]) == multiset(old(a[..]))
  {
    InsertStart(a[..], i);
    var j: nat := i;
    while j > 0 && a[j - 1].stats.totalQuota < a[j].stats.totalQuota
      invariant Inserting(a[..], i, j)
      invariant multiset(a[..]) == multiset(old(a[..]))
    {
      ghost var s := a[..];
      InsertStep(s, i, j);
      a[j - 1], a[j] := a[j], a[j - 1];
      assert a[..] == s[j - 1 := s[j]][j := s[j - 1]];
      j := j - 1;
    }
    InsertDone(a[..], i, j);
  }

  /** The table's rows: the pool's entries, largest remaining quota first. */
  method SortedModels(entries: seq<ModelData>) returns (sorted: seq<ModelData>)
    ensures SortedByQuota(sorted)
    ensures multiset(sorted) == multiset(entries)
    ensures |sorted| == |entries|
  {
    var a := new ModelData[|entries|](i requires 0 <= i < |entries| => entries[i]);
    assert a[..] == entries;
    SortByQuota(a);
    sorted := a[..];
    assert |sorted| == |multiset(sorted)| == |multiset(entries)| == |entries|;
  }

  /** A sorted list's first entry has the largest quota of all. */
  lemma SortedHeadIsLargest(sorted: seq<ModelData>, entries: seq<ModelData>, e: ModelData)
    requires SortedByQuota(sorted) && multiset(sorted) == multiset(entries)
    requires e in entries
    ensures |sorted| > 0 && sorted[0].stats.totalQuota >= e.stats.totalQuota
  {
    assert e in multiset(entries);
    assert e in sorted;
  }

  // Display names.

  /** The fixed names of the models the pool is known to serve. */
  const KnownNames: map<string, string> := map[
    "gemini-2.5-pro" := "Gemini 2.5 Pro",
    "gemini-2.5-flash-lite" := "Gemini 2.5 Flash Lite",
    "claude-sonnet-4-5-thinking" := "Claude Sonnet 4.5 Thinking",
    "claude-opus-4-5-thinking" := "Claude Opus 4.5 Thinking",
    "gemini-2.5-flash-image" := "Gemini 2.5 Flash Image",
    "gemini-2.5-flash-thinking" := "Gemini 2.5 Flash Thinking",
    "gemini-2.5-flash" := "Gemini 2.5 Flash",
    "gpt-oss-120b-medium" := "GPT OSS 120B Medium",
    "gemini-3-pro-image" := "Gemini 3 Pro Image",
    "gemini-3-pro-high" := "Gemini 3 Pro High",
    "gemini-3-pro-low" := "Gemini 3 Pro Low",
    "claude-sonnet-4-5" := "Claude Sonnet 4.5",
    "chat_20706" := "Chat 20706",
    "chat_23310" := "Chat 23310",
    "rev19-uic3-1p" := "Rev19 UIC3 1P"
  ]

  /** `modelNames[model] || model`. */
  function GetModelDisplayName(model: string): (r: string)
    ensures model in KnownNames ==> r == KnownNames[model]
    ensures model !in KnownNames ==> r == model
  {
    if model in KnownNames && KnownNames[model] != "" then KnownNames[model] else model
  }

  /** No display name in the table is itself a table key, so a display name shows as itself. */
  lemma DisplayNameIdempotent(model: string)
    ensures GetModelDisplayName(GetModelDisplayName(model)) == GetModelDisplayName(model)
  {
    if model in KnownNames {
      assert forall k :: k in KnownNames ==> KnownNames[k] !in KnownNames;
    }
  }

  /** Distinct listed models get distinct display names. */
  lemma DisplayNamesDistinct(m1: string, m2: string)
    requires m1 in KnownNames && m2 in KnownNames && m1 != m2
    ensures GetModelDisplayName(m1) != GetModelDisplayName(m2)
  {
  }

  // The icon.

  datatype Icon = GeminiIcon | ClaudeIcon | OpenAIIcon | DefaultLogo

  /** The icon is chosen by the first of `gemini`, `claude`, `gpt` the lower-cased name contains. */
  function GetModelIcon(modelName: string): (r: Icon)
    ensures var n := Lower(modelName);
      && (r == GeminiIcon <==> Contains(n, "gemini"))
      && (r == ClaudeIcon <==> !Contains(n, "gemini") && Contains(n, "claude"))
      && (r == OpenAIIcon <==> !Contains(n, "gemini") && !Contains(n, "claude") && Contains(n, "gpt"))
      && (r == DefaultLogo <==> !Contains(n, "gemini") && !Contains(n, "claude") && !Contains(n, "gpt"))
  {
    var lowerName := Lower(modelName);
    if Contains(lowerName, "gemini") then GeminiIcon
    else if Contains(lowerName, "claude") then ClaudeIcon
    else if Contains(lowerName, "gpt") then OpenAIIcon
    else DefaultLogo
  }

  /** The icon ignores ASCII case. */
  lemma IconIgnoresCase(modelName: string)
    ensures GetModelIcon(Lower(modelName)) == GetModelIcon(modelName)
  {
    LowerIdempotent(modelName);
  }

  // The reset-time label.

  const HourMs := 1000 * 60 * 60
  const MinuteMs := 1000 * 60

  /**
   * What `formatResetTime` gets: no reset time (`null` or empty), a time string that
   * does not parse, or the difference in milliseconds between the reset time and now.
   */
  datatype ResetTime = NoResetTime | Unparsable | Diff(ms: int)

  /** The label's kinds, with the numbers the label shows. */
  datatype ResetLabel =
    | Unlimited
    | Expired
    | InDays(days: nat)
    | InHoursMinutes(hours: nat, minutes: nat)
    | InMinutes(minutes: nat)
    | NotANumber

  /** JavaScript's `%`, whose remainder takes the sign of the dividend. */
  function JsRem(a: int, b: int): (r: int)
    requires b > 0
    ensures a >= 0 ==> 0 <= r < b
    ensures a < 0 ==> -b < r <= 0
  {
    if a >= 0 then a % b else -((-a) % b)
  }

  /** `Math.floor(diff / 3600000)`. */
  function Hours(diff: int): int { diff / HourMs }

  /** `Math.floor((diff % 3600000) / 60000)`. */
  function Minutes(diff: int): int { JsRem(diff, HourMs) / MinuteMs }

  function ResetLabelOf(t: ResetTime): (r: ResetLabel)
    ensures t == NoResetTime <==> r == Unlimited
    ensures t == Unparsable <==> r == NotANumber
    ensures t.Diff? && t.ms < 0 <==> r == Expired
  {
    match t
    case NoResetTime => Unlimited
    case Unparsable => NotANumber
    case Diff(diff) =>
      var hours := Hours(diff);
      var minutes := Minutes(diff);
      if diff < 0 then Expired
      else if hours > 24 then InDays(hours / 24)
      else if hours > 0 then InHoursMinutes(hours, minutes)
      else InMinutes(minutes)
  }

  /** For a future reset the label is decided by the whole hours left. */
  lemma ResetLabelOfDiff(diff: int)
    requires diff >= 0
    ensures var hours, minutes := diff / HourMs, (diff % HourMs) / MinuteMs;
      && (hours > 24 ==> ResetLabelOf(Diff(diff)) == InDays(hours / 24))
      && (0 < hours <= 24 ==> ResetLabelOf(Diff(diff)) == InHoursMinutes(hours, minutes))
      && (hours == 0 ==> ResetLabelOf(Diff(diff)) == InMinutes(minutes))
  {
  }

  /**
   * The numbers shown are the whole days, hours and minutes left: hours and minutes
   * are the floor of the time left, and the minutes are those of the last started hour.
   */
  lemma ResetLabelBounds(diff: int)
    requires diff >= 0
    ensures var hours, minutes := Hours(diff), Minutes(diff);
      && hours * HourMs <= diff < (hours + 1) * HourMs
      && 0 <= minutes < 60
      && minutes * MinuteMs <= diff - hours * HourMs < (minutes + 1) * MinuteMs
  {
    var hours, rem := diff / HourMs, diff % HourMs;
    assert diff == hours * HourMs + rem;
    assert JsRem(diff, HourMs) == rem;
  }

  /** More than a day ahead, the label shows the whole days left. */
  lemma ResetDaysAreWholeDays(diff: int)
    requires diff >= 0 && Hours(diff) > 24
    ensures ResetLabelOf(Diff(diff)) == InDays(diff / (24 * HourMs))
  {
    var days, rest := diff / (24 * HourMs), diff % (24 * HourMs);
    assert diff == 24 * HourMs * days + rest;
    assert diff == HourMs * (24 * days) + rest;
    assert Hours(diff) == 24 * days + rest / HourMs;
    assert 0 <= rest / HourMs < 24;
  }

  /** The text the reset-time cell shows. */
  function FormatResetTime(t: ResetTime): string {
    match ResetLabelOf(t)
    case Unlimited => "无限制"
    case Expired => "已过期"
    case InDays(days) => Decimal(days) + "天后"
    case InHoursMinutes(hours, minutes) => Decimal(hours) + "小时" + Decimal(minutes) + "分钟后"
    case InMinutes(minutes) => Decimal(minutes) + "分钟后"
    case NotANumber => "NaN分钟后"
  }

  /** No reset time reads as unlimited, and a past one as expired. */
  lemma FormatResetTimeFixedTexts(t: ResetTime)
    ensures t == NoResetTime ==> FormatResetTime(t) == "无限制"
    ensures t.Diff? && t.ms < 0 ==> FormatResetTime(t) == "已过期"
  {
  }

  /** An hour and a half ahead reads as one hour thirty minutes. */
  lemma FormatResetTimeExample()
    ensures FormatResetTime(Diff(5400000)) == "1小时30分钟后"
  {
    assert ResetLabelOf(Diff(5400000)) == InHoursMinutes(1, 30);
    assert Decimal(1) == "1";
    assert Decimal(3) == "3";
    assert Decimal(30) == "30" by { assert Decimal(30) == Decimal(3) + [DigitChar(0)]; }
  }

  // The availability badge.

  /** `total_quota > 0 && status === 1`. */
  predicate IsAvailable(stats: ModelStats) {
    stats.totalQuota > 0.0 && stats.status == 1
  }

  /** In a sorted table, the available entries come before every entry whose quota is used up. */
  lemma AvailableBeforeExhausted(sorted: seq<ModelData>, p: nat, q: nat)
    requires SortedByQuota(sorted) && p < |sorted| && q < |sorted|
    requires IsAvailable(sorted[p].stats) && sorted[q].stats.totalQuota <= 0.0
    ensures p < q
  {
  }
}
