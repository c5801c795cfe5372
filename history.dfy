/** The run history list that every table page starts from (`fetchHistoryList`
    in shared.js): the configured history sources are fetched one after the
    other, each run record of a successful response is normalised in place
    (relative URLs made absolute, missing fields created as null, a display
    name derived), the runs are collected in one list and that list is sorted
    by run id, newest first.

    The network is a parameter: `fetch(url)` is what `window.fetch` answers for
    a history list, and `resolve(rel, base)` is `new URL(rel, base).toString()`. */
module History {
  import opened Common
  import opened Strings

  /** One `{name, url}` entry of the history configuration. */
  datatype HistorySource = HistorySource(name: string, url: string)

  /** A run record of a history list. Its `run_id` is a string; every other key
      of the JSON object is in `fields`. */
  datatype RawRun = RawRun(runId: string, fields: map<string, Json>)

  /** What fetching `./config.json` gave: a network or JSON failure (both are
      caught), or a response with its status and its `histories` list. */
  datatype ConfigFetch = ConfigUnavailable | ConfigResponse(status: int, histories: seq<HistorySource>)

  /** What fetching one history list gave: a network failure, or a response with
      its status, its final URL and its body (`None` when it is not JSON). */
  datatype HistoryFetch = NetworkError | Response(status: int, url: string, body: Option<seq<RawRun>>)

  /** Ways in which `fetchHistoryList` rejects (an uncaught exception). */
  datatype HistoryError =
    | FetchFailed(url: string)
    | BodyNotJson(url: string)
    | UrlFieldNotText(field: string)
    | StartTimeNotText

  const DefaultHistories: seq<HistorySource> :=
    [HistorySource("ATP", "https://data.alltheplaces.xyz/runs/history.json")]

  const UrlFields: seq<string> := ["insights_url", "output_url", "stats_url"]

  const DefaultedFields: seq<string> := ["size_bytes", "spiders", "stats_url", "total_lines"]

  /** A `config.json` answered with status 200 replaces the default ATP history. */
  function ChooseHistories(config: ConfigFetch): (hs: seq<HistorySource>)
    ensures config.ConfigResponse? && config.status == 200 ==> hs == config.histories
    ensures !(config.ConfigResponse? && config.status == 200) ==> hs == DefaultHistories
  {
    if config.ConfigResponse? && config.status == 200 then config.histories else DefaultHistories
  }

  // ---------------------------------------------------------------------------
  // Normalising one run record.

  /** Make one URL field absolute against `base`, unless it already starts with
      "http". A present value that is not a string makes `startsWith` throw. */
  function ResolveField(fields: map<string, Json>, f: string, base: string,
                        resolve: (string, string) -> string): (r: Result<map<string, Json>, HistoryError>)
    ensures r.Err? <==> f in fields && !fields[f].Text?
    ensures r.Err? ==> r.error == UrlFieldNotText(f)
    ensures r.Ok? ==> r.value == if f in fields then fields[f := ResolvedValue(fields[f], base, resolve)] else fields
  {
    if f !in fields then Ok(fields)
    else match fields[f]
      case Text(s) => if StartsWith(s, "http") then Ok(fields) else Ok(fields[f := Text(resolve(s, base))])
      case _ => Err(UrlFieldNotText(f))
  }

  /** Resolve the listed fields one after the other; the first one that is
      present but not a string stops the loop, and names that field.
      Resolution never adds or removes a field. */
  function ResolveFields(fields: map<string, Json>, fs: seq<string>, base: string,
                         resolve: (string, string) -> string): (r: Result<map<string, Json>, HistoryError>)
    ensures r.Ok? ==> r.value.Keys == fields.Keys
    ensures r.Err? ==> r.error.UrlFieldNotText? && r.error.field in fs && r.error.field in fields
  {
    if fs == [] then Ok(fields)
    else match ResolveFields(fields, fs[..|fs| - 1], base, resolve)
      case Err(e) => Err(e)
      case Ok(m) => ResolveField(m, fs[|fs| - 1], base, resolve)
  }

  function DefaultFields(fields: map<string, Json>, fs: seq<string>): map<string, Json>
  {
    if fs == [] then fields
    else
      var m := DefaultFields(fields, fs[..|fs| - 1]);
      var f := fs[|fs| - 1];
      if f in m then m else m[f := Null]
  }

  predicate IsLineTerminator(c: char)
  {
    c == '\n' || c == '\r' || c == '\U{2028}' || c == '\U{2029}'
  }

  predicate NoLineTerminator(s: string)
  {
    forall i :: 0 <= i < |s| ==> !IsLineTerminator(s[i])
  }

  /** Does the regular expression /T.*$/ match at position `i` of `s`? */
  predicate MatchesAt(s: string, i: nat)
    requires i < |s|
  {
    s[i] == 'T' && NoLineTerminator(s[i + 1..])
  }

  /** The leftmost position at or after `from` where /T.*$/ matches, or |s|. */
  function MatchStart(s: string, from: nat): (i: nat)
    requires from <= |s|
    ensures from <= i <= |s|
    ensures i < |s| ==> MatchesAt(s, i)
    ensures forall k :: from <= k < i ==> !MatchesAt(s, k)
    decreases |s| - from
  {
    if from == |s| then |s|
    else if MatchesAt(s, from) then from
    else MatchStart(s, from + 1)
  }

  /** `s.replace(/T.*$/, "")`: drop the leftmost match of /T.*$/ and all after it. */
  function StripFromT(s: string): (r: string)
    ensures StartsWith(s, r)
    ensures |r| < |s| ==> MatchesAt(s, |r|)
    ensures forall k :: 0 <= k < |r| ==> !MatchesAt(s, k)
  {
    s[..MatchStart(s, 0)]
  }

  /** For a timestamp (a single line) the name part is everything before the
      first "T", and it contains no "T". */
  lemma StripFromTSingleLine(s: string, t: nat)
    requires NoLineTerminator(s)
    requires t < |s| && s[t] == 'T' && forall k :: 0 <= k < t ==> s[k] != 'T'
    ensures StripFromT(s) == s[..t]
    ensures forall k :: 0 <= k < |StripFromT(s)| ==> StripFromT(s)[k] != 'T'
  {
    assert MatchesAt(s, t);
  }

  function DisplayName(startTime: string, historyName: string): string
  {
    StripFromT(startTime) + " (" + historyName + ")"
  }

  /** The whole per-run normalisation of `fetchHistoryList` (shared.js:35-49).
      It keeps the run id, always yields a `name`, and fails only on a URL
      field or `start_time` that is not a string. */
  function NormaliseRun(raw: RawRun, base: string, historyName: string,
                        resolve: (string, string) -> string): (r: Result<RawRun, HistoryError>)
    ensures r.Ok? ==>
      && r.value.runId == raw.runId
      && "name" in r.value.fields
    ensures r.Err? ==>
      || r.error == StartTimeNotText
      || (r.error.UrlFieldNotText? && r.error.field in UrlFields && r.error.field in raw.fields)
  {
    match ResolveFields(raw.fields, UrlFields, base, resolve)
    case Err(e) => Err(e)
    case Ok(m) =>
      var d := DefaultFields(m, DefaultedFields);
      if "start_time" in d && d["start_time"].Text? then
        Ok(RawRun(raw.runId, d["name" := Text(DisplayName(d["start_time"].s, historyName))]))
      else Err(StartTimeNotText)
  }

  /** The value a URL field has after resolution, given its value before. */
  function ResolvedValue(v: Json, base: string, resolve: (string, string) -> string): Json
  {
    if v.Text? && !StartsWith(v.s, "http") then Text(resolve(v.s, base)) else v
  }

  predicate IsNormalisedKey(k: string)
  {
    k in UrlFields || k in DefaultedFields || k == "name"
  }

  function Elements(fs: seq<string>): set<string>
  {
    set f | f in fs
  }

  ghost predicate Distinct(fs: seq<string>)
  {
    forall i, j :: 0 <= i < j < |fs| ==> fs[i] != fs[j]
  }

  /** Resolving a list of distinct fields succeeds exactly when each of them is
      absent or a string, and then resolves each present one and nothing else. */
  lemma {:induction false} ResolveFieldsMeaning(fields: map<string, Json>, fs: seq<string>, base: string,
                                                resolve: (string, string) -> string)
    requires Distinct(fs)
    ensures ResolveFields(fields, fs, base, resolve).Ok? <==>
      forall f :: f in fs && f in fields ==> fields[f].Text?
    ensures ResolveFields(fields, fs, base, resolve).Ok? ==>
      ResolveFields(fields, fs, base, resolve).value ==
        map k | k in fields :: if k in fs then ResolvedValue(fields[k], base, resolve) else fields[k]
  {
    if fs != [] {
      var init := fs[..|fs| - 1];
      var f := fs[|fs| - 1];
      assert Distinct(init);
      ResolveFieldsMeaning(fields, init, base, resolve);
      assert f !in init;
      assert forall g :: g in fs <==> g in init || g == f;
    }
  }

  /** Defaulting creates each listed field that is absent, as null, and leaves
      every present field as it was. */
  lemma {:induction false} DefaultFieldsMeaning(m: map<string, Json>, fs: seq<string>)
    ensures DefaultFields(m, fs) == map k | k in m.Keys + Elements(fs) :: if k in m then m[k] else Null
  {
    if fs != [] {
      DefaultFieldsMeaning(m, fs[..|fs| - 1]);
      assert forall g :: g in fs <==> g in fs[..|fs| - 1] || g == fs[|fs| - 1];
    }
  }

  lemma NormaliseSteps(raw: RawRun, base: string, historyName: string, resolve: (string, string) -> string)
    ensures ResolveFields(raw.fields, UrlFields, base, resolve).Ok? <==>
      forall f :: f in UrlFields && f in raw.fields ==> raw.fields[f].Text?
    ensures ResolveFields(raw.fields, UrlFields, base, resolve).Ok? ==>
      DefaultFields(ResolveFields(raw.fields, UrlFields, base, resolve).value, DefaultedFields) ==
        map k | k in raw.fields.Keys + Elements(DefaultedFields) ::
          if k !in raw.fields then Null
          else if k in UrlFields then ResolvedValue(raw.fields[k], base, resolve)
          else raw.fields[k]
  {
    ResolveFieldsMeaning(raw.fields, UrlFields, base, resolve);
    if ResolveFields(raw.fields, UrlFields, base, resolve).Ok? {
      DefaultFieldsMeaning(ResolveFields(raw.fields, UrlFields, base, resolve).value, DefaultedFields);
    }
  }

  /** A run is normalised unless one of its URL fields is present but not a
      string, or its start_time is not a string. */
  lemma NormaliseRunFails(raw: RawRun, base: string, historyName: string, resolve: (string, string) -> string)
    ensures NormaliseRun(raw, base, historyName, resolve).Err? <==>
      (exists f :: f in UrlFields && f in raw.fields && !raw.fields[f].Text?)
      || !("start_time" in raw.fields && raw.fields["start_time"].Text?)
  {
    NormaliseSteps(raw, base, historyName, resolve);
  }

  /** The fields of a normalised run, written out key by key. */
  ghost function NormalisedFields(raw: RawRun, base: string, historyName: string,
                                  resolve: (string, string) -> string): map<string, Json>
    requires "start_time" in raw.fields && raw.fields["start_time"].Text?
  {
    var d := map k | k in raw.fields.Keys + Elements(DefaultedFields) ::
      if k !in raw.fields then Null
      else if k in UrlFields then ResolvedValue(raw.fields[k], base, resolve)
      else raw.fields[k];
    d["name" := Text(DisplayName(raw.fields["start_time"].s, historyName))]
  }

  lemma NormaliseRunValue(raw: RawRun, base: string, historyName: string,
                          resolve: (string, string) -> string)
    requires NormaliseRun(raw, base, historyName, resolve).Ok?
    ensures "start_time" in raw.fields && raw.fields["start_time"].Text?
    ensures NormaliseRun(raw, base, historyName, resolve).value ==
      RawRun(raw.runId, NormalisedFields(raw, base, historyName, resolve))
  {
    NormaliseSteps(raw, base, historyName, resolve);
    var d := DefaultFields(ResolveFields(raw.fields, UrlFields, base, resolve).value, DefaultedFields);
    assert "start_time" in raw.fields && d["start_time"] == raw.fields["start_time"];
  }

  /** What normalisation does to the URL fields (shared.js:35-48): a present
      URL field is resolved unless it starts with "http", an absent one stays
      absent except `stats_url`, which is created as null (so a defaulted
      `stats_url` is never resolved). */
  lemma NormaliseRunUrls(raw: RawRun, base: string, historyName: string,
                         resolve: (string, string) -> string)
    requires NormaliseRun(raw, base, historyName, resolve).Ok?
    ensures var r := NormaliseRun(raw, base, historyName, resolve).value;
      && (forall f :: f in UrlFields && f in raw.fields ==>
            f in r.fields && r.fields[f] == ResolvedValue(raw.fields[f], base, resolve))
      && ("insights_url" !in raw.fields ==> "insights_url" !in r.fields)
      && ("output_url" !in raw.fields ==> "output_url" !in r.fields)
      && "stats_url" in r.fields
      && ("stats_url" !in raw.fields ==> r.fields["stats_url"] == Null)
  {
    NormaliseRunValue(raw, base, historyName, resolve);
  }

  /** What normalisation does to the other fields it names (shared.js:44-49):
      `size_bytes`, `spiders` and `total_lines` keep their value and are null
      only where they were absent, and `name` is the date part of
      `start_time` and the history name. */
  lemma NormaliseRunFields(raw: RawRun, base: string, historyName: string,
                           resolve: (string, string) -> string)
    requires NormaliseRun(raw, base, historyName, resolve).Ok?
    ensures var r := NormaliseRun(raw, base, historyName, resolve).value;
      && (forall f :: f in ["size_bytes", "spiders", "total_lines"] ==>
            f in r.fields && r.fields[f] == (if f in raw.fields then raw.fields[f] else Null))
      && "start_time" in raw.fields && raw.fields["start_time"].Text? && "name" in r.fields
      && r.fields["name"] == Text(DisplayName(raw.fields["start_time"].s, historyName))
  {
    NormaliseRunValue(raw, base, historyName, resolve);
  }

  /** Normalisation leaves the run id and every field it does not name alone. */
  lemma NormaliseRunKeepsOthers(raw: RawRun, base: string, historyName: string,
                                resolve: (string, string) -> string)
    requires NormaliseRun(raw, base, historyName, resolve).Ok?
    ensures var r := NormaliseRun(raw, base, historyName, resolve).value;
      && r.runId == raw.runId
      && (forall k :: !IsNormalisedKey(k) ==>
            (k in r.fields <==> k in raw.fields) && (k in r.fields ==> r.fields[k] == raw.fields[k]))
  {
    NormaliseRunValue(raw, base, historyName, resolve);
  }

  /** After normalisation `stats_url` is null or a string, and `output_url` is
      absent or a string: the shapes the table renderers rely on. */
  lemma NormalisedUrlShapes(raw: RawRun, base: string, historyName: string,
                            resolve: (string, string) -> string)
    requires NormaliseRun(raw, base, historyName, resolve).Ok?
    ensures var r := NormaliseRun(raw, base, historyName, resolve).value;
      && "stats_url" in r.fields && (r.fields["stats_url"].Null? || r.fields["stats_url"].Text?)
      && ("output_url" in r.fields ==> r.fields["output_url"].Text?)
  {
    NormaliseRunUrls(raw, base, historyName, resolve);
    NormaliseRunFails(raw, base, historyName, resolve);
  }

  // ---------------------------------------------------------------------------
  // Collecting the runs of all histories.

  /** Apply `step` to each record in order; the first record it fails on
      stops the loop. */
  function NormaliseEach(raws: seq<RawRun>, step: RawRun -> Result<RawRun, HistoryError>)
    : (r: Result<seq<RawRun>, HistoryError>)
    ensures r.Ok? ==> |r.value| == |raws|
  {
    if raws == [] then Ok([])
    else match NormaliseEach(raws[..|raws| - 1], step)
      case Err(e) => Err(e)
      case Ok(done) =>
        match step(raws[|raws| - 1])
        case Err(e) => Err(e)
        case Ok(r) => Ok(done + [r])
  }

  /** The loop succeeds exactly when `step` succeeds on each record, and then
      yields the step's results in order. */
  lemma {:induction false} NormaliseEachMeaning(raws: seq<RawRun>, step: RawRun -> Result<RawRun, HistoryError>)
    ensures NormaliseEach(raws, step).Ok? <==> forall i :: 0 <= i < |raws| ==> step(raws[i]).Ok?
    ensures NormaliseEach(raws, step).Ok? ==>
      forall i :: 0 <= i < |raws| ==> step(raws[i]) == Ok(NormaliseEach(raws, step).value[i])
  {
    if raws != [] {
      var init := raws[..|raws| - 1];
      NormaliseEachMeaning(init, step);
      assert forall i :: 0 <= i < |init| ==> init[i] == raws[i];
    }
  }

  /** Normalise the records of one history list in order. */
  function NormaliseAll(raws: seq<RawRun>, base: string, historyName: string,
                        resolve: (string, string) -> string): (r: Result<seq<RawRun>, HistoryError>)
    ensures r.Ok? ==> |r.value| == |raws|
  {
    NormaliseEach(raws, raw => NormaliseRun(raw, base, historyName, resolve))
  }

  /** A history list normalises exactly when each of its records does, and
      then into those records' normal forms, in order. */
  lemma NormaliseAllMeaning(raws: seq<RawRun>, base: string, historyName: string,
                            resolve: (string, string) -> string)
    ensures NormaliseAll(raws, base, historyName, resolve).Ok? <==>
      forall i :: 0 <= i < |raws| ==> NormaliseRun(raws[i], base, historyName, resolve).Ok?
    ensures NormaliseAll(raws, base, historyName, resolve).Ok? ==>
      forall i :: 0 <= i < |raws| ==>
        NormaliseRun(raws[i], base, historyName, resolve) == Ok(NormaliseAll(raws, base, historyName, resolve).value[i])
  {
    NormaliseEachMeaning(raws, raw => NormaliseRun(raw, base, historyName, resolve));
  }

  /** The runs one history contributes, after the ones collected before it. */
  function AddHistory(prefix: seq<RawRun>, h: HistorySource, fetch: string -> HistoryFetch,
                      resolve: (string, string) -> string): (r: Result<seq<RawRun>, HistoryError>)
    ensures fetch(h.url).NetworkError? ==> r == Err(FetchFailed(h.url))
    ensures fetch(h.url).Response? && fetch(h.url).status != 200 ==> r == Ok(prefix)
    ensures fetch(h.url).Response? && fetch(h.url).status == 200 && fetch(h.url).body.None? ==>
      r == Err(BodyNotJson(h.url))
    ensures fetch(h.url).Response? && fetch(h.url).status == 200 && fetch(h.url).body.Some? ==>
      var f := fetch(h.url);
      var rs := NormaliseAll(f.body.value, f.url, h.name, resolve);
      && (r.Ok? <==> rs.Ok?)
      && (r.Ok? ==> |prefix| <= |r.value| && r.value[..|prefix|] == prefix && r.value[|prefix|..] == rs.value)
  {
    match fetch(h.url)
    case NetworkError => Err(FetchFailed(h.url))
    case Response(status, url, body) =>
      if status != 200 then Ok(prefix)
      else match body
        case None => Err(BodyNotJson(h.url))
        case Some(raws) =>
          match NormaliseAll(raws, url, h.name, resolve)
          case Err(e) => Err(e)
          case Ok(rs) => Ok(prefix + rs)
  }

  /** The runs of all histories in the order they are listed; the first
      history whose fetch throws stops it. Only answers with status 200
      contribute runs, one per record. */
  function Collect(hs: seq<HistorySource>, fetch: string -> HistoryFetch,
                   resolve: (string, string) -> string): (r: Result<seq<RawRun>, HistoryError>)
    ensures r.Ok? ==> |r.value| == ContributedRuns(hs, fetch)
  {
    if hs == [] then Ok([])
    else match Collect(hs[..|hs| - 1], fetch, resolve)
      case Err(e) => Err(e)
      case Ok(prefix) =>
        var r := AddHistory(prefix, hs[|hs| - 1], fetch, resolve);
        assert r.Ok? ==> |r.value| == |prefix| + |r.value[|prefix|..]|;
        r
  }

  /** The number of run records in the answers with status 200. */
  function ContributedRuns(hs: seq<HistorySource>, fetch: string -> HistoryFetch): nat
  {
    if hs == [] then 0
    else
      var r := fetch(hs[|hs| - 1].url);
      ContributedRuns(hs[..|hs| - 1], fetch)
        + if r.Response? && r.status == 200 && r.body.Some? then |r.body.value| else 0
  }

  /** One history's contribution does not depend on the runs collected
      before it. */
  lemma AddHistoryPrefix(p: seq<RawRun>, q: seq<RawRun>, h: HistorySource, fetch: string -> HistoryFetch,
                         resolve: (string, string) -> string)
    ensures AddHistory(p + q, h, fetch, resolve).Ok? <==> AddHistory(q, h, fetch, resolve).Ok?
    ensures AddHistory(p + q, h, fetch, resolve).Ok? ==>
      AddHistory(p + q, h, fetch, resolve).value == p + AddHistory(q, h, fetch, resolve).value
  {
    var f := fetch(h.url);
    if f.Response? && f.status == 200 && f.body.Some? {
      var rs := NormaliseAll(f.body.value, f.url, h.name, resolve);
      if rs.Ok? {
        assert p + q + rs.value == p + (q + rs.value);
      }
    }
  }

  /** The collected runs, in order: those of the first `n` histories followed
      by those of the rest; collecting fails exactly when one part does. */
  lemma {:induction false} CollectAppend(hs: seq<HistorySource>, n: nat, fetch: string -> HistoryFetch,
                                         resolve: (string, string) -> string)
    requires n <= |hs|
    ensures Collect(hs, fetch, resolve).Ok? <==>
      Collect(hs[..n], fetch, resolve).Ok? && Collect(hs[n..], fetch, resolve).Ok?
    ensures Collect(hs, fetch, resolve).Ok? ==>
      Collect(hs, fetch, resolve).value == Collect(hs[..n], fetch, resolve).value + Collect(hs[n..], fetch, resolve).value
  {
    if n == |hs| {
      assert hs[..n] == hs;
      assert hs[n..] == [];
    } else {
      var init := hs[..|hs| - 1];
      var tail := hs[n..];
      CollectAppend(init, n, fetch, resolve);
      assert init[..n] == hs[..n];
      assert tail[..|tail| - 1] == init[n..];
      assert tail[|tail| - 1] == hs[|hs| - 1];
      var front := Collect(hs[..n], fetch, resolve);
      var back := Collect(init[n..], fetch, resolve);
      if front.Ok? && back.Ok? {
        AddHistoryPrefix(front.value, back.value, hs[|hs| - 1], fetch, resolve);
      }
    }
  }

  lemma {:induction false} NormaliseAllErr(raws: seq<RawRun>, n: nat, base: string, historyName: string,
                                           resolve: (string, string) -> string)
    requires n <= |raws|
    requires NormaliseAll(raws[..n], base, historyName, resolve).Err?
    ensures NormaliseAll(raws, base, historyName, resolve) == NormaliseAll(raws[..n], base, historyName, resolve)
    decreases |raws| - n
  {
    if n < |raws| {
      assert raws[..n + 1][..n] == raws[..n];
      NormaliseAllErr(raws, n + 1, base, historyName, resolve);
    } else {
      assert raws[..n] == raws;
    }
  }

  lemma NormaliseAllSnoc(raws: seq<RawRun>, j: nat, base: string, historyName: string,
                         resolve: (string, string) -> string)
    requires j < |raws|
    ensures NormaliseAll(raws[..j + 1], base, historyName, resolve) ==
      match NormaliseAll(raws[..j], base, historyName, resolve)
      case Err(e) => Err(e)
      case Ok(done) =>
        match NormaliseRun(raws[j], base, historyName, resolve)
        case Err(e) => Err(e)
        case Ok(r) => Ok(done + [r])
  {
    assert raws[..j + 1][..j] == raws[..j];
    assert raws[..j + 1][j] == raws[j];
  }

  lemma {:induction false} CollectErr(hs: seq<HistorySource>, n: nat, fetch: string -> HistoryFetch,
                                      resolve: (string, string) -> string)
    requires n <= |hs|
    requires Collect(hs[..n], fetch, resolve).Err?
    ensures Collect(hs, fetch, resolve) == Collect(hs[..n], fetch, resolve)
    decreases |hs| - n
  {
    if n < |hs| {
      assert hs[..n + 1][..n] == hs[..n];
      CollectErr(hs, n + 1, fetch, resolve);
    } else {
      assert hs[..n] == hs;
    }
  }

  lemma {:induction false} ResolveFieldsErr(fields: map<string, Json>, fs: seq<string>, n: nat, base: string,
                                            resolve: (string, string) -> string)
    requires n <= |fs|
    requires ResolveFields(fields, fs[..n], base, resolve).Err?
    ensures ResolveFields(fields, fs, base, resolve) == ResolveFields(fields, fs[..n], base, resolve)
    decreases |fs| - n
  {
    if n < |fs| {
      assert fs[..n + 1][..n] == fs[..n];
      ResolveFieldsErr(fields, fs, n + 1, base, resolve);
    } else {
      assert fs[..n] == fs;
    }
  }

  function RunKey(r: RawRun): string
  {
    r.runId
  }

  /** `history_runs.sort(...)`: by run id, newest (largest) first. */
  function SortRuns(runs: seq<RawRun>): seq<RawRun>
  {
    SortBy(runs, RunKey, true)
  }

  /** The sorted list is a permutation of the collected runs, in non-increasing
      run id order. */
  lemma SortRunsSpec(runs: seq<RawRun>)
    ensures multiset(SortRuns(runs)) == multiset(runs)
    ensures forall i, j :: 0 <= i < j < |SortRuns(runs)| ==>
      !Less(SortRuns(runs)[i].runId, SortRuns(runs)[j].runId)
  {
    SortBySorted(runs, RunKey, true);
  }

  // ---------------------------------------------------------------------------
  // The procedure itself.

  /** Normalise one run record in place, field list by field list. */
  method NormaliseRunInPlace(raw: RawRun, base: string, historyName: string,
                             resolve: (string, string) -> string)
    returns (result: Result<RawRun, HistoryError>)
    ensures result == NormaliseRun(raw, base, historyName, resolve)
  {
    var runData := raw.fields;
    for k := 0 to |UrlFields|
      invariant ResolveFields(raw.fields, UrlFields[..k], base, resolve) == Ok(runData)
    {
      var f := UrlFields[k];
      assert UrlFields[..k + 1][..k] == UrlFields[..k];
      if f in runData {
        match runData[f]
        case Text(s) =>
          if !StartsWith(s, "http") {
            runData := runData[f := Text(resolve(s, base))];
          }
        case _ =>
          ResolveFieldsErr(raw.fields, UrlFields, k + 1, base, resolve);
          return Err(UrlFieldNotText(f));
      }
    }
    assert UrlFields[..|UrlFields|] == UrlFields;
    ghost var resolved := runData;
    for k := 0 to |DefaultedFields|
      invariant runData == DefaultFields(resolved, DefaultedFields[..k])
    {
      assert DefaultedFields[..k + 1][..k] == DefaultedFields[..k];
      if DefaultedFields[k] !in runData {
        runData := runData[DefaultedFields[k] := Null];
      }
    }
    assert DefaultedFields[..|DefaultedFields|] == DefaultedFields;
    if "start_time" in runData && runData["start_time"].Text? {
      runData := runData["name" := Text(DisplayName(runData["start_time"].s, historyName))];
      result := Ok(RawRun(raw.runId, runData));
    } else {
      result := Err(StartTimeNotText);
    }
  }

  /** The body of the loop over history sources: fetch one history list and
      push each of its normalised runs onto `historyRuns`. */
  method AppendHistoryRuns(historyRuns: seq<RawRun>, h: HistorySource, fetch: string -> HistoryFetch,
                           resolve: (string, string) -> string)
    returns (result: Result<seq<RawRun>, HistoryError>)
    ensures result == AddHistory(historyRuns, h, fetch, resolve)
  {
    var response := fetch(h.url);
    if response.NetworkError? {
      return Err(FetchFailed(h.url));
    }
    var runs := historyRuns;
    if response.status == 200 {
      if response.body.None? {
        return Err(BodyNotJson(h.url));
      }
      var raws := response.body.value;
      var j := 0;
      while j < |raws|
        invariant 0 <= j <= |raws|
        invariant NormaliseAll(raws[..j], response.url, h.name, resolve).Ok?
        invariant runs == historyRuns + NormaliseAll(raws[..j], response.url, h.name, resolve).value
      {
        NormaliseAllSnoc(raws, j, response.url, h.name, resolve);
        var run := NormaliseRunInPlace(raws[j], response.url, h.name, resolve);
        if run.Err? {
          NormaliseAllErr(raws, j + 1, response.url, h.name, resolve);
          return Err(run.error);
        }
        runs := runs + [run.value];
        j := j + 1;
      }
      assert raws[..j] == raws;
    }
    result := Ok(runs);
  }

  /** `fetchHistoryList`: the runs of every history source answered with status
      200, normalised, newest first; or the exception that stops it. */
  method FetchHistoryList(config: ConfigFetch, fetch: string -> HistoryFetch,
                          resolve: (string, string) -> string)
    returns (result: Result<seq<RawRun>, HistoryError>)
    ensures Collect(ChooseHistories(config), fetch, resolve).Err? ==>
      result == Err(Collect(ChooseHistories(config), fetch, resolve).error)
    ensures Collect(ChooseHistories(config), fetch, resolve).Ok? ==>
      result == Ok(SortRuns(Collect(ChooseHistories(config), fetch, resolve).value))
    ensures result.Ok? ==>
      && multiset(result.value) == multiset(Collect(ChooseHistories(config), fetch, resolve).value)
      && |result.value| == ContributedRuns(ChooseHistories(config), fetch)
      && forall i, j :: 0 <= i < j < |result.value| ==> !Less(result.value[i].runId, result.value[j].runId)
  {
    var histories := ChooseHistories(config);
    var historyRuns: seq<RawRun> := [];
    var i := 0;
    while i < |histories|
      invariant 0 <= i <= |histories|
      invariant Collect(histories[..i], fetch, resolve) == Ok(historyRuns)
    {
      assert histories[..i + 1][..i] == histories[..i];
      var added := AppendHistoryRuns(historyRuns, histories[i], fetch, resolve);
      if added.Err? {
        CollectErr(histories, i + 1, fetch, resolve);
        return Err(added.error);
      }
      historyRuns := added.value;
      i := i + 1;
    }
    assert histories[..i] == histories;
    SortRunsSpec(historyRuns);
    assert |multiset(SortRuns(historyRuns))| == |multiset(historyRuns)|;
    result := Ok(SortRuns(historyRuns));
  }
}
