/** The history log: the list of completed jobs kept in local storage,
    newest first, at most one entry per job id, capped at 50 entries. These
    are the pure functions the AppState methods are specified by. */
module History {
  import opened Values

  const MAX_HISTORY_ITEMS: nat := 50
  /** How far a quota-exceeded save trims the log before it retries. */
  const QUOTA_TRIM: nat := 20
  const HISTORY_KEY: string := "slideHistory"

  /** The text a storage key holds, as JSON.parse sees it: the serialization
      of a value, the empty string, or text that is not JSON. */
  datatype StoredText = Serialized(value: Json) | EmptyText | Garbage

  /** What one localStorage.setItem does: store, throw a QuotaExceededError,
      or throw anything else. */
  datatype WriteOutcome = Written | QuotaExceeded | WriteFailed

  /** `h.slice(0, n)`. */
  function Prefix(h: seq<Json>, n: nat): (r: seq<Json>)
    ensures |r| == if |h| <= n then |h| else n
    ensures r == h[..|r|]
  {
    if |h| <= n then h else h[..n]
  }

  /** `loadHistory()`, given what the history key holds (None when the key is
      missing). */
  function LoadHistory(stored: Option<StoredText>): (r: seq<Json>)
    ensures |r| <= MAX_HISTORY_ITEMS
    ensures stored.Some? && stored.value.Serialized? && stored.value.value.JArr?
      ==> r == Prefix(stored.value.value.items, MAX_HISTORY_ITEMS)
    ensures !(stored.Some? && stored.value.Serialized? && stored.value.value.JArr?) ==> r == []
  {
    match stored
    case None => []            // `null || '[]'`
    case Some(EmptyText) => [] // `'' || '[]'`
    case Some(Garbage) => []   // JSON.parse throws; the error is caught
    case Some(Serialized(v)) => if v.JArr? then Prefix(v.items, MAX_HISTORY_ITEMS) else []
  }

  datatype Saved = Saved(history: seq<Json>, storage: map<string, StoredText>)

  /** `saveHistory()`: the in-memory log and the storage afterwards, given
      how the first write and the retry write turn out. */
  function SaveHistory(h: seq<Json>, storage: map<string, StoredText>,
                       first: WriteOutcome, retry: WriteOutcome): (r: Saved)
    ensures forall k :: k != HISTORY_KEY ==>
      (k in r.storage <==> k in storage) && (k in storage ==> r.storage[k] == storage[k])
  {
    match first
    case Written => Saved(h, storage[HISTORY_KEY := Serialized(JArr(h))])
    case QuotaExceeded =>
      var trimmed := Prefix(h, QUOTA_TRIM);
      if retry == Written then Saved(trimmed, storage[HISTORY_KEY := Serialized(JArr(trimmed))])
      else Saved(trimmed, storage)
    case WriteFailed => Saved(h, storage)
  }

  /** Saving never fails outward and can only shorten the log: the log kept
      in memory is a prefix of the old one, the whole of it unless the quota
      was exceeded, and at least its 20 newest entries; storage afterwards
      either is unchanged or holds exactly the log kept in memory. A write
      that goes through stores the whole log; on a quota error the log is
      cut to its 20 newest entries and stored only if the retry goes
      through; any other error keeps both as they were. */
  lemma SaveHistorySpec(h: seq<Json>, storage: map<string, StoredText>,
                        first: WriteOutcome, retry: WriteOutcome)
    ensures var r := SaveHistory(h, storage, first, retry);
      && r.history == h[..|r.history|]
      && |r.history| >= (if |h| < QUOTA_TRIM then |h| else QUOTA_TRIM)
      && (first != QuotaExceeded ==> r.history == h)
      && (r.storage == storage || r.storage == storage[HISTORY_KEY := Serialized(JArr(r.history))])
      && (r.storage != storage ==> first == Written || retry == Written)
      && (first == Written ==> r.storage == storage[HISTORY_KEY := Serialized(JArr(h))])
      && (first == QuotaExceeded ==> r.history == Prefix(h, QUOTA_TRIM))
      && (first == QuotaExceeded && retry == Written ==>
            r.storage == storage[HISTORY_KEY := Serialized(JArr(Prefix(h, QUOTA_TRIM)))])
      && (first == QuotaExceeded && retry != Written ==> r.storage == storage)
      && (first == WriteFailed ==> r == Saved(h, storage))
  {
  }

  /** Round trip: after a save whose write went through, loading gives back
      the log kept in memory, up to the cap of 50. */
  lemma SaveThenLoad(h: seq<Json>, storage: map<string, StoredText>,
                     first: WriteOutcome, retry: WriteOutcome)
    requires first == Written || (first == QuotaExceeded && retry == Written)
    ensures var r := SaveHistory(h, storage, first, retry);
      LoadHistory(Some(r.storage[HISTORY_KEY])) == Prefix(r.history, MAX_HISTORY_ITEMS)
  {
  }

  // ---------------------------------------------------------------------
  // Upsert by job id

  function JobIdOf(item: Json): Access
  {
    Get(item, "jobId")
  }

  /** The outcome of `history.findIndex(item => item.jobId === key)`. */
  datatype Search = Found(index: nat) | Absent | SearchThrew

  /** Scanning from `from`, the search meets a null item at j before any
      match. */
  predicate NullReached(h: seq<Json>, key: Access, from: nat, j: int)
  {
    from <= j < |h| && h[j] == JNull
    && forall k :: from <= k < j ==> h[k] != JNull && !SameValue(JobIdOf(h[k]), key)
  }

  function FindJobId(h: seq<Json>, key: Access, from: nat): (r: Search)
    requires from <= |h|
    ensures r.Found? ==> from <= r.index < |h| && SameValue(JobIdOf(h[r.index]), key)
    ensures r.Found? ==> forall j :: from <= j < r.index ==> h[j] != JNull && !SameValue(JobIdOf(h[j]), key)
    ensures r.Absent? <==> forall j :: from <= j < |h| ==> h[j] != JNull && !SameValue(JobIdOf(h[j]), key)
    ensures r.SearchThrew? <==> exists j :: NullReached(h, key, from, j)
    decreases |h| - from
  {
    if from == |h| then Absent
    else if h[from] == JNull then assert NullReached(h, key, from, from); SearchThrew
    else if SameValue(JobIdOf(h[from]), key) then Found(from)
    else
      var next := from + 1;
      assert forall j :: NullReached(h, key, next, j) <==> NullReached(h, key, from, j);
      FindJobId(h, key, next)
  }

  /** `findIndex` stops at the first match, so a null item after it is
      never read. */
  lemma MatchBeforeNull(item: Json, key: Access)
    requires item != JNull && SameValue(JobIdOf(item), key)
    ensures FindJobId([item, JNull], key, 0) == Found(0)
  {
  }

  /** At most one entry per job id. */
  ghost predicate UniqueJobIds(h: seq<Json>)
  {
    forall i, j :: 0 <= i < j < |h| ==> !SameValue(JobIdOf(h[i]), JobIdOf(h[j]))
  }

  /** The log after `addToHistory(entry)` and before it is saved, or None when
      the search throws on a null item. */
  function Upsert(h: seq<Json>, entry: map<string, Json>): Option<seq<Json>>
  {
    match FindJobId(h, JobIdOf(JObj(entry)), 0)
    case Found(i) => Some(Prefix(h[i := JObj(entry)], MAX_HISTORY_ITEMS))
    case Absent => Some(Prefix([JObj(entry)] + h, MAX_HISTORY_ITEMS))
    case SearchThrew => None
  }

  /** addToHistory, job id already present: the entry replaces the old one
      at the same index and the length is unchanged. */
  lemma UpsertReplaces(h: seq<Json>, entry: map<string, Json>)
    requires |h| <= MAX_HISTORY_ITEMS
    requires FindJobId(h, JobIdOf(JObj(entry)), 0).Found?
    ensures var i := FindJobId(h, JobIdOf(JObj(entry)), 0).index;
      Upsert(h, entry) == Some(h[i := JObj(entry)])
  {
    var i := FindJobId(h, JobIdOf(JObj(entry)), 0).index;
    var h' := h[i := JObj(entry)];
    assert |h'| == |h|;
    assert Prefix(h', MAX_HISTORY_ITEMS) == h';
  }

  /** addToHistory, new job id: the entry goes in front and the log is cut
      back to 50 from the end. */
  lemma UpsertPrepends(h: seq<Json>, entry: map<string, Json>)
    requires FindJobId(h, JobIdOf(JObj(entry)), 0).Absent?
    ensures |h| < MAX_HISTORY_ITEMS ==> Upsert(h, entry) == Some([JObj(entry)] + h)
    ensures |h| >= MAX_HISTORY_ITEMS ==> Upsert(h, entry) == Some([JObj(entry)] + h[..MAX_HISTORY_ITEMS - 1])
  {
    var h' := [JObj(entry)] + h;
    assert Upsert(h, entry) == Some(Prefix(h', MAX_HISTORY_ITEMS));
    if |h| >= MAX_HISTORY_ITEMS {
      assert h'[..MAX_HISTORY_ITEMS] == [JObj(entry)] + h[..MAX_HISTORY_ITEMS - 1];
    }
  }

  /** addToHistory throws exactly when a null item comes before any entry
      with the job id; otherwise the log holds the entry and at most 50
      items. */
  lemma UpsertBounded(h: seq<Json>, entry: map<string, Json>)
    requires |h| <= MAX_HISTORY_ITEMS
    ensures Upsert(h, entry).None? <==> FindJobId(h, JobIdOf(JObj(entry)), 0).SearchThrew?
    ensures Upsert(h, entry).Some? ==>
      |Upsert(h, entry).value| <= MAX_HISTORY_ITEMS && JObj(entry) in Upsert(h, entry).value
  {
    match FindJobId(h, JobIdOf(JObj(entry)), 0)
    case Found(i) =>
      var h' := h[i := JObj(entry)];
      assert Prefix(h', MAX_HISTORY_ITEMS)[i] == JObj(entry);
    case Absent =>
      assert Prefix([JObj(entry)] + h, MAX_HISTORY_ITEMS)[0] == JObj(entry);
    case SearchThrew =>
  }

  /** addToHistory keeps the log free of duplicate job ids. */
  lemma UpsertKeepsJobIdsUnique(h: seq<Json>, entry: map<string, Json>)
    requires UniqueJobIds(h)
    requires Upsert(h, entry).Some?
    ensures UniqueJobIds(Upsert(h, entry).value)
  {
    var key := JobIdOf(JObj(entry));
    match FindJobId(h, key, 0)
    case Found(i) =>
      var h' := h[i := JObj(entry)];
      forall a, b | 0 <= a < b < |h'| ensures !SameValue(JobIdOf(h'[a]), JobIdOf(h'[b])) {
        if b == i {
          assert !SameValue(JobIdOf(h[a]), key);
        } else if a == i {
          if SameValue(JobIdOf(h'[a]), JobIdOf(h'[b])) {
            SameValueSymmetric(JobIdOf(h[i]), key);
            SameValueTransitive(JobIdOf(h[i]), key, JobIdOf(h[b]));
          }
        } else {
          assert h'[a] == h[a] && h'[b] == h[b];
        }
      }
      PrefixKeepsUnique(h', MAX_HISTORY_ITEMS);
    case Absent =>
      var h' := [JObj(entry)] + h;
      forall a, b | 0 <= a < b < |h'| ensures !SameValue(JobIdOf(h'[a]), JobIdOf(h'[b])) {
        if a == 0 {
          assert h'[b] == h[b - 1];
          assert !SameValue(JobIdOf(h[b - 1]), key);
          SameValueSymmetric(key, JobIdOf(h[b - 1]));
        } else {
          assert h'[a] == h[a - 1] && h'[b] == h[b - 1];
        }
      }
      PrefixKeepsUnique(h', MAX_HISTORY_ITEMS);
    case SearchThrew =>
  }

  lemma PrefixKeepsUnique(h: seq<Json>, n: nat)
    requires UniqueJobIds(h)
    ensures UniqueJobIds(Prefix(h, n))
  {
    var r := Prefix(h, n);
    forall a, b | 0 <= a < b < |r| ensures !SameValue(JobIdOf(r[a]), JobIdOf(r[b])) {
      assert r[a] == h[a] && r[b] == h[b];
    }
  }

  // ---------------------------------------------------------------------
  // Propagating an edited slide through the log

  /** The slides array of a history item, when it has one. */
  function SlidesOf(item: Json): Option<seq<Json>>
  {
    if item.JObj? && "slides" in item.fields && item.fields["slides"].JArr?
    then Some(item.fields["slides"].items) else None
  }

  /** How a slide is recognised as the one that was edited: as the source
      compares (`===` on download_url, else on url, where two missing fields
      are equal), or only on a URL the edited slide actually has. */
  datatype MatchRule = AsWritten | DefinedUrlsOnly

  /** Whether `slide` is replaced, or None when it is null and reading its
      download_url throws. */
  function Matches(slide: Json, edited: map<string, Json>, rule: MatchRule): (r: Option<bool>)
    ensures r.None? <==> slide == JNull
  {
    if slide == JNull then None
    else
      var sameDownload := SameValue(Get(slide, "download_url"), Get(JObj(edited), "download_url"));
      var sameUrl := SameValue(Get(slide, "url"), Get(JObj(edited), "url"));
      match rule
      case AsWritten => Some(sameDownload || sameUrl)
      case DefinedUrlsOnly =>
        Some((sameDownload && "download_url" in edited) || (sameUrl && "url" in edited))
  }

  /** `slides.map(slide => matches ? editedSlide : slide)`. */
  function ReplaceSlides(slides: seq<Json>, edited: map<string, Json>, rule: MatchRule): (r: Option<seq<Json>>)
    ensures r.Some? ==> |r.value| == |slides|
  {
    if slides == [] then Some([])
    else
      var m := Matches(slides[0], edited, rule);
      var rest := ReplaceSlides(slides[1..], edited, rule);
      if m.Some? && rest.Some? then Some([if m.value then JObj(edited) else slides[0]] + rest.value)
      else None
  }

  /** One history item: an item with a slides array gets a copy with the
      slides replaced; any other item is kept; a null item throws. */
  function EditItem(item: Json, edited: map<string, Json>, rule: MatchRule): Option<Json>
  {
    if item == JNull then None
    else match SlidesOf(item)
      case None => Some(item)
      case Some(slides) =>
        match ReplaceSlides(slides, edited, rule)
        case Some(updated) => Some(JObj(item.fields["slides" := JArr(updated)]))
        case None => None
  }

  /** The log `updateHistoryWithEditedSlide` assigns back, or None when the
      map throws. */
  function EditedHistory(h: seq<Json>, edited: map<string, Json>, rule: MatchRule): (r: Option<seq<Json>>)
    ensures r.Some? ==> |r.value| == |h|
  {
    if h == [] then Some([])
    else
      var x := EditItem(h[0], edited, rule);
      var rest := EditedHistory(h[1..], edited, rule);
      if x.Some? && rest.Some? then Some([x.value] + rest.value) else None
  }

  lemma {:induction false} ReplaceSlidesSpec(slides: seq<Json>, edited: map<string, Json>, rule: MatchRule)
    ensures ReplaceSlides(slides, edited, rule).None? <==> JNull in slides
    ensures ReplaceSlides(slides, edited, rule).Some? ==>
      var u := ReplaceSlides(slides, edited, rule).value;
      |u| == |slides| &&
      forall k :: 0 <= k < |slides| ==>
        u[k] == if Matches(slides[k], edited, rule) == Some(true) then JObj(edited) else slides[k]
  {
    if slides != [] {
      ReplaceSlidesSpec(slides[1..], edited, rule);
      assert JNull in slides <==> slides[0] == JNull || JNull in slides[1..];
      if ReplaceSlides(slides, edited, rule).Some? {
        var u := ReplaceSlides(slides, edited, rule).value;
        forall k | 0 <= k < |slides|
          ensures u[k] == if Matches(slides[k], edited, rule) == Some(true) then JObj(edited) else slides[k]
        {
          if k > 0 { assert slides[k] == slides[1..][k - 1]; }
        }
      }
    }
  }

  /** An item is unusable for the edit map when it is null or its slides
      array holds a null slide. */
  predicate Throws(item: Json)
  {
    item == JNull || (SlidesOf(item).Some? && JNull in SlidesOf(item).value)
  }

  lemma {:induction false} EditedHistoryHolds(h: seq<Json>, edited: map<string, Json>, rule: MatchRule)
    ensures EditedHistory(h, edited, rule).None? <==> exists i :: 0 <= i < |h| && Throws(h[i])
    ensures EditedHistory(h, edited, rule).Some? ==>
      var h' := EditedHistory(h, edited, rule).value;
      |h'| == |h| && forall i :: 0 <= i < |h| ==> EditItem(h[i], edited, rule) == Some(h'[i])
  {
    if h != [] {
      EditedHistoryHolds(h[1..], edited, rule);
      var x := EditItem(h[0], edited, rule);
      if SlidesOf(h[0]).Some? { ReplaceSlidesSpec(SlidesOf(h[0]).value, edited, rule); }
      assert x.None? <==> Throws(h[0]);
      if exists i :: 0 <= i < |h[1..]| && Throws(h[1..][i]) {
        var i :| 0 <= i < |h[1..]| && Throws(h[1..][i]);
        assert Throws(h[i + 1]);
      }
      if exists i :: 0 <= i < |h| && Throws(h[i]) {
        var i :| 0 <= i < |h| && Throws(h[i]);
        if i > 0 { assert Throws(h[1..][i - 1]); }
      }
      if EditedHistory(h, edited, rule).Some? {
        forall i | 0 <= i < |h| ensures EditItem(h[i], edited, rule) == Some(EditedHistory(h, edited, rule).value[i]) {
          if i > 0 { assert h[i] == h[1..][i - 1]; }
        }
      }
    }
  }

  /** updateHistoryWithEditedSlide: it throws exactly when some item is null
      or holds a null slide; otherwise the log keeps its length, every item
      without a slides array is kept as it is, and every item with one keeps
      its other fields and its slide count while exactly the matching slides
      become the edited slide. */
  lemma EditedHistorySpec(h: seq<Json>, edited: map<string, Json>, rule: MatchRule)
    ensures EditedHistory(h, edited, rule).None? <==> exists i :: 0 <= i < |h| && Throws(h[i])
    ensures EditedHistory(h, edited, rule).Some? ==>
      var h' := EditedHistory(h, edited, rule).value;
      && |h'| == |h|
      && (forall i :: 0 <= i < |h| && SlidesOf(h[i]).None? ==> h'[i] == h[i])
      && (forall i :: 0 <= i < |h| && SlidesOf(h[i]).Some? ==>
            var xs := SlidesOf(h[i]).value;
            && h'[i].JObj? && h'[i].fields.Keys == h[i].fields.Keys
            && (forall key :: key in h[i].fields && key != "slides" ==> h'[i].fields[key] == h[i].fields[key])
            && SlidesOf(h'[i]).Some? && |SlidesOf(h'[i]).value| == |xs|
            && (forall k :: 0 <= k < |xs| ==>
                  SlidesOf(h'[i]).value[k] ==
                    if Matches(xs[k], edited, rule) == Some(true) then JObj(edited) else xs[k]))
  {
    EditedHistoryHolds(h, edited, rule);
    if EditedHistory(h, edited, rule).Some? {
      var h' := EditedHistory(h, edited, rule).value;
      forall i | 0 <= i < |h| && SlidesOf(h[i]).Some?
        ensures SlidesOf(h'[i]).Some? && |SlidesOf(h'[i]).value| == |SlidesOf(h[i]).value|
      {
        ReplaceSlidesSpec(SlidesOf(h[i]).value, edited, rule);
      }
      forall i | 0 <= i < |h| && SlidesOf(h[i]).Some?
        ensures var xs := SlidesOf(h[i]).value;
          forall k :: 0 <= k < |xs| ==>
            SlidesOf(h'[i]).value[k] == if Matches(xs[k], edited, rule) == Some(true) then JObj(edited) else xs[k]
      {
        ReplaceSlidesSpec(SlidesOf(h[i]).value, edited, rule);
      }
    }
  }

  /** As written, a slide that has only a `url` counts as the edited slide
      whenever the edited slide has no `download_url` either: editing the
      first of two url-only slides replaces both. */
  lemma AsWrittenReplacesUnrelatedSlides()
    ensures var a := JObj(map["url" := JStr("a.jpg")]);
      var b := JObj(map["url" := JStr("b.jpg")]);
      var edited := map["url" := JStr("a.jpg"), "edited" := JBool(true)];
      var item := map["jobId" := JStr("job-1"), "slides" := JArr([a, b])];
      && EditedHistory([JObj(item)], edited, AsWritten)
         == Some([JObj(item["slides" := JArr([JObj(edited), JObj(edited)])])])
      && EditedHistory([JObj(item)], edited, DefinedUrlsOnly)
         == Some([JObj(item["slides" := JArr([JObj(edited), b])])])
  {
    var a := JObj(map["url" := JStr("a.jpg")]);
    var b := JObj(map["url" := JStr("b.jpg")]);
    var edited := map["url" := JStr("a.jpg"), "edited" := JBool(true)];
    assert "download_url" !in edited && "download_url" !in a.fields && "download_url" !in b.fields;
    assert Matches(a, edited, AsWritten) == Some(true);
    assert Matches(b, edited, AsWritten) == Some(true);
    assert Matches(a, edited, DefinedUrlsOnly) == Some(true);
    assert Matches(b, edited, DefinedUrlsOnly) == Some(false);
    var ab := [a, b];
    assert ab[0] == a && ab[1..] == [b];
    var bs := [b];
    assert bs[0] == b && bs[1..] == [];
    assert ReplaceSlides(bs[1..], edited, AsWritten) == Some([]);
    assert ReplaceSlides(bs[1..], edited, DefinedUrlsOnly) == Some([]);
    assert ReplaceSlides(bs, edited, AsWritten) == Some([JObj(edited)] + []);
    assert ReplaceSlides(bs, edited, DefinedUrlsOnly) == Some([b] + []);
    assert ab[1..] == bs;
    assert [JObj(edited)] + [] == [JObj(edited)] && [b] + [] == [b];
    assert ReplaceSlides(ab[1..], edited, AsWritten) == Some([JObj(edited)]);
    assert ReplaceSlides(ab[1..], edited, DefinedUrlsOnly) == Some([b]);
    assert ReplaceSlides(ab, edited, AsWritten) == Some([JObj(edited)] + [JObj(edited)]);
    assert ReplaceSlides(ab, edited, DefinedUrlsOnly) == Some([JObj(edited)] + [b]);
    var item := map["jobId" := JStr("job-1"), "slides" := JArr(ab)];
    assert SlidesOf(JObj(item)) == Some(ab);
    var h := [JObj(item)];
    assert h[0] == JObj(item) && h[1..] == [];
    assert EditedHistory(h[1..], edited, AsWritten) == Some([]);
    assert EditedHistory(h[1..], edited, DefinedUrlsOnly) == Some([]);
    assert [JObj(edited)] + [JObj(edited)] == [JObj(edited), JObj(edited)];
    assert [JObj(edited)] + [b] == [JObj(edited), b];
    var x1 := JObj(item["slides" := JArr([JObj(edited), JObj(edited)])]);
    var x2 := JObj(item["slides" := JArr([JObj(edited), b])]);
    assert EditItem(h[0], edited, AsWritten) == Some(x1);
    assert EditItem(h[0], edited, DefinedUrlsOnly) == Some(x2);
    assert [x1] + [] == [x1] && [x2] + [] == [x2];
  }

  /** With the corrected comparison, a slide is replaced only when it shares
      a URL that the edited slide actually carries. */
  lemma CorrectedReplacesOnlySameUrl(h: seq<Json>, edited: map<string, Json>, i: nat, k: nat)
    requires EditedHistory(h, edited, DefinedUrlsOnly).Some?
    requires i < |h| && SlidesOf(h[i]).Some? && k < |SlidesOf(h[i]).value|
    ensures var slide := SlidesOf(h[i]).value[k];
      var h' := EditedHistory(h, edited, DefinedUrlsOnly).value;
      SlidesOf(h'[i]).Some? && k < |SlidesOf(h'[i]).value| &&
      (SlidesOf(h'[i]).value[k] != slide ==>
        ("download_url" in edited && SameValue(Get(slide, "download_url"), Value(edited["download_url"])))
        || ("url" in edited && SameValue(Get(slide, "url"), Value(edited["url"]))))
  {
    EditedHistorySpec(h, edited, DefinedUrlsOnly);
  }

  /** The two comparisons agree whenever the edited slide carries both URL
      fields. */
  lemma MatchRulesAgree(slide: Json, edited: map<string, Json>)
    requires "download_url" in edited && "url" in edited
    ensures Matches(slide, edited, AsWritten) == Matches(slide, edited, DefinedUrlsOnly)
  {
  }
}
