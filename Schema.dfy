/**
 * The schema step of the intake server (`ensureSheetsAndHeaders` and
 * `ensureHeaderRow`): make sure the two intake tabs exist and that row 1 of
 * each holds its column headers. Both are read-then-write: a tab is added
 * only when missing, and a header row is written only when it differs.
 */
module Schema {
  import opened Wrappers
  import opened Text
  import opened Sheets

  const RawTab := "raw_intake"
  const TranslatedTab := "translated_intake"

  const RawHeaders: seq<string> := [
    "submission_id", "submitted_at", "status",
    "last_name", "first_name", "last_name_kana", "first_name_kana", "email",
    "vitality_1_10", "digestive_rhythm", "sleep_quality", "tension_areas", "skin_condition",
    "mental_state", "sensory_sensitivity",
    "let_go_text", "invite_in", "communication_preference",
    "allergies_text", "medical_history_text", "female_condition"]

  const TranslatedHeaders: seq<string> := [
    "submission_id", "translated_at",
    "english_summary", "risk_flags", "english_full",
    "source_row"]

  /** Each header equals the text of the cell under it, a missing cell reading as "". */
  predicate HeaderMatches(existing: seq<string>, headers: seq<string>)
  {
    forall i :: 0 <= i < |headers| ==> (if i < |existing| then existing[i] else "") == headers[i]
  }

  /** The answer of a header read; anything else reads as no row at all. */
  function RowOf(r: Response): seq<string>
  {
    if r.Values? then r.row else []
  }

  /** The header row written by `values.update`. */
  function HeaderBlock(headers: seq<string>): Grid
  {
    [TextCells(headers)]
  }

  /** What `ensureHeaderRow(title, headers)` does to the world. */
  function HeaderStep(w: World, env: Env, tab: string, headers: seq<string>): (World, Outcome)
  {
    var (w1, r1) := Exec(w, env, ReadRow1(tab, |headers|));
    if r1.Err? then (w1, Fail(r1.message))
    else if HeaderMatches(RowOf(r1.value), headers) then (w1, Done)
    else
      var (w2, r2) := Exec(w1, env, Update(tab, HeaderBlock(headers)));
      (w2, if r2.Err? then Fail(r2.message) else Done)
  }

  /** The tabs `ensureSheetsAndHeaders` asks to add, in its order. */
  function MissingTabs(existing: seq<string>): (r: seq<string>)
    ensures forall t <- r :: t == RawTab || t == TranslatedTab
    ensures RawTab in r <==> RawTab !in existing
    ensures TranslatedTab in r <==> TranslatedTab !in existing
  {
    (if RawTab !in existing then [RawTab] else [])
    + (if TranslatedTab !in existing then [TranslatedTab] else [])
  }

  function TitlesOf(r: Response): seq<string>
  {
    if r.Titles? then r.titles else []
  }

  /** What `ensureSheetsAndHeaders` does to the world. */
  function SchemaStep(w: World, env: Env): (World, Outcome)
  {
    var (w1, r1) := Exec(w, env, GetMetadata);
    if r1.Err? then (w1, Fail(r1.message))
    else
      var requests := MissingTabs(NonEmpty(TitlesOf(r1.value)));
      var (w2, r2) := if requests == [] then (w1, Ok(Ack)) else Exec(w1, env, AddSheets(requests, false));
      if r2.Err? then (w2, Fail(r2.message))
      else
        var (w3, o3) := HeaderStep(w2, env, RawTab, RawHeaders);
        if o3.Fail? then (w3, o3)
        else HeaderStep(w3, env, TranslatedTab, TranslatedHeaders)
  }

  /** Both intake tabs exist and carry their headers. */
  predicate SchemaReady(b: Book)
  {
    && RawTab in b.tabs && HeaderMatches(Row1(b.tabs[RawTab], |RawHeaders|), RawHeaders)
    && TranslatedTab in b.tabs && HeaderMatches(Row1(b.tabs[TranslatedTab], |TranslatedHeaders|), TranslatedHeaders)
  }

  // ------------------------------------------------------------ header row

  /** Writing the header block makes row 1 read back as the headers. */
  lemma HeaderBlockReadsBack(g: Grid, headers: seq<string>)
    ensures Row1(Overlay(g, HeaderBlock(headers)), |headers|) == headers
  {
    var o := Overlay(g, HeaderBlock(headers));
    assert o[0][..|headers|] == TextCells(headers);
    var r := Row1(o, |headers|);
    forall i | 0 <= i < |headers| ensures r[i] == headers[i] {
      assert o[0][i] == o[0][..|headers|][i];
    }
  }

  /** How many calls the header step makes on a tab holding `g`. */
  function HeaderCalls(g: Grid, headers: seq<string>): nat
  {
    if HeaderMatches(Row1(g, |headers|), headers) then 1 else 2
  }

  /** The header step writes exactly when some header position differs, and
      then only the header row: a read, plus an update iff there is a mismatch. */
  lemma HeaderWritesIffMismatch(w: World, env: Env, tab: string, headers: seq<string>)
    requires tab in w.book.tabs
    requires NoFaults(env, |w.log|, HeaderCalls(w.book.tabs[tab], headers))
    ensures var (w2, o) := HeaderStep(w, env, tab, headers);
      var same := HeaderMatches(Row1(w.book.tabs[tab], |headers|), headers);
      && o == Done
      && w2.log == w.log + [Event(ReadRow1(tab, |headers|), true)]
                         + (if same then [] else [Event(Update(tab, HeaderBlock(headers)), true)])
      && (same ==> w2.book == w.book)
  {
    assert |w.log| !in env.faults;
    var (w1, r1) := Exec(w, env, ReadRow1(tab, |headers|));
    assert |w1.log| == |w.log| + 1;
  }

  /** After a successful header step, row 1 of the tab holds the headers. */
  lemma HeaderEstablished(w: World, env: Env, tab: string, headers: seq<string>)
    ensures var (w2, o) := HeaderStep(w, env, tab, headers);
      o == Done ==> tab in w2.book.tabs && HeaderMatches(Row1(w2.book.tabs[tab], |headers|), headers)
  {
    var (w1, r1) := Exec(w, env, ReadRow1(tab, |headers|));
    if r1.Ok? && !HeaderMatches(RowOf(r1.value), headers) {
      var (w2, r2) := Exec(w1, env, Update(tab, HeaderBlock(headers)));
      if r2.Ok? {
        HeaderBlockReadsBack(w1.book.tabs[tab], headers);
      }
    }
  }

  /** The header step touches no other tab and adds or removes none. */
  lemma HeaderKeepsOtherTabs(w: World, env: Env, tab: string, headers: seq<string>)
    ensures var (w2, o) := HeaderStep(w, env, tab, headers);
      && w2.book.titles == w.book.titles
      && w2.book.tabs.Keys == w.book.tabs.Keys
      && (forall t <- w.book.tabs :: t != tab ==> w2.book.tabs[t] == w.book.tabs[t])
      && w2.outbox == w.outbox
      && |w2.log| > |w.log| && w2.log[..|w.log|] == w.log
  {
    var (w1, r1) := Exec(w, env, ReadRow1(tab, |headers|));
    assert w1.log[..|w.log|] == w.log;
    if r1.Ok? && !HeaderMatches(RowOf(r1.value), headers) {
      var (w2, r2) := Exec(w1, env, Update(tab, HeaderBlock(headers)));
      assert w2.log[..|w.log|] == w.log;
    }
  }

  /** Running the header step again after it succeeded only reads. */
  lemma HeaderIdempotent(w: World, env: Env, tab: string, headers: seq<string>)
    ensures var (w2, o) := HeaderStep(w, env, tab, headers);
      o == Done && NoFaults(env, |w2.log|, 1) ==>
        HeaderStep(w2, env, tab, headers) == (w2.(log := w2.log + [Event(ReadRow1(tab, |headers|), true)]), Done)
  {
    var (w2, o) := HeaderStep(w, env, tab, headers);
    if o == Done && NoFaults(env, |w2.log|, 1) {
      HeaderEstablished(w, env, tab, headers);
      HeaderWritesIffMismatch(w2, env, tab, headers);
    }
  }

  // ------------------------------------------------------------ schema

  /** On a consistent spreadsheet, a successful schema step leaves both tabs
      present with their headers, and the spreadsheet still consistent. */
  lemma SchemaEstablished(w: World, env: Env)
    requires ValidBook(w.book)
    ensures var (w4, o) := SchemaStep(w, env);
      o == Done ==> SchemaReady(w4.book) && ValidBook(w4.book)
  {
    var (w1, r1) := Exec(w, env, GetMetadata);
    if r1.Ok? {
      var existing := NonEmpty(TitlesOf(r1.value));
      assert TitlesOf(r1.value) == w.book.titles;
      var requests := MissingTabs(existing);
      var (w2, r2) := if requests == [] then (w1, Ok(Ack)) else Exec(w1, env, AddSheets(requests, false));
      if r2.Ok? {
        assert ValidBook(w2.book);
        assert RawTab in w2.book.tabs && TranslatedTab in w2.book.tabs by {
          if requests != [] {
            assert RawTab in existing || RawTab in requests;
          }
        }
        var (w3, o3) := HeaderStep(w2, env, RawTab, RawHeaders);
        HeaderEstablished(w2, env, RawTab, RawHeaders);
        HeaderKeepsOtherTabs(w2, env, RawTab, RawHeaders);
        if o3.Done? {
          var (w4, o4) := HeaderStep(w3, env, TranslatedTab, TranslatedHeaders);
          HeaderEstablished(w3, env, TranslatedTab, TranslatedHeaders);
          HeaderKeepsOtherTabs(w3, env, TranslatedTab, TranslatedHeaders);
        }
      }
    }
  }

  /** With no fault in its (at most six) calls, the schema step on a
      consistent spreadsheet succeeds, and the only tabs it adds are the two
      intake tabs. */
  lemma SchemaSucceeds(w: World, env: Env)
    requires ValidBook(w.book) && NoFaults(env, |w.log|, 6)
    ensures var (w4, o) := SchemaStep(w, env);
      && o == Done && |w4.log| <= |w.log| + 6
      && w4.book.tabs.Keys == w.book.tabs.Keys + {RawTab, TranslatedTab}
  {
    var w2, r2 := TabsAdded(w, env);
    HeaderGoesThrough(w2, env, RawTab, RawHeaders);
    var w3 := HeaderStep(w2, env, RawTab, RawHeaders).0;
    HeaderGoesThrough(w3, env, TranslatedTab, TranslatedHeaders);
  }

  /** A header step on an existing tab, with no fault in its (at most two)
      calls, succeeds and keeps the tabs. */
  lemma HeaderGoesThrough(w: World, env: Env, tab: string, headers: seq<string>)
    requires tab in w.book.tabs && NoFaults(env, |w.log|, 2)
    ensures var (w2, o) := HeaderStep(w, env, tab, headers);
      o == Done && |w2.log| <= |w.log| + 2 && w2.book.tabs.Keys == w.book.tabs.Keys
  {
    HeaderWritesIffMismatch(w, env, tab, headers);
    HeaderKeepsOtherTabs(w, env, tab, headers);
  }

  /** The metadata read and the `addSheet` request of the schema step, when
      neither meets a fault. */
  lemma TabsAdded(w: World, env: Env) returns (w2: World, r2: Result<Response>)
    requires ValidBook(w.book) && NoFaults(env, |w.log|, 2)
    ensures var (w1, r1) := Exec(w, env, GetMetadata);
      var requests := MissingTabs(NonEmpty(TitlesOf(r1.value)));
      && r1.Ok?
      && (w2, r2) == (if requests == [] then (w1, Ok(Ack)) else Exec(w1, env, AddSheets(requests, false)))
    ensures r2.Ok? && |w2.log| <= |w.log| + 2
    ensures w2.book.tabs.Keys == w.book.tabs.Keys + {RawTab, TranslatedTab}
  {
    var n := |w.log|;
    assert n !in env.faults && n + 1 !in env.faults;
    var (w1, r1) := Exec(w, env, GetMetadata);
    assert TitlesOf(r1.value) == w.book.titles;
    var requests := MissingTabs(NonEmpty(w.book.titles));
    MissingTabsAbsent(w.book);
    if requests == [] {
      w2, r2 := w1, Ok(Ack);
    } else {
      var res := Exec(w1, env, AddSheets(requests, false));
      w2, r2 := res.0, res.1;
    }
  }

  /** On a consistent spreadsheet the tabs asked for are new and distinct,
      and together with the tabs held they include both intake tabs. */
  lemma MissingTabsAbsent(b: Book)
    requires ValidBook(b)
    ensures var requests := MissingTabs(NonEmpty(b.titles));
      && (forall t <- requests :: t !in b.tabs) && Distinct(requests)
      && b.tabs.Keys + (set t <- requests) == b.tabs.Keys + {RawTab, TranslatedTab}
  {
    var requests := MissingTabs(NonEmpty(b.titles));
    forall t <- requests ensures t !in b.tabs {
      assert t != "" && t !in NonEmpty(b.titles);
    }
  }

  /** Once the schema is in place, the schema step only reads: the metadata
      and the two header rows, changing nothing. */
  lemma SchemaIdempotent(w: World, env: Env)
    requires ValidBook(w.book) && SchemaReady(w.book) && NoFaults(env, |w.log|, 3)
    ensures SchemaStep(w, env) == (w.(log := w.log + [
      Event(GetMetadata, true),
      Event(ReadRow1(RawTab, |RawHeaders|), true),
      Event(ReadRow1(TranslatedTab, |TranslatedHeaders|), true)]), Done)
  {
    var n := |w.log|;
    var e1, e2, e3 := Event(GetMetadata, true), Event(ReadRow1(RawTab, |RawHeaders|), true),
      Event(ReadRow1(TranslatedTab, |TranslatedHeaders|), true);
    var w1 := w.(log := w.log + [e1]);
    var w3 := w.(log := w.log + [e1, e2]);
    var w4 := w.(log := w.log + [e1, e2, e3]);
    assert w3.log == w1.log + [e2] && w4.log == w3.log + [e3];
    assert Exec(w, env, GetMetadata) == (w1, Ok(Titles(w.book.titles))) by {
      assert n !in env.faults;
    }
    assert MissingTabs(NonEmpty(w.book.titles)) == [] by {
      assert RawTab in w.book.titles && TranslatedTab in w.book.titles;
    }
    assert HeaderStep(w1, env, RawTab, RawHeaders) == (w3, Done) by {
      assert NoFaults(env, n + 1, 1);
      HeaderWritesIffMismatch(w1, env, RawTab, RawHeaders);
    }
    assert HeaderStep(w3, env, TranslatedTab, TranslatedHeaders) == (w4, Done) by {
      assert NoFaults(env, n + 2, 1);
      HeaderWritesIffMismatch(w3, env, TranslatedTab, TranslatedHeaders);
    }
    SchemaStepReadsOnly(w, env, w1, w3, w4);
  }

  /** The schema step when the metadata read succeeds, no tab is missing and
      both header steps finish without a change of their own. */
  lemma SchemaStepReadsOnly(w: World, env: Env, w1: World, w3: World, w4: World)
    requires Exec(w, env, GetMetadata) == (w1, Ok(Titles(w.book.titles)))
    requires MissingTabs(NonEmpty(w.book.titles)) == []
    requires HeaderStep(w1, env, RawTab, RawHeaders) == (w3, Done)
    requires HeaderStep(w3, env, TranslatedTab, TranslatedHeaders) == (w4, Done)
    ensures SchemaStep(w, env) == (w4, Done)
  {
  }

  /** The header step only reads and writes the spreadsheet, and stops at
      its first failed call. */
  lemma HeaderProgressed(w: World, env: Env, tab: string, headers: seq<string>)
    ensures var (w2, o) := HeaderStep(w, env, tab, headers);
      Progressed(w, w2, o.Done?) && w2.outbox == w.outbox
  {
    var (w1, r1) := Exec(w, env, ReadRow1(tab, |headers|));
    ExecProgressed(w, env, ReadRow1(tab, |headers|));
    if r1.Ok? && !HeaderMatches(RowOf(r1.value), headers) {
      var u := Update(tab, HeaderBlock(headers));
      ExecProgressed(w1, env, u);
      ProgressedChain(w, w1, Exec(w1, env, u).0, Exec(w1, env, u).1.Ok?);
    }
  }

  /** The schema step sends no mail and stops at its first failed call. */
  lemma SchemaProgressed(w: World, env: Env)
    ensures var (w4, o) := SchemaStep(w, env);
      Progressed(w, w4, o.Done?) && w4.outbox == w.outbox
  {
    var (w1, r1) := Exec(w, env, GetMetadata);
    ExecProgressed(w, env, GetMetadata);
    if r1.Ok? {
      var requests := MissingTabs(NonEmpty(TitlesOf(r1.value)));
      var (w2, r2) := if requests == [] then (w1, Ok(Ack)) else Exec(w1, env, AddSheets(requests, false));
      if requests != [] {
        ExecProgressed(w1, env, AddSheets(requests, false));
        ProgressedChain(w, w1, w2, r2.Ok?);
      }
      if r2.Ok? {
        HeadersProgressed(w2, env);
        var (w3, o3) := HeaderStep(w2, env, RawTab, RawHeaders);
        var res := if o3.Fail? then (w3, o3) else HeaderStep(w3, env, TranslatedTab, TranslatedHeaders);
        ProgressedChain(w, w2, res.0, res.1.Done?);
      }
    }
  }

  /** The two header steps in a row send no mail and stop at the first failed call. */
  lemma HeadersProgressed(w: World, env: Env)
    ensures var (w1, o1) := HeaderStep(w, env, RawTab, RawHeaders);
      var (w2, o2) := if o1.Fail? then (w1, o1) else HeaderStep(w1, env, TranslatedTab, TranslatedHeaders);
      Progressed(w, w2, o2.Done?) && w2.outbox == w.outbox
  {
    var (w1, o1) := HeaderStep(w, env, RawTab, RawHeaders);
    HeaderProgressed(w, env, RawTab, RawHeaders);
    if o1.Done? {
      var (w2, o2) := HeaderStep(w1, env, TranslatedTab, TranslatedHeaders);
      HeaderProgressed(w1, env, TranslatedTab, TranslatedHeaders);
      ProgressedChain(w, w1, w2, o2.Done?);
    }
  }

  // ------------------------------------------------------------ the methods

  /** `ensureHeaderRow`: read row 1; write the headers over it if any differs. */
  method EnsureHeaderRow(cloud: Cloud, tab: string, headers: seq<string>) returns (o: Outcome)
    modifies cloud
    ensures (cloud.State(), o) == HeaderStep(old(cloud.State()), cloud.env, tab, headers)
  {
    var r := cloud.Perform(ReadRow1(tab, |headers|));
    if r.Err? {
      return Fail(r.message);
    }
    var existing := RowOf(r.value);
    if !HeaderMatches(existing, headers) {
      var u := cloud.Perform(Update(tab, HeaderBlock(headers)));
      if u.Err? {
        return Fail(u.message);
      }
    }
    o := Done;
  }

  /** `ensureSheetsAndHeaders`: add whichever intake tab is missing, then
      reconcile both header rows. */
  method EnsureSheetsAndHeaders(cloud: Cloud) returns (o: Outcome)
    modifies cloud
    ensures (cloud.State(), o) == SchemaStep(old(cloud.State()), cloud.env)
  {
    var meta := cloud.Perform(GetMetadata);
    if meta.Err? {
      return Fail(meta.message);
    }
    var existing := NonEmpty(TitlesOf(meta.value));
    var requests := [];
    if RawTab !in existing {
      requests := requests + [RawTab];
    }
    if TranslatedTab !in existing {
      requests := requests + [TranslatedTab];
    }
    assert requests == MissingTabs(existing);
    if |requests| > 0 {
      var added := cloud.Perform(AddSheets(requests, false));
      if added.Err? {
        return Fail(added.message);
      }
    }
    o := EnsureHeaderRow(cloud, RawTab, RawHeaders);
    if o.Fail? {
      return;
    }
    o := EnsureHeaderRow(cloud, TranslatedTab, TranslatedHeaders);
  }
}
