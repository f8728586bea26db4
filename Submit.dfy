/**
 * `POST /api/submit` (`handleSubmit`): the configuration checks, payload
 * validation, and then the six stages in order — schema, raw row, model
 * call, translated row, karte tab, notification mail. The first stage that
 * fails ends the request with status 500 and its message; nothing after it
 * runs. Each stage is a pure function of the world (its `...Step`), and the
 * server's async functions are methods on a `Cloud` proved equal to them.
 *
 * The submission id, the two timestamps, the date part of the karte title
 * and the outcome of building the credentials are inputs of the request
 * (`Inputs`); the JSON parser is the parameter `parse`.
 */
module Submit {
  import opened Wrappers
  import opened Text
  import opened Js
  import opened Payload
  import opened ValidationRules
  import opened Sheets
  import opened Schema
  import opened Translate
  import opened Records
  import opened Mail
  import opened Encoding

  datatype Config = Config(spreadsheetId: string, geminiKey: string, gmailSender: string)

  /** The JSON answer: `{ok: true, submission_id}` or `{ok: false, error}` with a status. */
  datatype Answer = Accepted(submissionId: string) | Rejected(status: nat, error: string)

  /** What the request draws from outside the model: `uuid()`, the two
      `nowTokyo()` readings, `formatDateForTitle(now)`, and whether
      `getAuthClient` threw (and with what message). */
  datatype Inputs = Inputs(id: string, now: string, translatedAt: string, dateLabel: string,
                           authError: Option<string>)

  const MissingSpreadsheet := "Missing SPREADSHEET_ID"
  const MissingGeminiKey := "Missing GEMINI_API_KEY"

  /** The first setting that is empty, in the order the handler checks them. */
  function MissingConfig(cfg: Config): (r: Option<string>)
    ensures r.None? <==> cfg.spreadsheetId != "" && cfg.geminiKey != "" && cfg.gmailSender != ""
    ensures cfg.spreadsheetId == "" ==> r == Some(MissingSpreadsheet)
    ensures cfg.spreadsheetId != "" && cfg.geminiKey == "" ==> r == Some(MissingGeminiKey)
    ensures cfg.spreadsheetId != "" && cfg.geminiKey != "" && cfg.gmailSender == "" ==> r == Some(MissingSender)
  {
    if cfg.spreadsheetId == "" then Some(MissingSpreadsheet)
    else if cfg.geminiKey == "" then Some(MissingGeminiKey)
    else if cfg.gmailSender == "" then Some(MissingSender)
    else None
  }

  /** `req.body || {}`. */
  function Body(body: JsValue): (data: JsValue)
    ensures Truthy(data) && !data.Null? && !data.Undefined?
    ensures Truthy(body) ==> data == body
    ensures !Truthy(body) ==> data == Obj(map[])
  {
    if Truthy(body) then body else Obj(map[])
  }

  /** The payload fields the model is shown, in the handler's order. */
  const InputKeys: seq<string> := [
    "last_name", "first_name", "last_name_kana", "first_name_kana", "email",
    "vitality_1_10", "digestive_rhythm", "sleep_quality", "tension_areas",
    "skin_condition", "mental_state", "sensory_sensitivity", "let_go_text",
    "invite_in", "communication_preference", "allergies_text",
    "medical_history_text", "female_condition"]

  /** One field of the model's input: a multi-choice field through `safeArr`,
      any other as posted. */
  function InputField(data: JsValue, key: string): JsValue
    requires !data.Null? && !data.Undefined?
  {
    if key in RequiredMulti then StrArray(SafeArr(Prop(data, key))) else Prop(data, key)
  }

  /** The object handed to the model. */
  function TranslateInput(data: JsValue): (input: JsValue)
    requires !data.Null? && !data.Undefined?
    ensures input.Obj? && input.props.Keys == set k <- InputKeys
  {
    Obj(map k <- InputKeys :: InputField(data, k))
  }

  /** A call's result as a stage outcome. */
  function Settled(r: Result<Response>): (o: Outcome)
    ensures o.Done? <==> r.Ok?
    ensures r.Err? ==> o.message == r.message
  {
    if r.Ok? then Done else Fail(r.message)
  }

  /** `String(response.text || '')`. */
  function ReplyText(r: Response): string
  {
    if r.Reply? then r.text else ""
  }

  // ------------------------------------------------------------ the stages

  /** What the last three stages write once the translation exists: the
      translated row, the karte tab's title and rows, and the mail as
      `sendNotificationEmail` encodes it (or the error it throws). */
  datatype Outputs = Outputs(translatedRow: seq<Cell>, title: string, karte: Grid, mail: Result<string>)

  function OutputsOf(sender: string, c: Cleaned, x: Inputs, t: Translation): Outputs
  {
    Outputs(TranslatedRow(x.id, x.translatedAt, t, ""),
            KarteTitle(x.dateLabel, c, x.id), KarteRows(x.id, c, t, x.now),
            NotificationRaw(sender, x.id, t))
  }

  /** One append: `appendRawRow` and `appendTranslatedRow` past building their row. */
  function AppendStep(w: World, env: Env, tab: string, row: seq<Cell>): (World, Outcome)
  {
    var (w1, r) := Exec(w, env, Append(tab, row));
    (w1, Settled(r))
  }

  /** `translateAndSummarize`: one model call, then the reply read as JSON. */
  function TranslateStep(w: World, env: Env, input: JsValue, parse: string -> Option<JsValue>): (World, Result<Translation>)
  {
    var (w1, r) := Exec(w, env, Generate(input));
    if r.Err? then (w1, Err(r.message))
    else (w1, Interpret(ReplyText(r.value), parse))
  }

  /** `createKarteSheet` past building its title and rows: add the tab in
      front, then write the rows at A1. */
  function KarteStep(w: World, env: Env, title: string, rows: Grid): (World, Outcome)
  {
    var (w1, r1) := Exec(w, env, AddSheets([title], true));
    if r1.Err? then (w1, Fail(r1.message))
    else
      var (w2, r2) := Exec(w1, env, Update(title, rows));
      (w2, Settled(r2))
  }

  /** `sendNotificationEmail` past encoding: its error, or one send. */
  function MailStep(w: World, env: Env, mail: Result<string>): (World, Outcome)
  {
    match mail
    case Err(m) => (w, Fail(m))
    case Ok(raw) =>
      var (w1, r) := Exec(w, env, Send(raw));
      (w1, Settled(r))
  }

  /** The body of the `try` once the credentials exist: the six stages in
      order, the first failure answered with 500 and its message. The
      payload is read through `safeStr`/`safeArr`/`safeNum` once, as `c`. */
  function Deliver(w: World, env: Env, sender: string, data: JsValue, x: Inputs,
                   parse: string -> Option<JsValue>): (res: (World, Answer))
    requires !data.Null? && !data.Undefined?
    ensures res.1.Rejected? ==> res.1.status == 500
    ensures res.1.Accepted? ==> res.1.submissionId == x.id
  {
    var (w1, o1) := SchemaStep(w, env);
    if o1.Fail? then (w1, Rejected(500, o1.message))
    else StoreAndTranslate(w1, env, sender, Clean(data), TranslateInput(data), x, parse)
  }

  /** The raw row and the model call. */
  function StoreAndTranslate(w: World, env: Env, sender: string, c: Cleaned, input: JsValue, x: Inputs,
                             parse: string -> Option<JsValue>): (res: (World, Answer))
    ensures res.1.Rejected? ==> res.1.status == 500
    ensures res.1.Accepted? ==> res.1.submissionId == x.id
  {
    var (w2, o2) := AppendStep(w, env, RawTab, RawRow(c, x.id, x.now));
    if o2.Fail? then (w2, Rejected(500, o2.message)) else
    var (w3, t) := TranslateStep(w2, env, input, parse);
    if t.Err? then (w3, Rejected(500, t.message))
    else Publish(w3, env, x.id, OutputsOf(sender, c, x, t.value))
  }

  /** The translated row, the karte tab and the mail. */
  function Publish(w: World, env: Env, id: string, o: Outputs): (res: (World, Answer))
    ensures res.1.Rejected? ==> res.1.status == 500
    ensures res.1.Accepted? ==> res.1.submissionId == id
  {
    var (w4, o4) := AppendStep(w, env, TranslatedTab, o.translatedRow);
    if o4.Fail? then (w4, Rejected(500, o4.message)) else
    var (w5, o5) := KarteStep(w4, env, o.title, o.karte);
    if o5.Fail? then (w5, Rejected(500, o5.message)) else
    var (w6, o6) := MailStep(w5, env, o.mail);
    if o6.Fail? then (w6, Rejected(500, o6.message)) else
    (w6, Accepted(id))
  }

  /** `handleSubmit`: configuration, then validation (400 with the errors
      joined by "; "), then credentials, then the stages. */
  function SubmitStep(w: World, env: Env, cfg: Config, body: JsValue, x: Inputs,
                      parse: string -> Option<JsValue>): (World, Answer)
  {
    match MissingConfig(cfg)
    case Some(m) => (w, Rejected(500, m))
    case None =>
      var data := Body(body);
      var errors := PayloadErrors(data);
      if errors != [] then (w, Rejected(400, Join(errors, "; ")))
      else match x.authError
        case Some(m) => (w, Rejected(500, m))
        case None => Deliver(w, env, cfg.gmailSender, data, x, parse)
  }

  // ------------------------------------------------------------ the answer

  /** Status 400 is given exactly to a well-configured server receiving a
      payload the validator faults, and it lists every error. */
  lemma BadRequestIffInvalid(w: World, env: Env, cfg: Config, body: JsValue, x: Inputs,
                             parse: string -> Option<JsValue>)
    ensures var (w2, a) := SubmitStep(w, env, cfg, body, x, parse);
      && (a.Rejected? && a.status == 400 <==> MissingConfig(cfg).None? && PayloadErrors(Body(body)) != [])
      && (a.Rejected? && a.status == 400 ==> a.error == Join(PayloadErrors(Body(body)), "; "))
  {
  }

  /** A missing setting, an invalid payload or failing credentials answer
      before any request leaves the server. */
  lemma RejectedBeforeAnyCall(w: World, env: Env, cfg: Config, body: JsValue, x: Inputs,
                              parse: string -> Option<JsValue>)
    requires MissingConfig(cfg).Some? || PayloadErrors(Body(body)) != [] || x.authError.Some?
    ensures var (w2, a) := SubmitStep(w, env, cfg, body, x, parse);
      w2 == w && a.Rejected?
  {
  }

  /** A submission is accepted only with every setting present, a payload
      every validation rule accepts and working credentials, and the answer
      carries the id the raw row was written with. */
  lemma AcceptedOnlyWhenValid(w: World, env: Env, cfg: Config, body: JsValue, x: Inputs,
                              parse: string -> Option<JsValue>)
    ensures var (w2, a) := SubmitStep(w, env, cfg, body, x, parse);
      a.Accepted? ==>
        && MissingConfig(cfg).None? && PayloadAcceptable(Body(body)) && x.authError.None?
        && a.submissionId == x.id
  {
    AcceptedIffNoErrors(Body(body));
  }

  /** The model sees the choices the raw row records: each multi-choice
      field, read again through `safeArr`, is unchanged by the round trip;
      every other field is handed over as posted. */
  lemma TranslateInputAgrees(data: JsValue)
    requires !data.Null? && !data.Undefined?
    ensures var input := TranslateInput(data);
      && (forall k <- RequiredMulti :: SafeArr(Prop(input, k)) == SafeArr(Prop(data, k)))
      && (forall k <- PassedAsPosted :: Prop(input, k) == Prop(data, k))
  {
    assert forall k <- RequiredMulti :: k in InputKeys;
    assert forall k <- PassedAsPosted :: k in InputKeys && k !in RequiredMulti;
    forall k <- RequiredMulti ensures SafeArr(Prop(TranslateInput(data), k)) == SafeArr(Prop(data, k)) {
      InputFieldShown(data, k);
      SafeArrOfCleanChoices(SafeArr(Prop(data, k)));
    }
    forall k <- PassedAsPosted ensures Prop(TranslateInput(data), k) == Prop(data, k) {
      InputFieldShown(data, k);
    }
  }

  /** Each key of the model's input holds that key's field. */
  lemma InputFieldShown(data: JsValue, k: string)
    requires !data.Null? && !data.Undefined? && k in InputKeys
    ensures Prop(TranslateInput(data), k) == InputField(data, k)
  {
  }

  /** The fields the model receives untouched. */
  const PassedAsPosted: seq<string> := [
    "last_name", "first_name", "last_name_kana", "first_name_kana", "email",
    "vitality_1_10", "digestive_rhythm", "skin_condition", "mental_state",
    "let_go_text", "communication_preference", "allergies_text",
    "medical_history_text", "female_condition"]

  // ------------------------------------------------------------ the run

  /** A run's effect on the mailbox: the old mail stays, and one message is
      added exactly when `sent`. */
  predicate MailedOnce(w: World, w2: World, sent: bool)
  {
    && w.outbox <= w2.outbox
    && |w2.outbox| == |w.outbox| + (if sent then 1 else 0)
  }

  /** The mail stage sends at most one message, and sends it exactly when it succeeds. */
  lemma MailProgressed(w: World, env: Env, mail: Result<string>)
    ensures var (w2, o) := MailStep(w, env, mail);
      && Progressed(w, w2, o.Done?)
      && w2.outbox == w.outbox + (if o.Done? then [mail.value] else [])
  {
    if mail.Ok? {
      ExecProgressed(w, env, Send(mail.value));
    }
  }

  /** The karte stage sends no mail and stops at its first failed call. */
  lemma KarteProgressed(w: World, env: Env, title: string, rows: Grid)
    ensures var (w2, o) := KarteStep(w, env, title, rows);
      Progressed(w, w2, o.Done?) && w2.outbox == w.outbox
  {
    var (w1, r1) := Exec(w, env, AddSheets([title], true));
    ExecProgressed(w, env, AddSheets([title], true));
    if r1.Ok? {
      ExecProgressed(w1, env, Update(title, rows));
      ProgressedChain(w, w1, KarteStep(w, env, title, rows).0, KarteStep(w, env, title, rows).1.Done?);
    }
  }

  lemma PublishProgressed(w: World, env: Env, id: string, o: Outputs)
    ensures var (w2, a) := Publish(w, env, id, o);
      Progressed(w, w2, a.Accepted?) && MailedOnce(w, w2, a.Accepted?)
  {
    var (w4, o4) := AppendStep(w, env, TranslatedTab, o.translatedRow);
    ExecProgressed(w, env, Append(TranslatedTab, o.translatedRow));
    if o4.Done? {
      var (w5, o5) := KarteStep(w4, env, o.title, o.karte);
      KarteProgressed(w4, env, o.title, o.karte);
      ProgressedChain(w, w4, w5, o5.Done?);
      if o5.Done? {
        var (w6, o6) := MailStep(w5, env, o.mail);
        MailProgressed(w5, env, o.mail);
        ProgressedChain(w, w5, w6, o6.Done?);
      }
    }
  }

  lemma StoreAndTranslateProgressed(w: World, env: Env, sender: string, c: Cleaned, input: JsValue,
                                    x: Inputs, parse: string -> Option<JsValue>)
    ensures var (w2, a) := StoreAndTranslate(w, env, sender, c, input, x, parse);
      Progressed(w, w2, a.Accepted?) && MailedOnce(w, w2, a.Accepted?)
  {
    var (w2, o2) := AppendStep(w, env, RawTab, RawRow(c, x.id, x.now));
    ExecProgressed(w, env, Append(RawTab, RawRow(c, x.id, x.now)));
    if o2.Done? {
      TranslatePublishProgressed(w2, env, sender, c, input, x, parse);
      var (w3, t) := TranslateStep(w2, env, input, parse);
      var res := if t.Err? then (w3, Rejected(500, t.message)) else Publish(w3, env, x.id, OutputsOf(sender, c, x, t.value));
      ProgressedChain(w, w2, res.0, res.1.Accepted?);
    }
  }

  /** The model call and, when it is read, the last three stages. */
  lemma TranslatePublishProgressed(w: World, env: Env, sender: string, c: Cleaned, input: JsValue,
                                   x: Inputs, parse: string -> Option<JsValue>)
    ensures var (w1, t) := TranslateStep(w, env, input, parse);
      var (w2, a) := if t.Err? then (w1, Rejected(500, t.message)) else Publish(w1, env, x.id, OutputsOf(sender, c, x, t.value));
      Progressed(w, w2, a.Accepted?) && MailedOnce(w, w2, a.Accepted?)
  {
    var (w1, t) := TranslateStep(w, env, input, parse);
    ExecProgressed(w, env, Generate(input));
    if t.Ok? {
      var o := OutputsOf(sender, c, x, t.value);
      var (w2, a) := Publish(w1, env, x.id, o);
      PublishProgressed(w1, env, x.id, o);
      ProgressedChain(w, w1, w2, a.Accepted?);
    }
  }

  lemma DeliverProgressed(w: World, env: Env, sender: string, data: JsValue, x: Inputs,
                          parse: string -> Option<JsValue>)
    requires !data.Null? && !data.Undefined?
    ensures var (w2, a) := Deliver(w, env, sender, data, x, parse);
      Progressed(w, w2, a.Accepted?) && MailedOnce(w, w2, a.Accepted?)
  {
    var (w1, o1) := SchemaStep(w, env);
    SchemaProgressed(w, env);
    if o1.Done? {
      var c, input := Clean(data), TranslateInput(data);
      var (w2, a) := StoreAndTranslate(w1, env, sender, c, input, x, parse);
      StoreAndTranslateProgressed(w1, env, sender, c, input, x, parse);
      ProgressedChain(w, w1, w2, a.Accepted?);
    }
  }

  /** The stages run in order and stop at the first failed call; a request
      is accepted only when every call it made succeeded, and it mails one
      notification exactly when it is accepted. (All calls succeeding is not
      enough: a request refused before its first call, or a model reply read
      as `null`, ends in an error with no call failed. `SubmitSucceeds`
      gives the conditions under which it is accepted.) */
  lemma SubmitProgressed(w: World, env: Env, cfg: Config, body: JsValue, x: Inputs,
                         parse: string -> Option<JsValue>)
    ensures var (w2, a) := SubmitStep(w, env, cfg, body, x, parse);
      Progressed(w, w2, a.Accepted?) && MailedOnce(w, w2, a.Accepted?)
  {
    var data := Body(body);
    if MissingConfig(cfg).None? && PayloadErrors(data) == [] && x.authError.None? {
      SubmitDelivers(w, env, cfg, body, x, parse);
      DeliverProgressed(w, env, cfg.gmailSender, data, x, parse);
    } else {
      RejectedBeforeAnyCall(w, env, cfg, body, x, parse);
      assert w.log[..|w.log|] == w.log;
    }
  }

  /** With the settings present, the payload valid and the credentials
      built, the handler's answer is that of the stages. */
  lemma SubmitDelivers(w: World, env: Env, cfg: Config, body: JsValue, x: Inputs,
                       parse: string -> Option<JsValue>)
    requires MissingConfig(cfg).None? && PayloadErrors(Body(body)) == [] && x.authError.None?
    ensures SubmitStep(w, env, cfg, body, x, parse) == Deliver(w, env, cfg.gmailSender, Body(body), x, parse)
  {
  }

  // ------------------------------------------------------------ an accepted run

  /** The calls the last three stages make when all succeed, in order. */
  function PublishCalls(o: Outputs): (calls: seq<Event>)
    requires o.mail.Ok?
    ensures |calls| == 4 && forall e <- calls :: e.ok
  {
    [Event(Append(TranslatedTab, o.translatedRow), true),
     Event(AddSheets([o.title], true), true),
     Event(Update(o.title, o.karte), true),
     Event(Send(o.mail.value), true)]
  }

  /** `tab` with `row` added below its last row. */
  function AppendRow(b: Book, tab: string, row: seq<Cell>): Book
    requires tab in b.tabs
  {
    b.(tabs := b.tabs[tab := b.tabs[tab] + [row]])
  }

  /** A new first tab `title` holding `grid`. */
  function AddFront(b: Book, title: string, grid: Grid): Book
  {
    Book([title] + b.titles, b.tabs[title := grid])
  }

  /** The spreadsheet an accepted submission leaves: one more raw row, one
      more translated row, and its karte tab in front. */
  function Filed(b: Book, rawRow: seq<Cell>, o: Outputs): Book
    requires RawTab in b.tabs && TranslatedTab in b.tabs
  {
    AddFront(AppendRow(AppendRow(b, RawTab, rawRow), TranslatedTab, o.translatedRow), o.title, o.karte)
  }

  lemma AppendAccepted(w: World, env: Env, tab: string, row: seq<Cell>)
    requires AppendStep(w, env, tab, row).1.Done?
    ensures tab in w.book.tabs
    ensures AppendStep(w, env, tab, row).0
      == World(AppendRow(w.book, tab, row), w.outbox, w.log + [Event(Append(tab, row), true)])
  {
  }

  /** Adding a tab in front and then writing `rows` at its A1 leaves a new
      first tab holding exactly `rows`. */
  lemma KarteAccepted(w: World, env: Env, title: string, rows: Grid)
    requires KarteStep(w, env, title, rows).1.Done?
    ensures title !in w.book.tabs
    ensures KarteStep(w, env, title, rows).0 == World(AddFront(w.book, title, rows), w.outbox,
      w.log + [Event(AddSheets([title], true), true), Event(Update(title, rows), true)])
  {
    var w1 := Exec(w, env, AddSheets([title], true)).0;
    var added := AddTabs(w.book, [title], true);
    assert added.Ok? && w1.book == added.value;
    assert w1.book.tabs == w.book.tabs[title := []];
    assert w1.book.titles == [title] + w.book.titles;
    OverlayOnEmpty(rows);
  }

  lemma MailAccepted(w: World, env: Env, mail: Result<string>)
    requires MailStep(w, env, mail).1.Done?
    ensures mail.Ok?
    ensures MailStep(w, env, mail).0 == World(w.book, w.outbox + [mail.value], w.log + [Event(Send(mail.value), true)])
  {
  }

  lemma PublishAccepted(w: World, env: Env, id: string, o: Outputs)
    requires Publish(w, env, id, o).1.Accepted?
    ensures TranslatedTab in w.book.tabs && o.title !in w.book.tabs && o.title != TranslatedTab && o.mail.Ok?
    ensures Publish(w, env, id, o).0 == World(
      AddFront(AppendRow(w.book, TranslatedTab, o.translatedRow), o.title, o.karte),
      w.outbox + [o.mail.value],
      w.log + PublishCalls(o))
  {
    var (w4, o4) := AppendStep(w, env, TranslatedTab, o.translatedRow);
    AppendAccepted(w, env, TranslatedTab, o.translatedRow);
    var (w5, o5) := KarteStep(w4, env, o.title, o.karte);
    KarteAccepted(w4, env, o.title, o.karte);
    MailAccepted(w5, env, o.mail);
  }

  /** A model call that goes through answers with the model's text. */
  lemma GenerateAnswers(w: World, env: Env, input: JsValue)
    requires Exec(w, env, Generate(input)).1.Ok?
    ensures Exec(w, env, Generate(input))
      == (w.(log := w.log + [Event(Generate(input), true)]), Ok(Reply(env.reply)))
  {
  }

  lemma TranslateAccepted(w: World, env: Env, input: JsValue, parse: string -> Option<JsValue>)
    requires Exec(w, env, Generate(input)).1.Ok?
    ensures TranslateStep(w, env, input, parse)
      == (w.(log := w.log + [Event(Generate(input), true)]), Interpret(env.reply, parse))
  {
    GenerateAnswers(w, env, input);
    assert ReplyText(Reply(env.reply)) == env.reply;
  }

  lemma StoreAndTranslateAccepted(w: World, env: Env, sender: string, c: Cleaned, input: JsValue,
                                  x: Inputs, parse: string -> Option<JsValue>)
    requires StoreAndTranslate(w, env, sender, c, input, x, parse).1.Accepted?
    ensures Interpret(env.reply, parse).Ok?
    ensures var o := OutputsOf(sender, c, x, Interpret(env.reply, parse).value);
      && RawTab in w.book.tabs && TranslatedTab in w.book.tabs && o.title !in w.book.tabs && o.mail.Ok?
      && StoreAndTranslate(w, env, sender, c, input, x, parse).0 == World(
           Filed(w.book, RawRow(c, x.id, x.now), o),
           w.outbox + [o.mail.value],
           w.log + [Event(Append(RawTab, RawRow(c, x.id, x.now)), true), Event(Generate(input), true)]
                 + PublishCalls(o))
  {
    var row := RawRow(c, x.id, x.now);
    var e1, e2 := Event(Append(RawTab, row), true), Event(Generate(input), true);
    AppendAccepted(w, env, RawTab, row);
    var w2 := World(AppendRow(w.book, RawTab, row), w.outbox, w.log + [e1]);
    assert AppendStep(w, env, RawTab, row) == (w2, Done);
    assert Exec(w2, env, Generate(input)).1.Ok?;
    TranslateAccepted(w2, env, input, parse);
    var w3 := w2.(log := w2.log + [e2]);
    var t := Interpret(env.reply, parse);
    assert TranslateStep(w2, env, input, parse) == (w3, t);
    var o := OutputsOf(sender, c, x, t.value);
    assert StoreAndTranslate(w, env, sender, c, input, x, parse) == Publish(w3, env, x.id, o);
    PublishAccepted(w3, env, x.id, o);
    TwoMore(w.log, e1, e2);
  }

  // ------------------------------------------------------------ a request that goes through

  /** With no fault in its four calls, an existing translated tab and a karte
      title not yet taken, the last three stages succeed. */
  lemma PublishSucceeds(w: World, env: Env, id: string, o: Outputs)
    requires TranslatedTab in w.book.tabs && o.title !in w.book.tabs && o.mail.Ok?
    requires NoFaults(env, |w.log|, 4)
    ensures Publish(w, env, id, o).1 == Accepted(id)
  {
    AppendGoesThrough(w, env, TranslatedTab, o.translatedRow);
    AppendRowKeys(w.book, TranslatedTab, o.translatedRow);
    var w4 := AppendStep(w, env, TranslatedTab, o.translatedRow).0;
    KarteGoesThrough(w4, env, o.title, o.karte);
    var w5 := KarteStep(w4, env, o.title, o.karte).0;
    MailGoesThrough(w5, env, o.mail);
  }

  lemma KarteGoesThrough(w: World, env: Env, title: string, rows: Grid)
    requires title !in w.book.tabs && NoFaults(env, |w.log|, 2)
    ensures KarteStep(w, env, title, rows).1 == Done
    ensures |KarteStep(w, env, title, rows).0.log| == |w.log| + 2
  {
    assert |w.log| !in env.faults && |w.log| + 1 !in env.faults;
  }

  lemma MailGoesThrough(w: World, env: Env, mail: Result<string>)
    requires mail.Ok? && NoFaults(env, |w.log|, 1)
    ensures MailStep(w, env, mail).1 == Done
  {
    assert |w.log| !in env.faults;
  }

  /** With no fault in its six calls, both intake tabs present, a reply that
      reads as a record, a sender set and a karte title not yet taken, the
      raw row, the model call and the last three stages all succeed. */
  lemma StoreAndTranslateSucceeds(w: World, env: Env, sender: string, c: Cleaned, input: JsValue,
                                  x: Inputs, parse: string -> Option<JsValue>)
    requires RawTab in w.book.tabs && TranslatedTab in w.book.tabs
    requires KarteTitle(x.dateLabel, c, x.id) !in w.book.tabs
    requires sender != "" && Interpret(env.reply, parse).Ok?
    requires NoFaults(env, |w.log|, 6)
    ensures StoreAndTranslate(w, env, sender, c, input, x, parse).1 == Accepted(x.id)
  {
    var row := RawRow(c, x.id, x.now);
    var t := Interpret(env.reply, parse).value;
    var w2, w3 := ReachesPublish(w, env, row, input, parse);
    StoreAndTranslateUnfolds(w, env, sender, c, input, x, parse, w2, w3, t);
    var o := OutputsOf(sender, c, x, t);
    assert o.title == KarteTitle(x.dateLabel, c, x.id) && o.mail.Ok?;
    assert NoFaults(env, |w3.log|, 4);
    PublishSucceeds(w3, env, x.id, o);
  }

  /** The raw row and the model call both going through. */
  lemma ReachesPublish(w: World, env: Env, row: seq<Cell>, input: JsValue,
                       parse: string -> Option<JsValue>) returns (w2: World, w3: World)
    requires RawTab in w.book.tabs && NoFaults(env, |w.log|, 2)
    requires Interpret(env.reply, parse).Ok?
    ensures AppendStep(w, env, RawTab, row) == (w2, Done)
    ensures TranslateStep(w2, env, input, parse) == (w3, Ok(Interpret(env.reply, parse).value))
    ensures w3.book.tabs.Keys == w.book.tabs.Keys && |w3.log| == |w.log| + 2
  {
    w2 := World(AppendRow(w.book, RawTab, row), w.outbox, w.log + [Event(Append(RawTab, row), true)]);
    AppendGoesThrough(w, env, RawTab, row);
    assert NoFaults(env, |w2.log|, 1);
    GenerateGoesThrough(w2, env, input);
    TranslateAccepted(w2, env, input, parse);
    w3 := w2.(log := w2.log + [Event(Generate(input), true)]);
    AppendRowKeys(w.book, RawTab, row);
  }

  lemma AppendRowKeys(b: Book, tab: string, row: seq<Cell>)
    requires tab in b.tabs
    ensures AppendRow(b, tab, row).tabs.Keys == b.tabs.Keys
  {
  }

  lemma StoreAndTranslateUnfolds(w: World, env: Env, sender: string, c: Cleaned, input: JsValue,
                                 x: Inputs, parse: string -> Option<JsValue>, w2: World, w3: World, t: Translation)
    requires AppendStep(w, env, RawTab, RawRow(c, x.id, x.now)) == (w2, Done)
    requires TranslateStep(w2, env, input, parse) == (w3, Ok(t))
    ensures StoreAndTranslate(w, env, sender, c, input, x, parse) == Publish(w3, env, x.id, OutputsOf(sender, c, x, t))
  {
  }

  lemma AppendGoesThrough(w: World, env: Env, tab: string, row: seq<Cell>)
    requires tab in w.book.tabs && NoFaults(env, |w.log|, 1)
    ensures AppendStep(w, env, tab, row)
      == (World(AppendRow(w.book, tab, row), w.outbox, w.log + [Event(Append(tab, row), true)]), Done)
  {
    assert |w.log| !in env.faults;
  }

  lemma GenerateGoesThrough(w: World, env: Env, input: JsValue)
    requires NoFaults(env, |w.log|, 1)
    ensures Exec(w, env, Generate(input)).1.Ok?
  {
    assert |w.log| !in env.faults;
  }

  /** What an accepted request leaves behind: one notification mailed, the
      raw and translated rows at the ends of their tabs, and the karte tab,
      in front, holding its rows. */
  predicate Delivered(w: World, w2: World, sender: string, c: Cleaned, x: Inputs, t: Translation)
  {
    var o := OutputsOf(sender, c, x, t);
    && o.mail.Ok? && w2.outbox == w.outbox + [o.mail.value]
    && RawTab in w2.book.tabs && |w2.book.tabs[RawTab]| > 0
    && w2.book.tabs[RawTab][|w2.book.tabs[RawTab]| - 1] == RawRow(c, x.id, x.now)
    && TranslatedTab in w2.book.tabs && |w2.book.tabs[TranslatedTab]| > 0
    && w2.book.tabs[TranslatedTab][|w2.book.tabs[TranslatedTab]| - 1] == o.translatedRow
    && |w2.book.titles| > 0 && w2.book.titles[0] == o.title
    && o.title in w2.book.tabs && w2.book.tabs[o.title] == o.karte
  }

  /** The filed spreadsheet shows the two rows at the ends of their tabs and
      the karte tab in front. */
  lemma FiledShows(b: Book, rawRow: seq<Cell>, o: Outputs)
    requires RawTab in b.tabs && TranslatedTab in b.tabs && o.title !in b.tabs
    ensures var f := Filed(b, rawRow, o);
      && RawTab in f.tabs && |f.tabs[RawTab]| > 0 && f.tabs[RawTab][|f.tabs[RawTab]| - 1] == rawRow
      && TranslatedTab in f.tabs && |f.tabs[TranslatedTab]| > 0
      && f.tabs[TranslatedTab][|f.tabs[TranslatedTab]| - 1] == o.translatedRow
      && |f.titles| > 0 && f.titles[0] == o.title && o.title in f.tabs && f.tabs[o.title] == o.karte
  {
  }

  /** Past the schema step: an accepted run of the remaining stages files
      the submission. */
  lemma StoreAndTranslateFiles(w: World, env: Env, sender: string, c: Cleaned, input: JsValue,
                               x: Inputs, parse: string -> Option<JsValue>)
    requires StoreAndTranslate(w, env, sender, c, input, x, parse).1.Accepted?
    ensures Interpret(env.reply, parse).Ok?
    ensures Delivered(w, StoreAndTranslate(w, env, sender, c, input, x, parse).0, sender, c, x,
                      Interpret(env.reply, parse).value)
  {
    StoreAndTranslateAccepted(w, env, sender, c, input, x, parse);
    var o := OutputsOf(sender, c, x, Interpret(env.reply, parse).value);
    FiledShows(w.book, RawRow(c, x.id, x.now), o);
  }

  /** A payload the validator accepts, reaching a consistent spreadsheet with
      no fault in any call, with a reply that reads as a record and a karte
      title not yet taken, is accepted and filed. */
  lemma DeliverSucceeds(w: World, env: Env, sender: string, data: JsValue, x: Inputs,
                        parse: string -> Option<JsValue>)
    requires !data.Null? && !data.Undefined?
    requires ValidBook(w.book) && NoFaults(env, |w.log|, 12)
    requires sender != "" && Interpret(env.reply, parse).Ok?
    requires var title := KarteTitle(x.dateLabel, Clean(data), x.id);
      title !in w.book.tabs && title != RawTab && title != TranslatedTab
    ensures var (w2, a) := Deliver(w, env, sender, data, x, parse);
      a == Accepted(x.id) && Delivered(w, w2, sender, Clean(data), x, Interpret(env.reply, parse).value)
  {
    var w1 := SchemaStep(w, env).0;
    SchemaSucceeds(w, env);
    SchemaProgressed(w, env);
    var c, input := Clean(data), TranslateInput(data);
    DeliverUnfolds(w, env, sender, data, x, parse, w1);
    assert NoFaults(env, |w1.log|, 6);
    assert RawTab in w1.book.tabs && TranslatedTab in w1.book.tabs;
    StillFree(w.book, w1.book, KarteTitle(x.dateLabel, c, x.id));
    StoreAndTranslateSucceeds(w1, env, sender, c, input, x, parse);
    StoreAndTranslateFiles(w1, env, sender, c, input, x, parse);
    var w2 := StoreAndTranslate(w1, env, sender, c, input, x, parse).0;
    DeliveredFrom(w, w1, w2, sender, c, x, Interpret(env.reply, parse).value);
  }

  lemma StillFree(b: Book, b1: Book, title: string)
    requires b1.tabs.Keys == b.tabs.Keys + {RawTab, TranslatedTab}
    requires title !in b.tabs && title != RawTab && title != TranslatedTab
    ensures title !in b1.tabs
  {
  }

  /** Only the mailbox of the starting world matters to `Delivered`. */
  lemma DeliveredFrom(w: World, w1: World, w2: World, sender: string, c: Cleaned, x: Inputs, t: Translation)
    requires w1.outbox == w.outbox && Delivered(w1, w2, sender, c, x, t)
    ensures Delivered(w, w2, sender, c, x, t)
  {
  }

  lemma DeliverUnfolds(w: World, env: Env, sender: string, data: JsValue, x: Inputs,
                       parse: string -> Option<JsValue>, w1: World)
    requires !data.Null? && !data.Undefined?
    requires SchemaStep(w, env) == (w1, Done)
    ensures Deliver(w, env, sender, data, x, parse)
      == StoreAndTranslate(w1, env, sender, Clean(data), TranslateInput(data), x, parse)
  {
  }

  /** The converse of `SubmitProgressed` for a request without faults: a
      well-configured server receiving a valid payload, with the credentials
      built, a consistent spreadsheet, no call failing, a model reply that does
      not read as `null` and a karte title not yet taken, answers with the
      submission id, writes both rows and the karte tab, and mails once. */
  lemma SubmitSucceeds(w: World, env: Env, cfg: Config, body: JsValue, x: Inputs,
                       parse: string -> Option<JsValue>)
    requires MissingConfig(cfg).None? && PayloadErrors(Body(body)) == [] && x.authError.None?
    requires ValidBook(w.book) && NoFaults(env, |w.log|, 12)
    requires parse(Candidate(Trim(env.reply))) != Some(Null)
    requires parse(Candidate(Trim(env.reply))) != Some(Undefined)
    requires var title := KarteTitle(x.dateLabel, Clean(Body(body)), x.id);
      title !in w.book.tabs && title != RawTab && title != TranslatedTab
    ensures Interpret(env.reply, parse).Ok?
    ensures var (w2, a) := SubmitStep(w, env, cfg, body, x, parse);
      a == Accepted(x.id)
      && Delivered(w, w2, cfg.gmailSender, Clean(Body(body)), x, Interpret(env.reply, parse).value)
  {
    SubmitDelivers(w, env, cfg, body, x, parse);
    ReplyRead(env.reply, parse);
    DeliverSucceeds(w, env, cfg.gmailSender, Body(body), x, parse);
  }

  lemma ReplyRead(reply: string, parse: string -> Option<JsValue>)
    requires parse(Candidate(Trim(reply))) != Some(Null)
    requires parse(Candidate(Trim(reply))) != Some(Undefined)
    ensures Interpret(reply, parse).Ok?
  {
    RaisesOnlyOnNull(Trim(reply), parse(Candidate(Trim(reply))));
  }

  lemma TwoMore<T>(s: seq<T>, a: T, b: T)
    ensures s + [a] + [b] == s + [a, b]
  {
  }

  // ------------------------------------------------------------ the methods

  /** `appendRawRow`, with the id and time it draws passed in. */
  method AppendRawRow(cloud: Cloud, data: JsValue, id: string, now: string) returns (o: Outcome)
    requires !data.Null? && !data.Undefined?
    modifies cloud
    ensures (cloud.State(), o) == AppendStep(old(cloud.State()), cloud.env, RawTab, RawRow(Clean(data), id, now))
  {
    var row := RawRow(Clean(data), id, now);
    var r := cloud.Perform(Append(RawTab, row));
    o := Settled(r);
  }

  method TranslateAndSummarize(cloud: Cloud, input: JsValue, parse: string -> Option<JsValue>)
    returns (t: Result<Translation>)
    modifies cloud
    ensures (cloud.State(), t) == TranslateStep(old(cloud.State()), cloud.env, input, parse)
  {
    var response := cloud.Perform(Generate(input));
    if response.Err? {
      return Err(response.message);
    }
    t := Interpret(ReplyText(response.value), parse);
  }

  /** `appendTranslatedRow`, with the time it draws passed in. */
  method AppendTranslatedRow(cloud: Cloud, id: string, at: string, t: Translation, sourceRow: string)
    returns (o: Outcome)
    modifies cloud
    ensures (cloud.State(), o) == AppendStep(old(cloud.State()), cloud.env, TranslatedTab, TranslatedRow(id, at, t, sourceRow))
  {
    var r := cloud.Perform(Append(TranslatedTab, TranslatedRow(id, at, t, sourceRow)));
    o := Settled(r);
  }

  /** `createKarteSheet`, with `formatDateForTitle(submittedAt)` passed in. */
  method CreateKarteSheet(cloud: Cloud, id: string, data: JsValue, t: Translation,
                          submittedAt: string, dateLabel: string) returns (o: Outcome)
    requires !data.Null? && !data.Undefined?
    modifies cloud
    ensures (cloud.State(), o) == KarteStep(old(cloud.State()), cloud.env,
      KarteTitle(dateLabel, Clean(data), id), KarteRows(id, Clean(data), t, submittedAt))
  {
    var c := Clean(data);
    var title := KarteTitle(dateLabel, c, id);
    var added := cloud.Perform(AddSheets([title], true));
    if added.Err? {
      return Fail(added.message);
    }
    var r := cloud.Perform(Update(title, KarteRows(id, c, t, submittedAt)));
    o := Settled(r);
  }

  method SendNotificationEmail(cloud: Cloud, toEmail: string, id: string, t: Translation)
    returns (o: Outcome)
    modifies cloud
    ensures (cloud.State(), o) == MailStep(old(cloud.State()), cloud.env, NotificationRaw(toEmail, id, t))
  {
    if toEmail == "" {
      return Fail(MissingSender);
    }
    var raw := EncodeMessage(Message(toEmail, id, t));
    var r := cloud.Perform(Send(raw));
    o := Settled(r);
  }

  method HandleSubmit(cloud: Cloud, cfg: Config, body: JsValue, x: Inputs,
                      parse: string -> Option<JsValue>) returns (a: Answer)
    modifies cloud
    ensures (cloud.State(), a) == SubmitStep(old(cloud.State()), cloud.env, cfg, body, x, parse)
  {
    if cfg.spreadsheetId == "" {
      return Rejected(500, MissingSpreadsheet);
    }
    if cfg.geminiKey == "" {
      return Rejected(500, MissingGeminiKey);
    }
    if cfg.gmailSender == "" {
      return Rejected(500, MissingSender);
    }
    var data := Body(body);
    var errors := PayloadErrors(data);
    if |errors| > 0 {
      return Rejected(400, Join(errors, "; "));
    }
    if x.authError.Some? {
      return Rejected(500, x.authError.value);
    }
    a := DeliverSubmission(cloud, cfg.gmailSender, data, x, parse);
  }

  /** The `try` block of `handleSubmit`: the schema, the raw row and the
      model call, then the three stages that publish the translation. */
  method DeliverSubmission(cloud: Cloud, sender: string, data: JsValue, x: Inputs,
                           parse: string -> Option<JsValue>) returns (a: Answer)
    requires !data.Null? && !data.Undefined?
    modifies cloud
    ensures (cloud.State(), a) == Deliver(old(cloud.State()), cloud.env, sender, data, x, parse)
  {
    var o := EnsureSheetsAndHeaders(cloud);
    if o.Fail? {
      return Rejected(500, o.message);
    }
    o := AppendRawRow(cloud, data, x.id, x.now);
    if o.Fail? {
      return Rejected(500, o.message);
    }
    var translated := TranslateAndSummarize(cloud, TranslateInput(data), parse);
    if translated.Err? {
      return Rejected(500, translated.message);
    }
    a := PublishTranslation(cloud, sender, data, x, translated.value);
  }

  /** The translated row, the karte tab and the mail, in that order. */
  method PublishTranslation(cloud: Cloud, sender: string, data: JsValue, x: Inputs, t: Translation)
    returns (a: Answer)
    requires !data.Null? && !data.Undefined?
    modifies cloud
    ensures (cloud.State(), a) == Publish(old(cloud.State()), cloud.env, x.id, OutputsOf(sender, Clean(data), x, t))
  {
    var o := AppendTranslatedRow(cloud, x.id, x.translatedAt, t, "");
    if o.Fail? {
      return Rejected(500, o.message);
    }
    o := CreateKarteSheet(cloud, x.id, data, t, x.now, x.dateLabel);
    if o.Fail? {
      return Rejected(500, o.message);
    }
    o := SendNotificationEmail(cloud, sender, x.id, t);
    if o.Fail? {
      return Rejected(500, o.message);
    }
    a := Accepted(x.id);
  }
}
