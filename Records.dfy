/**
 * The rows the intake server writes: the raw intake row (`appendRawRow`), the
 * translated row (`appendTranslatedRow`), and the per-client "karte" tab
 * (`createKarteSheet`): its title, cleaned by `sanitizeSheetTitle`, and its
 * 24 label/value rows.
 */
module Records {
  import opened Wrappers
  import opened Text
  import opened Js
  import opened Payload
  import opened ValidationRules
  import opened Sheets
  import opened Schema
  import opened Translate

  // ------------------------------------------------------------ raw row

  /** `safeNum(v)`: the number when `Number(v)` is finite, else "". */
  function SafeNum(v: JsValue): (c: Cell)
    ensures c.Number? <==> ToNumber(v).Some?
    ensures c.Number? ==> c.value == ToNumber(v).value
    ensures c.Text? ==> c.text == ""
  {
    match ToNumber(v)
    case Some(n) => Number(n)
    case None => Text("")
  }

  /** `safeNum` keeps what `Number` reads as finite and blanks the rest: a
      number stays itself, so does its decimal spelling, null and "" read as
      0, and undefined or a text that opens with a character that is neither
      white space, a sign nor a digit gives "". */
  lemma SafeNumReads(n: int, ch: char, rest: string)
    requires !IsSpace(ch) && !IsDigit(ch) && ch != '+' && ch != '-'
    ensures SafeNum(Num(n)) == Number(n)
    ensures SafeNum(Str(IntToDecimal(n))) == Number(n)
    ensures SafeNum(Null) == Number(0) && SafeNum(Str("")) == Number(0)
    ensures SafeNum(Undefined) == Text("")
    ensures SafeNum(Str([ch] + rest)) == Text("")
  {
    DecimalRoundTrip(n);
    assert Trim("") == "" by { TrimEmptyIffAllSpace(""); }
    NotANumber(ch, rest);
  }

  lemma NotANumber(ch: char, rest: string)
    requires !IsSpace(ch) && !IsDigit(ch) && ch != '+' && ch != '-'
    ensures ParseNumber([ch] + rest) == None
  {
    var t := Trim([ch] + rest);
    TrimOpensWith(ch, rest);
    assert !IsDigit(t[0]);
  }

  /** The payload fields as the server reads them for its rows: text fields
      through `safeStr`, multi-choice fields through `safeArr`, and vitality
      both through `safeNum` (raw row) and `safeStr` (karte). */
  datatype Cleaned = Cleaned(
    lastName: string, firstName: string, lastNameKana: string, firstNameKana: string,
    email: string, vitalityNumber: Cell, vitalityText: string, digestive: string,
    sleep: seq<string>, tension: seq<string>, skin: string, mental: string,
    sensory: seq<string>, letGo: string, inviteIn: seq<string>, communication: string,
    allergies: string, medical: string, female: string)

  function Clean(data: JsValue): Cleaned
    requires !data.Null? && !data.Undefined?
  {
    Cleaned(
      SafeStr(Prop(data, "last_name")), SafeStr(Prop(data, "first_name")),
      SafeStr(Prop(data, "last_name_kana")), SafeStr(Prop(data, "first_name_kana")),
      SafeStr(Prop(data, "email")),
      SafeNum(Prop(data, "vitality_1_10")), SafeStr(Prop(data, "vitality_1_10")),
      SafeStr(Prop(data, "digestive_rhythm")),
      SafeArr(Prop(data, "sleep_quality")), SafeArr(Prop(data, "tension_areas")),
      SafeStr(Prop(data, "skin_condition")), SafeStr(Prop(data, "mental_state")),
      SafeArr(Prop(data, "sensory_sensitivity")), SafeStr(Prop(data, "let_go_text")),
      SafeArr(Prop(data, "invite_in")), SafeStr(Prop(data, "communication_preference")),
      SafeStr(Prop(data, "allergies_text")), SafeStr(Prop(data, "medical_history_text")),
      SafeStr(Prop(data, "female_condition")))
  }

  /** `arr.join(', ')`. */
  function Listed(xs: seq<string>): string
  {
    Join(xs, ", ")
  }

  /** The row `appendRawRow` appends, column by column. */
  function RawRow(c: Cleaned, id: string, now: string): seq<Cell>
  {
    [ Text(id), Text(now), Text("NEW"),
      Text(c.lastName), Text(c.firstName), Text(c.lastNameKana), Text(c.firstNameKana),
      Text(c.email),
      c.vitalityNumber,
      Text(c.digestive), Text(Listed(c.sleep)), Text(Listed(c.tension)), Text(c.skin),
      Text(c.mental), Text(Listed(c.sensory)),
      Text(c.letGo), Text(Listed(c.inviteIn)), Text(c.communication),
      Text(c.allergies), Text(c.medical), Text(c.female) ]
  }

  /** The cell each payload field belongs in, by the field's name. */
  function FieldCell(c: Cleaned, key: string): Option<Cell>
  {
    match key
    case "last_name" => Some(Text(c.lastName))
    case "first_name" => Some(Text(c.firstName))
    case "last_name_kana" => Some(Text(c.lastNameKana))
    case "first_name_kana" => Some(Text(c.firstNameKana))
    case "email" => Some(Text(c.email))
    case "vitality_1_10" => Some(c.vitalityNumber)
    case "digestive_rhythm" => Some(Text(c.digestive))
    case "sleep_quality" => Some(Text(Listed(c.sleep)))
    case "tension_areas" => Some(Text(Listed(c.tension)))
    case "skin_condition" => Some(Text(c.skin))
    case "mental_state" => Some(Text(c.mental))
    case "sensory_sensitivity" => Some(Text(Listed(c.sensory)))
    case "let_go_text" => Some(Text(c.letGo))
    case "invite_in" => Some(Text(Listed(c.inviteIn)))
    case "communication_preference" => Some(Text(c.communication))
    case "allergies_text" => Some(Text(c.allergies))
    case "medical_history_text" => Some(Text(c.medical))
    case "female_condition" => Some(Text(c.female))
    case _ => None
  }

  /** The raw row lines up with the raw headers: one cell per header, the id,
      time and "NEW" status first, and under every other header the payload
      field of that name. */
  lemma RawRowAligned(c: Cleaned, id: string, now: string)
    ensures var row := RawRow(c, id, now);
      && |row| == |RawHeaders| == 21
      && row[0] == Text(id) && row[1] == Text(now) && row[2] == Text("NEW")
      && forall i :: 3 <= i < |row| ==> FieldCell(c, RawHeaders[i]) == Some(row[i])
  {
    RawCellsAligned(c, id, now, 3, 12);
    RawCellsAligned(c, id, now, 12, 21);
  }

  /** The cells of the raw row at positions `lo` to `hi`, each under its header. */
  lemma RawCellsAligned(c: Cleaned, id: string, now: string, lo: nat, hi: nat)
    requires (lo, hi) == (3, 12) || (lo, hi) == (12, 21)
    ensures |RawRow(c, id, now)| == |RawHeaders| == 21
    ensures forall i :: lo <= i < hi ==> FieldCell(c, RawHeaders[i]) == Some(RawRow(c, id, now)[i])
  {
  }

  /** A required text field of a payload the validator accepts (see
      `AcceptedIffNoErrors`) is not blank once trimmed. */
  lemma AcceptedText(data: JsValue, key: string)
    requires PayloadAcceptable(data)
    requires key in RequiredPersonal || key in RequiredText || key == "let_go_text"
    ensures SafeStr(Prop(data, key)) != ""
  {
  }

  /** A required multi-choice field of an accepted payload has a choice. */
  lemma AcceptedChoices(data: JsValue, key: string)
    requires PayloadAcceptable(data)
    requires key in RequiredMulti
    ensures SafeArr(Prop(data, key)) != []
  {
  }

  /** An accepted payload leaves no required name or contact column of the
      raw row blank. */
  lemma AcceptedPersonalFilled(data: JsValue)
    requires PayloadAcceptable(data)
    ensures var c := Clean(data);
      c.lastName != "" && c.firstName != "" && c.lastNameKana != "" && c.firstNameKana != "" && c.email != ""
  {
    assert RequiredPersonal == ["last_name", "first_name", "last_name_kana", "first_name_kana", "email"];
    AcceptedText(data, "last_name");
    AcceptedText(data, "first_name");
    AcceptedText(data, "last_name_kana");
    AcceptedText(data, "first_name_kana");
    AcceptedText(data, "email");
  }

  /** An accepted payload leaves no required free-text column blank. */
  lemma AcceptedTextFilled(data: JsValue)
    requires PayloadAcceptable(data)
    ensures var c := Clean(data);
      && c.digestive != "" && c.skin != "" && c.mental != "" && c.communication != ""
      && c.allergies != "" && c.medical != "" && c.female != "" && c.letGo != ""
  {
    assert RequiredText == ["digestive_rhythm", "skin_condition", "mental_state", "communication_preference",
                            "allergies_text", "medical_history_text", "female_condition"];
    AcceptedText(data, "digestive_rhythm");
    AcceptedText(data, "skin_condition");
    AcceptedText(data, "mental_state");
    AcceptedText(data, "communication_preference");
    AcceptedText(data, "allergies_text");
    AcceptedText(data, "medical_history_text");
    AcceptedText(data, "female_condition");
    AcceptedText(data, "let_go_text");
  }

  /** An accepted payload has at least one choice in every multi-choice
      column, and a vitality number from 1 to 10. */
  lemma AcceptedChoicesFilled(data: JsValue)
    requires PayloadAcceptable(data)
    ensures var c := Clean(data);
      && c.sleep != [] && c.tension != [] && c.sensory != [] && c.inviteIn != []
      && c.vitalityNumber.Number? && 1 <= c.vitalityNumber.value <= 10
  {
    assert RequiredMulti == ["sleep_quality", "tension_areas", "sensory_sensitivity", "invite_in"];
    AcceptedChoices(data, "sleep_quality");
    AcceptedChoices(data, "tension_areas");
    AcceptedChoices(data, "sensory_sensitivity");
    AcceptedChoices(data, "invite_in");
  }

  // ------------------------------------------------------------ translated row

  /** The row `appendTranslatedRow` appends. */
  function TranslatedRow(id: string, at: string, t: Translation, sourceRow: string): seq<Cell>
  {
    TextCells([id, at, t.summary, t.flags, t.full, sourceRow])
  }

  /** The translated row lines up with its headers. */
  lemma TranslatedRowAligned(id: string, at: string, t: Translation, sourceRow: string)
    ensures var row := TranslatedRow(id, at, t, sourceRow);
      && |row| == |TranslatedHeaders|
      && forall i :: 0 <= i < |row| ==> row[i] == Text(
           match TranslatedHeaders[i]
           case "submission_id" => id
           case "translated_at" => at
           case "english_summary" => t.summary
           case "risk_flags" => t.flags
           case "english_full" => t.full
           case _ => sourceRow)
  {
  }

  // ------------------------------------------------------------ karte title

  /** The characters a sheet title may not hold: `[ ] * ? : / \`. */
  predicate Forbidden(c: char)
  {
    c == '[' || c == ']' || c == '*' || c == '?' || c == ':' || c == '/' || c == '\\'
  }

  predicate TitleSafe(s: string)
  {
    forall i :: 0 <= i < |s| ==> !Forbidden(s[i])
  }

  /** Every character a sheet title may not hold (`[ ] * ? : / \`) removed. */
  function RemoveForbidden(s: string): (r: string)
    ensures TitleSafe(r) && |r| <= |s|
    ensures forall c <- r :: c in s
    ensures forall c <- s :: !Forbidden(c) ==> c in r
  {
    if s == [] then []
    else if Forbidden(s[0]) then RemoveForbidden(s[1..])
    else [s[0]] + RemoveForbidden(s[1..])
  }

  /** The filter works piece by piece, so the characters kept stay in their order. */
  lemma {:induction false} RemoveForbiddenSplits(a: string, b: string)
    ensures RemoveForbidden(a + b) == RemoveForbidden(a) + RemoveForbidden(b)
  {
    if a != [] {
      var s := a + b;
      assert s[0] == a[0] && s[1..] == a[1..] + b;
      RemoveForbiddenSplits(a[1..], b);
      var kept := if Forbidden(a[0]) then [] else [a[0]];
      assert RemoveForbidden(s) == kept + RemoveForbidden(s[1..]);
      assert RemoveForbidden(a) == kept + RemoveForbidden(a[1..]);
    } else {
      assert a + b == b;
    }
  }

  /** One character is kept exactly when a sheet title may hold it. */
  lemma RemoveForbiddenOne(ch: char)
    ensures RemoveForbidden([ch]) == if Forbidden(ch) then [] else [ch]
  {
    assert [ch][1..] == [];
  }

  /** A clean string loses nothing. */
  lemma {:induction false} RemoveForbiddenKeepsTitleSafe(s: string)
    requires TitleSafe(s)
    ensures RemoveForbidden(s) == s
  {
    if s != [] {
      RemoveForbiddenKeepsTitleSafe(s[1..]);
    }
  }

  const DefaultTitle := "Karte"
  const TitleLimit := 100

  /** `sanitizeSheetTitle`: drop the forbidden characters, keep the first 100,
      and fall back to "Karte" when nothing is left. */
  function SanitizeSheetTitle(title: string): (r: string)
    ensures TitleSafe(r) && 1 <= |r| <= TitleLimit
  {
    var cleaned := Take(RemoveForbidden(title), TitleLimit);
    assert TitleSafe(cleaned) by {
      forall i | 0 <= i < |cleaned| ensures !Forbidden(cleaned[i]) {
        assert cleaned[i] == RemoveForbidden(title)[i];
      }
    }
    if cleaned == "" then DefaultTitle else cleaned
  }

  /** A title that is already clean, non-empty and short enough is kept. */
  lemma CleanTitleKept(title: string)
    requires TitleSafe(title) && 1 <= |title| <= TitleLimit
    ensures SanitizeSheetTitle(title) == title
  {
    RemoveForbiddenKeepsTitleSafe(title);
  }

  /** Sanitizing twice is sanitizing once. */
  lemma SanitizeIdempotent(title: string)
    ensures SanitizeSheetTitle(SanitizeSheetTitle(title)) == SanitizeSheetTitle(title)
  {
    CleanTitleKept(SanitizeSheetTitle(title));
  }

  /** Only a title with nothing but forbidden characters falls back. */
  lemma FallbackOnlyWhenNothingLeft(title: string)
    ensures RemoveForbidden(title) == [] ==> SanitizeSheetTitle(title) == DefaultTitle
    ensures RemoveForbidden(title) != [] ==> IsPrefix(SanitizeSheetTitle(title), RemoveForbidden(title))
    ensures RemoveForbidden(title) != [] ==> SanitizeSheetTitle(title) == Take(RemoveForbidden(title), TitleLimit)
    ensures RemoveForbidden(title) != [] ==>
      |SanitizeSheetTitle(title)| == if |RemoveForbidden(title)| <= TitleLimit then |RemoveForbidden(title)| else TitleLimit
  {
  }

  /** The karte tab's title: `<date>_<last><first>様_<first 6 of the id>`. */
  function KarteBase(dateLabel: string, c: Cleaned, id: string): string
  {
    dateLabel + "_" + c.lastName + c.firstName + "様_" + Take(id, 6)
  }

  function KarteTitle(dateLabel: string, c: Cleaned, id: string): (r: string)
    ensures TitleSafe(r) && 1 <= |r| <= TitleLimit
  {
    SanitizeSheetTitle(KarteBase(dateLabel, c, id))
  }

  /** When no part of it needs cleaning and it fits, the title is spelled out
      exactly, ending with the first six characters of the submission id. */
  lemma KarteTitleSpelledOut(dateLabel: string, c: Cleaned, id: string)
    requires TitleSafe(KarteBase(dateLabel, c, id)) && |KarteBase(dateLabel, c, id)| <= TitleLimit
    ensures KarteTitle(dateLabel, c, id) == dateLabel + "_" + c.lastName + c.firstName + "様_" + Take(id, 6)
  {
    CleanTitleKept(KarteBase(dateLabel, c, id));
  }

  // ------------------------------------------------------------ karte rows

  const KarteLabels: seq<string> := [
    "Submission ID", "Submitted At (JST)",
    "Last Name", "First Name", "Last Name (Kana)", "First Name (Kana)", "Email",
    "Vitality Level (1-10)", "Digestive Rhythm (past 48h)", "Sleep Quality", "Tension Areas",
    "Skin Condition", "Mental State", "Sensory Sensitivity", "Let Go (Free Text)",
    "Desired Feeling After Session", "Communication Preference", "Allergies",
    "Medical History / Notes", "Female Condition", "---",
    "English Summary", "Risk Flags", "English Full"]

  /** `safeStr(tf[key]) || own`: the translation when there is one. */
  function Preferred(tf: JsValue, key: string, own: string): (r: string)
    requires !tf.Null? && !tf.Undefined?
    ensures SafeStr(Prop(tf, key)) != "" ==> r == SafeStr(Prop(tf, key))
    ensures SafeStr(Prop(tf, key)) == "" ==> r == own
    ensures r != "" <==> SafeStr(Prop(tf, key)) != "" || own != ""
  {
    var translated := SafeStr(Prop(tf, key));
    if translated != "" then translated else own
  }

  /** The translated fields, or `{}` when missing. */
  function FieldsOf(t: Translation): (tf: JsValue)
    ensures !tf.Null? && !tf.Undefined?
    ensures Truthy(t.fields) ==> tf == t.fields
  {
    if Truthy(t.fields) then t.fields else Obj(map[])
  }

  /** The karte values that come from the translation. */
  datatype Notes = Notes(letGo: string, allergies: string, medical: string,
                         summary: string, flags: string, full: string)

  /** `safeStr(tf.x) || safeStr(data.x)` for the three free-text fields, and
      `safeStr` of the summary, flags and full text. */
  function KarteNotes(c: Cleaned, t: Translation): Notes
  {
    var tf := FieldsOf(t);
    Notes(Preferred(tf, "let_go_text", c.letGo),
          Preferred(tf, "allergies_text", c.allergies),
          Preferred(tf, "medical_history_text", c.medical),
          SafeStr(Str(t.summary)), SafeStr(Str(t.flags)), SafeStr(Str(t.full)))
  }

  /** The values of the karte rows, in label order. */
  function KarteValues(id: string, c: Cleaned, n: Notes, submittedAt: string): seq<string>
  {
    [ id, submittedAt,
      c.lastName, c.firstName, c.lastNameKana, c.firstNameKana, c.email,
      c.vitalityText, c.digestive, Listed(c.sleep), Listed(c.tension), c.skin, c.mental,
      Listed(c.sensory), n.letGo, Listed(c.inviteIn), c.communication,
      n.allergies, n.medical, c.female,
      "---",
      n.summary, n.flags, n.full ]
  }

  /** The block written at A1 of the karte tab: label in column A, value in B. */
  function KarteBlock(labels: seq<string>, values: seq<string>): (g: Grid)
    requires |labels| == |values|
    ensures |g| == |labels|
    ensures forall i :: 0 <= i < |g| ==> g[i] == [Text(labels[i]), Text(values[i])]
  {
    seq(|labels|, i requires 0 <= i < |labels| => [Text(labels[i]), Text(values[i])])
  }

  function KarteRows(id: string, c: Cleaned, t: Translation, submittedAt: string): Grid
  {
    KarteBlock(KarteLabels, KarteValues(id, c, KarteNotes(c, t), submittedAt))
  }

  /** Read back, the karte block shows the labels down column A and the
      values down column B, and nothing beyond column B. */
  lemma KarteBlockReadsBack(labels: seq<string>, values: seq<string>)
    requires |labels| == |values|
    ensures var g := KarteBlock(labels, values);
      && Column(g, 0) == labels && Column(g, 1) == values
      && forall i :: 0 <= i < |g| ==> |g[i]| == 2
  {
  }

  /** The karte tab lists its 24 labels in column A, and beside them the
      submission's values in label order. */
  lemma KarteColumns(id: string, c: Cleaned, t: Translation, submittedAt: string)
    ensures Column(KarteRows(id, c, t, submittedAt), 0) == KarteLabels
    ensures Column(KarteRows(id, c, t, submittedAt), 1) == KarteValues(id, c, KarteNotes(c, t), submittedAt)
  {
    KarteBlockReadsBack(KarteLabels, KarteValues(id, c, KarteNotes(c, t), submittedAt));
  }

  /** Pairs (karte row, raw column) that show the same intake value. */
  const KarteFromRaw: seq<(nat, nat)> := [
    (0, 0), (1, 1), (2, 3), (3, 4), (4, 5), (5, 6), (6, 7), (8, 9), (9, 10),
    (10, 11), (11, 12), (12, 13), (13, 14), (15, 16), (16, 17), (19, 20)]

  /** The karte repeats what the raw row stored, except where it prefers the
      translation: for every pair above, the karte value is the raw cell. */
  lemma KarteCopiesRawRow(id: string, c: Cleaned, n: Notes, now: string)
    ensures var values := KarteValues(id, c, n, now);
      var row := RawRow(c, id, now);
      && |values| == |KarteLabels| == 24
      && forall p <- KarteFromRaw :: p.0 < 24 && p.1 < 21 && row[p.1] == Text(values[p.0])
  {
    var values := KarteValues(id, c, n, now);
    var row := RawRow(c, id, now);
    assert |values| == |KarteLabels| == 24;
    PersonalRowsCopied(id, c, n, now);
    ChoiceRowsCopied(id, c, n, now);
    forall p <- KarteFromRaw ensures p.0 < 24 && p.1 < 21 && row[p.1] == Text(values[p.0]) {
      var i :| 0 <= i < |KarteFromRaw| && KarteFromRaw[i] == p;
    }
  }

  lemma PersonalRowsCopied(id: string, c: Cleaned, n: Notes, now: string)
    ensures var values, row := KarteValues(id, c, n, now), RawRow(c, id, now);
      forall i :: 0 <= i < 8 ==> var p := KarteFromRaw[i]; p.0 < 24 && p.1 < 21 && row[p.1] == Text(values[p.0])
  {
  }

  lemma ChoiceRowsCopied(id: string, c: Cleaned, n: Notes, now: string)
    ensures var values, row := KarteValues(id, c, n, now), RawRow(c, id, now);
      forall i :: 8 <= i < |KarteFromRaw| ==> var p := KarteFromRaw[i]; p.0 < 24 && p.1 < 21 && row[p.1] == Text(values[p.0])
  {
  }

  /** The three free-text rows show the translation when it is not blank,
      and the client's own words otherwise. */
  lemma KartePrefersTranslation(c: Cleaned, t: Translation)
    ensures var n, tf := KarteNotes(c, t), FieldsOf(t);
      && n.letGo == (if SafeStr(Prop(tf, "let_go_text")) != "" then SafeStr(Prop(tf, "let_go_text")) else c.letGo)
      && n.allergies == (if SafeStr(Prop(tf, "allergies_text")) != "" then SafeStr(Prop(tf, "allergies_text")) else c.allergies)
      && n.medical == (if SafeStr(Prop(tf, "medical_history_text")) != "" then SafeStr(Prop(tf, "medical_history_text")) else c.medical)
  {
  }

  /** A record from the reply parser lands in the last three rows as it is. */
  lemma KarteShowsTranslation(c: Cleaned, t: Translation)
    requires IsTrimmed(t.summary) && IsTrimmed(t.flags) && IsTrimmed(t.full)
    ensures var n := KarteNotes(c, t); n.summary == t.summary && n.flags == t.flags && n.full == t.full
  {
    TrimOfTrimmed(t.summary);
    TrimOfTrimmed(t.flags);
    TrimOfTrimmed(t.full);
  }
}
