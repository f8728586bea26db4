/**
 * The intake wizard (src/App.tsx): the list of question steps, the check
 * `validateAndSave` applies to the current answer, the navigation state that
 * `goNext` and `goBack` move, the payload `submitAll` posts, and the preview
 * text of an answer. The component's state is a class whose fields are the
 * state hooks; rendering, `fetch` and scrolling are not part of it.
 */
module Wizard {
  import opened Wrappers
  import opened Text
  import opened Js
  import opened Payload
  import opened Choices

  datatype Kind = NumberInput | Single | Multi | MultiNoneExclusive | TextInput | Preview

  /** A step of the wizard: its answer key, its caption in the preview, its kind,
      its options and, for a number, its bounds. */
  datatype Step = Step(key: string, caption: string, kind: Kind, options: seq<string>, min: Option<int>, max: Option<int>)

  function Question(key: string, caption: string, kind: Kind, options: seq<string>): Step
  {
    Step(key, caption, kind, options, None, None)
  }

  const PreviewKey := "__preview__"

  /** The eighteen questions and the closing preview, in order. */
  const Steps: seq<Step> := [
    Question("last_name", "姓", TextInput, []),
    Question("first_name", "名", TextInput, []),
    Question("last_name_kana", "姓カナ", TextInput, []),
    Question("first_name_kana", "名カナ", TextInput, []),
    Question("email", "メールアドレス", TextInput, []),
    Step("vitality_1_10", "活力レベル（1〜10）", NumberInput, [], Some(1), Some(10)),
    Question("digestive_rhythm", "消化リズム（過去48時間）", Single, ["重い", "不規則", "鋭い", "安定"]),
    Question("sleep_quality", "睡眠の状態", Multi, ["寝つきが悪い", "夜中に起きる", "起きてもスッキリしない", "よく眠れた"]),
    Question("tension_areas", "張り・緊張がある部位", Multi, ["首", "肩", "腰（下背部）", "あご", "目", "股関節", "その他"]),
    Question("skin_condition", "肌の状態", Single, ["乾燥", "熱っぽい／敏感", "脂っぽい", "バランス良い"]),
    Question("mental_state", "現在のメンタル状態", Single,
      ["風（Vata）— 落ち着かない／不安", "火（Pitta）— 集中／イライラ", "霧（Kapha）— 重い／やる気が出ない"]),
    Question("sensory_sensitivity", "刺激に弱い（敏感な）もの", MultiNoneExclusive,
      ["音", "光", "温度", "圧の強さ（タッチ）", "特になし"]),
    Question("let_go_text", "手放したいこと", TextInput, []),
    Question("invite_in", "セッション後どう感じたいか", Multi, ["クリアさ", "地に足がつく感覚", "活力", "深いリラックス", "内なる静けさ"]),
    Question("communication_preference", "施術中のコミュニケーション希望", Single,
      ["完全に静かに過ごしたい", "やさしいガイダンスが欲しい", "時々の確認だけしてほしい"]),
    Question("allergies_text", "アレルギー", TextInput, []),
    Question("medical_history_text", "既往歴・注意点", TextInput, []),
    Question("female_condition", "女性の体調（該当者のみ）", Single, ["生理中", "妊娠の可能性あり", "該当なし"]),
    Question(PreviewKey, "プレビュー", Preview, [])
  ]

  /** `steps.length - 1`: the index of the preview, and the number of questions. */
  const Last := 18

  // ------------------------------------------------------ step check

  const NotANumber := "数字を入力してください。"
  const RangeTail := "の範囲で入力してください。"
  const EnterText := "入力してください。"
  const CheckEmail := "メールアドレスの形式を確認してください。"
  const ChooseOne := "いずれか1つを選択してください。"
  const ChooseSome := "最低1つは選択してください。"
  const NoneStandsAlone := "「特になし」を選ぶ場合は、それ単独で選択してください。"

  /** `${s.min}` in a template: the number, or "undefined" when there is none. */
  function BoundText(b: Option<int>): string
  {
    if b.Some? then IntToDecimal(b.value) else "undefined"
  }

  /** The lower and upper bounds of a number step, `s.min ?? 1` and `s.max ?? 10`. */
  function Lo(s: Step): int { if s.min.Some? then s.min.value else 1 }
  function Hi(s: Step): int { if s.max.Some? then s.max.value else 10 }

  /** `validateAndSave` on step `s` with answer `v`: `None` when the step is
      accepted, otherwise the message it shows. */
  function StepCheck(s: Step, v: JsValue): (r: Option<string>)
    ensures s.kind == Preview ==> r.None?
    ensures s.kind == NumberInput ==>
      (r.None? <==> ToNumber(v).Some? && Lo(s) <= ToNumber(v).value <= Hi(s))
    ensures s.kind == TextInput ==>
      (r.None? <==> Truthy(v) && Trim(ToStr(v)) != "" && (s.key == "email" ==> MatchesEmailPattern(ToStr(v))))
    ensures s.kind == Single ==> (r.None? <==> Truthy(v))
    ensures s.kind == Multi ==> (r.None? <==> v.Arr? && v.items != [])
    ensures s.kind == MultiNoneExclusive ==>
      (r.None? <==> v.Arr? && v.items != [] && !(Str(NoneOption) in v.items && |v.items| > 1))
    // the message a rejected answer shows, case by case
    ensures s.kind == NumberInput && ToNumber(v).None? ==> r == Some(NotANumber)
    ensures s.kind == NumberInput && ToNumber(v).Some? && !(Lo(s) <= ToNumber(v).value <= Hi(s)) ==>
      r == Some(BoundText(s.min) + "〜" + BoundText(s.max) + RangeTail)
    ensures s.kind == TextInput && (!Truthy(v) || Trim(ToStr(v)) == "") ==> r == Some(EnterText)
    ensures s.kind == TextInput && Truthy(v) && Trim(ToStr(v)) != "" && s.key == "email" && !MatchesEmailPattern(ToStr(v))
      ==> r == Some(CheckEmail)
    ensures s.kind == Single && !Truthy(v) ==> r == Some(ChooseOne)
    ensures (s.kind == Multi || s.kind == MultiNoneExclusive) && !(v.Arr? && v.items != []) ==> r == Some(ChooseSome)
    ensures s.kind == MultiNoneExclusive && v.Arr? && Str(NoneOption) in v.items && |v.items| > 1 ==>
      r == Some(NoneStandsAlone)
  {
    match s.kind
    case Preview => None
    case NumberInput =>
      var n := ToNumber(v);
      if n.None? then Some(NotANumber)
      else if n.value < Lo(s) || n.value > Hi(s) then Some(BoundText(s.min) + "〜" + BoundText(s.max) + RangeTail)
      else None
    case TextInput =>
      EmailShapeIsPattern(ToStr(v));
      if !Truthy(v) || Trim(ToStr(v)) == "" then Some(EnterText)
      else if s.key == "email" && !EmailShape(ToStr(v)) then Some(CheckEmail)
      else None
    case Single =>
      if !Truthy(v) then Some(ChooseOne) else None
    case Multi =>
      if !v.Arr? || v.items == [] then Some(ChooseSome) else None
    case MultiNoneExclusive =>
      if !v.Arr? || v.items == [] then Some(ChooseSome)
      else if Str(NoneOption) in v.items && |v.items| > 1 then Some(NoneStandsAlone)
      else None
  }

  // ---------------------------------------------------------- answers

  /** `answers[key]`. */
  function Answer(answers: map<string, JsValue>, key: string): JsValue
  {
    if key in answers then answers[key] else Undefined
  }

  predicate AllStr(items: seq<JsValue>)
  {
    forall i :: 0 <= i < |items| ==> items[i].Str?
  }

  /** The texts of an array that holds only texts. */
  function Texts(items: seq<JsValue>): (xs: seq<string>)
    requires AllStr(items)
    ensures |xs| == |items| && forall i :: 0 <= i < |items| ==> items[i] == Str(xs[i])
  {
    seq(|items|, i requires 0 <= i < |items| => items[i].s)
  }

  /** The values the inputs of step `s` can store: typed text for the text and
      number inputs, one of the options for a radio group, a list of distinct
      options for a group of checkboxes, with "特になし" alone where it excludes
      the others. */
  predicate Fits(s: Step, v: JsValue)
  {
    v.Undefined? ||
    match s.kind
    case NumberInput => v.Str?
    case TextInput => v.Str?
    case Single => v.Str? && v.s in s.options
    case Multi => v.Arr? && AllStr(v.items) && Distinct(Texts(v.items)) && forall x <- Texts(v.items) :: x in s.options
    case MultiNoneExclusive =>
      && v.Arr? && AllStr(v.items) && Distinct(Texts(v.items)) && (forall x <- Texts(v.items) :: x in s.options)
      && NoneAlone(Texts(v.items))
    case Preview => true
  }

  /** Every answer is one its step's input can store. */
  predicate Shaped(answers: map<string, JsValue>)
  {
    forall j :: 0 <= j < |Steps| ==> Fits(Steps[j], Answer(answers, Steps[j].key))
  }

  /** Every step before `n` accepts its answer. */
  predicate AcceptedBefore(answers: map<string, JsValue>, n: nat)
    requires n <= |Steps|
  {
    forall j :: 0 <= j < n ==> StepCheck(Steps[j], Answer(answers, Steps[j].key)).None?
  }

  /** The list a multi-choice answer holds: the array itself, or empty for anything else. */
  function CheckedList(v: JsValue): seq<string>
  {
    if v.Arr? && AllStr(v.items) then Texts(v.items) else []
  }

  // ----------------------------------------------------------- preview

  /** `formatAnswerForPreview`: nothing for a missing answer, a list joined
      with "、", anything else through `String`. */
  function FormatAnswerForPreview(v: JsValue): (r: string)
    ensures v.Undefined? || v.Null? ==> r == ""
    ensures v.Str? ==> r == v.s
  {
    if v.Undefined? || v.Null? then ""
    else if v.Arr? then JoinValues(v.items, "、")
    else ToStr(v)
  }

  /** A list of chosen options previews as those options joined by "、". */
  lemma {:induction false} PreviewOfChoices(xs: seq<string>)
    ensures FormatAnswerForPreview(StrArray(xs)) == Join(xs, "、")
  {
    JoinTexts(xs);
  }

  lemma {:induction false} JoinTexts(xs: seq<string>)
    ensures JoinValues(StrArray(xs).items, "、") == Join(xs, "、")
  {
    var items := StrArray(xs).items;
    if |xs| == 1 {
      assert ElementStr(items[0]) == xs[0];
    } else if |xs| > 1 {
      assert items[1..] == StrArray(xs[1..]).items;
      JoinTexts(xs[1..]);
      assert ElementStr(items[0]) == xs[0];
    }
  }

  /** The preview row's value: the formatted answer, or "（未入力）". */
  function PreviewCell(v: JsValue): (r: string)
    ensures r != ""
    ensures FormatAnswerForPreview(v) != "" ==> r == FormatAnswerForPreview(v)
  {
    var text := FormatAnswerForPreview(v);
    if text != "" then text else "（未入力）"
  }

  // ----------------------------------------------------------- payload

  const SingleKeys: seq<string> :=
    ["digestive_rhythm", "skin_condition", "mental_state", "communication_preference", "female_condition"]
  const ListKeys: seq<string> := ["sleep_quality", "tension_areas", "sensory_sensitivity", "invite_in"]
  const PostedKeys: seq<string> :=
    ["last_name", "first_name", "last_name_kana", "first_name_kana", "email", "vitality_1_10",
     "digestive_rhythm", "sleep_quality", "tension_areas", "skin_condition", "mental_state",
     "sensory_sensitivity", "let_go_text", "invite_in", "communication_preference",
     "allergies_text", "medical_history_text", "female_condition"]

  /** The label table `submitAll` applies to a key. */
  function TableFor(key: string): Table
  {
    match key
    case "digestive_rhythm" => DigestiveLabels
    case "sleep_quality" => SleepLabels
    case "tension_areas" => TensionLabels
    case "skin_condition" => SkinLabels
    case "mental_state" => MentalLabels
    case "sensory_sensitivity" => SensoryLabels
    case "invite_in" => InviteLabels
    case "communication_preference" => CommLabels
    case "female_condition" => FemaleLabels
    case _ => []
  }

  /** `(v || []).map(f)`: `None` when `v` is truthy but not an array, where
      `.map` throws. */
  function MapList(t: Table, v: JsValue): (r: Option<JsValue>)
    ensures r.Some? ==> r.value.Arr?
    ensures v.Arr? ==> (r.Some? && |r.value.items| == |v.items|
      && forall i :: 0 <= i < |v.items| ==> r.value.items[i] == Label(t, v.items[i]))
  {
    if !Truthy(v) then Some(Arr([]))
    else if v.Arr? then Some(Arr(seq(|v.items|, i requires 0 <= i < |v.items| => Label(t, v.items[i]))))
    else None
  }

  /** The payload's value for `key`. */
  function PostedField(answers: map<string, JsValue>, key: string): Option<JsValue>
  {
    var v := Answer(answers, key);
    if key in ListKeys then MapList(TableFor(key), v)
    else if key in SingleKeys then Some(Label(TableFor(key), v))
    else Some(v)
  }

  /** The object `submitAll` posts, or `None` when building it throws. */
  function PayloadOf(answers: map<string, JsValue>): (r: Option<JsValue>)
    ensures r.Some? ==> r.value.Obj? && r.value.props.Keys == set k <- PostedKeys
  {
    if forall k <- PostedKeys :: PostedField(answers, k).Some? then
      Some(Obj(map k <- PostedKeys :: PostedField(answers, k).value))
    else None
  }

  // ------------------------------------------------------------ layout

  /** The questions come in the order of the payload's keys, and the preview
      is the last step and the only one. */
  lemma QuestionOrder()
    ensures |Steps| == Last + 1 && |PostedKeys| == Last
    ensures forall j :: 0 <= j < Last ==> Steps[j].key == PostedKeys[j] && Steps[j].kind != Preview
    ensures Steps[Last].kind == Preview
  {
  }

  /** No two steps share an answer key. */
  lemma KeysDistinct()
    ensures forall i, j :: 0 <= i < j < |Steps| ==> Steps[i].key != Steps[j].key
  {
    QuestionOrder();
    PostedKeysPositioned();
    PreviewKeyPositioned();
    assert forall i :: 0 <= i < |Steps| ==> KeyPosition(Steps[i].key) == i;
  }

  /** Where a key sits in the list of steps (the preview's, for any other). */
  ghost function KeyPosition(key: string): nat
  {
    match key
    case "last_name" => 0
    case "first_name" => 1
    case "last_name_kana" => 2
    case "first_name_kana" => 3
    case "email" => 4
    case "vitality_1_10" => 5
    case "digestive_rhythm" => 6
    case "sleep_quality" => 7
    case "tension_areas" => 8
    case "skin_condition" => 9
    case "mental_state" => 10
    case "sensory_sensitivity" => 11
    case "let_go_text" => 12
    case "invite_in" => 13
    case "communication_preference" => 14
    case "allergies_text" => 15
    case "medical_history_text" => 16
    case "female_condition" => 17
    case _ => 18
  }

  lemma PostedKeysPositioned()
    ensures forall i :: 0 <= i < |PostedKeys| ==> KeyPosition(PostedKeys[i]) == i
  {
  }

  lemma PreviewKeyPositioned()
    ensures KeyPosition(PreviewKey) == Last
  {
  }

  /** The step where "特になし" excludes the others offers it. */
  lemma ExclusiveOffersNone()
    ensures forall j :: 0 <= j < |Steps| && Steps[j].kind == MultiNoneExclusive ==> NoneOption in Steps[j].options
  {
  }

  /** Each question's kind, read off the list. */
  lemma QuestionKinds()
    ensures forall j :: 0 <= j < 5 ==> Steps[j].kind == TextInput
    ensures Steps[5].kind == NumberInput && Lo(Steps[5]) == 1 && Hi(Steps[5]) == 10
    ensures Steps[12].kind == TextInput && Steps[15].kind == TextInput && Steps[16].kind == TextInput
    ensures Steps[6].kind == Single && Steps[9].kind == Single && Steps[10].kind == Single
    ensures Steps[14].kind == Single && Steps[17].kind == Single
    ensures Steps[7].kind == Multi && Steps[8].kind == Multi && Steps[13].kind == Multi
    ensures Steps[11].kind == MultiNoneExclusive
  {
  }

  /** A choice step offers exactly the options its label table knows, in the
      same order, and the table is one of the mapper kind. */
  predicate Tabled(s: Step)
  {
    s.options == Keys(TableFor(s.key)) && Labelled(TableFor(s.key))
  }

  lemma SingleStepsTabled()
    ensures Tabled(Steps[6]) && Tabled(Steps[9]) && Tabled(Steps[10])
  {
    SingleTablesLabelled();
    assert Steps[6].key == "digestive_rhythm" && Steps[6].options == Keys(DigestiveLabels);
    assert TableFor("digestive_rhythm") == DigestiveLabels;
    assert Steps[9].key == "skin_condition" && Steps[9].options == Keys(SkinLabels);
    assert TableFor("skin_condition") == SkinLabels;
    assert Steps[10].key == "mental_state" && Steps[10].options == Keys(MentalLabels);
    assert TableFor("mental_state") == MentalLabels;
  }

  lemma OtherSingleStepsTabled()
    ensures Tabled(Steps[14]) && Tabled(Steps[17])
  {
    SingleTablesLabelled();
    assert Steps[14].key == "communication_preference" && Steps[14].options == Keys(CommLabels);
    assert TableFor("communication_preference") == CommLabels;
    assert Steps[17].key == "female_condition" && Steps[17].options == Keys(FemaleLabels);
    assert TableFor("female_condition") == FemaleLabels;
  }

  lemma MultiStepsTabled()
    ensures Tabled(Steps[7]) && Tabled(Steps[8])
  {
    MultiTablesLabelled();
    assert Steps[7].key == "sleep_quality" && Steps[7].options == Keys(SleepLabels);
    assert TableFor("sleep_quality") == SleepLabels;
    assert Steps[8].key == "tension_areas" && Steps[8].options == Keys(TensionLabels);
    assert TableFor("tension_areas") == TensionLabels;
  }

  lemma OtherMultiStepsTabled()
    ensures Tabled(Steps[11]) && Tabled(Steps[13])
  {
    MultiTablesLabelled();
    assert Steps[11].key == "sensory_sensitivity" && Steps[11].options == Keys(SensoryLabels);
    assert TableFor("sensory_sensitivity") == SensoryLabels;
    assert Steps[13].key == "invite_in" && Steps[13].options == Keys(InviteLabels);
    assert TableFor("invite_in") == InviteLabels;
  }

  /** The payload maps a key through a table exactly when its step is a
      choice: a list for checkboxes, a single label for a radio group. */
  lemma KeysByKind()
    ensures forall j :: 0 <= j < Last ==>
      && (PostedKeys[j] in ListKeys <==> Steps[j].kind == Multi || Steps[j].kind == MultiNoneExclusive)
      && (PostedKeys[j] in SingleKeys <==> Steps[j].kind == Single)
  {
    QuestionKinds();
  }
}
