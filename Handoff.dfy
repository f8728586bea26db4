/**
 * What the wizard hands to the server: answers that pass every step of the
 * wizard (src/App.tsx) become, through `submitAll`'s payload, a body that the
 * server's `validatePayload` (server.js) accepts without a single error.
 */
module Handoff {
  import opened Wrappers
  import opened Text
  import opened Js
  import opened Payload
  import opened ValidationRules
  import opened Choices
  import opened Wizard
  import opened Acceptance

  /** An accepted text answer is one `safeStr` keeps. */
  lemma TextKept(s: Step, v: JsValue)
    requires s.kind == TextInput && StepCheck(s, v).None?
    ensures SafeStr(v) != ""
  {
  }

  /** An accepted e-mail answer matches the server's pattern too. */
  lemma EmailKept(s: Step, v: JsValue)
    requires s.kind == TextInput && s.key == "email" && StepCheck(s, v).None?
    ensures EmailShape(ToStr(v))
  {
    EmailShapeIsPattern(ToStr(v));
  }

  /** An accepted radio answer maps to a label `safeStr` keeps. */
  lemma SingleKept(s: Step, v: JsValue, t: Table)
    requires s.kind == Single && Fits(s, v) && StepCheck(s, v).None?
    requires Labelled(t) && s.options == Keys(t)
    ensures SafeStr(Label(t, v)) != ""
  {
    KnownOptionLabelled(t, v.s);
    TrimOfTrimmed(Label(t, v).s);
  }

  /** The label of a checked option, as `safeArr` reads it back. */
  lemma ChoiceKept(t: Table, o: string)
    requires Labelled(t) && o in Keys(t)
    ensures var l := Label(t, Str(o)); l.Str? && SafeStr(l) == l.s && l.s != ""
  {
    KnownOptionLabelled(t, o);
    TrimOfTrimmed(Label(t, Str(o)).s);
  }

  /** An accepted checkbox answer maps to a list `safeArr` keeps non-empty. */
  lemma ListKept(s: Step, v: JsValue, t: Table)
    requires s.kind == Multi || s.kind == MultiNoneExclusive
    requires Fits(s, v) && StepCheck(s, v).None?
    requires Labelled(t) && s.options == Keys(t)
    ensures MapList(t, v).Some? && SafeArr(MapList(t, v).value) != []
  {
    var w := MapList(t, v).value;
    var o := Texts(v.items)[0];
    assert o in Texts(v.items);
    assert w.items[0] == Label(t, Str(o));
    ChoiceKept(t, o);
    FirstKept(w);
  }

  /** A list whose first entry `safeStr` keeps is not emptied by `safeArr`. */
  lemma FirstKept(w: JsValue)
    requires w.Arr? && w.items != [] && SafeStr(w.items[0]) != ""
    ensures SafeArr(w) != []
  {
    SafeArrOfArray(w);
    var kept := SafeStrAll(w.items);
    assert kept[0] in kept && kept[0] != "";
  }

  /** An accepted sensitivity answer keeps the server's "None" alone. */
  lemma SensoryKept(s: Step, v: JsValue)
    requires s.kind == MultiNoneExclusive && Fits(s, v) && StepCheck(s, v).None?
    requires s.options == Keys(SensoryLabels)
    ensures MapList(SensoryLabels, v).Some? && NoneExclusive(SafeArr(MapList(SensoryLabels, v).value))
  {
    var w := MapList(SensoryLabels, v).value;
    SafeArrOfArray(w);
    forall i | 0 <= i < |v.items| ensures SafeStr(w.items[i]) == "None" ==> v.items[i] == Str(NoneOption) {
      var xs := Texts(v.items);
      assert xs[i] in xs;
      NoneKeptOnlyForNoneOption(xs[i]);
    }
    NoneLabelAlone(v.items, w.items);
  }

  /** Labels that read as "None" only where the answer was "特になし", of
      answers that hold "特になし" only alone, keep "None" alone. */
  lemma NoneLabelAlone(items: seq<JsValue>, mapped: seq<JsValue>)
    requires !(Str(NoneOption) in items && |items| > 1)
    requires |mapped| == |items|
    requires forall i :: 0 <= i < |items| ==> SafeStr(mapped[i]) == "None" ==> items[i] == Str(NoneOption)
    ensures NoneExclusive(NonEmpty(SafeStrAll(mapped)))
  {
    var kept := SafeStrAll(mapped);
    if "None" in NonEmpty(kept) {
      var i :| 0 <= i < |kept| && kept[i] == "None";
      assert items[i] in items;
    }
  }

  /** Among the sensitivities, only "特になし" gives a label `safeStr` reads as "None". */
  lemma NoneKeptOnlyForNoneOption(o: string)
    requires o in Keys(SensoryLabels)
    ensures SafeStr(Label(SensoryLabels, Str(o))) == "None" ==> o == NoneOption
  {
    MultiTablesLabelled();
    ChoiceKept(SensoryLabels, o);
    SensoryNoneOnlyForNoneOption(o);
  }

  /** The payload's value for a question, by the kind of its step. */
  function FieldFor(s: Step, v: JsValue): Option<JsValue>
  {
    match s.kind
    case Multi => MapList(TableFor(s.key), v)
    case MultiNoneExclusive => MapList(TableFor(s.key), v)
    case Single => Some(Label(TableFor(s.key), v))
    case _ => Some(v)
  }

  lemma PostedByKind(answers: map<string, JsValue>, j: nat)
    requires j < Last
    ensures PostedField(answers, PostedKeys[j]) == FieldFor(Steps[j], Answer(answers, Steps[j].key))
  {
    QuestionOrder();
    KeysByKind();
  }

  /** Every choice question offers its table's options. */
  lemma ChoiceTabled(j: nat)
    requires j < Last && Steps[j].kind in {Single, Multi, MultiNoneExclusive}
    ensures Tabled(Steps[j])
  {
    QuestionKinds();
    SingleStepsTabled();
    OtherSingleStepsTabled();
    MultiStepsTabled();
    OtherMultiStepsTabled();
  }

  /** An accepted answer gives a payload field the server's rule for its
      kind keeps. */
  lemma FieldKept(s: Step, v: JsValue)
    requires Fits(s, v) && StepCheck(s, v).None?
    requires s.kind in {Single, Multi, MultiNoneExclusive} ==> Tabled(s)
    ensures var f := FieldFor(s, v);
      && f.Some?
      && (s.kind == TextInput || s.kind == Single ==> SafeStr(f.value) != "")
      && (s.kind == Multi || s.kind == MultiNoneExclusive ==> SafeArr(f.value) != [])
      && (s.kind == NumberInput || s.kind == TextInput ==> f.value == v)
  {
    match s.kind
    case TextInput => TextKept(s, v);
    case Single => SingleKept(s, v, TableFor(s.key));
    case Multi => ListKept(s, v, TableFor(s.key));
    case MultiNoneExclusive => ListKept(s, v, TableFor(s.key));
    case _ =>
  }

  /** The payload field of an accepted question, as the server's rules read it. */
  lemma QuestionFieldKept(answers: map<string, JsValue>, j: nat)
    requires Shaped(answers) && AcceptedBefore(answers, Last) && j < Last
    ensures var f := PostedField(answers, PostedKeys[j]);
      && f.Some?
      && (Steps[j].kind == TextInput || Steps[j].kind == Single ==> SafeStr(f.value) != "")
      && (Steps[j].kind == Multi || Steps[j].kind == MultiNoneExclusive ==> SafeArr(f.value) != [])
      && (Steps[j].kind == NumberInput || Steps[j].kind == TextInput ==> f.value == Answer(answers, Steps[j].key))
  {
    var s, v := Steps[j], Answer(answers, Steps[j].key);
    PostedByKind(answers, j);
    assert Fits(s, v) && StepCheck(s, v).None?;
    if s.kind in {Single, Multi, MultiNoneExclusive} {
      ChoiceTabled(j);
    }
    FieldKept(s, v);
  }

  /** Answers the wizard holds at the preview build a payload without a throw. */
  lemma PayloadBuilt(answers: map<string, JsValue>)
    requires Shaped(answers) && AcceptedBefore(answers, Last)
    ensures PayloadOf(answers).Some?
  {
    forall k | k in PostedKeys ensures PostedField(answers, k).Some? {
      var j :| 0 <= j < |PostedKeys| && PostedKeys[j] == k;
      QuestionOrder();
      QuestionFieldKept(answers, j);
    }
  }

  lemma StepKinds()
    ensures forall j :: 0 <= j < Last ==> Steps[j].kind == Kinds[j]
  {
    QuestionKinds();
  }

  /** The posted object holds each field under its key. */
  lemma PayloadFields(answers: map<string, JsValue>, k: string)
    requires PayloadOf(answers).Some? && k in PostedKeys
    ensures Prop(PayloadOf(answers).value, k) == PostedField(answers, k).value
  {
  }

  /** The payload of answers the wizard lets through, field by field. */
  lemma AnswersPass(answers: map<string, JsValue>)
    requires Shaped(answers) && AcceptedBefore(answers, Last)
    ensures PayloadOf(answers).Some? && FieldsPass(PayloadOf(answers).value)
  {
    PayloadBuilt(answers);
    var p := PayloadOf(answers).value;
    StepKinds();
    forall j | 0 <= j < Last && Textual(Kinds[j]) ensures SafeStr(Prop(p, PostedKeys[j])) != "" {
      QuestionFieldKept(answers, j);
      PayloadFields(answers, PostedKeys[j]);
    }
    forall j | 0 <= j < Last && Listed(Kinds[j]) ensures SafeArr(Prop(p, PostedKeys[j])) != [] {
      QuestionFieldKept(answers, j);
      PayloadFields(answers, PostedKeys[j]);
    }
  }

  /** An accepted answer to an e-mail question matches the server's pattern. */
  lemma EmailFieldKept(answers: map<string, JsValue>, j: nat)
    requires Shaped(answers) && AcceptedBefore(answers, Last) && j < Last
    requires Steps[j].kind == TextInput && Steps[j].key == "email"
    ensures var f := PostedField(answers, PostedKeys[j]); f.Some? && EmailShape(ToStr(f.value))
  {
    QuestionFieldKept(answers, j);
    EmailKept(Steps[j], Answer(answers, Steps[j].key));
  }

  /** An accepted answer to a number question from 1 to 10 is in the server's range. */
  lemma VitalityFieldKept(answers: map<string, JsValue>, j: nat)
    requires Shaped(answers) && AcceptedBefore(answers, Last) && j < Last
    requires Steps[j].kind == NumberInput && Lo(Steps[j]) == 1 && Hi(Steps[j]) == 10
    ensures var f := PostedField(answers, PostedKeys[j]); f.Some? && VitalityInRange(f.value)
  {
    QuestionFieldKept(answers, j);
    assert StepCheck(Steps[j], Answer(answers, Steps[j].key)).None?;
  }

  /** An accepted answer to the sensitivities question keeps "None" alone. */
  lemma SensoryFieldKept(answers: map<string, JsValue>, j: nat)
    requires Shaped(answers) && AcceptedBefore(answers, Last) && j < Last
    requires Steps[j].kind == MultiNoneExclusive && TableFor(Steps[j].key) == SensoryLabels
    ensures var f := PostedField(answers, PostedKeys[j]); f.Some? && NoneExclusive(SafeArr(f.value))
  {
    var s, v := Steps[j], Answer(answers, Steps[j].key);
    PostedByKind(answers, j);
    ChoiceTabled(j);
    assert Fits(s, v) && StepCheck(s, v).None?;
    SensoryKept(s, v);
  }

  /** Where the e-mail, vitality and sensitivities questions sit. */
  lemma SpecialSteps()
    ensures Steps[4].kind == TextInput && Steps[4].key == "email" && PostedKeys[4] == "email"
    ensures Steps[5].kind == NumberInput && Lo(Steps[5]) == 1 && Hi(Steps[5]) == 10
    ensures PostedKeys[5] == "vitality_1_10"
    ensures Steps[11].kind == MultiNoneExclusive && TableFor(Steps[11].key) == SensoryLabels
    ensures PostedKeys[11] == "sensory_sensitivity"
  {
    QuestionKinds();
  }

  /** The three answers the server checks beyond presence pass its checks. */
  lemma SpecialsKept(answers: map<string, JsValue>)
    requires Shaped(answers) && AcceptedBefore(answers, Last)
    ensures var f := PostedField(answers, "email"); f.Some? && EmailShape(ToStr(f.value))
    ensures var f := PostedField(answers, "vitality_1_10"); f.Some? && VitalityInRange(f.value)
    ensures var f := PostedField(answers, "sensory_sensitivity"); f.Some? && NoneExclusive(SafeArr(f.value))
  {
    SpecialSteps();
    EmailFieldKept(answers, 4);
    VitalityFieldKept(answers, 5);
    SensoryFieldKept(answers, 11);
  }

  /** Answers the wizard lets through to the preview make a payload every
      rule of the server's validator accepts ... */
  lemma WizardPayloadAcceptable(answers: map<string, JsValue>)
    requires Shaped(answers) && AcceptedBefore(answers, Last)
    ensures PayloadOf(answers).Some? && PayloadAcceptable(PayloadOf(answers).value)
  {
    AnswersPass(answers);
    SpecialsKept(answers);
    assert "email" in PostedKeys && "vitality_1_10" in PostedKeys && "sensory_sensitivity" in PostedKeys;
    PayloadFields(answers, "email");
    PayloadFields(answers, "vitality_1_10");
    PayloadFields(answers, "sensory_sensitivity");
    PassingPayloadAcceptable(PayloadOf(answers).value);
  }

  /** ... so the validator returns no error for it. */
  lemma WizardPayloadValid(answers: map<string, JsValue>)
    requires Shaped(answers) && AcceptedBefore(answers, Last)
    ensures PayloadOf(answers).Some? && PayloadErrors(PayloadOf(answers).value) == []
  {
    WizardPayloadAcceptable(answers);
    AcceptedIffNoErrors(PayloadOf(answers).value);
  }
}
