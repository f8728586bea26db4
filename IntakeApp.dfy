/**
 * The state of the intake form's component (src/App.tsx, `App`): the step
 * shown, the answers, the error and success messages and the flag that blocks
 * a second submission. Each state hook is a field; each handler is a method.
 * React's batching of state updates is modelled as updates made in order, and
 * the POST of `submitAll` is split in two: `GoNext` hands over the payload,
 * `FinishSubmit` takes the reply.
 */
module IntakeApp {
  import opened Wrappers
  import opened Js
  import opened Payload
  import opened Choices
  import opened Wizard
  import opened Handoff

  const SubmitFailed := "送信に失敗しました"
  const SubmitFailedPrefix := "送信に失敗しました: "
  const Received := "送信が完了しました。受付番号："

  /** What the POST came back with: the response's `ok` status and the JSON it
      carried, or the message of an exception thrown by `fetch` or by parsing. */
  datatype Reply =
    | Response(httpOk: bool, jsonOk: bool, submissionId: string, error: string)
    | Thrown(message: string)

  /** The message `submitAll` shows for a reply: `Ok` for the success line,
      `Err` for the error line. A refused response falls back to the generic
      failure text when it carries no error of its own. */
  function ReplyMessage(reply: Reply): (r: Result<string>)
    ensures r.Ok? <==> reply.Response? && reply.httpOk && reply.jsonOk
    ensures r.Ok? ==> r.value == Received + reply.submissionId
    ensures r.Err? ==> |r.message| > |SubmitFailedPrefix| && r.message[..|SubmitFailedPrefix|] == SubmitFailedPrefix
    ensures reply.Response? && !(reply.httpOk && reply.jsonOk) ==>
      r == Err(SubmitFailedPrefix + (if reply.error != "" then reply.error else SubmitFailed))
    ensures reply.Thrown? ==> r == Err(SubmitFailedPrefix + (if reply.message != "" then reply.message else "Error"))
  {
    match reply
    case Response(httpOk, jsonOk, id, error) =>
      if httpOk && jsonOk then Ok(Received + id)
      else Err(SubmitFailedPrefix + (if error != "" then error else SubmitFailed))
    case Thrown(message) =>
      Err(SubmitFailedPrefix + (if message != "" then message else "Error"))
  }

  class App {
    var stepIndex: nat
    var answers: map<string, JsValue>
    var error: string
    var success: string
    var submitting: bool

    /** The step shown is one of the list, every answer is one its input can
        store, and every step before the one shown accepts its answer. */
    ghost predicate Valid()
      reads this
    {
      stepIndex <= Last && Shaped(answers) && AcceptedBefore(answers, stepIndex)
    }

    /** The first render: the first question, no answers, no messages. */
    constructor ()
      ensures Valid()
      ensures stepIndex == 0 && answers == map[] && error == "" && success == "" && !submitting
    {
      stepIndex, answers := 0, map[];
      error, success, submitting := "", "", false;
    }

    /** The step shown. */
    function Current(): Step
      reads this
      requires stepIndex <= Last
    {
      Steps[stepIndex]
    }

    /** `setAnswer(current.key, value)` from the current question's input. */
    method SetAnswer(value: JsValue)
      requires Valid() && stepIndex < Last && Fits(Current(), value)
      modifies this
      ensures Valid()
      ensures answers == old(answers)[Steps[stepIndex].key := value]
      ensures stepIndex == old(stepIndex) && error == old(error) && success == old(success)
      ensures submitting == old(submitting)
    {
      StoredAtCurrent(answers, stepIndex, value);
      answers := answers[Current().key := value];
    }

    /** The checkbox handler of a multi-choice question: checking `opt` drops
        "特になし" and adds `opt` (or, on the exclusive step, checking
        "特になし" leaves it alone); unchecking removes `opt`. */
    method ToggleOption(opt: string, checked: bool)
      requires Valid() && stepIndex < Last
      requires Current().kind == Multi || Current().kind == MultiNoneExclusive
      requires opt in Current().options
      modifies this
      ensures Valid()
      ensures var s := Steps[stepIndex];
        answers == old(answers)[s.key :=
          StrArray(Toggle(s.kind == MultiNoneExclusive, CheckedList(Answer(old(answers), s.key)), opt, checked))]
      ensures checked ==> opt in CheckedList(Answer(answers, Steps[stepIndex].key))
      ensures !checked ==> opt !in CheckedList(Answer(answers, Steps[stepIndex].key))
      ensures stepIndex == old(stepIndex) && error == old(error) && success == old(success)
      ensures submitting == old(submitting)
    {
      var s := Current();
      var arr := CheckedList(Answer(answers, s.key));
      var next := Toggle(s.kind == MultiNoneExclusive, arr, opt, checked);
      ToggledFits(s, Answer(answers, s.key), opt, checked);
      TextsOfStrArray(next);
      SetAnswer(StrArray(next));
    }

    /** `validateAndSave`: whether the current step accepts its answer; when
        it does not, the error line shows why. */
    method ValidateAndSave() returns (ok: bool)
      requires stepIndex <= Last
      modifies this
      ensures stepIndex == old(stepIndex) && answers == old(answers)
      ensures var check := StepCheck(Steps[stepIndex], Answer(answers, Steps[stepIndex].key));
        && (ok <==> check.None?)
        && error == (if ok then old(error) else check.value)
      ensures success == old(success) && submitting == old(submitting)
    {
      var check := StepCheck(Current(), Answer(answers, Current().key));
      if check.Some? {
        error := check.value;
        return false;
      }
      return true;
    }

    /** `goNext`: nothing while a submission is under way; otherwise both
        messages are cleared and the current step is checked. A rejected
        answer stays on its step with the error shown; an accepted question
        moves on one step; on the preview, the payload goes out and the form
        is marked as submitting. The payload is always built and the server's
        validator finds nothing wrong with it. */
    method GoNext() returns (post: Option<JsValue>)
      requires Valid()
      modifies this
      ensures Valid()
      ensures answers == old(answers)
      ensures old(submitting) ==>
        && post.None? && stepIndex == old(stepIndex) && error == old(error)
        && success == old(success) && submitting
      ensures !old(submitting) ==>
        var check := StepCheck(Steps[old(stepIndex)], Answer(answers, Steps[old(stepIndex)].key));
        && success == ""
        && (check.Some? ==> post.None? && error == check.value && stepIndex == old(stepIndex) && !submitting)
        && (check.None? && old(stepIndex) < Last ==>
              post.None? && error == "" && stepIndex == old(stepIndex) + 1 && !submitting)
        && (check.None? && old(stepIndex) == Last ==>
              && post == PayloadOf(answers) && post.Some? && PayloadErrors(post.value) == []
              && error == "" && stepIndex == Last && submitting)
    {
      if submitting {
        return None;
      }
      error, success := "", "";
      var ok := ValidateAndSave();
      if !ok {
        return None;
      }
      if stepIndex == Last {
        submitting := true;
        WizardPayloadValid(answers);
        return PayloadOf(answers);
      }
      AcceptedOneMore(answers, stepIndex);
      stepIndex := if stepIndex + 1 < Last then stepIndex + 1 else Last;
      return None;
    }

    /** `goBack`: nothing on the first step or while a submission is under
        way; otherwise both messages are cleared and the previous step shown. */
    method GoBack()
      requires Valid()
      modifies this
      ensures Valid()
      ensures answers == old(answers) && submitting == old(submitting)
      ensures old(stepIndex) == 0 || old(submitting) ==>
        stepIndex == old(stepIndex) && error == old(error) && success == old(success)
      ensures old(stepIndex) > 0 && !old(submitting) ==>
        stepIndex == old(stepIndex) - 1 && error == "" && success == ""
    {
      if stepIndex == 0 || submitting {
        return;
      }
      error, success := "", "";
      stepIndex := stepIndex - 1;
    }

    /** The end of `submitAll`: the reply's message on the success or error
        line, and the form open again. */
    method FinishSubmit(reply: Reply)
      requires Valid()
      modifies this
      ensures Valid()
      ensures stepIndex == old(stepIndex) && answers == old(answers) && !submitting
      ensures match ReplyMessage(reply)
        case Ok(line) => success == line && error == old(error)
        case Err(line) => error == line && success == old(success)
    {
      match ReplyMessage(reply) {
        case Ok(line) => success := line;
        case Err(line) => error := line;
      }
      submitting := false;
    }
  }

  /** Storing an answer the shown step's input can hold under that step's
      key keeps every other answer, so the state stays valid. */
  lemma StoredAtCurrent(answers: map<string, JsValue>, i: nat, v: JsValue)
    requires i < Last && Shaped(answers) && AcceptedBefore(answers, i) && Fits(Steps[i], v)
    ensures var after := answers[Steps[i].key := v]; Shaped(after) && AcceptedBefore(after, i)
  {
    KeysDistinct();
    var after := answers[Steps[i].key := v];
    forall j | 0 <= j < |Steps| ensures Fits(Steps[j], Answer(after, Steps[j].key)) {
      if j != i {
        assert Answer(after, Steps[j].key) == Answer(answers, Steps[j].key);
      }
    }
    forall j | 0 <= j < i ensures StepCheck(Steps[j], Answer(after, Steps[j].key)).None? {
      assert Answer(after, Steps[j].key) == Answer(answers, Steps[j].key);
    }
  }

  /** An accepted step extends the run of accepted steps by one. */
  lemma AcceptedOneMore(answers: map<string, JsValue>, i: nat)
    requires i < Last && AcceptedBefore(answers, i)
    requires StepCheck(Steps[i], Answer(answers, Steps[i].key)).None?
    ensures AcceptedBefore(answers, i + 1)
  {
  }

  /** The list a toggle stores is one the checkbox group can hold. */
  lemma ToggledFits(s: Step, v: JsValue, opt: string, checked: bool)
    requires s in Steps && (s.kind == Multi || s.kind == MultiNoneExclusive)
    requires Fits(s, v) && opt in s.options
    ensures var next := Toggle(s.kind == MultiNoneExclusive, CheckedList(v), opt, checked);
      Fits(s, StrArray(next)) && (checked ==> opt in next) && (!checked ==> opt !in next)
  {
    var exclusive := s.kind == MultiNoneExclusive;
    var arr := CheckedList(v);
    ExclusiveOffersNone();
    var next := Toggle(exclusive, arr, opt, checked);
    ToggleKeepsShape(exclusive, arr, opt, checked, s.options);
    TextsOfStrArray(next);
  }

  /** The texts of a list of strings are those strings. */
  lemma TextsOfStrArray(xs: seq<string>)
    ensures AllStr(StrArray(xs).items) && Texts(StrArray(xs).items) == xs
  {
  }
}
