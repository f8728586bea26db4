/**
 * What `validatePayload` promises, rule by rule: each rule's message is in the
 * result exactly when that rule fails, whatever the other fields hold (errors
 * accumulate), and the result is empty exactly when every rule holds.
 */
module ValidationRules {
  import opened Wrappers
  import opened Text
  import opened Js
  import opened Payload

  /** The last two characters of a message; they tell the kinds of message apart. */
  function Ending(m: string): string
  {
    if |m| >= 2 then m[|m| - 2..] else m
  }

  predicate EndAllIn(ms: seq<string>, endings: set<string>)
  {
    forall m <- ms :: Ending(m) in endings
  }

  lemma MessageEndings(key: string)
    ensures Ending(RequiredMessage(key)) == "ed"
    ensures Ending(EmptyChoiceMessage(key)) == "ue"
    ensures Ending(EmailInvalid) == "id" && Ending(VitalityOutOfRange) == "ge"
    ensures Ending(NoneNotExclusive) == "ve" && Ending(InvalidPayload) == "ad"
  {
    var r := RequiredMessage(key);
    assert r[|r| - 2..] == " is required"[10..];
    var e := EmptyChoiceMessage(key);
    assert e[|e| - 2..] == " requires at least one value"[26..];
  }

  lemma RequiredMessageInjective(a: string, b: string)
    requires RequiredMessage(a) == RequiredMessage(b)
    ensures a == b
  {
    assert a == RequiredMessage(a)[..|a|];
  }

  lemma EmptyChoiceMessageInjective(a: string, b: string)
    requires EmptyChoiceMessage(a) == EmptyChoiceMessage(b)
    ensures a == b
  {
    assert a == EmptyChoiceMessage(a)[..|a|];
  }

  /** The blank-field loop reports a key exactly when the key is checked and blank. */
  lemma {:induction false} MissingErrorsReport(data: JsValue, keys: seq<string>, key: string)
    requires IsObjectLike(data)
    ensures RequiredMessage(key) in MissingErrors(data, keys)
        <==> key in keys && SafeStr(Prop(data, key)) == ""
    ensures EndAllIn(MissingErrors(data, keys), {"ed"})
    ensures MissingErrors(data, keys) == [] <==> forall k <- keys :: SafeStr(Prop(data, k)) != ""
  {
    if keys != [] {
      var init, last := keys[..|keys| - 1], keys[|keys| - 1];
      assert keys == init + [last];
      MissingErrorsReport(data, init, key);
      MessageEndings(last);
      if RequiredMessage(key) == RequiredMessage(last) {
        RequiredMessageInjective(key, last);
      }
    }
  }

  /** The multi-choice loop reports an empty field exactly when it checks it. */
  lemma {:induction false} MultiErrorsReportEmpty(data: JsValue, keys: seq<string>, key: string)
    requires IsObjectLike(data)
    ensures EmptyChoiceMessage(key) in MultiErrors(data, keys)
        <==> key in keys && SafeArr(Prop(data, key)) == []
  {
    if keys != [] {
      var init, last := keys[..|keys| - 1], keys[|keys| - 1];
      assert keys == init + [last];
      MultiErrorsReportEmpty(data, init, key);
      MessageEndings(key);
      if EmptyChoiceMessage(key) == EmptyChoiceMessage(last) {
        EmptyChoiceMessageInjective(key, last);
      }
      assert EmptyChoiceMessage(key) != NoneNotExclusive by {
        assert Ending(EmptyChoiceMessage(key)) != Ending(NoneNotExclusive);
      }
    }
  }

  /** The multi-choice loop reports "None" with company exactly when it checks
      `sensory_sensitivity` and finds that. */
  lemma {:induction false} MultiErrorsReportExclusive(data: JsValue, keys: seq<string>)
    requires IsObjectLike(data)
    ensures NoneNotExclusive in MultiErrors(data, keys)
        <==> "sensory_sensitivity" in keys && !NoneExclusive(SafeArr(Prop(data, "sensory_sensitivity")))
  {
    if keys != [] {
      var init, last := keys[..|keys| - 1], keys[|keys| - 1];
      assert keys == init + [last];
      MultiErrorsReportExclusive(data, init);
      MessageEndings(last);
      assert EmptyChoiceMessage(last) != NoneNotExclusive by {
        assert Ending(EmptyChoiceMessage(last)) != Ending(NoneNotExclusive);
      }
    }
  }

  lemma {:induction false} MultiErrorsEndings(data: JsValue, keys: seq<string>)
    requires IsObjectLike(data)
    ensures EndAllIn(MultiErrors(data, keys), {"ue", "ve"})
  {
    if keys != [] {
      MultiErrorsEndings(data, keys[..|keys| - 1]);
      MessageEndings(keys[|keys| - 1]);
    }
  }

  lemma {:induction false} MultiErrorsNone(data: JsValue, keys: seq<string>)
    requires IsObjectLike(data)
    ensures MultiErrors(data, keys) == []
        <==> (forall k <- keys :: SafeArr(Prop(data, k)) != [])
             && ("sensory_sensitivity" in keys ==> NoneExclusive(SafeArr(Prop(data, "sensory_sensitivity"))))
  {
    if keys != [] {
      var init, last := keys[..|keys| - 1], keys[|keys| - 1];
      assert keys == init + [last];
      MultiErrorsNone(data, init);
    }
  }

  /** A message is in the validator's answer for an object payload exactly when
      one of the rules produced it. */
  lemma InPayloadErrors(data: JsValue, m: string)
    requires IsObjectLike(data)
    ensures m in PayloadErrors(data) <==>
      || m in MissingErrors(data, RequiredPersonal)
      || m in EmailErrors(data)
      || m in VitalityErrors(data)
      || m in MissingErrors(data, RequiredText)
      || m in MultiErrors(data, RequiredMulti)
      || m in MissingError(data, "let_go_text")
  {
  }

  /** Everything the validator accepts, stated rule by rule. */
  predicate PayloadAcceptable(data: JsValue)
  {
    && IsObjectLike(data)
    && (forall k <- RequiredPersonal :: SafeStr(Prop(data, k)) != "")
    && (SafeStr(Prop(data, "email")) != "" ==> EmailShape(ToStr(Prop(data, "email"))))
    && VitalityInRange(Prop(data, "vitality_1_10"))
    && (forall k <- RequiredText :: SafeStr(Prop(data, k)) != "")
    && (forall k <- RequiredMulti :: SafeArr(Prop(data, k)) != [])
    && NoneExclusive(SafeArr(Prop(data, "sensory_sensitivity")))
    && SafeStr(Prop(data, "let_go_text")) != ""
  }

  /** No message overall means no message from any rule. */
  lemma NoErrorsByRule(data: JsValue)
    requires IsObjectLike(data)
    ensures PayloadErrors(data) == [] <==>
      && MissingErrors(data, RequiredPersonal) == [] && EmailErrors(data) == []
      && VitalityErrors(data) == [] && MissingErrors(data, RequiredText) == []
      && MultiErrors(data, RequiredMulti) == [] && MissingError(data, "let_go_text") == []
  {
    var p, e, v := MissingErrors(data, RequiredPersonal), EmailErrors(data), VitalityErrors(data);
    var t, c, l := MissingErrors(data, RequiredText), MultiErrors(data, RequiredMulti), MissingError(data, "let_go_text");
    assert PayloadErrors(data) == p + e + v + t + c + l;
    assert |p + e + v + t + c + l| == |p| + |e| + |v| + |t| + |c| + |l|;
  }

  /** The validator returns no error exactly for the payloads every rule accepts. */
  lemma AcceptedIffNoErrors(data: JsValue)
    ensures PayloadErrors(data) == [] <==> PayloadAcceptable(data)
  {
    if IsObjectLike(data) {
      NoErrorsByRule(data);
      ListRuleNone(data);
      MissingErrorsReport(data, RequiredPersonal, "");
      MissingErrorsReport(data, RequiredText, "");
    }
  }

  /** The multi-choice rule is silent exactly when every list is non-empty
      and "None" stands alone among the sensitivities. */
  lemma ListRuleNone(data: JsValue)
    requires IsObjectLike(data)
    ensures MultiErrors(data, RequiredMulti) == []
        <==> (forall k <- RequiredMulti :: SafeArr(Prop(data, k)) != [])
             && NoneExclusive(SafeArr(Prop(data, "sensory_sensitivity")))
  {
    MultiErrorsNone(data, RequiredMulti);
    assert "sensory_sensitivity" in RequiredMulti;
  }

  /** The messages of every rule but the e-mail, vitality and exclusivity ones
      end in "ed" or "ue", so those three are told apart from all the rest. */
  lemma GroupEndings(data: JsValue)
    requires IsObjectLike(data)
    ensures EndAllIn(MissingErrors(data, RequiredPersonal), {"ed"})
    ensures EndAllIn(MissingErrors(data, RequiredText), {"ed"})
    ensures EndAllIn(MultiErrors(data, RequiredMulti), {"ue", "ve"})
    ensures EndAllIn(MissingError(data, "let_go_text"), {"ed"})
    ensures EndAllIn(EmailErrors(data), {"id"}) && EndAllIn(VitalityErrors(data), {"ge"})
  {
    MissingEndings(data);
    MultiErrorsEndings(data, RequiredMulti);
    SingleEndings(data);
  }

  lemma MissingEndings(data: JsValue)
    requires IsObjectLike(data)
    ensures EndAllIn(MissingErrors(data, RequiredPersonal), {"ed"})
    ensures EndAllIn(MissingErrors(data, RequiredText), {"ed"})
    ensures EndAllIn(MissingError(data, "let_go_text"), {"ed"})
  {
    MissingErrorsReport(data, RequiredPersonal, "");
    MissingErrorsReport(data, RequiredText, "");
    MessageEndings("let_go_text");
  }

  lemma SingleEndings(data: JsValue)
    requires IsObjectLike(data)
    ensures EndAllIn(EmailErrors(data), {"id"}) && EndAllIn(VitalityErrors(data), {"ge"})
  {
    MessageEndings("");
  }

  /** A payload that is not an object or array gets exactly one message. */
  lemma NotAnObject(data: JsValue)
    ensures !IsObjectLike(data) <==> PayloadErrors(data) == [InvalidPayload]
  {
    if IsObjectLike(data) {
      InPayloadErrors(data, InvalidPayload);
      GroupEndings(data);
      MessageEndings("");
      assert InvalidPayload !in PayloadErrors(data);
    }
  }

  /** Every required text field that is blank gets its own message, whatever
      else the payload gets wrong, and only a blank one does. */
  lemma RequiredReported(data: JsValue, key: string)
    requires IsObjectLike(data)
    requires key in RequiredPersonal || key in RequiredText || key == "let_go_text"
    ensures RequiredMessage(key) in PayloadErrors(data) <==> SafeStr(Prop(data, key)) == ""
  {
    var m := RequiredMessage(key);
    var blank := SafeStr(Prop(data, key)) == "";
    InPayloadErrors(data, m);
    GroupEndings(data);
    MessageEndings(key);
    assert m !in EmailErrors(data) && m !in VitalityErrors(data) && m !in MultiErrors(data, RequiredMulti);
    MissingErrorsReport(data, RequiredPersonal, key);
    MissingErrorsReport(data, RequiredText, key);
    assert m in MissingError(data, "let_go_text") <==> key == "let_go_text" && blank by {
      if m == RequiredMessage("let_go_text") {
        RequiredMessageInjective(key, "let_go_text");
      }
    }
  }

  /** The e-mail message appears exactly when a non-blank address fails the pattern. */
  lemma EmailReported(data: JsValue)
    requires IsObjectLike(data)
    ensures EmailInvalid in PayloadErrors(data)
        <==> SafeStr(Prop(data, "email")) != "" && !EmailShape(ToStr(Prop(data, "email")))
  {
    InPayloadErrors(data, EmailInvalid);
    GroupEndings(data);
    MessageEndings("");
  }

  /** The vitality message appears exactly when the value is not a finite number in [1, 10]. */
  lemma VitalityReported(data: JsValue)
    requires IsObjectLike(data)
    ensures VitalityOutOfRange in PayloadErrors(data) <==> !VitalityInRange(Prop(data, "vitality_1_10"))
  {
    InPayloadErrors(data, VitalityOutOfRange);
    GroupEndings(data);
    MessageEndings("");
  }

  /** The range is closed at both ends, whether the number arrives as a number
      or spelled out as a string: 0 and 11 fail, 1 and 10 pass. */
  lemma VitalityBoundaries(n: int)
    ensures VitalityInRange(Num(n)) <==> 1 <= n <= 10
    ensures VitalityInRange(Str(IntToDecimal(n))) <==> 1 <= n <= 10
    ensures !VitalityInRange(Num(0)) && !VitalityInRange(Num(11))
    ensures VitalityInRange(Num(1)) && VitalityInRange(Num(10))
  {
    DecimalRoundTrip(n);
    assert ToNumber(Str(IntToDecimal(n))) == Some(n);
  }

  /** Each multi-choice field with nothing chosen gets its own message. */
  lemma EmptyChoiceReported(data: JsValue, key: string)
    requires IsObjectLike(data) && key in RequiredMulti
    ensures EmptyChoiceMessage(key) in PayloadErrors(data) <==> SafeArr(Prop(data, key)) == []
  {
    var m := EmptyChoiceMessage(key);
    InPayloadErrors(data, m);
    GroupEndings(data);
    MultiErrorsReportEmpty(data, RequiredMulti, key);
    MessageEndings(key);
  }

  /** "None" together with any other sensitivity is reported, and nothing else is. */
  lemma ExclusivityReported(data: JsValue)
    requires IsObjectLike(data)
    ensures NoneNotExclusive in PayloadErrors(data)
        <==> "None" in SafeArr(Prop(data, "sensory_sensitivity"))
             && |SafeArr(Prop(data, "sensory_sensitivity"))| > 1
  {
    InPayloadErrors(data, NoneNotExclusive);
    GroupEndings(data);
    MessageEndings("");
    MultiErrorsReportExclusive(data, RequiredMulti);
    assert "sensory_sensitivity" in RequiredMulti;
  }
}
