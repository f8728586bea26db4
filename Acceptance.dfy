/**
 * The server's validator (server.js, `validatePayload`) read against the
 * wizard's questions: a payload whose fields each pass the rule of their
 * question's kind, with the three special rules met, is one it accepts.
 */
module Acceptance {
  import opened Js
  import opened Payload
  import opened ValidationRules
  import opened Wizard

  /** The kinds of the eighteen questions, in order. */
  const Kinds: seq<Kind> :=
    [TextInput, TextInput, TextInput, TextInput, TextInput, NumberInput, Single, Multi, Multi,
     Single, Single, MultiNoneExclusive, TextInput, Multi, Single, TextInput, TextInput, Single]

  /** Kinds whose answer the server reads with `safeStr`. */
  predicate Textual(k: Kind)
  {
    k == TextInput || k == Single
  }

  /** Kinds whose answer the server reads with `safeArr`. */
  predicate Listed(k: Kind)
  {
    k == Multi || k == MultiNoneExclusive
  }

  /** The fields of a payload, each passing the rule of its question's kind:
      text and single choices are non-blank, lists are non-empty. */
  predicate FieldsPass(p: JsValue)
  {
    && p.Obj?
    && (forall j :: 0 <= j < Last && Textual(Kinds[j]) ==> SafeStr(Prop(p, PostedKeys[j])) != "")
    && (forall j :: 0 <= j < Last && Listed(Kinds[j]) ==> SafeArr(Prop(p, PostedKeys[j])) != [])
  }

  /** `ks` are the keys of the questions at positions `at`. */
  predicate At(ks: seq<string>, at: seq<nat>)
  {
    |ks| == |at| && forall i :: 0 <= i < |at| ==> at[i] < Last && ks[i] == PostedKeys[at[i]]
  }

  /** The keys of textual questions are filled in a passing payload. */
  lemma TextFilled(p: JsValue, ks: seq<string>, at: seq<nat>)
    requires FieldsPass(p) && At(ks, at)
    requires forall i :: 0 <= i < |at| ==> Textual(Kinds[at[i]])
    ensures forall k <- ks :: SafeStr(Prop(p, k)) != ""
  {
    forall k <- ks ensures SafeStr(Prop(p, k)) != "" {
      var i :| 0 <= i < |ks| && ks[i] == k;
      assert Textual(Kinds[at[i]]);
    }
  }

  /** The keys of list questions are non-empty in a passing payload. */
  lemma ListFilled(p: JsValue, ks: seq<string>, at: seq<nat>)
    requires FieldsPass(p) && At(ks, at)
    requires forall i :: 0 <= i < |at| ==> Listed(Kinds[at[i]])
    ensures forall k <- ks :: SafeArr(Prop(p, k)) != []
  {
    forall k <- ks ensures SafeArr(Prop(p, k)) != [] {
      var i :| 0 <= i < |ks| && ks[i] == k;
      assert Listed(Kinds[at[i]]);
    }
  }

  /** Where the validator's required keys sit among the questions. */
  const PersonalAt: seq<nat> := [0, 1, 2, 3, 4]
  const TextAt: seq<nat> := [6, 9, 10, 14, 15, 16, 17]
  const MultiAt: seq<nat> := [7, 8, 11, 13]
  const LetGoAt: seq<nat> := [12]

  lemma PersonalPlaced()
    ensures At(RequiredPersonal, PersonalAt)
    ensures forall i :: 0 <= i < |PersonalAt| ==> Textual(Kinds[PersonalAt[i]])
  {
  }

  lemma TextPlaced()
    ensures At(RequiredText, TextAt)
    ensures forall i :: 0 <= i < |TextAt| ==> Textual(Kinds[TextAt[i]])
  {
  }

  lemma MultiPlaced()
    ensures At(RequiredMulti, MultiAt)
    ensures forall i :: 0 <= i < |MultiAt| ==> Listed(Kinds[MultiAt[i]])
  {
  }

  lemma LetGoPlaced()
    ensures At(["let_go_text"], LetGoAt)
    ensures forall i :: 0 <= i < |LetGoAt| ==> Textual(Kinds[LetGoAt[i]])
  {
  }

  /** Every required key of the validator is filled in a passing payload. */
  lemma RequiredFilled(p: JsValue)
    requires FieldsPass(p)
    ensures forall k <- RequiredPersonal :: SafeStr(Prop(p, k)) != ""
    ensures forall k <- RequiredText :: SafeStr(Prop(p, k)) != ""
    ensures forall k <- RequiredMulti :: SafeArr(Prop(p, k)) != []
    ensures SafeStr(Prop(p, "let_go_text")) != ""
  {
    PersonalPlaced();
    TextFilled(p, RequiredPersonal, PersonalAt);
    TextPlaced();
    TextFilled(p, RequiredText, TextAt);
    MultiPlaced();
    ListFilled(p, RequiredMulti, MultiAt);
    LetGoPlaced();
    TextFilled(p, ["let_go_text"], LetGoAt);
  }

  /** A payload whose fields pass by kind, with a well-formed e-mail, a
      vitality in range and "None" alone, passes every rule of the validator. */
  lemma PassingPayloadAcceptable(p: JsValue)
    requires FieldsPass(p)
    requires EmailShape(ToStr(Prop(p, "email"))) && VitalityInRange(Prop(p, "vitality_1_10"))
    requires NoneExclusive(SafeArr(Prop(p, "sensory_sensitivity")))
    ensures PayloadAcceptable(p)
  {
    RequiredFilled(p);
  }
}
