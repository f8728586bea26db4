/**
 * The server's payload helpers and validator (server.js: `safeStr`, `safeArr`,
 * the e-mail pattern and `validatePayload`). Validation collects one message
 * per failed rule and never stops early.
 */
module Payload {
  import opened Wrappers
  import opened Text
  import opened Js

  /** `safeStr(v)`: null and undefined become "", anything else is `String(v).trim()`. */
  function SafeStr(v: JsValue): (r: string)
    ensures IsTrimmed(r) && |r| <= |ToStr(v)|
    ensures v.Undefined? || v.Null? ==> r == ""
  {
    if v.Undefined? || v.Null? then "" else Trim(ToStr(v))
  }

  /** Any value but null and undefined is read as its `String` text with the
      surrounding white space cut off, and nothing else removed. */
  lemma SafeStrIsMiddle(v: JsValue)
    requires !v.Undefined? && !v.Null?
    ensures IsTrimmed(SafeStr(v)) && Unpadded(ToStr(v), SafeStr(v), |ToStr(v)| - |TrimStart(ToStr(v))|)
  {
    TrimIsMiddle(ToStr(v));
  }

  /** `xs.map(safeStr)`. */
  function SafeStrAll(xs: seq<JsValue>): (r: seq<string>)
    ensures |r| == |xs|
    ensures forall i :: 0 <= i < |xs| ==> r[i] == SafeStr(xs[i])
  {
    if xs == [] then [] else [SafeStr(xs[0])] + SafeStrAll(xs[1..])
  }

  /** A value as a multi-choice field holds it after `safeArr`: non-empty and trimmed. */
  predicate CleanChoice(x: string)
  {
    x != "" && IsTrimmed(x)
  }

  /** `safeArr(v)`: a falsy value is no choice at all; an array keeps its
      non-blank entries, trimmed; anything else is read as a comma-separated list. */
  function SafeArr(v: JsValue): (r: seq<string>)
    ensures forall x <- r :: CleanChoice(x)
    ensures !Truthy(v) ==> r == []
  {
    if !Truthy(v) then []
    else if v.Arr? then NonEmpty(SafeStrAll(v.items))
    else NonEmpty(TrimAll(Split(ToStr(v), ',')))
  }

  /** The array the wizard posts for a list of choices. */
  function StrArray(xs: seq<string>): (v: JsValue)
    ensures v.Arr? && |v.items| == |xs|
    ensures forall i :: 0 <= i < |xs| ==> v.items[i] == Str(xs[i])
  {
    Arr(seq(|xs|, i requires 0 <= i < |xs| => Str(xs[i])))
  }

  /** An array is read entry by entry. */
  lemma SafeArrOfArray(w: JsValue)
    requires w.Arr?
    ensures SafeArr(w) == NonEmpty(SafeStrAll(w.items))
  {
  }

  /** What one array entry contributes to `safeArr`: its `safeStr`, unless blank. */
  function Kept(x: JsValue): seq<string>
  {
    if SafeStr(x) == "" then [] else [SafeStr(x)]
  }

  /** An array is read entry by entry and in order: an empty array gives no
      choice, and each entry adds its trimmed text, unless blank, after the
      choices of the entries before it. */
  lemma SafeArrEntryByEntry(a: seq<JsValue>, x: JsValue)
    ensures SafeArr(Arr([])) == []
    ensures SafeArr(Arr(a + [x])) == SafeArr(Arr(a)) + Kept(x)
  {
    SafeArrOfArray(Arr([]));
    SafeArrOfArrays(a, [x]);
    SafeArrOfArray(Arr([x]));
    assert SafeStrAll([x]) == [SafeStr(x)];
    NonEmptyOne(SafeStr(x));
  }

  /** Joining two arrays joins their choices. */
  lemma SafeArrOfArrays(a: seq<JsValue>, b: seq<JsValue>)
    ensures SafeArr(Arr(a + b)) == SafeArr(Arr(a)) + SafeArr(Arr(b))
  {
    SafeArrOfArray(Arr(a + b));
    SafeArrOfArray(Arr(a));
    SafeArrOfArray(Arr(b));
    SafeStrAllSplits(a, b);
    NonEmptySplits(SafeStrAll(a), SafeStrAll(b));
  }

  lemma SafeStrAllSplits(a: seq<JsValue>, b: seq<JsValue>)
    ensures SafeStrAll(a + b) == SafeStrAll(a) + SafeStrAll(b)
  {
    var l, r := SafeStrAll(a + b), SafeStrAll(a) + SafeStrAll(b);
    forall i | 0 <= i < |l| ensures l[i] == r[i] {
      if i < |a| {
        assert (a + b)[i] == a[i];
      } else {
        assert (a + b)[i] == b[i - |a|];
      }
    }
  }

  /** A string without a comma is one choice, trimmed, or none when blank. */
  lemma SafeArrOfCommaFree(s: string)
    requires ',' !in s
    ensures SafeArr(Str(s)) == if Trim(s) == "" then [] else [Trim(s)]
  {
    SplitJoin([s], ',');
    assert Join([s], [',']) == s;
    assert TrimAll([s]) == [Trim(s)];
    NonEmptyOne(Trim(s));
    if s == "" {
      assert Trim(s) == "" by { TrimEmptyIffAllSpace(s); }
    }
  }

  /** Any string, the empty one included, is cut at its commas, each piece
      trimmed and the blank ones dropped. */
  lemma SafeArrOfText(s: string)
    ensures SafeArr(Str(s)) == NonEmpty(TrimAll(Split(s, ',')))
  {
    if s == "" {
      SplitJoin([""], ',');
      assert Join([""], [',']) == "";
      assert TrimAll([""]) == [Trim("")];
      assert Trim("") == "" by { TrimEmptyIffAllSpace(""); }
      NonEmptyOne("");
    }
  }

  /** A string is cut at each comma: the choices of `a,b` are those of `a`
      followed by those of `b`. */
  lemma SafeArrAtComma(a: string, b: string)
    requires ',' !in a
    ensures SafeArr(Str(a + "," + b)) == SafeArr(Str(a)) + SafeArr(Str(b))
  {
    SafeArrOfText(a + "," + b);
    SafeArrOfText(b);
    SafeArrOfCommaFree(a);
    SplitFirst(a, ',', b);
    var parts := Split(b, ',');
    TrimAllSplits([a], parts);
    assert TrimAll([a]) == [Trim(a)];
    NonEmptySplits([Trim(a)], TrimAll(parts));
    NonEmptyOne(Trim(a));
  }

  lemma TrimAllSplits(a: seq<string>, b: seq<string>)
    ensures TrimAll(a + b) == TrimAll(a) + TrimAll(b)
  {
  }

  /** Clean, comma-free choices joined by "," come back from `safeArr` as they were. */
  lemma SafeArrOfCommaList(xs: seq<string>)
    requires xs != []
    requires forall x <- xs :: CleanChoice(x) && ',' !in x
    ensures SafeArr(Str(Join(xs, ","))) == xs
  {
    var s := Join(xs, ",");
    SafeArrOfText(s);
    SplitJoin(xs, ',');
    TrimmedChoicesKept(xs);
  }

  lemma TrimmedChoicesKept(xs: seq<string>)
    requires forall x <- xs :: CleanChoice(x)
    ensures NonEmpty(TrimAll(xs)) == xs
  {
    TrimAllOfTrimmed(xs);
    NonEmptyKeeps(xs);
  }

  lemma {:induction false} TrimAllOfTrimmed(xs: seq<string>)
    requires forall x <- xs :: IsTrimmed(x)
    ensures TrimAll(xs) == xs
  {
    if xs != [] {
      assert xs[0] in xs;
      TrimOfTrimmed(xs[0]);
      TrimAllOfTrimmed(xs[1..]);
      assert xs == [xs[0]] + xs[1..];
    }
  }

  /** A list of clean choices passes through `safeArr` unchanged. */
  lemma SafeArrOfCleanChoices(xs: seq<string>)
    requires forall x <- xs :: CleanChoice(x)
    ensures SafeArr(StrArray(xs)) == xs
  {
    var v := StrArray(xs);
    var t := SafeStrAll(v.items);
    forall i | 0 <= i < |xs| ensures t[i] == xs[i] {
      assert xs[i] in xs;
      TrimOfTrimmed(xs[i]);
    }
    assert t == xs;
    NonEmptyKeeps(xs);
  }

  // ---------------------------------------------------------------- e-mail

  /** One run of `[^@\s]+`. */
  predicate EmailPart(p: string)
  {
    |p| > 0 && forall i :: 0 <= i < |p| ==> p[i] != '@' && !IsSpace(p[i])
  }

  /** The pattern `/^[^@\s]+@[^@\s]+\.[^@\s]+$/` read literally: three runs
      without '@' or white space, joined by an '@' and a '.'. */
  ghost predicate MatchesEmailPattern(s: string)
  {
    exists a, b, c :: EmailPart(a) && EmailPart(b) && EmailPart(c) && s == a + "@" + b + "." + c
  }

  /** The same test as a scan: one '@' with something before it, and after it a
      domain free of '@' and white space with a '.' neither first nor last. */
  predicate EmailShape(s: string)
  {
    && '@' in s
    && var i := IndexOf(s, '@');
    && EmailPart(s[..i])
    && var d := s[i + 1..];
    && |d| >= 3 && EmailPart(d) && '.' in d[1..|d| - 1]
  }

  lemma ShapeGivesPattern(s: string)
    requires EmailShape(s)
    ensures MatchesEmailPattern(s)
  {
    var i := IndexOf(s, '@');
    var d := s[i + 1..];
    var j := IndexOf(d[1..|d| - 1], '.') + 1;
    var a, b, c := s[..i], d[..j], d[j + 1..];
    assert d[j] == '.';
    assert EmailPart(b) by {
      forall k | 0 <= k < |b| ensures b[k] != '@' && !IsSpace(b[k]) { assert b[k] == d[k]; }
    }
    assert EmailPart(c) by {
      forall k | 0 <= k < |c| ensures c[k] != '@' && !IsSpace(c[k]) { assert c[k] == d[j + 1 + k]; }
    }
    assert d == b + "." + c;
    assert s == a + "@" + b + "." + c;
  }

  lemma PatternGivesShape(s: string, a: string, b: string, c: string)
    requires EmailPart(a) && EmailPart(b) && EmailPart(c) && s == a + "@" + b + "." + c
    ensures EmailShape(s)
  {
    assert s[|a|] == '@' && s[..|a|] == a;
    assert '@' !in a by {
      forall k | 0 <= k < |a| ensures a[k] != '@' { }
    }
    IndexOfFirst(s, '@', |a|);
    var i := IndexOf(s, '@');
    var d := s[i + 1..];
    assert d == b + "." + c;
    assert s[..i] == a;
    assert EmailPart(d) by {
      forall k | 0 <= k < |d| ensures d[k] != '@' && !IsSpace(d[k]) {
        if k < |b| { assert d[k] == b[k]; }
        else if k > |b| { assert d[k] == c[k - |b| - 1]; }
      }
    }
    assert d[1..|d| - 1][|b| - 1] == '.';
  }

  /** The scan accepts exactly the strings the regular expression matches. */
  lemma EmailShapeIsPattern(s: string)
    ensures EmailShape(s) <==> MatchesEmailPattern(s)
  {
    if EmailShape(s) {
      ShapeGivesPattern(s);
    }
    if MatchesEmailPattern(s) {
      var a, b, c :| EmailPart(a) && EmailPart(b) && EmailPart(c) && s == a + "@" + b + "." + c;
      PatternGivesShape(s, a, b, c);
    }
  }

  // ------------------------------------------------------------ validator

  const RequiredPersonal: seq<string> :=
    ["last_name", "first_name", "last_name_kana", "first_name_kana", "email"]
  const RequiredText: seq<string> :=
    ["digestive_rhythm", "skin_condition", "mental_state", "communication_preference",
     "allergies_text", "medical_history_text", "female_condition"]
  const RequiredMulti: seq<string> :=
    ["sleep_quality", "tension_areas", "sensory_sensitivity", "invite_in"]

  const InvalidPayload := "Invalid payload"
  const EmailInvalid := "email is invalid"
  const VitalityOutOfRange := "vitality_1_10 out of range"
  const NoneNotExclusive := "sensory_sensitivity: None must be exclusive"

  function RequiredMessage(key: string): string { key + " is required" }
  function EmptyChoiceMessage(key: string): string { key + " requires at least one value" }

  /** The vitality rule on its own: a finite number in [1, 10]. */
  predicate VitalityInRange(v: JsValue)
  {
    ToNumber(v).Some? && 1 <= ToNumber(v).value <= 10
  }

  /** The exclusivity rule on its own: "None" is chosen only alone. */
  predicate NoneExclusive(arr: seq<string>)
  {
    !("None" in arr && |arr| > 1)
  }

  function MissingError(data: JsValue, key: string): seq<string>
    requires IsObjectLike(data)
  {
    if SafeStr(Prop(data, key)) == "" then [RequiredMessage(key)] else []
  }

  /** The messages of the loop over `keys` that reports blank fields. */
  function MissingErrors(data: JsValue, keys: seq<string>): seq<string>
    requires IsObjectLike(data)
  {
    if keys == [] then []
    else MissingErrors(data, keys[..|keys| - 1]) + MissingError(data, keys[|keys| - 1])
  }

  function EmailErrors(data: JsValue): seq<string>
    requires IsObjectLike(data)
  {
    var e := Prop(data, "email");
    if SafeStr(e) != "" && !EmailShape(ToStr(e)) then [EmailInvalid] else []
  }

  function VitalityErrors(data: JsValue): seq<string>
    requires IsObjectLike(data)
  {
    if VitalityInRange(Prop(data, "vitality_1_10")) then [] else [VitalityOutOfRange]
  }

  function MultiError(data: JsValue, key: string): seq<string>
    requires IsObjectLike(data)
  {
    var arr := SafeArr(Prop(data, key));
    (if |arr| == 0 then [EmptyChoiceMessage(key)] else [])
    + (if key == "sensory_sensitivity" && !NoneExclusive(arr) then [NoneNotExclusive] else [])
  }

  /** The messages of the loop over the multi-choice keys. */
  function MultiErrors(data: JsValue, keys: seq<string>): seq<string>
    requires IsObjectLike(data)
  {
    if keys == [] then []
    else MultiErrors(data, keys[..|keys| - 1]) + MultiError(data, keys[|keys| - 1])
  }

  /** What `validatePayload(data)` returns, rule by rule, in the order it checks. */
  function PayloadErrors(data: JsValue): seq<string>
  {
    if !Truthy(data) || !IsObjectLike(data) then [InvalidPayload]
    else
      MissingErrors(data, RequiredPersonal)
      + EmailErrors(data)
      + VitalityErrors(data)
      + MissingErrors(data, RequiredText)
      + MultiErrors(data, RequiredMulti)
      + MissingError(data, "let_go_text")
  }

  /** The loop over `keys` that reports each one whose field `safeStr` leaves blank. */
  method ReportMissing(data: JsValue, keys: seq<string>) returns (errors: seq<string>)
    requires IsObjectLike(data)
    ensures errors == MissingErrors(data, keys)
  {
    errors := [];
    for i := 0 to |keys|
      invariant errors == MissingErrors(data, keys[..i])
    {
      assert keys[..i + 1][..i] == keys[..i];
      if SafeStr(Prop(data, keys[i])) == "" {
        errors := errors + [RequiredMessage(keys[i])];
      }
    }
    assert keys[..|keys|] == keys;
  }

  /** The loop over the multi-choice keys, with the exclusivity check for
      `sensory_sensitivity`. */
  method ReportEmptyChoices(data: JsValue, keys: seq<string>) returns (errors: seq<string>)
    requires IsObjectLike(data)
    ensures errors == MultiErrors(data, keys)
  {
    errors := [];
    for i := 0 to |keys|
      invariant errors == MultiErrors(data, keys[..i])
    {
      MultiErrorsSnoc(data, keys, i);
      var found := ReportChoice(data, keys[i]);
      errors := errors + found;
    }
    assert keys[..|keys|] == keys;
  }

  /** The body of that loop for one key. */
  method ReportChoice(data: JsValue, key: string) returns (found: seq<string>)
    requires IsObjectLike(data)
    ensures found == MultiError(data, key)
  {
    found := [];
    var arr := SafeArr(Prop(data, key));
    if |arr| == 0 {
      found := found + [EmptyChoiceMessage(key)];
    }
    if key == "sensory_sensitivity" {
      if "None" in arr && |arr| > 1 {
        found := found + [NoneNotExclusive];
      }
    }
  }

  /** One more key of the loop adds that key's messages. */
  lemma MultiErrorsSnoc(data: JsValue, keys: seq<string>, i: nat)
    requires IsObjectLike(data) && i < |keys|
    ensures MultiErrors(data, keys[..i + 1]) == MultiErrors(data, keys[..i]) + MultiError(data, keys[i])
  {
    assert keys[..i + 1][..i] == keys[..i];
  }

  /** `validatePayload`: each check pushes its message onto `errors` in turn. */
  method ValidatePayload(data: JsValue) returns (errors: seq<string>)
    ensures errors == PayloadErrors(data)
  {
    if !Truthy(data) || !IsObjectLike(data) {
      errors := [InvalidPayload];
      return;
    }
    errors := ReportMissing(data, RequiredPersonal);
    var found := ReportEmail(data);
    errors := errors + found;
    found := ReportVitality(data);
    errors := errors + found;
    found := ReportMissing(data, RequiredText);
    errors := errors + found;
    found := ReportEmptyChoices(data, RequiredMulti);
    errors := errors + found;
    if SafeStr(Prop(data, "let_go_text")) == "" {
      errors := errors + [RequiredMessage("let_go_text")];
    }
  }

  /** The e-mail check: a non-blank address must have the shape `x@y.z`. */
  method ReportEmail(data: JsValue) returns (found: seq<string>)
    requires IsObjectLike(data)
    ensures found == EmailErrors(data)
  {
    found := [];
    var email := Prop(data, "email");
    if SafeStr(email) != "" && !EmailShape(ToStr(email)) {
      found := found + [EmailInvalid];
    }
  }

  /** The vitality check: a number from 1 to 10. */
  method ReportVitality(data: JsValue) returns (found: seq<string>)
    requires IsObjectLike(data)
    ensures found == VitalityErrors(data)
  {
    found := [];
    var vitality := ToNumber(Prop(data, "vitality_1_10"));
    if vitality.None? || vitality.value < 1 || vitality.value > 10 {
      found := found + [VitalityOutOfRange];
    }
  }
}
