/**
 * How the intake server reads the model's reply in `translateAndSummarize`:
 * trim it, strip a leading "```json" fence and a trailing "```" fence, cut
 * out the text from the first '{' when it ends in '}', and hand that to
 * `JSON.parse`. A reply that does not parse becomes a record flagged
 * `CHECK_OUTPUT_FORMAT`; a reply that parses to `null` makes the next
 * property read throw. `JSON.parse` itself is a parameter (`None` = throws).
 */
module Translate {
  import opened Wrappers
  import opened Text
  import opened Js
  import opened Payload

  /** The four fields `translateAndSummarize` returns. */
  datatype Translation = Translation(summary: string, flags: string, full: string, fields: JsValue)

  const CheckOutputFormat := "CHECK_OUTPUT_FORMAT"
  /** What reading `english_summary` off `null` throws. */
  const NullRead := "Cannot read properties of null (reading 'english_summary')"
  const SummaryLimit := 800

  // ------------------------------------------------------------ fences

  /** ASCII letters compared without case, as the `i` flag does for "json". */
  function LowerAscii(c: char): char
  {
    if 'A' <= c <= 'Z' then ((c as int) + 32) as char else c
  }

  /** "```" starts at `k`. */
  predicate FenceAt(s: string, k: nat)
  {
    k + 3 <= |s| && s[k..k + 3] == "```"
  }

  /** "```json" in any letter case starts at `k`. */
  predicate OpenFenceAt(s: string, k: nat)
  {
    && k + 7 <= |s|
    && FenceAt(s, k)
    && LowerAscii(s[k + 3]) == 'j' && LowerAscii(s[k + 4]) == 's'
    && LowerAscii(s[k + 5]) == 'o' && LowerAscii(s[k + 6]) == 'n'
  }

  /** The leftmost "```json" at or after `from`. */
  function FirstOpenFence(s: string, from: nat): (r: Option<nat>)
    ensures r.Some? ==> from <= r.value && OpenFenceAt(s, r.value)
    ensures r.Some? ==> forall j :: from <= j < r.value ==> !OpenFenceAt(s, j)
    ensures r.None? ==> forall j :: from <= j ==> !OpenFenceAt(s, j)
    decreases |s| - from
  {
    if from + 7 > |s| then None
    else if OpenFenceAt(s, from) then Some(from)
    else FirstOpenFence(s, from + 1)
  }

  /** The end of the run of white space starting at `i` (`\s*`, greedy). */
  function SkipSpace(s: string, i: nat): (j: nat)
    requires i <= |s|
    ensures i <= j <= |s| && AllSpace(s[i..j]) && (j == |s| || !IsSpace(s[j]))
    decreases |s| - i
  {
    if i < |s| && IsSpace(s[i]) then
      var j := SkipSpace(s, i + 1);
      assert s[i..j] == [s[i]] + s[i + 1..j];
      j
    else i
  }

  /** `.replace(/```json\s*\/i, '')`: the first opening fence and the white
      space after it go. */
  function StripOpenFence(s: string): string
  {
    match FirstOpenFence(s, 0)
    case None => s
    case Some(k) => s[..k] + s[SkipSpace(s, k + 7)..]
  }

  /** "```" starts at `k` and only white space follows it. */
  predicate CloseFenceAt(s: string, k: nat)
  {
    FenceAt(s, k) && AllSpace(s[k + 3..])
  }

  /** The leftmost position where `/```\s*$/` matches. */
  function FirstCloseFence(s: string, from: nat): (r: Option<nat>)
    ensures r.Some? ==> from <= r.value && CloseFenceAt(s, r.value)
    ensures r.Some? ==> forall j :: from <= j < r.value ==> !CloseFenceAt(s, j)
    ensures r.None? ==> forall j :: from <= j ==> !CloseFenceAt(s, j)
    decreases |s| - from
  {
    if from + 3 > |s| then None
    else if CloseFenceAt(s, from) then Some(from)
    else FirstCloseFence(s, from + 1)
  }

  /** `.replace(/```\s*$/i, '')`: a closing fence at the very end goes. */
  function StripCloseFence(s: string): string
  {
    match FirstCloseFence(s, 0)
    case None => s
    case Some(k) => s[..k]
  }

  /** `/\{[\s\S]*\}$/`: from the first '{' to the end, when the text ends in '}'. */
  function BraceSpan(t: string): (r: Option<string>)
    ensures r.Some? ==> |r.value| >= 2 && r.value[0] == '{' && r.value[|r.value| - 1] == '}'
    ensures r.Some? <==> '{' in t && t[|t| - 1] == '}'
    // the span starts at the first '{': no '{' comes before it
    ensures r.Some? ==> |r.value| <= |t| && r.value == t[|t| - |r.value|..] && '{' !in t[..|t| - |r.value|]
  {
    if '{' in t && t[|t| - 1] == '}' then
      var k := IndexOf(t, '{');
      Some(t[k..])
    else None
  }

  /** The reply without its fences, trimmed. */
  function Unfenced(resultText: string): string
  {
    Trim(StripCloseFence(StripOpenFence(resultText)))
  }

  /** The text handed to `JSON.parse`. */
  function Candidate(resultText: string): string
  {
    var jsonText := Unfenced(resultText);
    match BraceSpan(jsonText)
    case Some(m) => m
    case None => jsonText
  }

  // ------------------------------------------------------------ the record

  /** The object the `catch` branch builds. */
  function FallbackObject(resultText: string): JsValue
  {
    Obj(map[
      "english_summary" := Str(Take(resultText, SummaryLimit)),
      "risk_flags" := Str(CheckOutputFormat),
      "english_full" := Str(resultText)])
  }

  /** What `translateAndSummarize` makes of the trimmed reply `resultText`
      once `JSON.parse` has given `parsed` (`None`: it threw). */
  function Decide(resultText: string, parsed: Option<JsValue>): Result<Translation>
  {
    var obj := match parsed
      case Some(v) => v
      case None => FallbackObject(resultText);
    if obj.Null? || obj.Undefined? then Err(NullRead)
    else
      var tf := Prop(obj, "translated_fields");
      Ok(Translation(
        SafeStr(Prop(obj, "english_summary")),
        SafeStr(Prop(obj, "risk_flags")),
        SafeStr(Prop(obj, "english_full")),
        if Truthy(tf) then tf else Obj(map[])))
  }

  /** `translateAndSummarize` after the model has replied with `reply`. */
  function Interpret(reply: string, parse: string -> Option<JsValue>): Result<Translation>
  {
    var resultText := Trim(reply);
    Decide(resultText, parse(Candidate(resultText)))
  }

  /** The reply is turned into a record unless it parses to `null` (the
      parser never yields undefined); it never throws for a reply that fails
      to parse. */
  lemma RaisesOnlyOnNull(resultText: string, parsed: Option<JsValue>)
    requires parsed != Some(Undefined)
    ensures Decide(resultText, parsed).Err? <==> parsed == Some(Null)
  {
  }

  /** A reply that does not parse gives the `CHECK_OUTPUT_FORMAT` record: the
      full text is the trimmed reply, the summary its first 800 characters
      (trimmed again), and no translated fields. */
  lemma FallbackRecord(resultText: string)
    requires IsTrimmed(resultText)
    ensures Decide(resultText, None)
         == Ok(Translation(Trim(Take(resultText, SummaryLimit)), CheckOutputFormat, resultText, Obj(map[])))
  {
    FallbackFields(resultText);
    SafeStrOfStr(resultText);
    SafeStrOfStr(Take(resultText, SummaryLimit));
    TrimOfTrimmed(resultText);
    FlagsTrimmed();
  }

  lemma SafeStrOfStr(s: string)
    ensures SafeStr(Str(s)) == Trim(s)
  {
  }

  /** The fallback record reads the three strings the catch branch stored. */
  lemma FallbackFields(resultText: string)
    ensures Decide(resultText, None) == Ok(Translation(SafeStr(Str(Take(resultText, SummaryLimit))),
      SafeStr(Str(CheckOutputFormat)), SafeStr(Str(resultText)), Obj(map[])))
  {
    var obj := FallbackObject(resultText);
    assert Prop(obj, "english_summary") == Str(Take(resultText, SummaryLimit));
    assert Prop(obj, "risk_flags") == Str(CheckOutputFormat);
    assert Prop(obj, "english_full") == Str(resultText);
    assert Prop(obj, "translated_fields") == Undefined;
  }

  lemma FlagsTrimmed()
    ensures SafeStr(Str(CheckOutputFormat)) == CheckOutputFormat
  {
    TrimOfTrimmed(CheckOutputFormat);
  }

  /** The fallback summary is the start of the full text, at most 800
      characters long: trimming the first 800 characters of a trimmed text
      only removes white space at the cut. */
  lemma FallbackSummaryIsPrefix(resultText: string)
    requires IsTrimmed(resultText)
    ensures IsPrefix(Trim(Take(resultText, SummaryLimit)), resultText)
    ensures |Trim(Take(resultText, SummaryLimit))| <= SummaryLimit
  {
    var head := Take(resultText, SummaryLimit);
    assert head == [] || !IsSpace(head[0]) by {
      assert head == [] || head[0] == resultText[0];
    }
    TrimKeepsUnspacedStart(head);
    PrefixOfPrefix(Trim(head), head, resultText);
  }

  /** A prefix of a prefix is a prefix. */
  lemma PrefixOfPrefix(r: string, head: string, s: string)
    requires IsPrefix(r, head) && IsPrefix(head, s)
    ensures IsPrefix(r, s) && |r| <= |head|
  {
    assert s[..|r|] == head[..|r|];
  }

  /** A reply that parses to an object gives that object's three strings,
      trimmed, and its `translated_fields` when truthy, else `{}`. */
  lemma ParsedRecord(resultText: string, v: JsValue)
    requires v.Obj?
    ensures var tf := if "translated_fields" in v.props && Truthy(v.props["translated_fields"])
                      then v.props["translated_fields"] else Obj(map[]);
      Decide(resultText, Some(v)) == Ok(Translation(
        SafeStr(Prop(v, "english_summary")), SafeStr(Prop(v, "risk_flags")),
        SafeStr(Prop(v, "english_full")), tf))
  {
  }

  /** Whatever the reply, the three strings of a record are trimmed and its
      fields are never falsy. */
  lemma RecordTrimmed(resultText: string, parsed: Option<JsValue>)
    ensures var r := Decide(resultText, parsed);
      r.Ok? ==> (IsTrimmed(r.value.summary) && IsTrimmed(r.value.flags) && IsTrimmed(r.value.full)
                 && Truthy(r.value.fields))
  {
  }

  // ------------------------------------------------------------ candidates

  /** No "```" anywhere in `s`. */
  predicate NoFence(s: string)
  {
    forall k :: 0 <= k < |s| ==> !FenceAt(s, k)
  }

  /** A bare JSON object in the reply is handed to the parser as it is. */
  lemma BareObjectCandidate(s: string)
    requires IsTrimmed(s) && |s| >= 2 && s[0] == '{' && s[|s| - 1] == '}' && NoFence(s)
    ensures Unfenced(s) == s && Candidate(s) == s
  {
    assert FirstOpenFence(s, 0).None? by {
      forall j | 0 <= j ensures !OpenFenceAt(s, j) {
        assert !FenceAt(s, j);
      }
    }
    assert FirstCloseFence(s, 0).None? by {
      forall j | 0 <= j ensures !CloseFenceAt(s, j) {
        assert !FenceAt(s, j);
      }
    }
    TrimOfTrimmed(s);
    IndexOfFirst(s, '{', 0);
  }

  /** Text before the object, such as "Here is the JSON: ", is dropped: the
      parser gets the object from its first '{' on. The reply is trimmed
      before it gets here, so the text does not open with white space. */
  lemma LeadingTextDropped(p: string, s: string)
    requires IsTrimmed(s) && |s| >= 2 && s[0] == '{' && s[|s| - 1] == '}' && NoFence(s)
    requires '{' !in p && NoFence(p) && (p == [] || !IsSpace(p[0]))
    ensures Candidate(p + s) == s
  {
    NoFenceJoined(p, s);
    JoinedTrimmed(p, s);
    PlainTextUnfenced(p + s);
    BraceSpanAfter(p, s);
  }

  lemma JoinedTrimmed(p: string, s: string)
    requires IsTrimmed(s) && s != [] && (p == [] || !IsSpace(p[0]))
    ensures IsTrimmed(p + s)
  {
    var x := p + s;
    assert x[0] == (if p == [] then s[0] else p[0]);
    assert x[|x| - 1] == s[|s| - 1];
  }

  /** The match starts at the first '{', wherever it is. */
  lemma BraceSpanAfter(p: string, s: string)
    requires '{' !in p && |s| >= 2 && s[0] == '{' && s[|s| - 1] == '}'
    ensures BraceSpan(p + s) == Some(s)
  {
    var x := p + s;
    assert x[|p|] == '{' && x[..|p|] == p && x[|x| - 1] == '}';
    IndexOfFirst(x, '{', |p|);
    assert x[|p|..] == s;
  }

  /** No fence is made where a text without one meets an object. */
  lemma NoFenceJoined(p: string, s: string)
    requires NoFence(p) && NoFence(s) && s != [] && s[0] == '{'
    ensures NoFence(p + s)
  {
    var x := p + s;
    forall k | 0 <= k < |x| ensures !FenceAt(x, k) {
      if k + 3 <= |x| {
        if k + 3 <= |p| {
          assert x[k..k + 3] == p[k..k + 3];
          assert !FenceAt(p, k);
        } else if k < |p| {
          assert x[k..k + 3][|p| - k] == s[0];
        } else {
          assert x[|p|..] == s;
          assert x[k..k + 3] == x[|p|..][k - |p|..k - |p| + 3];
          assert !FenceAt(s, k - |p|);
        }
      }
    }
  }

  /** A trimmed text without a fence is left as it is by the fence stripping. */
  lemma PlainTextUnfenced(x: string)
    requires NoFence(x) && IsTrimmed(x)
    ensures Unfenced(x) == x
  {
    assert FirstOpenFence(x, 0).None? by {
      forall j | 0 <= j ensures !OpenFenceAt(x, j) {
        assert !FenceAt(x, j);
      }
    }
    assert FirstCloseFence(x, 0).None? by {
      forall j | 0 <= j ensures !CloseFenceAt(x, j) {
        assert !FenceAt(x, j);
      }
    }
    TrimOfTrimmed(x);
  }

  /** A JSON object wrapped in a "```json" fence is handed to the parser
      without the fence. */
  lemma FencedObjectCandidate(s: string)
    requires IsTrimmed(s) && |s| >= 2 && s[0] == '{' && s[|s| - 1] == '}' && NoFence(s)
    ensures Candidate("```json\n" + s + "\n```") == s
  {
    var x := "```json\n" + s + "\n```";
    OpenFenceStripped(s);
    CloseFenceStripped(s);
    NewlineTrimmed(s);
    assert Unfenced(x) == s;
    BareObjectCandidate(s);
  }

  /** The opening "```json" fence and the line break after it go. */
  lemma OpenFenceStripped(s: string)
    requires |s| >= 1 && s[0] == '{'
    ensures StripOpenFence("```json\n" + s + "\n```") == s + "\n```"
  {
    var x := "```json\n" + s + "\n```";
    assert OpenFenceAt(x, 0);
    assert FirstOpenFence(x, 0) == Some(0);
    assert SkipSpace(x, 7) == 8 by {
      assert x[8] == s[0];
      assert SkipSpace(x, 8) == 8;
    }
    assert x[..0] + x[8..] == s + "\n```";
  }

  /** The closing fence of a text without a fence of its own goes, with
      nothing after it. */
  lemma CloseFenceStripped(s: string)
    requires |s| >= 1 && s[|s| - 1] == '}' && NoFence(s)
    ensures StripCloseFence(s + "\n```") == s + "\n"
  {
    var y := s + "\n```";
    var k := |s| + 1;
    assert CloseFenceAt(y, k) by {
      assert y[k..k + 3] == "```";
      assert y[k + 3..] == [];
    }
    forall j | 0 <= j < k ensures !CloseFenceAt(y, j) {
      if j + 3 <= |s| {
        assert y[j..j + 3] == s[j..j + 3];
        assert !FenceAt(s, j);
      } else {
        if j + 3 <= |y| {
          if j == |s| {
            assert y[j..j + 3][0] == '\n';
          } else {
            assert y[j..j + 3][|s| - 1 - j] == s[|s| - 1];
          }
        }
      }
    }
    assert FirstCloseFence(y, 0) == Some(k);
  }

  /** A trimmed text followed by a line break trims back to itself. */
  lemma NewlineTrimmed(s: string)
    requires IsTrimmed(s) && s != []
    ensures Trim(s + "\n") == s
  {
    var z := s + "\n";
    assert z[0] == s[0];
    assert TrimStart(z) == z;
    assert z[..|z| - 1] == s;
    assert TrimEnd(s) == s;
    assert TrimEnd(z) == s;
  }
}
