/**
 * The wizard's answer lists and their English labels (src/App.tsx): the
 * `map*` functions that turn a Japanese option into the label the server
 * stores, and the checkbox handler that adds or removes an option from a
 * multi-choice answer, with "特になし" ("none in particular") standing alone.
 */
module Choices {
  import opened Wrappers
  import opened Text
  import opened Js

  /** The "none in particular" option of the sensitivity question. */
  const NoneOption := "特になし"

  /** The object literal of one `map*` function, as (option, label) pairs in
      the order the source lists them. */
  type Table = seq<(string, string)>

  const DigestiveLabels: Table :=
    [("重い", "Heavy"), ("不規則", "Irregular"), ("鋭い", "Sharp"), ("安定", "Stable")]
  const SleepLabels: Table :=
    [("寝つきが悪い", "Difficulty falling asleep"), ("夜中に起きる", "Night awakening"),
     ("起きてもスッキリしない", "Not refreshed"), ("よく眠れた", "Restful")]
  const TensionLabels: Table :=
    [("首", "Neck"), ("肩", "Shoulders"), ("腰（下背部）", "Lower Back"), ("あご", "Jaw"),
     ("目", "Eyes"), ("股関節", "Hips"), ("その他", "Other")]
  const SkinLabels: Table :=
    [("乾燥", "Dry"), ("熱っぽい／敏感", "Warm/Sensitive"), ("脂っぽい", "Oily"), ("バランス良い", "Balanced")]
  const MentalLabels: Table :=
    [("風（Vata）— 落ち着かない／不安", "Wind (Vata) – Restless/Anxious"),
     ("火（Pitta）— 集中／イライラ", "Fire (Pitta) – Focused/Irritable"),
     ("霧（Kapha）— 重い／やる気が出ない", "Mist (Kapha) – Heavy/Low Motivation")]
  const SensoryLabels: Table :=
    [("音", "Sound"), ("光", "Light"), ("温度", "Temperature"), ("圧の強さ（タッチ）", "Touch Pressure"),
     (NoneOption, "None")]
  const InviteLabels: Table :=
    [("クリアさ", "Clarity"), ("地に足がつく感覚", "Grounded"), ("活力", "Vitality"),
     ("深いリラックス", "Deep Relaxation"), ("内なる静けさ", "Inner Silence")]
  const CommLabels: Table :=
    [("完全に静かに過ごしたい", "Complete Silence"), ("やさしいガイダンスが欲しい", "Gentle Guidance"),
     ("時々の確認だけしてほしい", "Occasional Check-in")]
  const FemaleLabels: Table :=
    [("生理中", "Menstruating"), ("妊娠の可能性あり", "Possible Pregnancy"), ("該当なし", "None")]

  /** The options a table knows, in order. */
  function Keys(t: Table): (ks: seq<string>)
    ensures |ks| == |t| && forall i :: 0 <= i < |t| ==> ks[i] == t[i].0
  {
    seq(|t|, i requires 0 <= i < |t| => t[i].0)
  }

  /** `table[k]`: the label of the first pair for `k`, if any. */
  function Lookup(t: Table, k: string): (r: Option<string>)
    ensures r.None? <==> k !in Keys(t)
    ensures r.Some? ==> exists i :: 0 <= i < |t| && t[i] == (k, r.value)
  {
    if t == [] then None
    else if t[0].0 == k then Some(t[0].1)
    else
      assert forall i :: 1 <= i < |t| ==> Keys(t)[i] == Keys(t[1..])[i - 1];
      Lookup(t[1..], k)
  }

  predicate IsLetter(c: char)
  {
    'a' <= c <= 'z' || 'A' <= c <= 'Z'
  }

  /** A table of the `map*` kind: no option is blank or the text of
      `undefined`, and every label begins and ends with a letter. */
  predicate Labelled(t: Table)
  {
    forall i :: 0 <= i < |t| ==>
      t[i].0 != "" && t[i].0 != "undefined" && t[i].1 != "" && IsLetter(t[i].1[0]) && IsLetter(t[i].1[|t[i].1| - 1])
  }

  /** `({...}[v] || v || '')`: the label when the table has the value as a
      key, otherwise the value itself when it is truthy, otherwise "". */
  function Label(t: Table, v: JsValue): JsValue
  {
    var found := Lookup(t, ToStr(v));
    if found.Some? && found.value != "" then Str(found.value)
    else if Truthy(v) then v
    else Str("")
  }

  /** What every mapper does: a known option becomes its label, an unknown
      non-empty text passes through, and a blank or missing answer gives "". */
  lemma LabelCases(t: Table, v: string)
    requires Labelled(t)
    ensures v in Keys(t) ==> exists i :: 0 <= i < |t| && t[i].0 == v && Label(t, Str(v)) == Str(t[i].1)
    ensures v !in Keys(t) && v != "" ==> Label(t, Str(v)) == Str(v)
    ensures Label(t, Str("")) == Str("") && Label(t, Undefined) == Str("")
  {
  }

  /** A known option maps to a label that `safeStr` keeps whole. */
  lemma KnownOptionLabelled(t: Table, v: string)
    requires Labelled(t) && v in Keys(t)
    ensures var l := Label(t, Str(v));
      l.Str? && l.s != "" && IsTrimmed(l.s)
  {
  }

  /** The tables of the single-choice questions are all of that kind. */
  lemma SingleTablesLabelled()
    ensures Labelled(DigestiveLabels) && Labelled(SkinLabels) && Labelled(MentalLabels)
    ensures Labelled(CommLabels) && Labelled(FemaleLabels)
  {
  }

  /** So are those of the multi-choice questions. */
  lemma MultiTablesLabelled()
    ensures Labelled(SleepLabels) && Labelled(TensionLabels) && Labelled(SensoryLabels) && Labelled(InviteLabels)
  {
  }

  /** `mapSensory` yields the server's "None" exactly for "特になし" among the
      options it knows. */
  lemma SensoryNoneOnlyForNoneOption(v: string)
    requires v in Keys(SensoryLabels)
    ensures Label(SensoryLabels, Str(v)) == Str("None") <==> v == NoneOption
  {
  }

  // ------------------------------------------------------------ lists

  /** No entry occurs twice. */
  predicate Distinct(xs: seq<string>)
  {
    forall i, j :: 0 <= i < j < |xs| ==> xs[i] != xs[j]
  }

  /** `xs.filter(v => v !== x)`. */
  function Remove(xs: seq<string>, x: string): (r: seq<string>)
    ensures forall y :: y in r <==> y in xs && y != x
    ensures |r| <= |xs|
  {
    if xs == [] then []
    else Remove(xs[..|xs| - 1], x) + (if xs[|xs| - 1] == x then [] else [xs[|xs| - 1]])
  }

  /** `Array.from(new Set(xs))`: the first occurrence of each entry, in order. */
  function Dedup(xs: seq<string>): (r: seq<string>)
    ensures Distinct(r)
    ensures forall y :: y in r <==> y in xs
    ensures |r| <= |xs|
  {
    if xs == [] then []
    else
      var front := Dedup(xs[..|xs| - 1]);
      if xs[|xs| - 1] in front then front else front + [xs[|xs| - 1]]
  }

  /** Where `y` first occurs in `xs`. */
  function FirstAt(xs: seq<string>, y: string): (i: nat)
    requires y in xs
    ensures i < |xs| && xs[i] == y && y !in xs[..i]
  {
    if xs[0] == y then 0
    else
      var i := FirstAt(xs[1..], y);
      assert xs[..i + 1] == [xs[0]] + xs[1..][..i];
      i + 1
  }

  lemma FirstAtUnique(xs: seq<string>, y: string, k: nat)
    requires k < |xs| && xs[k] == y && y !in xs[..k]
    ensures FirstAt(xs, y) == k
  {
  }

  /** Adding at the end does not move a first occurrence. */
  lemma FirstAtSnoc(p: seq<string>, z: string, y: string)
    requires y in p
    ensures FirstAt(p + [z], y) == FirstAt(p, y)
  {
    var k := FirstAt(p, y);
    assert (p + [z])[..k] == p[..k];
    FirstAtUnique(p + [z], y, k);
  }

  /** The entries of `r`, all taken from `xs`, stand in the order of their
      first occurrences in `xs`. */
  predicate InFirstOrder(xs: seq<string>, r: seq<string>)
    requires forall y <- r :: y in xs
  {
    forall i, j :: 0 <= i < j < |r| ==> FirstAt(xs, r[i]) < FirstAt(xs, r[j])
  }

  /** `Dedup` lists the values in the order in which they first occur. */
  lemma {:induction false} DedupFirstOccurrence(xs: seq<string>)
    ensures InFirstOrder(xs, Dedup(xs))
  {
    if xs != [] {
      var p, z := xs[..|xs| - 1], xs[|xs| - 1];
      assert xs == p + [z];
      var front := Dedup(p);
      var r := Dedup(xs);
      assert r == if z in front then front else front + [z];
      DedupFirstOccurrence(p);
      forall i, j | 0 <= i < j < |r| ensures FirstAt(xs, r[i]) < FirstAt(xs, r[j]) {
        assert r[i] == front[i] && front[i] in p;
        FirstAtSnoc(p, z, front[i]);
        if j < |front| {
          assert r[j] == front[j] && front[j] in p;
          FirstAtSnoc(p, z, front[j]);
        } else {
          assert r[j] == z && z !in p;
          assert xs[..|p|] == p;
          FirstAtUnique(xs, z, |p|);
        }
      }
    }
  }

  /** Filtering distributes over concatenation, so it keeps the order of
      what it keeps. */
  lemma {:induction false} RemoveSplits(a: seq<string>, b: seq<string>, x: string)
    ensures Remove(a + b, x) == Remove(a, x) + Remove(b, x)
    decreases |b|
  {
    if b == [] {
      assert a + b == a;
    } else {
      var c := b[..|b| - 1];
      assert (a + b)[..|a + b| - 1] == a + c;
      assert (a + b)[|a + b| - 1] == b[|b| - 1];
      RemoveSplits(a, c, x);
    }
  }

  /** Removing what is not there changes nothing. */
  lemma {:induction false} RemoveAbsent(xs: seq<string>, x: string)
    requires x !in xs
    ensures Remove(xs, x) == xs
  {
    if xs != [] {
      RemoveAbsent(xs[..|xs| - 1], x);
      assert xs[..|xs| - 1] + [xs[|xs| - 1]] == xs;
    }
  }

  /** A list without repeats keeps none after a filter. */
  lemma {:induction false} RemoveDistinct(xs: seq<string>, x: string)
    requires Distinct(xs)
    ensures Distinct(Remove(xs, x))
  {
    if xs != [] {
      var front := xs[..|xs| - 1];
      assert Distinct(front) by {
        forall i, j | 0 <= i < j < |front| ensures front[i] != front[j] {
          assert front[i] == xs[i] && front[j] == xs[j];
        }
      }
      RemoveDistinct(front, x);
      var last := xs[|xs| - 1];
      assert last !in front by {
        forall i | 0 <= i < |front| ensures front[i] != last {
          assert front[i] == xs[i];
        }
      }
    }
  }

  /** A list without repeats passes through `new Set` unchanged. */
  lemma {:induction false} DedupDistinct(xs: seq<string>)
    requires Distinct(xs)
    ensures Dedup(xs) == xs
  {
    if xs != [] {
      var front := xs[..|xs| - 1];
      assert Distinct(front) by {
        forall i, j | 0 <= i < j < |front| ensures front[i] != front[j] {
          assert front[i] == xs[i] && front[j] == xs[j];
        }
      }
      DedupDistinct(front);
      assert xs[|xs| - 1] !in front by {
        forall i | 0 <= i < |front| ensures front[i] != xs[|xs| - 1] {
          assert front[i] == xs[i];
        }
      }
      assert front + [xs[|xs| - 1]] == xs;
    }
  }

  /** Unchecking one entry of a list without repeats takes out that entry and
      leaves the others where they were. */
  lemma {:induction false} RemoveOne(xs: seq<string>, i: nat)
    requires Distinct(xs) && i < |xs|
    ensures Remove(xs, xs[i]) == xs[..i] + xs[i + 1..]
  {
    var x, front, last := xs[i], xs[..|xs| - 1], xs[|xs| - 1];
    assert Distinct(front) by {
      forall a, b | 0 <= a < b < |front| ensures front[a] != front[b] {
        assert front[a] == xs[a] && front[b] == xs[b];
      }
    }
    if i == |xs| - 1 {
      assert x !in front by {
        forall a | 0 <= a < |front| ensures front[a] != x {
          assert front[a] == xs[a];
        }
      }
      RemoveAbsent(front, x);
    } else {
      assert front[i] == x && last != x;
      RemoveOne(front, i);
      assert xs[..i] + xs[i + 1..] == front[..i] + front[i + 1..] + [last];
    }
  }

  // ---------------------------------------------------------- checkbox

  /** The checkbox handler of a multi-choice step: the list the answer holds
      after `opt` is checked or unchecked. `exclusive` is the
      `multi_none_exclusive` kind. */
  function Toggle(exclusive: bool, arr: seq<string>, opt: string, checked: bool): seq<string>
  {
    if !checked then Remove(arr, opt)
    else if exclusive && opt == NoneOption then Dedup([NoneOption])
    else Dedup(Remove(arr, NoneOption) + [opt])
  }

  /** "特になし" is never chosen together with something else. */
  predicate NoneAlone(xs: seq<string>)
  {
    !(NoneOption in xs && |xs| > 1)
  }

  /** Checking "特になし" on an exclusive step leaves it as the only choice. */
  lemma CheckNone(arr: seq<string>)
    ensures Toggle(true, arr, NoneOption, true) == [NoneOption]
  {
    assert Dedup([NoneOption]) == Dedup([]) + [NoneOption];
  }

  /** Checking any other option drops "特になし" and appends the option once. */
  lemma CheckOption(exclusive: bool, arr: seq<string>, opt: string)
    requires Distinct(arr)
    requires !(exclusive && opt == NoneOption)
    ensures var kept := Remove(arr, NoneOption);
      Toggle(exclusive, arr, opt, true) == if opt in kept then kept else kept + [opt]
  {
    var kept := Remove(arr, NoneOption);
    RemoveDistinct(arr, NoneOption);
    DedupDistinct(kept);
    assert (kept + [opt])[..|kept|] == kept;
    if opt !in kept {
      assert Distinct(kept + [opt]);
      DedupDistinct(kept + [opt]);
    }
  }

  /** Unchecking removes only that option and keeps the others in order. */
  lemma Uncheck(exclusive: bool, arr: seq<string>, i: nat)
    requires Distinct(arr) && i < |arr|
    ensures Toggle(exclusive, arr, arr[i], false) == arr[..i] + arr[i + 1..]
  {
    RemoveOne(arr, i);
  }

  /** Toggling keeps an answer free of repeats, within the step's options,
      and, on an exclusive step, with "特になし" alone. */
  lemma ToggleKeepsShape(exclusive: bool, arr: seq<string>, opt: string, checked: bool, options: seq<string>)
    requires Distinct(arr) && (forall x <- arr :: x in options)
    requires opt in options && (exclusive ==> NoneOption in options)
    requires exclusive ==> NoneAlone(arr)
    ensures var next := Toggle(exclusive, arr, opt, checked);
      && Distinct(next) && (forall x <- next :: x in options)
      && (exclusive ==> NoneAlone(next))
      && (checked ==> opt in next) && (!checked ==> opt !in next)
  {
    var next := Toggle(exclusive, arr, opt, checked);
    if !checked {
      RemoveDistinct(arr, opt);
      if exclusive && NoneOption in next {
        assert |arr| <= 1;
      }
    } else if exclusive && opt == NoneOption {
      CheckNone(arr);
    } else {
      CheckOption(exclusive, arr, opt);
    }
  }
}
