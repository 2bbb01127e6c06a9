/** Values that may be absent, as a JavaScript field or result may be `undefined`. */
module Optional {
  datatype Option<+T> = None | Some(value: T)
}

/** `countUtterMatches` of migrations.js: how many times the regular
    expression `/utter_/g` matches the JSON serialisation of a template's
    values. The serialisation itself (`JSON.stringify`) is an input here:
    `None` stands for the `undefined` it returns for `undefined` values. */
module UtterCount {
  import opened Optional

  const Utter: string := "utter_"

  /** An occurrence of `utter_` starts at the front of `s`, spelled out
      character by character. */
  predicate UtterAt(s: string)
  {
    |s| >= 6 && s[0] == 'u' && s[1] == 't' && s[2] == 't' && s[3] == 'e' && s[4] == 'r' && s[5] == '_'
  }

  /** The character test is the prefix test against `utter_`. */
  lemma UtterAtIsPrefix(s: string)
    ensures UtterAt(s) <==> |Utter| <= |s| && s[..|Utter|] == Utter
  {
  }

  /** The global regular-expression scan: try to match at the current
      position; after a match resume right after it, otherwise one
      character further on. The count is at most one per six characters. */
  function CountMatches(s: string): (n: nat)
    ensures 6 * n <= |s|
    decreases |s|
  {
    if s == [] then 0
    else if UtterAt(s) then 1 + CountMatches(s[|Utter|..])
    else CountMatches(s[1..])
  }

  /** `((JSON.stringify(values) || '').match(/utter_/g) || []).length`:
      an absent serialisation counts as the empty string, and no match as 0. */
  function CountUtterMatches(serialised: Option<string>): (n: nat)
    ensures serialised.None? ==> n == 0
  {
    match serialised
    case None => 0
    case Some(s) => CountMatches(s)
  }

  /** Reference count: every position at which `utter_` starts, overlapping
      or not. */
  function Occurrences(s: string): nat
  {
    if s == [] then 0
    else (if UtterAt(s) then 1 else 0) + Occurrences(s[1..])
  }

  /** Inside a match no other match can start: none of `tter_` is a `u`. */
  lemma {:induction false} NoOccurrenceInsideMatch(s: string, k: nat)
    requires UtterAt(s) && 1 <= k <= |Utter|
    ensures Occurrences(s[k..]) == Occurrences(s[|Utter|..])
    decreases |Utter| - k
  {
    if k < |Utter| {
      assert !UtterAt(s[k..]);
      assert s[k..][1..] == s[k + 1..];
      NoOccurrenceInsideMatch(s, k + 1);
    }
  }

  /** The left-to-right scan misses nothing: since `utter_` cannot overlap
      itself, the number of matches is the number of occurrences. */
  lemma {:induction false} CountMatchesIsOccurrences(s: string)
    ensures CountMatches(s) == Occurrences(s)
    decreases |s|
  {
    if s != [] {
      if UtterAt(s) {
        NoOccurrenceInsideMatch(s, 1);
        CountMatchesIsOccurrences(s[|Utter|..]);
      } else {
        CountMatchesIsOccurrences(s[1..]);
      }
    }
  }

  /** `countUtterMatches` of a serialisation is the number of occurrences
      of `utter_` in it. */
  lemma CountUtterMatchesIsOccurrences(s: string)
    ensures CountUtterMatches(Some(s)) == Occurrences(s)
  {
    CountMatchesIsOccurrences(s);
  }

  /** A missing serialisation, or one without `utter_`, counts as zero; one
      that starts with `utter_` counts at least one. */
  lemma CountUtterMatchesBounds(serialised: Option<string>)
    ensures serialised == None ==> CountUtterMatches(serialised) == 0
    ensures serialised.Some? && |serialised.value| < |Utter| ==> CountUtterMatches(serialised) == 0
    ensures serialised.Some? && UtterAt(serialised.value) ==> CountUtterMatches(serialised) >= 1
  {
  }
}
