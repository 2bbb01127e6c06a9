/** `processSequence` of migrations.js (migration 5): fold the parsed parts
    of a response sequence into one object. Text is joined with a blank
    line and buttons are concatenated, but each step builds a fresh object
    from the accumulator and the current part only, so a part without
    text drops the text gathered so far, a part without buttons drops the
    buttons, and every other field is dropped. Parsing each part's YAML
    content is not part of this model: the parts are given parsed. */
module SequenceMerge {
  import opened Optional

  /** A button of a part; the fold only concatenates buttons. */
  datatype Button = Button(title: string, payload: string)

  /** A parsed part, or the object the fold builds: its `text` and
      `buttons` when set, and every other field by name. */
  datatype Sequent = Sequent(text: Option<string>, buttons: Option<seq<Button>>, others: map<string, string>)

  /** The separator of the template literal on line 139. */
  const Separator: string := "\n\n"

  /** The initial accumulator `{}`. */
  const Empty: Sequent := Sequent(None, None, map[])

  /** JavaScript truthiness of `text`: set, and not the empty string. */
  predicate HasText(s: Sequent)
  {
    s.text.Some? && s.text.value != ""
  }

  /** The reducer of lines 136-141: a fresh object holding only the text
      and buttons it derives from `acc` and `curr`. */
  function Step(acc: Sequent, curr: Sequent): (r: Sequent)
    ensures r.text.Some? <==> HasText(curr)
    ensures r.buttons.Some? <==> curr.buttons.Some?
    ensures r.others == map[]
  {
    Sequent(
      if !HasText(curr) then None
      else if HasText(acc) then Some(acc.text.value + Separator + curr.text.value)
      else curr.text,
      if curr.buttons.None? then None
      else Some((if acc.buttons.Some? then acc.buttons.value else []) + curr.buttons.value),
      map[])
  }

  /** Lines 134-142: `reduce` from `{}` over the parts, left to right. The
      result keeps no field besides `text` and `buttons`, and any text it
      keeps is non-empty. */
  function Merge(parts: seq<Sequent>): (r: Sequent)
    ensures parts == [] ==> r == Empty
    ensures r.others == map[]
    ensures r.text.Some? ==> HasText(r)
  {
    if parts == [] then Empty
    else Step(Merge(parts[..|parts| - 1]), parts[|parts| - 1])
  }

  // ---------------------------------------------------------------------
  // Reference definitions: what survives is the maximal suffix of parts
  // that all have text (all have buttons), joined.

  /** Where the longest suffix of parts that all have text begins. */
  function TextRunStart(parts: seq<Sequent>): (j: nat)
    ensures j <= |parts|
    ensures forall k :: j <= k < |parts| ==> HasText(parts[k])
    ensures j > 0 ==> !HasText(parts[j - 1])
  {
    if parts == [] || !HasText(parts[|parts| - 1]) then |parts|
    else TextRunStart(parts[..|parts| - 1])
  }

  /** Where the longest suffix of parts that all have buttons begins. */
  function ButtonRunStart(parts: seq<Sequent>): (j: nat)
    ensures j <= |parts|
    ensures forall k :: j <= k < |parts| ==> parts[k].buttons.Some?
    ensures j > 0 ==> parts[j - 1].buttons.None?
  {
    if parts == [] || parts[|parts| - 1].buttons.None? then |parts|
    else ButtonRunStart(parts[..|parts| - 1])
  }

  /** The texts of the parts that have text, front to back. */
  function Texts(parts: seq<Sequent>): (ts: seq<string>)
    ensures |ts| <= |parts|
  {
    if parts == [] then []
    else (if HasText(parts[0]) then [parts[0].text.value] else []) + Texts(parts[1..])
  }

  /** The strings joined front to back with the separator between them. */
  function Join(ts: seq<string>): string
  {
    if ts == [] then ""
    else if |ts| == 1 then ts[0]
    else ts[0] + Separator + Join(ts[1..])
  }

  /** All the buttons of the parts, front to back. */
  function AllButtons(parts: seq<Sequent>): seq<Button>
  {
    if parts == [] then []
    else (if parts[0].buttons.Some? then parts[0].buttons.value else []) + AllButtons(parts[1..])
  }

  lemma {:induction false} TextsSnoc(parts: seq<Sequent>, p: Sequent)
    ensures Texts(parts + [p]) == Texts(parts) + (if HasText(p) then [p.text.value] else [])
    decreases |parts|
  {
    if parts == [] {
      assert parts + [p] == [p] && [p][1..] == [];
    } else {
      assert (parts + [p])[0] == parts[0] && (parts + [p])[1..] == parts[1..] + [p];
      TextsSnoc(parts[1..], p);
      var head := if HasText(parts[0]) then [parts[0].text.value] else [];
      assert Texts(parts + [p]) == head + Texts(parts[1..] + [p]);
      assert Texts(parts) == head + Texts(parts[1..]);
    }
  }

  lemma {:induction false} JoinSnoc(ts: seq<string>, t: string)
    requires ts != []
    ensures Join(ts + [t]) == Join(ts) + Separator + t
    decreases |ts|
  {
    if |ts| > 1 {
      assert (ts + [t])[1..] == ts[1..] + [t];
      JoinSnoc(ts[1..], t);
    } else {
      assert (ts + [t])[1..] == [t];
    }
  }

  lemma {:induction false} AllButtonsSnoc(parts: seq<Sequent>, p: Sequent)
    ensures AllButtons(parts + [p]) == AllButtons(parts) + (if p.buttons.Some? then p.buttons.value else [])
    decreases |parts|
  {
    if parts == [] {
      assert parts + [p] == [p] && [p][1..] == [];
    } else {
      assert (parts + [p])[0] == parts[0] && (parts + [p])[1..] == parts[1..] + [p];
      AllButtonsSnoc(parts[1..], p);
      var head := if parts[0].buttons.Some? then parts[0].buttons.value else [];
      assert AllButtons(parts + [p]) == head + AllButtons(parts[1..] + [p]);
      assert AllButtons(parts) == head + AllButtons(parts[1..]);
    }
  }

  /** The merged text is present exactly when the last part has text, and
      then it is the texts of the maximal suffix of parts with text,
      joined with blank lines; all text before a part without text is
      lost. */
  lemma {:induction false} MergeText(parts: seq<Sequent>)
    ensures Merge(parts).text
         == if TextRunStart(parts) == |parts| then None
            else Some(Join(Texts(parts[TextRunStart(parts)..])))
    decreases |parts|
  {
    if parts != [] && HasText(parts[|parts| - 1]) {
      var init, last := parts[..|parts| - 1], parts[|parts| - 1];
      var j := TextRunStart(init);
      MergeText(init);
      assert parts[j..] == init[j..] + [last];
      TextsSnoc(init[j..], last);
      if j < |init| {
        assert HasText(init[j]);
        assert Texts(init[j..]) != [] by {
          assert init[j..][0] == init[j];
        }
        JoinSnoc(Texts(init[j..]), last.text.value);
      } else {
        assert init[j..] == [];
      }
    }
  }

  /** The merged buttons are present exactly when the last part has
      buttons, and then they are the buttons of the maximal suffix of
      parts with buttons, in order. */
  lemma {:induction false} MergeButtons(parts: seq<Sequent>)
    ensures Merge(parts).buttons
         == if ButtonRunStart(parts) == |parts| then None
            else Some(AllButtons(parts[ButtonRunStart(parts)..]))
    decreases |parts|
  {
    if parts != [] && parts[|parts| - 1].buttons.Some? {
      var init, last := parts[..|parts| - 1], parts[|parts| - 1];
      var j := ButtonRunStart(init);
      MergeButtons(init);
      assert parts[j..] == init[j..] + [last];
      AllButtonsSnoc(init[j..], last);
      if j == |init| {
        assert init[j..] == [];
      }
    }
  }

  /** What the last part decides: text survives only if it has text, and
      is its text alone when the fold so far had none; buttons survive
      only if it has buttons, after the buttons gathered so far. */
  lemma MergeLast(init: seq<Sequent>, last: Sequent)
    ensures Merge(init + [last]).text.Some? <==> HasText(last)
    ensures HasText(last) && !HasText(Merge(init)) ==> Merge(init + [last]).text == last.text
    ensures HasText(last) && HasText(Merge(init))
        ==> Merge(init + [last]).text == Some(Merge(init).text.value + Separator + last.text.value)
    ensures Merge(init + [last]).buttons.Some? <==> last.buttons.Some?
    ensures last.buttons.Some? && Merge(init).buttons.None? ==> Merge(init + [last]).buttons == last.buttons
    ensures last.buttons.Some? && Merge(init).buttons.Some?
        ==> Merge(init + [last]).buttons == Some(Merge(init).buttons.value + last.buttons.value)
  {
    assert (init + [last])[..|init|] == init;
    if last.buttons.Some? {
      assert [] + last.buttons.value == last.buttons.value;
    }
  }
}
