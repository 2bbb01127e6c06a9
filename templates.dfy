/** Bot-response templates as a project stores them before the
    bot-responses migration, and the list operations that migration applies
    to them: lodash's stable `sortBy(templates, 'key')`, picking out the
    templates of one key, and the in-place stamping of each template. */
module Templates {
  import opened Optional
  import opened KeyOrder

  /** One entry of `project.templates`. `values` is the JSON serialisation
      of the template's values (`None` when `JSON.stringify` yields
      `undefined`); `matchCriteria` is the template's `match` field. */
  datatype Template = Template(
    key: string,
    values: Option<string>,
    matchCriteria: Option<string>,
    followUp: Option<string>,
    projectId: Option<string>)

  /** What lines 72-74 do to each template: delete `match` and `followUp`
      and set `projectId` to the project's `_id`. */
  function Stamp(t: Template, projectId: string): (r: Template)
    ensures r.key == t.key && r.values == t.values
    ensures r.matchCriteria.None? && r.followUp.None? && r.projectId == Some(projectId)
  {
    t.(matchCriteria := None, followUp := None, projectId := Some(projectId))
  }

  /** Every template of `s`, stamped with `projectId`, in the same order. */
  function StampAll(s: seq<Template>, projectId: string): (r: seq<Template>)
    ensures |r| == |s|
    ensures forall i :: 0 <= i < |s| ==> r[i] == Stamp(s[i], projectId)
  {
    if s == [] then [] else [Stamp(s[0], projectId)] + StampAll(s[1..], projectId)
  }

  /** The templates of `s` whose key is `k`, in the order of `s`. */
  function FilterKey(s: seq<Template>, k: string): (r: seq<Template>)
    ensures |r| <= |s|
  {
    if s == [] then []
    else (if s[0].key == k then [s[0]] else []) + FilterKey(s[1..], k)
  }

  /** The filter picks only templates of `s` with key `k`. */
  lemma {:induction false} FilterKeyMembers(s: seq<Template>, k: string)
    ensures forall x :: x in FilterKey(s, k) ==> x in s && x.key == k
    decreases |s|
  {
    if s != [] {
      FilterKeyMembers(s[1..], k);
    }
  }

  /** How many templates of `s` have key `k`. */
  function CountKey(s: seq<Template>, k: string): nat
  {
    |FilterKey(s, k)|
  }

  /** The set of keys used in `s`. */
  function KeySet(s: seq<Template>): set<string>
  {
    set x | x in s :: x.key
  }

  predicate Sorted(s: seq<Template>)
  {
    forall i, j {:trigger KeyLe(s[i].key, s[j].key)} :: 0 <= i < j < |s| ==> KeyLe(s[i].key, s[j].key)
  }

  lemma {:induction false} FilterKeyAppend(a: seq<Template>, b: seq<Template>, k: string)
    ensures FilterKey(a + b, k) == FilterKey(a, k) + FilterKey(b, k)
    decreases |a|
  {
    if a == [] {
      assert a + b == b;
    } else {
      assert (a + b)[0] == a[0] && (a + b)[1..] == a[1..] + b;
      FilterKeyAppend(a[1..], b, k);
      var head := if a[0].key == k then [a[0]] else [];
      assert FilterKey(a + b, k) == head + FilterKey(a[1..] + b, k);
      assert FilterKey(a, k) == head + FilterKey(a[1..], k);
    }
  }

  lemma FilterKeySnoc(s: seq<Template>, x: Template, k: string)
    ensures FilterKey(s + [x], k) == FilterKey(s, k) + (if x.key == k then [x] else [])
  {
    assert [x][1..] == [];
    assert FilterKey([x], k) == if x.key == k then [x] else [];
    FilterKeyAppend(s, [x], k);
  }

  /** A key is used in `s` exactly when some template of `s` carries it. */
  lemma {:induction false} KeySetCount(s: seq<Template>, k: string)
    ensures k in KeySet(s) <==> CountKey(s, k) > 0
    decreases |s|
  {
    if s != [] {
      KeySetCount(s[1..], k);
      assert KeySet(s) == {s[0].key} + KeySet(s[1..]) by {
        forall x | x in s ensures x == s[0] || x in s[1..] {
          if x != s[0] {
            var i :| 0 <= i < |s| && s[i] == x;
            assert s[1..][i - 1] == x;
          }
        }
      }
    }
  }

  /** Stamping changes no key, so it commutes with picking out one key. */
  lemma {:induction false} FilterKeyStampAll(s: seq<Template>, projectId: string, k: string)
    ensures FilterKey(StampAll(s, projectId), k) == StampAll(FilterKey(s, k), projectId)
    decreases |s|
  {
    if s != [] {
      FilterKeyStampAll(s[1..], projectId, k);
      assert StampAll(s, projectId)[1..] == StampAll(s[1..], projectId);
      if s[0].key == k {
        assert FilterKey(s, k) == [s[0]] + FilterKey(s[1..], k);
      } else {
        assert FilterKey(s, k) == FilterKey(s[1..], k);
      }
    }
  }

  /** Two templates of `s` at different positions with the same key make
      that key occur at least twice. */
  lemma {:induction false} TwoPositionsCountTwice(s: seq<Template>, i: nat, j: nat)
    requires i < j < |s| && s[i].key == s[j].key
    ensures CountKey(s, s[i].key) >= 2
    decreases |s|
  {
    var k := s[i].key;
    if i == 0 {
      OnePositionCountsOnce(s[1..], j - 1);
    } else {
      TwoPositionsCountTwice(s[1..], i - 1, j - 1);
    }
  }

  lemma {:induction false} OnePositionCountsOnce(s: seq<Template>, j: nat)
    requires j < |s|
    ensures CountKey(s, s[j].key) >= 1
    decreases |s|
  {
    if j > 0 {
      OnePositionCountsOnce(s[1..], j - 1);
    }
  }

  /** A key at position `i` that occurs twice also occurs at another position. */
  lemma {:induction false} CountTwiceOtherPosition(s: seq<Template>, i: nat) returns (j: nat)
    requires i < |s| && CountKey(s, s[i].key) >= 2
    ensures j < |s| && j != i && s[j].key == s[i].key
    decreases |s|
  {
    var k := s[i].key;
    if i == 0 {
      assert CountKey(s[1..], k) >= 1;
      var m := SomePosition(s[1..], k);
      j := m + 1;
    } else if s[0].key == k {
      j := 0;
    } else {
      var m := CountTwiceOtherPosition(s[1..], i - 1);
      j := m + 1;
    }
  }

  /** A key that occurs in `s` occurs at some position. */
  lemma {:induction false} SomePosition(s: seq<Template>, k: string) returns (j: nat)
    requires CountKey(s, k) >= 1
    ensures j < |s| && s[j].key == k
    decreases |s|
  {
    if s[0].key == k {
      j := 0;
    } else {
      var m := SomePosition(s[1..], k);
      j := m + 1;
    }
  }

  /** Inserting `x` in front of the first template whose key is not smaller
      than its own: the step of a stable insertion sort. */
  function Insert(x: Template, r: seq<Template>): (res: seq<Template>)
    ensures multiset(res) == multiset(r) + multiset{x}
    ensures forall y :: y in res ==> y == x || y in r
  {
    if r == [] || KeyLe(x.key, r[0].key) then [x] + r
    else
      assert r == [r[0]] + r[1..];
      [r[0]] + Insert(x, r[1..])
  }

  lemma {:induction false} InsertSorted(x: Template, r: seq<Template>)
    requires Sorted(r)
    ensures Sorted(Insert(x, r))
    decreases |r|
  {
    var res := Insert(x, r);
    if r == [] {
    } else if KeyLe(x.key, r[0].key) {
      forall i, j | 0 <= i < j < |res| ensures KeyLe(res[i].key, res[j].key) {
        if i == 0 && j > 1 {
          KeyLeTransitive(x.key, r[0].key, r[j - 1].key);
        }
      }
    } else {
      KeyLeTotal(x.key, r[0].key);
      InsertSorted(x, r[1..]);
      var rest := Insert(x, r[1..]);
      forall i, j | 0 <= i < j < |res| ensures KeyLe(res[i].key, res[j].key) {
        if i == 0 {
          assert res[j] == rest[j - 1];
          assert rest[j - 1] in rest;
          if res[j] != x {
            var m :| 0 <= m < |r[1..]| && r[1..][m] == res[j];
            assert r[m + 1] == res[j];
          }
        } else {
          assert res[i] == rest[i - 1] && res[j] == rest[j - 1];
        }
      }
    }
  }

  lemma FilterKeyCons(x: Template, s: seq<Template>, k: string)
    ensures FilterKey([x] + s, k) == (if x.key == k then [x] else []) + FilterKey(s, k)
  {
    assert ([x] + s)[0] == x && ([x] + s)[1..] == s;
  }

  /** Insertion keeps the relative order of templates of one key, `x`
      going in front of those sharing its key. */
  lemma {:induction false} InsertStable(x: Template, r: seq<Template>, k: string)
    ensures FilterKey(Insert(x, r), k)
         == (if x.key == k then [x] else []) + FilterKey(r, k)
    decreases |r|
  {
    if r == [] || KeyLe(x.key, r[0].key) {
      FilterKeyCons(x, r, k);
    } else {
      KeyLeReflexive(x.key);
      var rest := Insert(x, r[1..]);
      assert Insert(x, r) == [r[0]] + rest;
      assert r == [r[0]] + r[1..];
      InsertStable(x, r[1..], k);
      FilterKeyCons(r[0], rest, k);
      FilterKeyCons(r[0], r[1..], k);
      var tail := FilterKey(r[1..], k);
      if r[0].key == k {
        assert x.key != k;
        assert FilterKey(rest, k) == tail;
        assert FilterKey(r, k) == [r[0]] + tail;
        assert FilterKey(Insert(x, r), k) == [r[0]] + tail;
      } else if x.key == k {
        assert FilterKey(r, k) == tail;
        assert FilterKey(Insert(x, r), k) == [x] + tail;
      } else {
        assert FilterKey(r, k) == tail;
        assert FilterKey(Insert(x, r), k) == tail;
      }
    }
  }

  /** lodash's `sortBy(templates, 'key')`: ordered by key, a permutation of
      its input, and stable — the templates of each key keep their order. */
  function SortByKey(s: seq<Template>): (r: seq<Template>)
    ensures Sorted(r)
    ensures multiset(r) == multiset(s)
    ensures forall k :: FilterKey(r, k) == FilterKey(s, k)
  {
    if s == [] then []
    else
      var rest := SortByKey(s[1..]);
      InsertSorted(s[0], rest);
      assert s == [s[0]] + s[1..];
      forall k ensures FilterKey(Insert(s[0], rest), k) == FilterKey(s, k) {
        InsertStable(s[0], rest, k);
      }
      Insert(s[0], rest)
  }
}
