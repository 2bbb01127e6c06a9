/** Migration 3 of migrations.js, `migrateResponses`: each project's
    `templates` are sorted by key, stripped of `match` and `followUp`,
    stamped with the project's id, and deduplicated by key — of several
    templates sharing a key, the first with the fewest `utter_` occurrences
    in its values is kept. The records the migration would upsert into the
    bot-responses collection are the result; the collections themselves are
    not modelled. */
module ResponseMigration {
  import opened Optional
  import opened KeyOrder
  import opened UtterCount
  import opened Templates

  /** A project as the migration reads it: its `_id` and its `templates`,
      `None` for any falsy value (missing, `null`, ...), which line 66 skips. */
  datatype Project = Project(id: string, templates: Option<seq<Template>>)

  /** What the migration does with one project: nothing, or upsert these
      bot responses and unset the project's `templates`. */
  datatype Outcome = Skipped | Migrated(responses: seq<Template>)

  /** What the migration does over all projects: the bot responses it
      upserts and the ids of the projects whose `templates` it unsets. */
  datatype Writes = Writes(responses: seq<Template>, cleared: seq<string>)

  /** The test of line 76: the key at `i` equals its successor's or its
      predecessor's. */
  predicate IsDup(ts: seq<Template>, i: nat)
    requires i < |ts|
  {
    (i < |ts| - 1 && ts[i].key == ts[i + 1].key) || (i > 0 && ts[i].key == ts[i - 1].key)
  }

  /** The two lists the `forEach` of lines 70-81 builds. */
  datatype Split = Split(singles: seq<Template>, duplicates: seq<Template>)

  /** The `forEach` of lines 70-81 after its first `n` steps: the pair
      (`newTemplates`, `duplicates`). */
  function Partition(ts: seq<Template>, n: nat): (r: Split)
    requires n <= |ts|
    ensures |r.singles| + |r.duplicates| == n
  {
    if n == 0 then Split([], [])
    else
      var prev := Partition(ts, n - 1);
      if IsDup(ts, n - 1) then prev.(duplicates := prev.duplicates + [ts[n - 1]])
      else prev.(singles := prev.singles + [ts[n - 1]])
  }

  /** The inner `while` of lines 84-87 once it has counted `m` entries from
      position `i`: it goes on while the next entry shares `d[i]`'s key. */
  function RunFrom(d: seq<Template>, i: nat, m: nat): (n: nat)
    requires i < |d| && 1 <= m <= |d| - i
    ensures m <= n <= |d| - i
    decreases |d| - i - m
  {
    if i + m < |d| && d[i].key == d[i + m].key then RunFrom(d, i, m + 1) else m
  }

  /** The length of the run of duplicates that starts at position `i`. */
  function RunLength(d: seq<Template>, i: nat): (n: nat)
    requires i < |d|
    ensures 1 <= n <= |d| - i
  {
    RunFrom(d, i, 1)
  }

  lemma {:induction false} RunFromMaximal(d: seq<Template>, i: nat, m: nat)
    requires i < |d| && 1 <= m <= |d| - i
    requires forall j :: i <= j < i + m ==> d[j].key == d[i].key
    ensures forall j :: i <= j < i + RunFrom(d, i, m) ==> d[j].key == d[i].key
    ensures i + RunFrom(d, i, m) == |d| || d[i + RunFrom(d, i, m)].key != d[i].key
    decreases |d| - i - m
  {
    if i + m < |d| && d[i].key == d[i + m].key {
      RunFromMaximal(d, i, m + 1);
    }
  }

  /** The run from `i` is the maximal block there that shares `d[i]`'s key. */
  lemma RunLengthMaximal(d: seq<Template>, i: nat)
    requires i < |d|
    ensures forall j :: i <= j < i + RunLength(d, i) ==> d[j].key == d[i].key
    ensures i + RunLength(d, i) == |d| || d[i + RunLength(d, i)].key != d[i].key
  {
    RunFromMaximal(d, i, 1);
  }

  /** `Math.min(...utters)`. */
  function MinOf(u: seq<nat>): nat
    requires |u| > 0
  {
    if |u| == 1 then u[0]
    else
      var rest := MinOf(u[1..]);
      if u[0] <= rest then u[0] else rest
  }

  /** `MinOf` is an element of `u` and no element is smaller. */
  lemma {:induction false} MinOfIsMinimum(u: seq<nat>)
    requires |u| > 0
    ensures MinOf(u) in u
    ensures forall x :: x in u ==> MinOf(u) <= x
    decreases |u|
  {
    if |u| > 1 {
      MinOfIsMinimum(u[1..]);
      assert u == [u[0]] + u[1..];
    }
  }

  /** `u.indexOf(x)`: the first position of `x`, or -1 when it is absent. */
  function IndexOf(u: seq<nat>, x: nat): (r: int)
    ensures -1 <= r < |u|
  {
    if u == [] then -1
    else if u[0] == x then 0
    else
      var r := IndexOf(u[1..], x);
      if r == -1 then -1 else r + 1
  }

  /** `IndexOf` finds the first occurrence, and -1 exactly when there is none. */
  lemma {:induction false} IndexOfIsFirst(u: seq<nat>, x: nat)
    ensures IndexOf(u, x) == -1 <==> x !in u
    ensures IndexOf(u, x) >= 0 ==>
              u[IndexOf(u, x)] == x && forall j :: 0 <= j < IndexOf(u, x) ==> u[j] != x
    decreases |u|
  {
    if u != [] && u[0] != x {
      IndexOfIsFirst(u[1..], x);
      assert u == [u[0]] + u[1..];
    }
  }

  /** Line 91: the number of `utter_` matches of each template of a run. */
  function Utters(run: seq<Template>): (u: seq<nat>)
    ensures |u| == |run|
  {
    if run == [] then [] else [CountUtterMatches(run[0].values)] + Utters(run[1..])
  }

  /** Each count belongs to the template at the same position. */
  lemma {:induction false} UttersAt(run: seq<Template>)
    ensures forall i :: 0 <= i < |run| ==> Utters(run)[i] == CountUtterMatches(run[i].values)
    decreases |run|
  {
    if run != [] {
      UttersAt(run[1..]);
      assert forall i :: 1 <= i < |run| ==> run[i] == run[1..][i - 1];
    }
  }

  /** Line 93, `utters.indexOf(Math.min(...utters))`: a position of the run. */
  function KeptIndex(run: seq<Template>): (j: nat)
    requires |run| > 0
    ensures j < |run|
  {
    var u := Utters(run);
    MinOfIsMinimum(u);
    IndexOfIsFirst(u, MinOf(u));
    IndexOf(u, MinOf(u))
  }

  /** The kept position is the first whose `utter_` count is the run's
      minimum. */
  lemma KeptIndexIsFirstMinimum(run: seq<Template>)
    requires |run| > 0
    ensures forall l :: 0 <= l < |run| ==> Utters(run)[KeptIndex(run)] <= Utters(run)[l]
    ensures forall l :: 0 <= l < KeptIndex(run) ==> Utters(run)[l] > Utters(run)[KeptIndex(run)]
  {
    var u := Utters(run);
    MinOfIsMinimum(u);
    IndexOfIsFirst(u, MinOf(u));
    assert forall l :: 0 <= l < |run| ==> u[l] in u;
  }

  /** The template a run keeps, found by one scan from the back: the
      front template wins unless a later one has strictly fewer `utter_`
      occurrences, so ties go to the earliest. */
  function Kept(run: seq<Template>): Template
    requires |run| > 0
    decreases |run|
  {
    if |run| == 1 then run[0]
    else
      var rest := Kept(run[1..]);
      if CountUtterMatches(run[0].values) <= CountUtterMatches(rest.values) then run[0] else rest
  }

  /** Lines 91-95 keep exactly the template the scan finds: the first
      position holding the smallest count. */
  lemma {:induction false} KeptIsFirstFewest(run: seq<Template>)
    requires |run| > 0
    ensures run[KeptIndex(run)] == Kept(run)
    ensures CountUtterMatches(Kept(run).values) == MinOf(Utters(run))
    decreases |run|
  {
    var u := Utters(run);
    assert u[0] == CountUtterMatches(run[0].values);
    if |run| > 1 {
      var r := run[1..];
      var v := Utters(r);
      assert u[1..] == v;
      KeptIsFirstFewest(r);
      var m := MinOf(v);
      MinOfIsMinimum(v);
      IndexOfIsFirst(v, m);
      if u[0] <= m {
        assert MinOf(u) == u[0];
        assert IndexOf(u, u[0]) == 0;
      } else {
        assert MinOf(u) == m;
        assert IndexOf(u, m) == IndexOf(v, m) + 1;
        assert run[IndexOf(v, m) + 1] == r[IndexOf(v, m)];
      }
    }
  }

  /** The `while` loop of lines 83-97 from position `i` on, having
      collected `kept` so far: it appends the kept template of each run. */
  function KeepRunsFrom(d: seq<Template>, i: nat, kept: seq<Template>): seq<Template>
    requires i <= |d|
    decreases |d| - i
  {
    if i == |d| then kept
    else
      var n := RunLength(d, i);
      KeepRunsFrom(d, i + n, kept + [Kept(d[i..i + n])])
  }

  /** The templates the loop of lines 83-97 appends for the duplicates `d`. */
  function KeepRuns(d: seq<Template>): seq<Template>
  {
    KeepRunsFrom(d, 0, [])
  }

  /** The `newTemplates` of one project whose sorted, stamped templates are
      `ts`: the singletons in key order, then the kept template of each
      run of duplicates. */
  function Deduplicate(ts: seq<Template>): seq<Template>
  {
    var singles, dups := Partition(ts, |ts|).singles, Partition(ts, |ts|).duplicates;
    singles + KeepRuns(dups)
  }

  /** What the migration writes for project `p`. */
  function ProjectOutcome(p: Project): (r: Outcome)
    ensures r.Skipped? <==> p.templates.None?
  {
    match p.templates
    case None => Skipped
    case Some(templates) => Migrated(Deduplicate(StampAll(SortByKey(templates), p.id)))
  }

  /** The `forEach` of lines 70-81: stamp each template of the key-sorted
      list in place and send it to `duplicates` when its key equals a
      neighbour's, to `newTemplates` otherwise. */
  method SplitDuplicates(sorted: seq<Template>, projectId: string)
    returns (templates: seq<Template>, newTemplates: seq<Template>, duplicates: seq<Template>)
    ensures templates == StampAll(sorted, projectId)
    ensures Split(newTemplates, duplicates) == Partition(templates, |templates|)
  {
    templates := sorted;
    StampedNone(sorted, projectId);
    newTemplates, duplicates := [], [];
    var index := 0;
    while index < |templates|
      invariant 0 <= index <= |templates| == |sorted|
      invariant templates == StampedUpTo(sorted, projectId, index)
      invariant Split(newTemplates, duplicates) == Partition(StampAll(sorted, projectId), index)
    {
      StampStep(sorted, projectId, index);
      var t := Stamp(templates[index], projectId);
      templates := templates[index := t];
      if (index < |templates| - 1 && t.key == templates[index + 1].key)
        || (index > 0 && t.key == templates[index - 1].key)
      {
        duplicates := duplicates + [t];
      } else {
        newTemplates := newTemplates + [t];
      }
      index := index + 1;
    }
    StampedAll(sorted, projectId);
  }

  /** The key-sorted list after the `forEach` has stamped its first `n`
      templates in place. */
  function StampedUpTo(s: seq<Template>, projectId: string, n: nat): (r: seq<Template>)
    ensures |r| == |s|
  {
    seq(|s|, j requires 0 <= j < |s| => if j < n then Stamp(s[j], projectId) else s[j])
  }

  lemma StampedNone(s: seq<Template>, projectId: string)
    ensures StampedUpTo(s, projectId, 0) == s
  {
  }

  lemma StampedAll(s: seq<Template>, projectId: string)
    ensures StampedUpTo(s, projectId, |s|) == StampAll(s, projectId)
  {
  }

  /** One step of the `forEach`: the template at `n` is still unstamped,
      stamping it gives the next state, and since stamping changes no key
      the test of line 76 reads the keys of the original list. */
  lemma StampStep(s: seq<Template>, projectId: string, n: nat)
    requires n < |s|
    ensures StampedUpTo(s, projectId, n)[n] == s[n]
    ensures StampedUpTo(s, projectId, n)[n := Stamp(s[n], projectId)]
         == StampedUpTo(s, projectId, n + 1)
    ensures StampAll(s, projectId)[n] == Stamp(s[n], projectId)
    ensures n + 1 < |s| ==> StampedUpTo(s, projectId, n + 1)[n + 1].key == s[n + 1].key
    ensures n > 0 ==> StampedUpTo(s, projectId, n + 1)[n - 1].key == s[n - 1].key
    ensures IsDup(StampAll(s, projectId), n) == IsDup(s, n)
  {
  }

  /** The inner `while` of lines 84-87: how many entries from position `i`
      on share the key of `duplicates[i]`. */
  method MeasureRun(duplicates: seq<Template>, i: nat) returns (numberOfOccurence: nat)
    requires i < |duplicates|
    ensures numberOfOccurence == RunLength(duplicates, i)
  {
    numberOfOccurence := 1;
    while i + numberOfOccurence < |duplicates|
          && duplicates[i].key == duplicates[i + numberOfOccurence].key
      invariant 1 <= numberOfOccurence <= |duplicates| - i
      invariant RunFrom(duplicates, i, numberOfOccurence) == RunLength(duplicates, i)
    {
      numberOfOccurence := numberOfOccurence + 1;
    }
  }

  /** The `while` loop of lines 83-97: walk `duplicates` run by run and
      keep, from each run, the first template with the fewest `utter_`
      matches. Every run holds a single key (the check of line 89). */
  method KeepFewestUtters(duplicates: seq<Template>) returns (kept: seq<Template>)
    ensures kept == KeepRuns(duplicates)
  {
    kept := [];
    var i := 0;
    while i < |duplicates|
      invariant 0 <= i <= |duplicates|
      invariant KeepRunsFrom(duplicates, i, kept) == KeepRuns(duplicates)
    {
      i, kept := KeepNextRun(duplicates, i, kept);
    }
  }

  /** One turn of the loop of lines 83-97: measure the run at `i`, push
      the template it keeps and step past it. */
  method KeepNextRun(duplicates: seq<Template>, i: nat, kept: seq<Template>)
    returns (next: nat, kept': seq<Template>)
    requires i < |duplicates|
    ensures next == i + RunLength(duplicates, i)
    ensures KeepRunsFrom(duplicates, next, kept') == KeepRunsFrom(duplicates, i, kept)
  {
    var numberOfOccurence := MeasureRun(duplicates, i);
    var x := KeepOfRun(duplicates, i, numberOfOccurence);
    KeepRunsStep(duplicates, i, kept, numberOfOccurence, x);
    kept' := kept + [x];
    next := i + numberOfOccurence;
  }

  /** Lines 88-95 for the run of `n` templates at position `i`: it holds a
      single key (the check of line 89), and the template kept is the one
      at the first position of the smallest `utter_` count. */
  method KeepOfRun(duplicates: seq<Template>, i: nat, n: nat) returns (x: Template)
    requires i < |duplicates| && n == RunLength(duplicates, i)
    ensures x == Kept(duplicates[i..i + n])
  {
    var duplicateValues := duplicates[i..i + n];
    RunHasOneKey(duplicates, i);
    assert |KeySet(duplicateValues)| == 1;
    var keep := KeptIndex(duplicateValues);
    KeptIsFirstFewest(duplicateValues);
    x := duplicateValues[keep];
  }

  /** The check of line 89: a run holds a single key. */
  lemma RunHasOneKey(d: seq<Template>, i: nat)
    requires i < |d|
    ensures |KeySet(d[i..i + RunLength(d, i)])| == 1
  {
    var run := d[i..i + RunLength(d, i)];
    RunKeys(d, i, run);
    KeySetOfOneKey(run, d[i].key);
  }

  /** One turn of the loop of lines 83-97 consumes the run at `i` and
      appends the template it keeps. */
  lemma KeepRunsStep(d: seq<Template>, i: nat, kept: seq<Template>, n: nat, x: Template)
    requires i < |d| && n == RunLength(d, i) && x == Kept(d[i..i + n])
    ensures KeepRunsFrom(d, i + n, kept + [x]) == KeepRunsFrom(d, i, kept)
  {
  }

  /** Every template of the run carries the key of its first. */
  lemma RunKeys(d: seq<Template>, i: nat, run: seq<Template>)
    requires i < |d| && run == d[i..i + RunLength(d, i)]
    ensures forall j :: 0 <= j < |run| ==> run[j].key == d[i].key
  {
    RunLengthMaximal(d, i);
  }

  /** Lines 66-110 for one project `p`. */
  method MigrateProjectResponses(p: Project) returns (outcome: Outcome)
    ensures outcome == ProjectOutcome(p)
    ensures p.templates.None? <==> outcome.Skipped?
    ensures outcome.Migrated? ==>
              forall t :: t in outcome.responses ==>
                t.projectId == Some(p.id) && t.matchCriteria == None && t.followUp == None
    ensures outcome.Migrated? ==>
              forall k :: FilterKey(outcome.responses, k)
                == if CountKey(p.templates.value, k) > 0
                   then [Stamp(Kept(FilterKey(p.templates.value, k)), p.id)]
                   else []
  {
    if p.templates.None? {
      return Skipped;
    }
    var sorted := SortByKey(p.templates.value);
    var templates, newTemplates, duplicates := SplitDuplicates(sorted, p.id);
    var kept := KeepFewestUtters(duplicates);
    newTemplates := newTemplates + kept;
    assert newTemplates == Deduplicate(templates);
    SortedTemplatesAreDeduplicated(sorted, p.id);
    assert |newTemplates| == |templates| - (|duplicates| - |KeySet(duplicates)|);
    assert forall a, b :: 0 <= a < b < |newTemplates| ==> newTemplates[a] != newTemplates[b];
    outcome := Migrated(newTemplates);
    forall k ensures FilterKey(newTemplates, k)
                 == if CountKey(p.templates.value, k) > 0
                    then [Stamp(Kept(FilterKey(p.templates.value, k)), p.id)]
                    else []
    {
      MigrationKeepsOnePerKey(p.templates.value, p.id, k);
    }
    forall t | t in newTemplates
      ensures t.projectId == Some(p.id) && t.matchCriteria == None && t.followUp == None
    {
      DeduplicateStamped(templates, p.id, t);
    }
  }

  /** Lines 63-111 over every project, in order. */
  function AllOutcomes(projects: seq<Project>): (r: Writes)
    ensures |r.cleared| <= |projects|
  {
    if projects == [] then Writes([], [])
    else
      var before := AllOutcomes(projects[..|projects| - 1]);
      var p := projects[|projects| - 1];
      match ProjectOutcome(p)
      case Skipped => before
      case Migrated(written) => Writes(before.responses + written, before.cleared + [p.id])
  }

  /** Exactly the projects that have `templates` get them unset. */
  lemma {:induction false} ClearedAreTheMigrated(projects: seq<Project>, id: string)
    ensures id in AllOutcomes(projects).cleared
        <==> exists p :: p in projects && p.templates.Some? && p.id == id
  {
    if projects != [] {
      var init := projects[..|projects| - 1];
      var p := projects[|projects| - 1];
      assert projects == init + [p];
      ClearedAreTheMigrated(init, id);
      if id in AllOutcomes(projects).cleared {
        if id !in AllOutcomes(init).cleared {
          assert p in projects && p.templates.Some? && p.id == id;
        }
      }
    }
  }

  /** The loop over the projects of lines 63-111. */
  method MigrateResponses(projects: seq<Project>) returns (responses: seq<Template>, cleared: seq<string>)
    ensures Writes(responses, cleared) == AllOutcomes(projects)
    ensures forall id :: id in cleared <==> exists p :: p in projects && p.templates.Some? && p.id == id
  {
    responses, cleared := [], [];
    var n := 0;
    while n < |projects|
      invariant 0 <= n <= |projects|
      invariant Writes(responses, cleared) == AllOutcomes(projects[..n])
    {
      var outcome := MigrateProjectResponses(projects[n]);
      assert projects[..n + 1][..n] == projects[..n];
      if outcome.Migrated? {
        responses := responses + outcome.responses;
        cleared := cleared + [projects[n].id];
      }
      n := n + 1;
    }
    assert projects[..n] == projects;
    forall id
      ensures id in cleared <==> exists p :: p in projects && p.templates.Some? && p.id == id
    {
      ClearedAreTheMigrated(projects, id);
    }
  }

  // ---------------------------------------------------------------------
  // Properties of the partition into singletons and duplicates

  /** In key-sorted templates, line 76 sends a template to `duplicates`
      exactly when its key occurs at least twice. */
  lemma {:induction false} DupIffRepeated(ts: seq<Template>, i: nat)
    requires Sorted(ts) && i < |ts|
    ensures IsDup(ts, i) <==> CountKey(ts, ts[i].key) >= 2
  {
    if i < |ts| - 1 && ts[i].key == ts[i + 1].key {
      TwoPositionsCountTwice(ts, i, i + 1);
    } else if i > 0 && ts[i].key == ts[i - 1].key {
      TwoPositionsCountTwice(ts, i - 1, i);
    } else if CountKey(ts, ts[i].key) >= 2 {
      var j := CountTwiceOtherPosition(ts, i);
      if j > i + 1 {
        KeyLeAntisymmetric(ts[i].key, ts[i + 1].key);
      } else if j + 1 < i {
        KeyLeAntisymmetric(ts[i - 1].key, ts[i].key);
      }
      assert false;
    }
  }

  /** `duplicates` is a subsequence of the sorted templates, so it is sorted. */
  lemma {:induction false} PartitionSorted(ts: seq<Template>, n: nat)
    requires Sorted(ts) && n <= |ts|
    ensures Sorted(Partition(ts, n).duplicates)
  {
    if n > 0 {
      PartitionSorted(ts, n - 1);
      var dups := Partition(ts, n - 1).duplicates;
      PartitionMembers(ts, n - 1);
      if IsDup(ts, n - 1) {
        var d := dups + [ts[n - 1]];
        forall i, j | 0 <= i < j < |d| ensures KeyLe(d[i].key, d[j].key) {
          if j == |d| - 1 {
            assert d[i] in ts[..n - 1];
            var m :| 0 <= m < n - 1 && ts[m] == d[i];
          } else {
            assert d[i] == dups[i] && d[j] == dups[j];
          }
        }
      }
    }
  }

  /** One step of the `forEach` sends `ts[n - 1]` to exactly one side. */
  lemma PartitionStepByKey(ts: seq<Template>, n: nat, k: string)
    requires 0 < n <= |ts|
    ensures FilterKey(Partition(ts, n).singles, k)
         == FilterKey(Partition(ts, n - 1).singles, k)
            + (if !IsDup(ts, n - 1) && ts[n - 1].key == k then [ts[n - 1]] else [])
    ensures FilterKey(Partition(ts, n).duplicates, k)
         == FilterKey(Partition(ts, n - 1).duplicates, k)
            + (if IsDup(ts, n - 1) && ts[n - 1].key == k then [ts[n - 1]] else [])
  {
    var prev := Partition(ts, n - 1);
    FilterKeySnoc(prev.singles, ts[n - 1], k);
    FilterKeySnoc(prev.duplicates, ts[n - 1], k);
  }

  /** Picking key `k` from the first `n` templates, one more at a time. */
  lemma PrefixByKey(ts: seq<Template>, n: nat, k: string)
    requires 0 < n <= |ts|
    ensures FilterKey(ts[..n], k)
         == FilterKey(ts[..n - 1], k) + (if ts[n - 1].key == k then [ts[n - 1]] else [])
  {
    TakeOneMore(ts, n);
    FilterKeySnoc(ts[..n - 1], ts[n - 1], k);
  }

  /** In key-sorted templates every decision of line 76 is "the key occurs
      at least twice". */
  predicate DupMeansRepeated(ts: seq<Template>)
  {
    forall i {:trigger IsDup(ts, i)} :: 0 <= i < |ts| ==> (IsDup(ts, i) <==> CountKey(ts, ts[i].key) >= 2)
  }

  lemma SortedDupMeansRepeated(ts: seq<Template>)
    requires Sorted(ts)
    ensures DupMeansRepeated(ts)
  {
    forall i | 0 <= i < |ts| ensures IsDup(ts, i) <==> CountKey(ts, ts[i].key) >= 2 {
      DupIffRepeated(ts, i);
    }
  }

  /** A key that occurs twice or more has no singleton... */
  lemma {:induction false} SinglesOfRepeated(ts: seq<Template>, n: nat, k: string)
    requires DupMeansRepeated(ts) && n <= |ts| && CountKey(ts, k) >= 2
    ensures FilterKey(Partition(ts, n).singles, k) == []
  {
    if n > 0 {
      SinglesOfRepeated(ts, n - 1, k);
      if ts[n - 1].key == k {
        assert IsDup(ts, n - 1);
      } else {
        PartitionStepByKey(ts, n, k);
      }
    }
  }

  /** ... and a key that occurs once is its own singleton. */
  lemma {:induction false} SinglesOfUnique(ts: seq<Template>, n: nat, k: string)
    requires DupMeansRepeated(ts) && n <= |ts| && CountKey(ts, k) < 2
    ensures FilterKey(Partition(ts, n).singles, k) == FilterKey(ts[..n], k)
  {
    if n > 0 {
      SinglesOfUnique(ts, n - 1, k);
      PrefixByKey(ts, n, k);
      if ts[n - 1].key == k {
        assert !IsDup(ts, n - 1);
        FilterKeySnoc(Partition(ts, n - 1).singles, ts[n - 1], k);
      } else {
        PartitionStepByKey(ts, n, k);
      }
    }
  }

  /** A key that occurs twice or more sends all its templates to the
      duplicates... */
  lemma {:induction false} DuplicatesOfRepeated(ts: seq<Template>, n: nat, k: string)
    requires DupMeansRepeated(ts) && n <= |ts| && CountKey(ts, k) >= 2
    ensures FilterKey(Partition(ts, n).duplicates, k) == FilterKey(ts[..n], k)
  {
    if n > 0 {
      DuplicatesOfRepeated(ts, n - 1, k);
      PrefixByKey(ts, n, k);
      if ts[n - 1].key == k {
        assert IsDup(ts, n - 1);
        FilterKeySnoc(Partition(ts, n - 1).duplicates, ts[n - 1], k);
      } else {
        PartitionStepByKey(ts, n, k);
      }
    }
  }

  /** ... and a key that occurs once sends none. */
  lemma {:induction false} DuplicatesOfUnique(ts: seq<Template>, n: nat, k: string)
    requires DupMeansRepeated(ts) && n <= |ts| && CountKey(ts, k) < 2
    ensures FilterKey(Partition(ts, n).duplicates, k) == []
  {
    if n > 0 {
      DuplicatesOfUnique(ts, n - 1, k);
      if ts[n - 1].key == k {
        assert !IsDup(ts, n - 1);
      } else {
        PartitionStepByKey(ts, n, k);
      }
    }
  }

  /** For each key of sorted templates, the singletons hold all of its
      templates when it occurs once and none otherwise; the duplicates hold
      all of them when it occurs twice or more and none otherwise. */
  lemma PartitionByKey(ts: seq<Template>, k: string)
    requires Sorted(ts)
    ensures FilterKey(Partition(ts, |ts|).singles, k) == if CountKey(ts, k) >= 2 then [] else FilterKey(ts, k)
    ensures FilterKey(Partition(ts, |ts|).duplicates, k) == if CountKey(ts, k) >= 2 then FilterKey(ts, k) else []
  {
    SortedDupMeansRepeated(ts);
    assert ts[..|ts|] == ts;
    if CountKey(ts, k) >= 2 {
      SinglesOfRepeated(ts, |ts|, k);
      DuplicatesOfRepeated(ts, |ts|, k);
    } else {
      SinglesOfUnique(ts, |ts|, k);
      DuplicatesOfUnique(ts, |ts|, k);
    }
  }

  // ---------------------------------------------------------------------
  // Properties of the runs of duplicates

  /** In a sorted list a run holds every template of its key, and none of
      any other key `k`. */
  lemma RunHoldsWholeKey(d: seq<Template>, i: nat, k: string)
    requires Sorted(d) && i < |d|
    ensures CountKey(d[i + RunLength(d, i)..], d[i].key) == 0
    ensures FilterKey(d[i..i + RunLength(d, i)], d[i].key) == d[i..i + RunLength(d, i)]
    ensures k != d[i].key ==> FilterKey(d[i..i + RunLength(d, i)], k) == []
  {
    var n := RunLength(d, i);
    var run := d[i..i + n];
    RunLengthMaximal(d, i);
    if CountKey(d[i + n..], d[i].key) > 0 {
      var m := SomePosition(d[i + n..], d[i].key);
      assert d[i + n..][m] == d[i + n + m];
      if m > 0 {
        assert KeyLe(d[i + n].key, d[i + n + m].key);
        assert KeyLe(d[i].key, d[i + n].key);
        KeyLeAntisymmetric(d[i].key, d[i + n].key);
      }
      assert false;
    }
    RunKeys(d, i, run);
    FilterKeyOfOneKey(run, d[i].key, k);
  }

  /** Picking key `k` from position `i` on: the whole run when `k` is the
      run's key, otherwise whatever follows the run. */
  lemma FilterKeyFromRun(d: seq<Template>, i: nat, k: string)
    requires Sorted(d) && i < |d|
    ensures FilterKey(d[i..], k)
         == if k == d[i].key then d[i..i + RunLength(d, i)]
            else FilterKey(d[i + RunLength(d, i)..], k)
    ensures k == d[i].key ==> FilterKey(d[i + RunLength(d, i)..], k) == []
  {
    var n := RunLength(d, i);
    var run, rest := d[i..i + n], d[i + n..];
    RunHoldsWholeKey(d, i, k);
    SplitAt(d, i, i + n);
    FilterKeyAppend(run, rest, k);
    if k == d[i].key {
      assert FilterKey(rest, k) == [];
    }
  }

  lemma SplitAt(d: seq<Template>, i: nat, j: nat)
    requires i <= j <= |d|
    ensures d[i..] == d[i..j] + d[j..]
  {
  }

  /** The template kept from a run is one of `d` and carries the run's
      key. */
  lemma KeptKey(d: seq<Template>, i: nat)
    requires i < |d|
    ensures Kept(d[i..i + RunLength(d, i)]) in d
    ensures Kept(d[i..i + RunLength(d, i)]).key == d[i].key
  {
    var run := d[i..i + RunLength(d, i)];
    RunLengthMaximal(d, i);
    KeptIsFirstFewest(run);
    assert Kept(run) == d[i + KeptIndex(run)];
  }

  /** The template kept from the run at `i` carries the run's key. */
  lemma KeptRunKey(d: seq<Template>, i: nat)
    requires i < |d|
    ensures Kept(d[i..i + RunLength(d, i)]).key == d[i].key
  {
    KeptKey(d, i);
  }

  /** Templates that all carry key `k` are all kept by a filter on `k` and
      all dropped by a filter on any other key. */
  lemma {:induction false} FilterKeyOfOneKey(s: seq<Template>, k: string, other: string)
    requires forall j :: 0 <= j < |s| ==> s[j].key == k
    ensures FilterKey(s, k) == s
    ensures other != k ==> FilterKey(s, other) == []
    decreases |s|
  {
    if s != [] {
      forall j | 0 <= j < |s| - 1 ensures s[1..][j].key == k {
        assert s[1..][j] == s[j + 1];
      }
      FilterKeyOfOneKey(s[1..], k, other);
      assert s == [s[0]] + s[1..];
    }
  }

  /** Templates that all carry key `k` use the one key `k`. */
  lemma KeySetOfOneKey(s: seq<Template>, k: string)
    requires |s| > 0 && forall j :: 0 <= j < |s| ==> s[j].key == k
    ensures KeySet(s) == {k}
  {
    assert s[0] in s;
    forall x | x in s ensures x.key == k {
      var j :| 0 <= j < |s| && s[j] == x;
    }
  }

  /** From sorted duplicates, the loop keeps exactly one template per key:
      the kept template of all the duplicates of that key. */
  lemma {:induction false} KeepRunsByKey(d: seq<Template>, i: nat, kept: seq<Template>, k: string)
    requires Sorted(d) && i <= |d|
    ensures FilterKey(KeepRunsFrom(d, i, kept), k)
         == FilterKey(kept, k)
            + (if CountKey(d[i..], k) > 0 then [Kept(FilterKey(d[i..], k))] else [])
    decreases |d| - i
  {
    if i < |d| {
      var n := RunLength(d, i);
      var x := Kept(d[i..i + n]);
      assert KeepRunsFrom(d, i, kept) == KeepRunsFrom(d, i + n, kept + [x]);
      KeepRunsByKey(d, i + n, kept + [x], k);
      KeptRunKey(d, i);
      FilterKeySnoc(kept, x, k);
      FilterKeyFromRun(d, i, k);
    } else {
      assert d[i..] == [];
    }
  }

  /** The loop appends one template per distinct key of the duplicates. */
  lemma {:induction false} KeepRunsLength(d: seq<Template>, i: nat, kept: seq<Template>)
    requires Sorted(d) && i <= |d|
    ensures |KeepRunsFrom(d, i, kept)| == |kept| + |KeySet(d[i..])|
    decreases |d| - i
  {
    if i < |d| {
      var n := RunLength(d, i);
      KeepRunsLength(d, i + n, kept + [Kept(d[i..i + n])]);
      KeySetAfterRun(d, i);
    } else {
      assert KeySet(d[i..]) == {};
    }
  }

  /** The keys from position `i` of sorted `d` are the run's key, which no
      later run carries, and the keys after the run. */
  lemma KeySetAfterRun(d: seq<Template>, i: nat)
    requires Sorted(d) && i < |d|
    ensures |KeySet(d[i..])| == 1 + |KeySet(d[i + RunLength(d, i)..])|
  {
    var n, key := RunLength(d, i), d[i].key;
    var run, rest := d[i..i + n], d[i + n..];
    RunHoldsWholeKey(d, i, key);
    RunKeys(d, i, run);
    assert d[i..] == run + rest;
    KeySetSplit(run, rest, key);
  }

  /** A block of templates of one key, followed by templates without that
      key, has one key more than the templates that follow. */
  lemma KeySetSplit(run: seq<Template>, rest: seq<Template>, key: string)
    requires |run| > 0 && forall j :: 0 <= j < |run| ==> run[j].key == key
    requires CountKey(rest, key) == 0
    ensures |KeySet(run + rest)| == 1 + |KeySet(rest)|
  {
    KeySetOfOneKey(run, key);
    KeySetCount(rest, key);
    KeySetAppend(run, rest);
    CardinalityOfNewKey(key, KeySet(rest));
  }

  lemma TakeOneMore(ts: seq<Template>, n: nat)
    requires 0 < n <= |ts|
    ensures ts[..n] == ts[..n - 1] + [ts[n - 1]]
  {
  }

  lemma CardinalityOfNewKey(k: string, s: set<string>)
    requires k !in s
    ensures |{k} + s| == 1 + |s|
  {
    assert {k} + s == s + {k};
  }

  lemma KeySetAppend(a: seq<Template>, b: seq<Template>)
    ensures KeySet(a + b) == KeySet(a) + KeySet(b)
  {
    forall x | x in a + b ensures x in a || x in b { }
  }

  /** The kept template of a single template is that template. */
  lemma KeptOfOne(t: Template)
    ensures Kept([t]) == t
  {
  }

  /** Stamping leaves the values alone, so it picks the same template. */
  lemma {:induction false} KeptStampAll(run: seq<Template>, projectId: string)
    requires |run| > 0
    ensures Kept(StampAll(run, projectId)) == Stamp(Kept(run), projectId)
    decreases |run|
  {
    if |run| > 1 {
      KeptStampAll(run[1..], projectId);
      assert StampAll(run, projectId)[1..] == StampAll(run[1..], projectId);
    }
  }

  // ---------------------------------------------------------------------
  // The checks of lines 89, 102 and 103, and the migration as a whole

  /** Deduplicating sorted templates leaves, for each key, exactly the kept
      template of that key's templates. */
  lemma DeduplicateByKey(ts: seq<Template>, k: string)
    requires Sorted(ts)
    ensures FilterKey(Deduplicate(ts), k)
         == if CountKey(ts, k) > 0 then [Kept(FilterKey(ts, k))] else []
  {
    var parts := Partition(ts, |ts|);
    var singles, dups := parts.singles, parts.duplicates;
    assert Deduplicate(ts) == singles + KeepRuns(dups);
    PartitionByKey(ts, k);
    PartitionSorted(ts, |ts|);
    KeepRunsByKey(dups, 0, [], k);
    assert dups[0..] == dups;
    FilterKeyAppend(singles, KeepRuns(dups), k);
    if CountKey(ts, k) == 1 {
      var x := FilterKey(ts, k)[0];
      assert FilterKey(ts, k) == [x];
      KeptOfOne(x);
    }
  }

  /** The integrity checks of lines 102 and 103 hold for every sorted list
      of templates, so the `assert`s never throw. */
  lemma SortedTemplatesAreDeduplicatedCounts(ts: seq<Template>)
    requires Sorted(ts)
    ensures var dups := Partition(ts, |ts|).duplicates;
            |Deduplicate(ts)| == |ts| - (|dups| - |KeySet(dups)|)
    ensures forall a, b :: 0 <= a < b < |Deduplicate(ts)| ==>
              Deduplicate(ts)[a].key != Deduplicate(ts)[b].key
  {
    var singles, dups := Partition(ts, |ts|).singles, Partition(ts, |ts|).duplicates;
    PartitionSorted(ts, |ts|);
    KeepRunsLength(dups, 0, []);
    assert dups[0..] == dups;
    var out := Deduplicate(ts);
    forall a, b | 0 <= a < b < |out| ensures out[a].key != out[b].key {
      if out[a].key == out[b].key {
        TwoPositionsCountTwice(out, a, b);
        DeduplicateByKey(ts, out[a].key);
        assert false;
      }
    }
  }

  /** Lines 102 and 103 for the stamped templates of a project. */
  lemma SortedTemplatesAreDeduplicated(sorted: seq<Template>, projectId: string)
    requires Sorted(sorted)
    ensures var ts := StampAll(sorted, projectId);
            var dups := Partition(ts, |ts|).duplicates;
            && |Deduplicate(ts)| == |ts| - (|dups| - |KeySet(dups)|)
            && forall a, b :: 0 <= a < b < |Deduplicate(ts)| ==>
                 Deduplicate(ts)[a] != Deduplicate(ts)[b]
  {
    var ts := StampAll(sorted, projectId);
    assert Sorted(ts);
    SortedTemplatesAreDeduplicatedCounts(ts);
  }

  /** Every template the migration writes was stamped. */
  lemma DeduplicateStamped(ts: seq<Template>, projectId: string, t: Template)
    requires forall x :: x in ts ==> x.projectId == Some(projectId) && x.matchCriteria == None && x.followUp == None
    requires t in Deduplicate(ts)
    ensures t.projectId == Some(projectId) && t.matchCriteria == None && t.followUp == None
  {
    var singles, dups := Partition(ts, |ts|).singles, Partition(ts, |ts|).duplicates;
    KeepRunsMembers(dups, 0, []);
    PartitionMembers(ts, |ts|);
    assert ts[..|ts|] == ts;
  }

  /** Both parts hold only templates among the first `n`. */
  lemma {:induction false} PartitionMembers(ts: seq<Template>, n: nat)
    requires n <= |ts|
    ensures forall x :: x in Partition(ts, n).singles ==> x in ts[..n]
    ensures forall x :: x in Partition(ts, n).duplicates ==> x in ts[..n]
  {
    if n > 0 {
      PartitionMembers(ts, n - 1);
      assert ts[..n] == ts[..n - 1] + [ts[n - 1]];
    }
  }

  /** Each of the first `n` templates lands in exactly one of the two
      lists, and nothing else does. */
  lemma {:induction false} PartitionMultiset(ts: seq<Template>, n: nat)
    requires n <= |ts|
    ensures multiset(Partition(ts, n).singles) + multiset(Partition(ts, n).duplicates) == multiset(ts[..n])
  {
    if n > 0 {
      PartitionMultiset(ts, n - 1);
      assert ts[..n] == ts[..n - 1] + [ts[n - 1]];
    }
  }

  /** The loop keeps only templates of the duplicates. */
  lemma {:induction false} KeepRunsMembers(d: seq<Template>, i: nat, kept: seq<Template>)
    requires i <= |d|
    ensures forall x :: x in KeepRunsFrom(d, i, kept) ==> x in kept || x in d
    decreases |d| - i
  {
    if i < |d| {
      var n := RunLength(d, i);
      var run := d[i..i + n];
      KeepRunsMembers(d, i + n, kept + [Kept(run)]);
      KeptKey(d, i);
    }
  }

  /** End to end: for each key of the project's templates the migration
      writes exactly one bot response, namely the first template of that
      key, in the project's own order, with the fewest `utter_`
      occurrences, stamped; and it writes no response for any other key. */
  lemma MigrationKeepsOnePerKey(templates: seq<Template>, projectId: string, k: string)
    ensures FilterKey(Deduplicate(StampAll(SortByKey(templates), projectId)), k)
         == if CountKey(templates, k) > 0
            then [Stamp(Kept(FilterKey(templates, k)), projectId)]
            else []
  {
    var sorted := SortByKey(templates);
    var ts := StampAll(sorted, projectId);
    assert Sorted(ts);
    DeduplicateByKey(ts, k);
    FilterKeyStampAll(sorted, projectId, k);
    assert FilterKey(sorted, k) == FilterKey(templates, k);
    KeySetCount(ts, k);
    KeySetCount(templates, k);
    if CountKey(templates, k) > 0 {
      KeptStampAll(FilterKey(templates, k), projectId);
    }
  }
}
