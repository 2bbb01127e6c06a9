/** Migration 7 of migrations.js: give every story group the ids of its
    stories as `children` and an `isExpanded` flag, order the groups with
    intro groups first, and give every project that has stories the ids
    of its groups in that order. The records read and the updates written
    are values here; the collections themselves are not modelled. */
module StoryGroupMigration {
  import opened Optional

  datatype Story = Story(id: string, storyGroupId: string, projectId: string)

  datatype StoryGroup = StoryGroup(id: string, projectId: string, introStory: bool)

  /** The `$set` of lines 207-215 for one group: `children` is `None` where
      the lookup `children[sg._id]` finds nothing. */
  datatype GroupUpdate = GroupUpdate(id: string, isExpanded: bool, children: Option<seq<string>>)

  /** The `$set` of line 222 for one project. */
  datatype ProjectUpdate = ProjectUpdate(id: string, storyGroups: seq<string>)

  // ---------------------------------------------------------------------
  // Lines 198-202: the `children` dictionary and the `projectIds` set

  /** The ids of the stories of group `g`, in story order. */
  function ChildrenOf(stories: seq<Story>, g: string): (ids: seq<string>)
    ensures |ids| <= |stories|
  {
    if stories == [] then []
    else
      var last := stories[|stories| - 1];
      ChildrenOf(stories[..|stories| - 1], g) + (if last.storyGroupId == g then [last.id] else [])
  }

  /** The project ids of the stories, each once, in the order they first
      appear: the iteration order of a JavaScript `Set`. */
  function ProjectsInOrder(stories: seq<Story>): (ids: seq<string>)
    ensures |ids| <= |stories|
  {
    if stories == [] then []
    else
      var ids := ProjectsInOrder(stories[..|stories| - 1]);
      var p := stories[|stories| - 1].projectId;
      if p in ids then ids else ids + [p]
  }

  /** The `forEach` of lines 198-202: append each story's id to its group's
      entry, creating the entry on first use, and add its project id to the
      set. */
  method CollectChildren(stories: seq<Story>) returns (children: map<string, seq<string>>, projectIds: seq<string>)
    ensures forall g :: g in children <==> ChildrenOf(stories, g) != []
    ensures forall g :: g in children ==> children[g] == ChildrenOf(stories, g)
    ensures projectIds == ProjectsInOrder(stories)
  {
    children, projectIds := map[], [];
    var n := 0;
    while n < |stories|
      invariant n <= |stories|
      invariant forall g :: g in children <==> ChildrenOf(stories[..n], g) != []
      invariant forall g :: g in children ==> children[g] == ChildrenOf(stories[..n], g)
      invariant projectIds == ProjectsInOrder(stories[..n])
    {
      var s := stories[n];
      assert stories[..n + 1][..n] == stories[..n];
      var previous := if s.storyGroupId in children then children[s.storyGroupId] else [];
      children := children[s.storyGroupId := previous + [s.id]];
      if s.projectId !in projectIds {
        projectIds := projectIds + [s.projectId];
      }
      n := n + 1;
    }
    assert stories[..n] == stories;
  }

  /** Children lists respect concatenation: each group's list keeps the
      order of the stories. */
  lemma {:induction false} ChildrenOfAppend(a: seq<Story>, b: seq<Story>, g: string)
    ensures ChildrenOf(a + b, g) == ChildrenOf(a, g) + ChildrenOf(b, g)
    decreases |b|
  {
    if b == [] {
      assert a + b == a;
    } else {
      var init, last := b[..|b| - 1], b[|b| - 1];
      assert (a + b)[..|a + b| - 1] == a + init && (a + b)[|a + b| - 1] == last;
      ChildrenOfAppend(a, init, g);
      var tail := if last.storyGroupId == g then [last.id] else [];
      assert ChildrenOf(a + b, g) == ChildrenOf(a + init, g) + tail;
      assert ChildrenOf(b, g) == ChildrenOf(init, g) + tail;
    }
  }

  /** A story's id is listed under its own group, and a group gets an entry
      exactly when some story belongs to it. */
  lemma {:induction false} ChildrenOfMembers(stories: seq<Story>, g: string, id: string)
    ensures id in ChildrenOf(stories, g)
        <==> exists i :: 0 <= i < |stories| && stories[i].storyGroupId == g && stories[i].id == id
    decreases |stories|
  {
    if stories != [] {
      var init := stories[..|stories| - 1];
      ChildrenOfMembers(init, g, id);
      if id in ChildrenOf(stories, g) && id !in ChildrenOf(init, g) {
        assert stories[|stories| - 1].storyGroupId == g && stories[|stories| - 1].id == id;
      }
      if exists i :: 0 <= i < |stories| && stories[i].storyGroupId == g && stories[i].id == id {
        var i :| 0 <= i < |stories| && stories[i].storyGroupId == g && stories[i].id == id;
        if i < |init| {
          assert init[i] == stories[i];
        }
      }
    }
  }

  /** Each project id is collected once, and exactly the projects that have
      a story are collected. */
  lemma {:induction false} ProjectsInOrderMembers(stories: seq<Story>, p: string)
    ensures p in ProjectsInOrder(stories) <==> exists i :: 0 <= i < |stories| && stories[i].projectId == p
    ensures forall a, b :: 0 <= a < b < |ProjectsInOrder(stories)|
              ==> ProjectsInOrder(stories)[a] != ProjectsInOrder(stories)[b]
    decreases |stories|
  {
    if stories != [] {
      var init := stories[..|stories| - 1];
      var last := stories[|stories| - 1];
      ProjectsInOrderMembers(init, p);
      ProjectsInOrderMembers(init, last.projectId);
      if exists i :: 0 <= i < |stories| && stories[i].projectId == p {
        var i :| 0 <= i < |stories| && stories[i].projectId == p;
        if i < |init| {
          assert init[i] == stories[i];
        }
      }
    }
  }

  // ---------------------------------------------------------------------
  // Line 205: `storyGroups.sort((a, b) => b.introStory - a.introStory)`

  /** The comparator of line 205, booleans counting as 0 and 1. */
  function Compare(a: StoryGroup, b: StoryGroup): (r: int)
    ensures -1 <= r <= 1
    ensures r > 0 <==> b.introStory && !a.introStory
    ensures r < 0 <==> a.introStory && !b.introStory
  {
    (if b.introStory then 1 else 0) - (if a.introStory then 1 else 0)
  }

  /** No pair of groups is out of order for the comparator. */
  predicate Ordered(gs: seq<StoryGroup>)
  {
    forall i, j {:trigger Compare(gs[i], gs[j])} :: 0 <= i < j < |gs| ==> Compare(gs[i], gs[j]) <= 0
  }

  /** The intro groups, in their order. */
  function Intros(gs: seq<StoryGroup>): (r: seq<StoryGroup>)
    ensures forall k :: 0 <= k < |r| ==> r[k].introStory
  {
    if gs == [] then []
    else (if gs[0].introStory then [gs[0]] else []) + Intros(gs[1..])
  }

  /** The other groups, in their order. */
  function Others(gs: seq<StoryGroup>): (r: seq<StoryGroup>)
    ensures forall k :: 0 <= k < |r| ==> !r[k].introStory
  {
    if gs == [] then []
    else (if gs[0].introStory then [] else [gs[0]]) + Others(gs[1..])
  }

  /** The result of the stable sort of line 205: intro groups first, each
      part in the original order. */
  function IntroFirst(gs: seq<StoryGroup>): (r: seq<StoryGroup>)
    ensures |r| == |gs|
  {
    SplitLength(gs);
    Intros(gs) + Others(gs)
  }

  lemma {:induction false} SplitLength(gs: seq<StoryGroup>)
    ensures |Intros(gs)| + |Others(gs)| == |gs|
    decreases |gs|
  {
    if gs != [] {
      SplitLength(gs[1..]);
    }
  }

  lemma {:induction false} IntrosAppend(a: seq<StoryGroup>, b: seq<StoryGroup>)
    ensures Intros(a + b) == Intros(a) + Intros(b)
    decreases |a|
  {
    if a == [] {
      assert a + b == b;
    } else {
      assert (a + b)[0] == a[0] && (a + b)[1..] == a[1..] + b;
      IntrosAppend(a[1..], b);
      var head := if a[0].introStory then [a[0]] else [];
      assert Intros(a + b) == head + Intros(a[1..] + b);
      assert Intros(a) == head + Intros(a[1..]);
    }
  }

  lemma {:induction false} OthersAppend(a: seq<StoryGroup>, b: seq<StoryGroup>)
    ensures Others(a + b) == Others(a) + Others(b)
    decreases |a|
  {
    if a == [] {
      assert a + b == b;
    } else {
      assert (a + b)[0] == a[0] && (a + b)[1..] == a[1..] + b;
      OthersAppend(a[1..], b);
      var head := if a[0].introStory then [] else [a[0]];
      assert Others(a + b) == head + Others(a[1..] + b);
      assert Others(a) == head + Others(a[1..]);
    }
  }

  lemma {:induction false} IntrosOfIntros(gs: seq<StoryGroup>)
    requires forall k :: 0 <= k < |gs| ==> gs[k].introStory
    ensures Intros(gs) == gs && Others(gs) == []
    decreases |gs|
  {
    if gs != [] {
      IntrosOfIntros(gs[1..]);
    }
  }

  lemma {:induction false} IntrosOfOthers(gs: seq<StoryGroup>)
    requires forall k :: 0 <= k < |gs| ==> !gs[k].introStory
    ensures Intros(gs) == [] && Others(gs) == gs
    decreases |gs|
  {
    if gs != [] {
      IntrosOfOthers(gs[1..]);
    }
  }

  /** The sorted list is in the comparator's order. */
  lemma IntroFirstOrdered(gs: seq<StoryGroup>)
    ensures Ordered(IntroFirst(gs))
  {
  }

  /** Sorting loses and adds no group. */
  lemma {:induction false} IntroFirstPermutation(gs: seq<StoryGroup>)
    ensures multiset(IntroFirst(gs)) == multiset(gs)
    decreases |gs|
  {
    if gs != [] {
      IntroFirstPermutation(gs[1..]);
      assert gs == [gs[0]] + gs[1..];
    }
  }

  /** Sorting is stable: intro groups keep their relative order, and so do
      the others. */
  lemma IntroFirstStable(gs: seq<StoryGroup>)
    ensures Intros(IntroFirst(gs)) == Intros(gs)
    ensures Others(IntroFirst(gs)) == Others(gs)
  {
    IntrosAppend(Intros(gs), Others(gs));
    OthersAppend(Intros(gs), Others(gs));
    IntrosOfIntros(Intros(gs));
    IntrosOfOthers(Others(gs));
  }

  /** A list in the comparator's order is its intro groups followed by the
      others. */
  lemma {:induction false} OrderedSplits(r: seq<StoryGroup>)
    requires Ordered(r)
    ensures r == Intros(r) + Others(r)
    decreases |r|
  {
    if r != [] {
      if r[0].introStory {
        assert Ordered(r[1..]) by {
          forall i, j | 0 <= i < j < |r[1..]|
            ensures Compare(r[1..][i], r[1..][j]) <= 0
          {
            assert Compare(r[i + 1], r[j + 1]) <= 0;
          }
        }
        OrderedSplits(r[1..]);
      } else {
        forall k | 0 <= k < |r|
          ensures !r[k].introStory
        {
          if k > 0 {
            assert Compare(r[0], r[k]) <= 0;
          }
        }
        IntrosOfOthers(r);
      }
    }
  }

  /** Any ordering of the groups that is in the comparator's order and
      stable is the one modelled: a stable sort has exactly one result. */
  lemma StableSortIsIntroFirst(gs: seq<StoryGroup>, r: seq<StoryGroup>)
    requires Ordered(r)
    requires Intros(r) == Intros(gs) && Others(r) == Others(gs)
    ensures r == IntroFirst(gs)
  {
    OrderedSplits(r);
  }

  // ---------------------------------------------------------------------
  // Lines 207-222: the updates written

  /** The ids of the groups of project `p`, in the order of `gs`. */
  function GroupIdsOf(gs: seq<StoryGroup>, p: string): (ids: seq<string>)
    ensures |ids| <= |gs|
  {
    if gs == [] then []
    else (if gs[0].projectId == p then [gs[0].id] else []) + GroupIdsOf(gs[1..], p)
  }

  lemma {:induction false} GroupIdsOfAppend(a: seq<StoryGroup>, b: seq<StoryGroup>, p: string)
    ensures GroupIdsOf(a + b, p) == GroupIdsOf(a, p) + GroupIdsOf(b, p)
    decreases |a|
  {
    if a == [] {
      assert a + b == b;
    } else {
      assert (a + b)[0] == a[0] && (a + b)[1..] == a[1..] + b;
      GroupIdsOfAppend(a[1..], b, p);
      var head := if a[0].projectId == p then [a[0].id] else [];
      assert GroupIdsOf(a + b, p) == head + GroupIdsOf(a[1..] + b, p);
      assert GroupIdsOf(a, p) == head + GroupIdsOf(a[1..], p);
    }
  }

  /** The update of lines 207-215 for group `g`. */
  function UpdateOf(stories: seq<Story>, g: StoryGroup): (r: GroupUpdate)
    ensures r.id == g.id
    ensures r.children.Some? ==> r.children.value != []
  {
    var ids := ChildrenOf(stories, g.id);
    GroupUpdate(g.id, g.introStory, if ids == [] then None else Some(ids))
  }

  /** Migration 7 as a whole: one update per group, in sorted order, and
      one per project that has stories, in the order its first story
      appears, listing the project's groups in sorted order. */
  method MigrateStoryGroups(stories: seq<Story>, storyGroups: seq<StoryGroup>)
    returns (groupUpdates: seq<GroupUpdate>, projectUpdates: seq<ProjectUpdate>)
    ensures |groupUpdates| == |storyGroups|
    ensures forall i :: 0 <= i < |groupUpdates| ==> groupUpdates[i] == UpdateOf(stories, IntroFirst(storyGroups)[i])
    ensures |projectUpdates| == |ProjectsInOrder(stories)|
    ensures forall i :: 0 <= i < |projectUpdates|
              ==> projectUpdates[i]
                  == ProjectUpdate(ProjectsInOrder(stories)[i], GroupIdsOf(IntroFirst(storyGroups), ProjectsInOrder(stories)[i]))
  {
    var children, projectIds := CollectChildren(stories);
    var sorted := IntroFirst(storyGroups);
    groupUpdates := seq(|sorted|, i requires 0 <= i < |sorted| =>
      GroupUpdate(sorted[i].id, sorted[i].introStory,
                  if sorted[i].id in children then Some(children[sorted[i].id]) else None));
    projectUpdates := seq(|projectIds|, i requires 0 <= i < |projectIds| =>
      ProjectUpdate(projectIds[i], GroupIdsOf(sorted, projectIds[i])));
  }

  /** Each group is expanded exactly when it is an intro group, and its
      children are the ids of its stories in story order, absent when it
      has none. */
  lemma GroupUpdateMeaning(stories: seq<Story>, g: StoryGroup, id: string)
    ensures UpdateOf(stories, g).isExpanded <==> g.introStory
    ensures UpdateOf(stories, g).children.Some?
        <==> exists i :: 0 <= i < |stories| && stories[i].storyGroupId == g.id
    ensures UpdateOf(stories, g).children.Some?
        ==> (id in UpdateOf(stories, g).children.value
             <==> exists i :: 0 <= i < |stories| && stories[i].storyGroupId == g.id && stories[i].id == id)
  {
    ChildrenOfMembers(stories, g.id, id);
    var ids := ChildrenOf(stories, g.id);
    if exists i :: 0 <= i < |stories| && stories[i].storyGroupId == g.id {
      var i :| 0 <= i < |stories| && stories[i].storyGroupId == g.id;
      ChildrenOfMembers(stories, g.id, stories[i].id);
    }
    if ids != [] {
      ChildrenOfMembers(stories, g.id, ids[0]);
    }
  }

  /** A project's group list holds its intro groups first and then its
      other groups, each in the order they were read. */
  lemma ProjectGroupsIntroFirst(gs: seq<StoryGroup>, p: string)
    ensures GroupIdsOf(IntroFirst(gs), p) == GroupIdsOf(Intros(gs), p) + GroupIdsOf(Others(gs), p)
  {
    GroupIdsOfAppend(Intros(gs), Others(gs), p);
  }
}
