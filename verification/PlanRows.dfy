/** What the rows of an accepted plan hold, column by column, and which plans are accepted, both told on the
    planner's own words (sidecar/internal/copilot/planner.go, normalisePlan). */
module PlanRows {
  import opened Text
  import opened DepGraph
  import opened Planner
  import opened PlanTheorems

  // ---- the columns of a row ----

  /** p is one of the first m texts, up to padding. */
  ghost predicate IsMentioned(paths: seq<string>, m: nat, p: string)
    requires m <= |paths|
  {
    exists i :: 0 <= i < m && TrimSpace(paths[i]) == p
  }

  /** u is mentioned at a point where v is not yet. */
  ghost predicate IsMentionedFirst(paths: seq<string>, n: nat, u: string, v: string)
    requires n <= |paths|
  {
    exists m :: 0 <= m <= n && IsMentioned(paths, m, u) && !IsMentioned(paths, m, v)
  }

  /** The texts among the first n that are not blank, without their padding, once each, by first mention. */
  ghost predicate AreFirstMentions(kept: seq<string>, paths: seq<string>, n: nat)
    requires n <= |paths|
  {
    && NoDuplicates(kept)
    && (forall p :: p in kept <==> p != "" && IsMentioned(paths, n, p))
    && forall u, v :: 0 <= u < v < |kept| ==> IsMentionedFirst(paths, n, kept[u], kept[v])
  }

  /** id was minted for the subtask of that name. */
  ghost predicate IsIdOf(raw: seq<RawSubtask>, ulids: seq<Id>, name: string, id: Id)
    requires |ulids| == |raw|
  {
    exists j :: 0 <= j < |raw| && TrimSpace(raw[j].id) == name && ulids[j] == id
  }

  /** at lists the places among the first n that are not blank, in order. */
  ghost predicate ArePlaces(at: seq<nat>, names: seq<string>, n: nat)
    requires n <= |names|
  {
    && (forall u :: 0 <= u < |at| ==> at[u] < n && TrimSpace(names[at[u]]) != "")
    && (forall u, v :: 0 <= u < v < |at| ==> at[u] < at[v])
    && forall i :: 0 <= i < n && TrimSpace(names[i]) != "" ==> i in at
  }

  /** deps are the ids of the subtasks named at those places. */
  ghost predicate AreNamedAt(deps: seq<Id>, names: seq<string>, at: seq<nat>, raw: seq<RawSubtask>, ulids: seq<Id>)
    requires |ulids| == |raw|
  {
    && |deps| == |at|
    && forall u :: 0 <= u < |at| ==> at[u] < |names| && IsIdOf(raw, ulids, TrimSpace(names[at[u]]), deps[u])
  }

  ghost predicate AreDependencies(deps: seq<Id>, names: seq<string>, raw: seq<RawSubtask>, ulids: seq<Id>)
    requires |ulids| == |raw|
  {
    exists at :: ArePlaces(at, names, |names|) && AreNamedAt(deps, names, at, raw, ulids)
  }

  /** row is the subtask raw[k] asks for: the words of the planner without their padding, each in its own column. */
  ghost predicate IsRowOf(row: Subtask, parent: string, raw: seq<RawSubtask>, ulids: seq<Id>, k: nat)
    requires |ulids| == |raw| && k < |raw|
  {
    && row.id == ulids[k] && row.taskId == parent && row.status == Pending
    && row.title == TrimSpace(raw[k].title)
    && row.agentRole == TrimSpace(raw[k].agentRole)
    && row.prompt == TrimSpace(raw[k].prompt)
    && AreFirstMentions(row.writePaths, raw[k].writePaths, |raw[k].writePaths|)
    && AreDependencies(row.dependsOn, raw[k].dependsOn, raw, ulids)
  }

  ghost predicate HasRowFor(subs: seq<Subtask>, parent: string, raw: seq<RawSubtask>, ulids: seq<Id>, k: nat)
    requires |ulids| == |raw| && k < |raw|
  {
    exists i :: 0 <= i < |subs| && IsRowOf(subs[i], parent, raw, ulids, k)
  }

  // ---- write paths ----

  lemma MentionedOneMore(paths: seq<string>, n: nat, p: string)
    requires n < |paths|
    ensures IsMentioned(paths, n + 1, p) <==> IsMentioned(paths, n, p) || TrimSpace(paths[n]) == p
  {
    hide TrimSpace;
    if TrimSpace(paths[n]) == p {
      assert IsMentioned(paths, n + 1, p);
    }
  }

  lemma {:induction false} CleanPathsAreFirstMentions(paths: seq<string>, n: nat)
    requires n <= |paths|
    ensures AreFirstMentions(CleanPaths(paths, n), paths, n)
  {
    hide TrimSpace, IsMentioned, NonBlank;
    if n == 0 {
      NothingIsMentioned(paths);
    } else {
      CleanPathsAreFirstMentions(paths, n - 1);
      var kept, p := CleanPaths(paths, n - 1), TrimSpace(paths[n - 1]);
      forall x ensures IsMentioned(paths, n, x) <==> IsMentioned(paths, n - 1, x) || p == x {
        MentionedOneMore(paths, n - 1, x);
      }
      assert forall u, v :: IsMentionedFirst(paths, n - 1, u, v) ==> IsMentionedFirst(paths, n, u, v);
      if p != "" && p !in kept {
        NewMentionIsLast(kept, paths, n);
      }
    }
  }

  lemma NothingIsMentioned(paths: seq<string>)
    ensures forall p :: !IsMentioned(paths, 0, p)
  {
  }

  lemma NewMentionIsLast(kept: seq<string>, paths: seq<string>, n: nat)
    requires 0 < n <= |paths| && AreFirstMentions(kept, paths, n - 1)
    requires TrimSpace(paths[n - 1]) != "" && TrimSpace(paths[n - 1]) !in kept
    ensures forall u :: 0 <= u < |kept| ==> IsMentionedFirst(paths, n, kept[u], TrimSpace(paths[n - 1]))
  {
    hide TrimSpace, IsMentioned, NoDuplicates;
    var p := TrimSpace(paths[n - 1]);
    forall u | 0 <= u < |kept| ensures IsMentionedFirst(paths, n, kept[u], p) {
      assert kept[u] in kept;
      assert IsMentioned(paths, n - 1, kept[u]) && !IsMentioned(paths, n - 1, p);
    }
  }

  // ---- dependencies ----

  lemma RegisteredNameHasId(raw: seq<RawSubtask>, ulids: seq<Id>, name: string)
    requires |ulids| == |raw| && NamesDistinct(raw, |raw|) && name in Names(raw, |raw|)
    ensures IsIdOf(raw, ulids, name, Lookup(Registry(raw, ulids, |raw|), name))
  {
    hide TrimSpace, Registry, Names;
    var k := NameHasOwner(raw, |raw|, name);
    RegistryAt(raw, ulids, |raw|, k);
  }

  lemma {:induction false} MapNamesAreNamed(raw: seq<RawSubtask>, ulids: seq<Id>, names: seq<string>, n: nat)
    returns (at: seq<nat>)
    requires |ulids| == |raw| && NamesDistinct(raw, |raw|) && n <= |names|
    requires forall i :: 0 <= i < n ==> TrimSpace(names[i]) == "" || TrimSpace(names[i]) in Names(raw, |raw|)
    ensures ArePlaces(at, names, n)
    ensures AreNamedAt(MapNames(Registry(raw, ulids, |raw|), names, n), names, at, raw, ulids)
  {
    hide TrimSpace, Registry, Names, NamesDistinct, IsIdOf, Lookup;
    if n == 0 {
      at := [];
    } else {
      at := MapNamesAreNamed(raw, ulids, names, n - 1);
      if TrimSpace(names[n - 1]) != "" {
        RegisteredNameHasId(raw, ulids, TrimSpace(names[n - 1]));
        PlacesGrow(at, names, n);
        at := at + [n - 1];
      }
    }
  }

  lemma PlacesGrow(at: seq<nat>, names: seq<string>, n: nat)
    requires 0 < n <= |names| && ArePlaces(at, names, n - 1) && TrimSpace(names[n - 1]) != ""
    ensures ArePlaces(at + [n - 1], names, n)
  {
    hide TrimSpace;
    var more := at + [n - 1];
    forall i | 0 <= i < n && TrimSpace(names[i]) != "" ensures i in more {
      if i == n - 1 { assert more[|at|] == i; } else { assert i in at; }
    }
  }

  // ---- every subtask of the input ----

  lemma NodeIsRow(parent: string, raw: seq<RawSubtask>, ulids: seq<Id>, k: nat)
    requires |ulids| == |raw| && NamesDistinct(raw, |raw|) && k < |raw| && RowOk(raw, k) && IsTrimmedName(raw[k])
    ensures IsRowOf(NodeOf(parent, raw[k], Registry(raw, ulids, |raw|)), parent, raw, ulids, k)
  {
    hide TrimSpace, Registry, Names, NamesDistinct, MapNames, CleanPaths, IsForbiddenRole, AreFirstMentions, ArePlaces;
    hide AreNamedAt, Lookup;
    KeyLookup(raw, ulids, k);
    CleanPathsAreFirstMentions(raw[k].writePaths, |raw[k].writePaths|);
    var deps := raw[k].dependsOn;
    forall i | 0 <= i < |deps| ensures TrimSpace(deps[i]) == "" || TrimSpace(deps[i]) in Names(raw, |raw|) {
      assert DependencyOk(raw[k], Names(raw, |raw|), i);
    }
    var at := MapNamesAreNamed(raw, ulids, deps, |deps|);
  }

  /** What the planner accepts, when no name is padded, is one row for each subtask of the input and no other: under the
      id minted for it, with its title, role and prompt in their columns, its write paths once each, its dependencies
      by their ids, pending, and numbered by its place in the order. */
  lemma AcceptedRows(parent: string, raw: seq<RawSubtask>, ulids: seq<Id>, subs: seq<Subtask>)
    requires |ulids| == |raw| && Minted(ulids) && PlanFault(raw) == None && AllTrimmed(raw)
    requires IsOrderedPlan(PlanNodes(parent, raw, ulids), subs)
    ensures |subs| == |raw|
    ensures forall k :: 0 <= k < |raw| ==> HasRowFor(subs, parent, raw, ulids, k)
    ensures forall i, j :: 0 <= i < j < |subs| ==> subs[i].id != subs[j].id
    ensures forall i :: 0 <= i < |subs| ==> subs[i].orderIdx == i && subs[i].round == 0
  {
    hide PlanFault, AllTrimmed, NamesDistinct, RowOk, PlanNodes, NodeOf, Registry, IsOrderedPlan, HasRowFor;
    ChecksPassIff(raw);
    EverySubtaskHasItsNode(parent, raw, ulids);
    OrderedPlanCovers(PlanNodes(parent, raw, ulids), subs, ulids);
    forall k | 0 <= k < |raw| ensures HasRowFor(subs, parent, raw, ulids, k) {
      RowForEach(parent, raw, ulids, subs, k);
    }
    forall i | 0 <= i < |subs| ensures subs[i].orderIdx == i && subs[i].round == 0 {
      NumberedFromNodes(parent, raw, ulids, subs, i);
    }
  }

  lemma RowForEach(parent: string, raw: seq<RawSubtask>, ulids: seq<Id>, subs: seq<Subtask>, k: nat)
    requires |ulids| == |raw| && Minted(ulids) && PlanFault(raw) == None && AllTrimmed(raw) && k < |raw|
    requires IsOrderedPlan(PlanNodes(parent, raw, ulids), subs)
    ensures HasRowFor(subs, parent, raw, ulids, k)
  {
    hide PlanFault, Minted, AllTrimmed, NamesDistinct, RowOk, PlanNodes, IsRowOf, NodeOf, Registry, IsOrderedPlan;
    ChecksPassIff(raw);
    EverySubtaskHasItsNode(parent, raw, ulids);
    assert IsTrimmedName(raw[k]) by { TrimmedAt(raw, k); }
    NodeIsRow(parent, raw, ulids, k);
    var i := PlaceOf(PlanNodes(parent, raw, ulids), subs, ulids[k]);
    RowKeepsColumns(PlanNodes(parent, raw, ulids)[ulids[k]], parent, raw, ulids, k, i, 0);
  }

  lemma TrimmedAt(raw: seq<RawSubtask>, k: nat)
    requires AllTrimmed(raw) && k < |raw|
    ensures IsTrimmedName(raw[k])
  {
  }

  lemma OrderedPlanCovers(nodes: map<Id, Subtask>, subs: seq<Subtask>, ulids: seq<Id>)
    requires IsOrderedPlan(nodes, subs) && nodes.Keys == Elements(ulids) && NoDuplicates(ulids)
    ensures |subs| == |ulids|
    ensures forall i, j :: 0 <= i < j < |subs| ==> subs[i].id != subs[j].id
  {
    DistinctLength(Ids(subs));
    DistinctLength(ulids);
    forall i, j | 0 <= i < j < |subs| ensures subs[i].id != subs[j].id {
      assert Ids(subs)[i] != Ids(subs)[j];
    }
  }

  lemma PlaceOf(nodes: map<Id, Subtask>, subs: seq<Subtask>, id: Id) returns (i: nat)
    requires IsOrderedPlan(nodes, subs) && id in nodes
    ensures i < |subs| && subs[i] == nodes[id].(orderIdx := i)
  {
    assert id in Elements(Ids(subs));
    i :| 0 <= i < |subs| && Ids(subs)[i] == id;
  }

  /** The place and the round of a row are no part of what it says. */
  lemma RowKeepsColumns(row: Subtask, parent: string, raw: seq<RawSubtask>, ulids: seq<Id>, k: nat, place: int,
                        round: int)
    requires |ulids| == |raw| && k < |raw| && IsRowOf(row, parent, raw, ulids, k)
    ensures IsRowOf(row.(orderIdx := place), parent, raw, ulids, k)
    ensures IsRowOf(row.(round := round), parent, raw, ulids, k)
  {
    hide AreFirstMentions, AreDependencies, TrimSpace;
  }

  lemma {:induction false} NodesAreOfRoundZero(parent: string, raw: seq<RawSubtask>, registry: map<string, Id>, n: nat)
    requires n <= |raw|
    ensures forall id :: id in NodesOf(parent, raw, registry, n) ==> NodesOf(parent, raw, registry, n)[id].round == 0
  {
    hide TrimSpace, MapNames, CleanPaths, Lookup;
    if n > 0 {
      NodesAreOfRoundZero(parent, raw, registry, n - 1);
    }
  }

  lemma NumberedFromNodes(parent: string, raw: seq<RawSubtask>, ulids: seq<Id>, subs: seq<Subtask>, i: nat)
    requires |ulids| == |raw| && IsOrderedPlan(PlanNodes(parent, raw, ulids), subs) && i < |subs|
    ensures subs[i].orderIdx == i && subs[i].round == 0
  {
    hide NodesOf, Registry, IsTopologicalOrder;
    NodesAreOfRoundZero(parent, raw, Registry(raw, ulids, |raw|), |raw|);
  }

  // ---- which plans pass the checks ----

  /** role is the word, in capital or small letters. A capital I with a dot counts as an i. */
  ghost predicate IsSpelledLike(role: string, word: string) {
    && |role| == |word|
    && forall i :: 0 <= i < |role| ==>
      || (role[i] == word[i] && !('A' <= role[i] <= 'Z'))
      || ('A' <= role[i] <= 'Z' && role[i] as int + 32 == word[i] as int)
      || (role[i] == '\U{0130}' && word[i] == 'i')
  }

  lemma LowerCharIff(c: char, d: char)
    requires d != '\U{0130}'
    ensures LowerChar(c) == d <==>
      || (c == d && !('A' <= c <= 'Z'))
      || ('A' <= c <= 'Z' && c as int + 32 == d as int)
      || (c == '\U{0130}' && d == 'i')
  {
  }

  lemma ToLowerIff(role: string, word: string)
    requires '\U{0130}' !in word
    ensures ToLower(role) == word <==> IsSpelledLike(role, word)
  {
    hide LowerChar;
    if |role| == |word| {
      forall i | 0 <= i < |role| ensures LowerChar(role[i]) == word[i] <==>
        || (role[i] == word[i] && !('A' <= role[i] <= 'Z'))
        || ('A' <= role[i] <= 'Z' && role[i] as int + 32 == word[i] as int)
        || (role[i] == '\U{0130}' && word[i] == 'i')
      {
        LowerCharIff(role[i], word[i]);
      }
      assert forall i :: 0 <= i < |role| ==> ToLower(role)[i] == LowerChar(role[i]);
      if IsSpelledLike(role, word) {
        assert ToLower(role) == word;
      }
    }
  }

  ghost predicate IsReviewerRole(role: string) {
    IsSpelledLike(role, "reviewer") || IsSpelledLike(role, "ai_reviewer") || IsSpelledLike(role, "ai-reviewer")
  }

  /** The roles the planner may not hand out are the three spellings of the reviewer, in any case. */
  lemma ForbiddenRoleIff(role: string)
    ensures IsForbiddenRole(role) <==> IsReviewerRole(role)
  {
    hide IsSpelledLike, ToLower;
    ToLowerIff(role, "reviewer");
    ToLowerIff(role, "ai_reviewer");
    ToLowerIff(role, "ai-reviewer");
  }

  /** Some other subtask of the plan bears that name. The check compares with the asking subtask's id as written. */
  ghost predicate NamesAnother(raw: seq<RawSubtask>, k: nat, name: string)
    requires k < |raw|
  {
    name != raw[k].id && exists j :: 0 <= j < |raw| && TrimSpace(raw[j].id) == name
  }

  ghost predicate IsSoundRow(raw: seq<RawSubtask>, k: nat)
    requires k < |raw|
  {
    && TrimSpace(raw[k].id) != "" && TrimSpace(raw[k].title) != "" && TrimSpace(raw[k].agentRole) != ""
    && !IsReviewerRole(TrimSpace(raw[k].agentRole))
    && forall i :: 0 <= i < |raw[k].dependsOn| ==>
         var dep := TrimSpace(raw[k].dependsOn[i]); dep == "" || NamesAnother(raw, k, dep)
  }

  lemma NamedIff(raw: seq<RawSubtask>, name: string)
    ensures name in Names(raw, |raw|) <==> exists j :: 0 <= j < |raw| && TrimSpace(raw[j].id) == name
  {
    hide TrimSpace;
    if name in Names(raw, |raw|) {
      var k := NameHasOwner(raw, |raw|, name);
    }
    if j :| 0 <= j < |raw| && TrimSpace(raw[j].id) == name {
      NameRegistered(raw, |raw|, j);
    }
  }

  lemma DependencyOkIff(raw: seq<RawSubtask>, k: nat, i: nat)
    requires k < |raw| && i < |raw[k].dependsOn|
    ensures DependencyOk(raw[k], Names(raw, |raw|), i) <==>
      TrimSpace(raw[k].dependsOn[i]) == "" || NamesAnother(raw, k, TrimSpace(raw[k].dependsOn[i]))
  {
    hide TrimSpace, Names;
    NamedIff(raw, TrimSpace(raw[k].dependsOn[i]));
  }

  lemma SoundRowIff(raw: seq<RawSubtask>, k: nat)
    requires k < |raw|
    ensures IsSoundRow(raw, k) <==> TrimSpace(raw[k].id) != "" && RowOk(raw, k)
  {
    hide TrimSpace, Names, IsForbiddenRole, IsReviewerRole, DependencyOk, NamesAnother;
    ForbiddenRoleIff(TrimSpace(raw[k].agentRole));
    forall i | 0 <= i < |raw[k].dependsOn|
      ensures DependencyOk(raw[k], Names(raw, |raw|), i) <==>
        TrimSpace(raw[k].dependsOn[i]) == "" || NamesAnother(raw, k, TrimSpace(raw[k].dependsOn[i]))
    {
      DependencyOkIff(raw, k, i);
    }
  }

  /** A plan passes the checks exactly when it has between one and forty subtasks, no two of them under one name, each
      with a name, a title and a role other than the reviewer's, and depending only on other subtasks by their names. */
  lemma PassesIff(raw: seq<RawSubtask>)
    ensures PlanFault(raw) == None <==>
      && 1 <= |raw| <= 40
      && (forall j, k :: 0 <= j < k < |raw| ==> TrimSpace(raw[j].id) != TrimSpace(raw[k].id))
      && forall k :: 0 <= k < |raw| ==> IsSoundRow(raw, k)
  {
    hide TrimSpace, PlanFault, RowOk, IsSoundRow;
    ChecksPassIff(raw);
    forall k | 0 <= k < |raw| ensures IsSoundRow(raw, k) <==> TrimSpace(raw[k].id) != "" && RowOk(raw, k) {
      SoundRowIff(raw, k);
    }
  }
}
