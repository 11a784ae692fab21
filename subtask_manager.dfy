/**
 * Label and workflow helpers for Jira issues (subtask_manager.py): adding
 * and removing a label, choosing the "done" transition, picking the
 * scenario subtask among search hits and the fields of a new subtask.
 */
module SubtaskManager {
  import opened Wrappers
  import opened Strings

  /**
   * A Jira issue as the helpers see it: its labels field (which Jira may
   * leave unset) and the number of updates written back to the server.
   */
  class Issue {
    const key: string
    var labels: Option<seq<string>>
    var updates: nat

    constructor (key: string, labels: Option<seq<string>>)
      ensures this.key == key && this.labels == labels && updates == 0
    {
      this.key := key;
      this.labels := labels;
      updates := 0;
    }

    /** `issue.fields.labels or []`: an unset field reads as the empty list. */
    function Labels(): seq<string>
      reads this
    {
      labels.GetOr([])
    }

    /** `issue.update(fields={"labels": labels})` */
    method Update(newLabels: seq<string>)
      modifies this
      ensures labels == Some(newLabels) && updates == old(updates) + 1
    {
      labels := Some(newLabels);
      updates := updates + 1;
    }
  }

  predicate NoDuplicates(s: seq<string>) {
    forall i, j :: 0 <= i < j < |s| ==> s[i] != s[j]
  }

  /** The label list after `add_label`: `name` appended when missing. */
  function WithLabel(labels: seq<string>, name: string): (r: seq<string>)
    ensures name in r
    ensures name in labels ==> r == labels
    ensures name !in labels ==> r == labels + [name]
  {
    if name in labels then labels else labels + [name]
  }

  /** Index of the first occurrence of `name`, as `list.remove` finds it. */
  function FirstIndex(labels: seq<string>, name: string): (i: nat)
    requires name in labels
    ensures i < |labels| && labels[i] == name
    ensures forall k :: 0 <= k < i ==> labels[k] != name
  {
    if labels[0] == name then 0 else 1 + FirstIndex(labels[1..], name)
  }

  /** The label list after `remove_label`: the first occurrence of `name` dropped. */
  function WithoutLabel(labels: seq<string>, name: string): (r: seq<string>)
    ensures name !in labels ==> r == labels
    ensures name in labels ==> r == labels[..FirstIndex(labels, name)] + labels[FirstIndex(labels, name) + 1..]
  {
    if name in labels then
      var i := FirstIndex(labels, name);
      labels[..i] + labels[i + 1..]
    else
      labels
  }

  /** `add_label`: the list is written back only when the label was missing. */
  method AddLabel(issue: Issue, name: string)
    modifies issue
    ensures name in old(issue.Labels()) ==> unchanged(issue)
    ensures name !in old(issue.Labels()) ==>
      issue.labels == Some(old(issue.Labels()) + [name]) && issue.updates == old(issue.updates) + 1
    ensures issue.Labels() == WithLabel(old(issue.Labels()), name)
  {
    var labels := issue.Labels();
    if name !in labels {
      labels := labels + [name];
      issue.Update(labels);
    }
  }

  /** `remove_label`: the list is written back only when the label was present. */
  method RemoveLabel(issue: Issue, name: string)
    modifies issue
    ensures name !in old(issue.Labels()) ==> unchanged(issue)
    ensures name in old(issue.Labels()) ==>
      issue.labels == Some(WithoutLabel(old(issue.Labels()), name)) && issue.updates == old(issue.updates) + 1
    ensures issue.Labels() == WithoutLabel(old(issue.Labels()), name)
  {
    var labels := issue.Labels();
    if name in labels {
      labels := WithoutLabel(labels, name);
      issue.Update(labels);
    }
  }

  /** Adding a label twice is adding it once. */
  lemma WithLabelIdempotent(labels: seq<string>, name: string)
    ensures WithLabel(WithLabel(labels, name), name) == WithLabel(labels, name)
  {
  }

  /** Adding a label never introduces a duplicate. */
  lemma WithLabelNoDuplicates(labels: seq<string>, name: string)
    requires NoDuplicates(labels)
    ensures NoDuplicates(WithLabel(labels, name))
  {
  }

  /** Removing takes away exactly one copy of a present label and nothing else. */
  lemma WithoutLabelMultiset(labels: seq<string>, name: string)
    ensures name in labels ==> multiset(WithoutLabel(labels, name)) == multiset(labels) - multiset{name}
    ensures name in labels ==> |WithoutLabel(labels, name)| == |labels| - 1
  {
    if name in labels {
      var i := FirstIndex(labels, name);
      assert labels == labels[..i] + [labels[i]] + labels[i + 1..];
    }
  }

  /** Removing one label keeps every other label that was there, and adds none. */
  lemma WithoutLabelKeepsOthers(labels: seq<string>, name: string, other: string)
    requires other != name
    ensures other in WithoutLabel(labels, name) <==> other in labels
  {
    if name in labels {
      var i := FirstIndex(labels, name);
      assert labels == labels[..i] + [labels[i]] + labels[i + 1..];
    }
  }

  /** On a list without duplicates, a removed label is gone. */
  lemma WithoutLabelAbsent(labels: seq<string>, name: string)
    requires NoDuplicates(labels)
    ensures name !in WithoutLabel(labels, name)
    ensures NoDuplicates(WithoutLabel(labels, name))
  {
    if name in labels {
      var i := FirstIndex(labels, name);
      var r := WithoutLabel(labels, name);
      forall k | 0 <= k < |r|
        ensures r[k] != name
      {
        if k >= i {
          assert r[k] == labels[k + 1];
        }
      }
    }
  }

  /** An entry of `jira.transitions(issue_key)`. */
  datatype Transition = Transition(id: string, name: string)

  predicate IsDone(t: Transition) {
    Contains(Lower(t.name), "done")
  }

  /**
   * `transition_subtask_to_done`: the id of the transition applied, which is
   * the first whose lowercased name holds "done", or `None` (the `False`
   * return) when there is none.
   */
  method TransitionToDone(transitions: seq<Transition>) returns (applied: Option<string>)
    ensures applied.None? <==> forall i :: 0 <= i < |transitions| ==> !IsDone(transitions[i])
    ensures applied.Some? ==>
      exists i :: (0 <= i < |transitions| && IsDone(transitions[i]) && applied.value == transitions[i].id
        && forall k :: 0 <= k < i ==> !IsDone(transitions[k]))
  {
    var i := 0;
    while i < |transitions|
      invariant 0 <= i <= |transitions|
      invariant forall k :: 0 <= k < i ==> !IsDone(transitions[k])
    {
      if IsDone(transitions[i]) {
        return Some(transitions[i].id);
      }
      i := i + 1;
    }
    return None;
  }

  /**
   * `get_subtask_with_label`: the first hit of the search for subtasks of the
   * parent whose summary matches "Suggested Test Scenarios". The label
   * asked for (`name`) takes no part in the search.
   */
  function SubtaskWithLabel<T>(hits: seq<T>, name: string): (r: Option<T>)
    ensures r.None? <==> |hits| == 0
    ensures r.Some? ==> r.value == hits[0]
  {
    if |hits| == 0 then None else Some(hits[0])
  }

  const SubtaskTypeId := "10002"
  const DefaultSubtaskLabel := "scenarios-generated"

  /** The `issue_dict` passed to `jira.create_issue`. */
  datatype SubtaskFields = SubtaskFields(
    projectKey: string, summary: string, description: string,
    issueTypeId: string, parentKey: string, labels: seq<string>)

  /** The fields of the subtask `create_subtask_with_steps` creates. */
  function NewSubtaskFields(parentKey: string, projectKey: string, summary: string, description: string, name: string): (r: SubtaskFields)
    ensures r.issueTypeId == SubtaskTypeId && r.labels == [name]
    ensures r.parentKey == parentKey && r.projectKey == projectKey
    ensures r.summary == summary && r.description == description
  {
    SubtaskFields(projectKey, summary, description, SubtaskTypeId, parentKey, [name])
  }
}
