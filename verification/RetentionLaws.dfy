/** Which events compaction leaves in a log. */
module RetentionLaws {
  import opened Common
  import opened EventCore

  predicate ForEver(e: Event) {
    e.kind in {"completion_reconciliation", "effect_applied", "finish_chat_turn", "hierarchy_completed",
               "hierarchy_failed", "model_request_aborted", "model_request_completed", "model_request_failed",
               "project_lease_lost", "test_result"}
  }

  /** The events that are neither kept for ever nor older than the cutoff. */
  function Recent(log: seq<Event>, cutoff: string): nat {
    if log == [] then 0
    else
      var n := |log| - 1;
      Recent(log[..n], cutoff) + if !ForEver(log[n]) && !TextLess(log[n].timestamp, cutoff) then 1 else 0
  }

  lemma SameKinds(e: Event)
    ensures Terminal(e) <==> ForEver(e)
  {
  }

  lemma RecentUnfolds(log: seq<Event>, k: nat, cutoff: string)
    requires k < |log|
    ensures var last := log[|log| - 1];
            Recent(log[k..], cutoff) ==
            Recent(log[..|log| - 1][k..], cutoff) + if !ForEver(last) && !TextLess(last.timestamp, cutoff) then 1 else 0
  {
    hide ForEver;
    var n := |log| - 1;
    assert log[k..][..n - k] == log[..n][k..];
  }

  lemma KeptUnfolds(log: seq<Event>, cutoff: string, max: nat)
    requires log != []
    ensures var last, front := log[|log| - 1], log[..|log| - 1];
            Newest(Young(log, cutoff), max) ==
            if ForEver(last) then Newest(Young(front, cutoff), max) + [last]
            else if TextLess(last.timestamp, cutoff) then Newest(Young(front, cutoff), max)
            else if max > 0 then Newest(Young(front, cutoff), max - 1) + [last]
            else Newest(Young(front, cutoff), 0)
  {
    hide Terminal, ForEver, TextLess;
    var last, front := log[|log| - 1], log[..|log| - 1];
    SameKinds(last);
    assert Young(front, cutoff) + [] == Young(front, cutoff);
    assert (Young(front, cutoff) + [last])[..|Young(front, cutoff)|] == Young(front, cutoff);
  }

  /** The last event is not one of those before it. */
  lemma LastIsNew(log: seq<Event>, cutoff: string, max: nat)
    requires log != [] && Ascends(log)
    ensures log[|log| - 1] !in Newest(Young(log[..|log| - 1], cutoff), max)
  {
    hide Terminal, TextLess, Young, Newest;
    var front := log[..|log| - 1];
    YoungThins(front, cutoff);
    NewestThins(Young(front, cutoff), max);
    assert log[|log| - 1] !in front;
  }

  /** An event survives compaction exactly when its kind is kept for ever, or it is not older than the cutoff
      and fewer than `max` such events are newer. */
  lemma {:induction false} SurvivesExactly(log: seq<Event>, cutoff: string, max: nat, i: nat)
    requires Ascends(log) && i < |log|
    ensures log[i] in Newest(Young(log, cutoff), max) <==>
              || ForEver(log[i])
              || (!TextLess(log[i].timestamp, cutoff) && Recent(log[i + 1..], cutoff) < max)
    decreases |log|
  {
    hide Young, Newest, ForEver, TextLess, Recent;
    var n := |log| - 1;
    KeptUnfolds(log, cutoff, max);
    LastIsNew(log, cutoff, max);
    if max > 0 {
      LastIsNew(log, cutoff, max - 1);
    }
    if i == n {
      NothingRecent(log[n + 1..], cutoff);
    } else {
      var less := if ForEver(log[n]) || TextLess(log[n].timestamp, cutoff) || max == 0 then max else max - 1;
      assert log[..n][i] == log[i] && log[i] != log[n];
      SurvivesExactly(log[..n], cutoff, less, i);
      RecentUnfolds(log, i + 1, cutoff);
    }
  }

  lemma NothingRecent(log: seq<Event>, cutoff: string)
    requires log == []
    ensures Recent(log, cutoff) == 0
  {
  }
}
