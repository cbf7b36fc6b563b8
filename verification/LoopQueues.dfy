/** The two work queues of the io_uring loop: completions first, but not so that they starve other work. */
module LoopQueues {

  const MAX_READY: nat := 256
  const MAX_COMPLETION: nat := 64

  /** What a work item schedules while it runs. */
  datatype Spawn = Spawn(ready: seq<nat>, completions: seq<nat>)

  ghost function AllReady(ss: seq<Spawn>): seq<nat> {
    if ss == [] then [] else AllReady(ss[..|ss| - 1]) + ss[|ss| - 1].ready
  }

  ghost function AllCompletions(ss: seq<Spawn>): seq<nat> {
    if ss == [] then [] else AllCompletions(ss[..|ss| - 1]) + ss[|ss| - 1].completions
  }

  lemma {:induction false} AllNext(ss: seq<Spawn>, n: nat)
    requires n < |ss|
    ensures AllReady(ss[..n + 1]) == AllReady(ss[..n]) + ss[n].ready
    ensures AllCompletions(ss[..n + 1]) == AllCompletions(ss[..n]) + ss[n].completions
  {
    assert ss[..n + 1][..n] == ss[..n];
  }

  /** A queue that received `more`, and from which `done` was taken, in order. */
  ghost predicate Moved(before: seq<nat>, more: seq<nat>, done: seq<nat>, now: seq<nat>) {
    done + now == before + more
  }

  lemma {:induction false} MovedPop(before: seq<nat>, more: seq<nat>, done: seq<nat>, now: seq<nat>)
    requires Moved(before, more, done, now) && now != []
    ensures Moved(before, more, done + [now[0]], now[1..])
  {
    assert done + now == (done + [now[0]]) + now[1..];
  }

  lemma {:induction false} MovedPush(before: seq<nat>, more: seq<nat>, done: seq<nat>, now: seq<nat>, added: seq<nat>)
    requires Moved(before, more, done, now)
    ensures Moved(before, more + added, done, now + added)
  {
    assert before + (more + added) == (before + more) + added;
    assert done + (now + added) == (done + now) + added;
  }

  /** An item of the queue was taken, or it moved forward by the number of items taken. */
  lemma {:induction false} MovedAt(before: seq<nat>, more: seq<nat>, done: seq<nat>, now: seq<nat>, k: nat)
    requires Moved(before, more, done, now) && k < |before|
    ensures if k < |done| then done[k] == before[k] else k - |done| < |now| && now[k - |done|] == before[k]
  {
    assert (before + more)[k] == (done + now)[k];
  }

  class WorkQueues {
    var ready: seq<nat>
    var completions: seq<nat>
    /** The items that were run, from either queue. */
    ghost var ranReady: seq<nat>
    ghost var ranCompletions: seq<nat>

    /** Takes the next item: completions first, but once 64 of them ran only if nothing else is ready. */
    method Next(completionsRun: nat) returns (work: nat, completion: bool)
      requires ready != [] || completions != []
      modifies this`ready, this`completions
      ensures completion <==> old(completions) != [] && (old(ready) == [] || completionsRun < MAX_COMPLETION)
      ensures if completion
              then work == old(completions)[0] && completions == old(completions)[1..] && ready == old(ready)
              else && old(ready) != [] && work == old(ready)[0] && ready == old(ready)[1..]
                   && completions == old(completions)
    {
      completion := completions != [] && (ready == [] || completionsRun < MAX_COMPLETION);
      if completion {
        work, completions := completions[0], completions[1..];
      } else {
        work, ready := ready[0], ready[1..];
      }
    }

    /** Runs item `work`, which schedules what `spawn` says. */
    method Run(work: nat, completion: bool, spawn: Spawn)
      modifies this
      ensures ready == old(ready) + spawn.ready && completions == old(completions) + spawn.completions
      ensures ranReady == old(ranReady) + (if completion then [] else [work])
      ensures ranCompletions == old(ranCompletions) + (if completion then [work] else [])
    {
      if completion { ranCompletions := ranCompletions + [work]; } else { ranReady := ranReady + [work]; }
      ready, completions := ready + spawn.ready, completions + spawn.completions;
    }

    /** Runs the next item, which schedules what `spawns[ran]` says; `r` and `c` are what was run of either queue. */
    method RunNext(completionsRun: nat, ghost ready0: seq<nat>, ghost completions0: seq<nat>, spawns: seq<Spawn>,
        ran: nat, ghost r: seq<nat>, ghost c: seq<nat>)
      returns (completion: bool, ghost r': seq<nat>, ghost c': seq<nat>)
      requires ran < |spawns| && (ready != [] || completions != [])
      requires Moved(ready0, AllReady(spawns[..ran]), r, ready)
      requires Moved(completions0, AllCompletions(spawns[..ran]), c, completions)
      modifies this
      ensures completion <==> old(completions) != [] && (old(ready) == [] || completionsRun < MAX_COMPLETION)
      ensures Moved(ready0, AllReady(spawns[..ran + 1]), r', ready)
      ensures Moved(completions0, AllCompletions(spawns[..ran + 1]), c', completions)
      ensures |r'| == |r| + (if completion then 0 else 1) && |c'| == |c| + (if completion then 1 else 0)
      ensures r <= r' && ranReady == old(ranReady) + r'[|r|..]
      ensures c <= c' && ranCompletions == old(ranCompletions) + c'[|c|..]
    {
      var work, fromCompletions := Next(completionsRun);
      completion := fromCompletions;
      r', c' := if completion then r else r + [work], if completion then c + [work] else c;
      if completion {
        MovedPop(completions0, AllCompletions(spawns[..ran]), c, old(completions));
      } else {
        MovedPop(ready0, AllReady(spawns[..ran]), r, old(ready));
      }
      AllNext(spawns, ran);
      MovedPush(ready0, AllReady(spawns[..ran]), r', ready, spawns[ran].ready);
      MovedPush(completions0, AllCompletions(spawns[..ran]), c', completions, spawns[ran].completions);
      Run(work, completion, spawns[ran]);
    }

    /**
     * One turn; `spawns[i]` is what the `i`-th item run schedules.  At most 256 items run, and fewer only if nothing is
     * left.  Of either queue a prefix of what it held and received is run, in order.  An item that was ready at the
     * start has run, or it has moved forward by at least 192 places.
     */
    method RunReady(spawns: seq<Spawn>) returns (ran: nat, fromReady: nat)
      requires |spawns| == MAX_READY
      modifies this
      ensures fromReady <= ran <= MAX_READY && (ran < MAX_READY ==> ready == [] && completions == [])
      ensures old(ranReady) <= ranReady && |ranReady| == |old(ranReady)| + fromReady
      ensures old(ranCompletions) <= ranCompletions && |ranCompletions| == |old(ranCompletions)| + ran - fromReady
      ensures Moved(old(ready), AllReady(spawns[..ran]), ranReady[|old(ranReady)|..], ready)
      ensures Moved(old(completions), AllCompletions(spawns[..ran]), ranCompletions[|old(ranCompletions)|..],
        completions)
      ensures forall k :: 0 <= k < |old(ready)| ==>
        if k < fromReady then ranReady[|old(ranReady)| + k] == old(ready)[k]
        else && fromReady >= MAX_READY - MAX_COMPLETION && k - fromReady < |ready|
             && ready[k - fromReady] == old(ready)[k]
    {
      ran, fromReady := 0, 0;
      assert old(ready) + [] == old(ready) && old(completions) + [] == old(completions);
      var completionsRun := 0;
      ghost var r, c: seq<nat> := [], [];
      while ran < MAX_READY
        invariant ran <= MAX_READY && completionsRun + fromReady == ran && |r| == fromReady && |c| == completionsRun
        invariant Moved(old(ready), AllReady(spawns[..ran]), r, ready) && ranReady == old(ranReady) + r
        invariant Moved(old(completions), AllCompletions(spawns[..ran]), c, completions)
        invariant ranCompletions == old(ranCompletions) + c
        invariant fromReady < |old(ready)| ==> completionsRun <= MAX_COMPLETION
      {
        if ready == [] && completions == [] {
          break;
        }
        ghost var r0, c0 := r, c;
        var completion;
        completion, r, c := RunNext(completionsRun, old(ready), old(completions), spawns, ran, r, c);
        assert r0 + r[|r0|..] == r && c0 + c[|c0|..] == c;
        if completion { completionsRun := completionsRun + 1; } else { fromReady := fromReady + 1; }
        ran := ran + 1;
      }
      forall k | 0 <= k < |old(ready)|
        ensures if k < fromReady then r[k] == old(ready)[k]
                else && fromReady >= MAX_READY - MAX_COMPLETION && k - fromReady < |ready|
                     && ready[k - fromReady] == old(ready)[k]
      {
        MovedAt(old(ready), AllReady(spawns[..ran]), r, ready, k);
      }
    }
  }
}
