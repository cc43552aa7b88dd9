/** Workers that share one counter: each turn takes the next index, posts it, or stops. */
module WorkerPool {

  /** A worker before its first turn, with a post under way, stopped, or failed on a refused post. */
  datatype Worker = Fresh | Posting(index: nat) | Finished | Failed

  datatype State = State(next: nat, workers: seq<Worker>, posted: seq<nat>)

  /** Worker w runs; ok is the answer to the post it was waiting for, if any. */
  datatype Turn = Turn(w: nat, ok: bool)

  /** i := next++ and the loop test: one uninterrupted stretch of the program. */
  function Take(count: nat, s: State, w: nat): State
    requires w < |s.workers|
  {
    if s.next < count then State(s.next + 1, s.workers[w := Posting(s.next)], s.posted + [s.next])
    else State(s.next + 1, s.workers[w := Finished], s.posted)
  }

  function Step(count: nat, s: State, t: Turn): State {
    if t.w >= |s.workers| then s else
    match s.workers[t.w]
    case Fresh => Take(count, s, t.w)
    case Posting(_) => if t.ok then Take(count, s, t.w) else s.(workers := s.workers[t.w := Failed])
    case _ => s
  }

  function Run(count: nat, s: State, run: seq<Turn>): State
    decreases |run|
  {
    if run == [] then s else Run(count, Step(count, s, run[0]), run[1..])
  }

  function FreshWorkers(n: nat): (r: seq<Worker>)
    ensures |r| == n && forall i | 0 <= i < n :: r[i] == Fresh
  {
    if n == 0 then [] else [Fresh] + FreshWorkers(n - 1)
  }

  function Initial(n: nat): State {
    State(0, FreshWorkers(n), [])
  }

  function Stopped(ws: seq<Worker>): nat {
    if ws == [] then 0 else (if ws[0] == Finished then 1 else 0) + Stopped(ws[1..])
  }

  lemma {:induction false} StoppedAfter(ws: seq<Worker>, w: nat, x: Worker)
    requires w < |ws| && ws[w] != Finished
    ensures Stopped(ws[w := x]) == Stopped(ws) + (if x == Finished then 1 else 0)
    decreases |ws|
  {
    if w > 0 {
      assert ws[w := x][1..] == ws[1..][w - 1 := x];
      StoppedAfter(ws[1..], w - 1, x);
    } else {
      assert ws[w := x][1..] == ws[1..];
    }
  }

  /** The posts so far are 0, 1, 2, … in order, and the counter is ahead of them by the workers that stopped. */
  ghost predicate Inv(count: nat, s: State) {
    && |s.posted| <= count && s.next == |s.posted| + Stopped(s.workers)
    && (s.next < count ==> Stopped(s.workers) == 0)
    && (forall i | 0 <= i < |s.posted| :: s.posted[i] == i)
    && (Stopped(s.workers) > 0 ==> |s.posted| == count)
  }

  lemma StepKeeps(count: nat, s: State, t: Turn)
    requires Inv(count, s)
    ensures Inv(count, Step(count, s, t)) && |Step(count, s, t).workers| == |s.workers|
  {
    if t.w < |s.workers| && s.workers[t.w] != Finished {
      StoppedAfter(s.workers, t.w, Posting(s.next));
      StoppedAfter(s.workers, t.w, Finished);
      StoppedAfter(s.workers, t.w, Failed);
    }
  }

  lemma {:induction false} RunKeeps(count: nat, s: State, run: seq<Turn>)
    requires Inv(count, s)
    ensures Inv(count, Run(count, s, run)) && |Run(count, s, run).workers| == |s.workers|
    decreases |run|
  {
    hide Inv, Step;
    if run != [] {
      StepKeeps(count, s, run[0]);
      RunKeeps(count, Step(count, s, run[0]), run[1..]);
    }
  }

  lemma {:induction false} NoneStopped(ws: seq<Worker>)
    requires forall i | 0 <= i < |ws| :: ws[i] == Fresh
    ensures Stopped(ws) == 0
    decreases |ws|
  {
    if ws != [] {
      NoneStopped(ws[1..]);
    }
  }

  lemma {:induction false} AllStopped(ws: seq<Worker>)
    requires forall i | 0 <= i < |ws| :: ws[i] == Finished
    ensures Stopped(ws) == |ws|
    decreases |ws|
  {
    if ws != [] {
      AllStopped(ws[1..]);
    }
  }

  /** In every interleaving, whatever fails: no index is posted twice and none outside the range. */
  lemma PostedOnce(count: nat, n: nat, run: seq<Turn>)
    ensures var p := Run(count, Initial(n), run).posted;
            forall i | 0 <= i < |p| :: p[i] < count && forall j | 0 <= j < i :: p[j] != p[i]
  {
    hide Run;
    NoneStopped(FreshWorkers(n));
    RunKeeps(count, Initial(n), run);
  }

  /** On normal completion every index is posted exactly once and the counter has overshot by one for each worker. */
  lemma CompletesExactly(count: nat, n: nat, run: seq<Turn>)
    requires n > 0 && forall w | 0 <= w < n && w < |Run(count, Initial(n), run).workers| ::
               Run(count, Initial(n), run).workers[w] == Finished
    ensures var s := Run(count, Initial(n), run);
            && s.next == count + n && |s.posted| == count
            && (forall i | 0 <= i < count :: s.posted[i] == i)
  {
    hide Run;
    NoneStopped(FreshWorkers(n));
    RunKeeps(count, Initial(n), run);
    AllStopped(Run(count, Initial(n), run).workers);
  }

  // ----- Progress -----

  function TurnsOf(run: seq<Turn>, w: nat): nat
    decreases |run|
  {
    if run == [] then 0 else (if run[0].w == w then 1 else 0) + TurnsOf(run[1..], w)
  }

  /** While every post is accepted, each turn of a worker that has not stopped posts one index more. */
  lemma {:induction false} TurnsPost(count: nat, s: State, run: seq<Turn>, w: nat)
    requires w < |s.workers| && (s.workers[w].Fresh? || s.workers[w].Posting?)
    requires forall i | 0 <= i < |run| :: run[i].ok
    ensures var t := Run(count, s, run);
            && |t.workers| == |s.workers| && |t.posted| >= |s.posted|
            && (t.workers[w] == Finished
                || ((t.workers[w].Fresh? || t.workers[w].Posting?) && |t.posted| >= |s.posted| + TurnsOf(run, w)))
    decreases |run|
  {
    if run != [] {
      var t := Step(count, s, run[0]);
      if t.workers[w] == Finished {
        StoppedStays(count, t, run[1..], w);
      } else {
        TurnsPost(count, t, run[1..], w);
      }
    }
  }

  lemma {:induction false} StoppedStays(count: nat, s: State, run: seq<Turn>, w: nat)
    requires w < |s.workers| && (s.workers[w] == Finished || s.workers[w] == Failed)
    ensures var t := Run(count, s, run);
            |t.workers| == |s.workers| && t.workers[w] == s.workers[w] && |t.posted| >= |s.posted|
    decreases |run|
  {
    if run != [] {
      StoppedStays(count, Step(count, s, run[0]), run[1..], w);
    }
  }

  /** If every post is accepted and every worker gets one turn more than there are indices, in any order, the pool
      completes. */
  lemma EnoughTurnsComplete(count: nat, n: nat, run: seq<Turn>)
    requires n > 0 && (forall i | 0 <= i < |run| :: run[i].ok) && forall w | 0 <= w < n :: TurnsOf(run, w) > count
    ensures var s := Run(count, Initial(n), run);
            && |s.workers| == n && (forall w | 0 <= w < n :: s.workers[w] == Finished)
            && s.next == count + n && |s.posted| == count && forall i | 0 <= i < count :: s.posted[i] == i
  {
    hide Run, TurnsOf;
    NoneStopped(FreshWorkers(n));
    RunKeeps(count, Initial(n), run);
    forall w | 0 <= w < n ensures Run(count, Initial(n), run).workers[w] == Finished {
      TurnsPost(count, Initial(n), run, w);
    }
    CompletesExactly(count, n, run);
  }

  /** A refused post stops its worker for good, and changes nothing else then. */
  lemma RefusalStops(count: nat, n: nat, run: seq<Turn>, w: nat, more: seq<Turn>)
    requires w < |Run(count, Initial(n), run).workers| && Run(count, Initial(n), run).workers[w].Posting?
    ensures var s := Run(count, Initial(n), run);
            var t := Step(count, s, Turn(w, false));
            && t.next == s.next && t.posted == s.posted && |t.workers| == |s.workers|
            && (forall x | 0 <= x < |s.workers| && x != w :: t.workers[x] == s.workers[x])
            && w < |Run(count, t, more).workers| && Run(count, t, more).workers[w] == Failed
  {
    hide Run;
    StoppedStays(count, Step(count, Run(count, Initial(n), run), Turn(w, false)), more, w);
  }
}
