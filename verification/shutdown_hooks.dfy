/**
 * `ShutdownHooks`: an ordered queue of hooks and a latch that freezes the
 * queue once the hooks have started running.
 *
 * The class is a holder of static state; here that state is a value and every
 * operation returns the next state. A hook is known by its identity only.
 * Whether running a hook throws is not something the model can see, so each
 * run takes one outcome per queued position as a parameter: the same hook may
 * throw in one run and complete in the next.
 */
module ShutdownHooks {
  import opened Seqs

  /** A hook's object identity. */
  type Hook = nat

  datatype Hooks = Hooks(queue: seq<Hook>, running: bool)

  /** The state at class initialisation. */
  const Initial: Hooks := Hooks([], false)

  /** `addHook`: append at the end of the queue, unless the hooks are running. */
  function AddHook(h: Hooks, hook: Hook): (r: Hooks)
    ensures r.running == h.running
    ensures h.running ==> r == h
    ensures !h.running ==> |r.queue| == |h.queue| + 1 && r.queue[..|h.queue|] == h.queue && r.queue[|h.queue|] == hook
  {
    if h.running then h else h.(queue := h.queue + [hook])
  }

  /** `removeHook`: drop the first occurrence, unless the hooks are running.
      The hooks before and after that occurrence keep their order; a hook that
      is not queued leaves the queue as it was. */
  function RemoveHook(h: Hooks, hook: Hook): (r: Hooks)
    ensures r.running == h.running
    ensures h.running ==> r == h
    ensures !h.running ==> multiset(r.queue) == multiset(h.queue) - multiset{hook}
    ensures !h.running && hook !in h.queue ==> r == h
    ensures !h.running && hook in h.queue ==>
      r.queue == h.queue[..IndexOf(h.queue, hook)] + h.queue[IndexOf(h.queue, hook) + 1..]
  {
    if h.running then h
    else
      RemoveFirstMultiset(h.queue, hook);
      var q := RemoveFirst(h.queue, hook);
      assert hook in h.queue ==> q == h.queue[..IndexOf(h.queue, hook)] + h.queue[IndexOf(h.queue, hook) + 1..] by {
        if hook in h.queue {
          RemoveFirstAt(h.queue, hook);
        }
      }
      h.(queue := q)
  }

  /** `reset`: clear the latch only. */
  function Reset(h: Hooks): (r: Hooks)
    ensures !r.running && r.queue == h.queue
  {
    h.(running := false)
  }

  /** `removeAllHooks`: empty the queue, unless the hooks are running. */
  function RemoveAllHooks(h: Hooks): (r: Hooks)
    ensures r.running == h.running
    ensures h.running ==> r == h
    ensures !h.running ==> |r.queue| == 0
  {
    if h.running then h else h.(queue := [])
  }

  /** What running one hook produced: it completed, or its exception went to
      the thread's uncaught-exception handler. */
  datatype Report = Completed(hook: Hook) | Reported(hook: Hook)

  /** The reference account of a run: one report per queued hook, in queue
      order; `throws[i]` says whether the hook at position `i` threw. */
  function Reports(queue: seq<Hook>, throws: seq<bool>): (rs: seq<Report>)
    requires |throws| == |queue|
    ensures |rs| == |queue|
    ensures forall i | 0 <= i < |queue| :: rs[i].hook == queue[i] && (rs[i].Reported? <==> throws[i])
  {
    if |queue| == 0 then []
    else
      var n := |queue| - 1;
      Reports(queue[..n], throws[..n]) + [Report1(queue[n], throws[n])]
  }

  function Report1(hook: Hook, throws: bool): (r: Report)
    ensures r.hook == hook && (r.Reported? <==> throws)
  {
    if throws then Reported(hook) else Completed(hook)
  }

  /** `runAllHooks`: set the latch, then run every queued hook in order; a hook
      that throws is reported and the loop carries on. */
  method RunAllHooks(h: Hooks, throws: seq<bool>) returns (r: Hooks, reports: seq<Report>)
    requires |throws| == |h.queue|
    ensures r.running && r.queue == h.queue
    ensures reports == Reports(h.queue, throws)
  {
    r := h.(running := true);
    reports := [];
    var i := 0;
    while i < |r.queue|
      invariant 0 <= i <= |r.queue| && r.queue == h.queue && r.running
      invariant reports == Reports(h.queue[..i], throws[..i])
    {
      var hook := r.queue[i];
      var report := if throws[i] then Reported(hook) else Completed(hook);
      assert h.queue[..i + 1][..i] == h.queue[..i];
      assert throws[..i + 1][..i] == throws[..i];
      reports := reports + [report];
      i := i + 1;
    }
    assert h.queue[..i] == h.queue;
    assert throws[..i] == throws;
  }

  /** Once running, the queue cannot change until `reset`. */
  lemma FrozenWhileRunning(h: Hooks, hook: Hook)
    requires h.running
    ensures AddHook(h, hook) == h && RemoveHook(h, hook) == h && RemoveAllHooks(h) == h
  {
  }

  /** Adding a hook and removing it again, before any run, restores the queue
      when the hook was not queued already. */
  lemma AddThenRemove(h: Hooks, hook: Hook)
    requires !h.running && hook !in h.queue
    ensures RemoveHook(AddHook(h, hook), hook) == h
  {
    RemoveFirstAt(h.queue + [hook], hook);
    IndexOfAppendFresh(h.queue, hook);
  }

  /** Running does not consume the queue: a second run, with or without a
      `reset` in between, runs the same hooks in the same order, whatever
      each of them does in either run. */
  method RunTwice(h: Hooks, throws1: seq<bool>, throws2: seq<bool>, resetBetween: bool)
    returns (first: seq<Report>, second: seq<Report>)
    requires |throws1| == |h.queue| && |throws2| == |h.queue|
    ensures |first| == |second| == |h.queue|
    ensures forall i | 0 <= i < |first| :: first[i].hook == second[i].hook == h.queue[i]
  {
    var h1;
    h1, first := RunAllHooks(h, throws1);
    if resetBetween {
      h1 := Reset(h1);
    }
    var h2;
    h2, second := RunAllHooks(h1, throws2);
  }

  /** After a run and a `reset`, hooks can be added again and the old ones are kept. */
  lemma ResetReopens(h: Hooks, hook: Hook)
    ensures AddHook(Reset(h.(running := true)), hook).queue == h.queue + [hook]
  {
  }
}
