/** Fibers by identity. A fiber remembers the worker that created it (`Fiber::worker_`) and `Fiber::notify` goes there
    (src/scheduler.cpp), whichever thread notifies; so a fiber is only ever found on its own worker. */
module FiberHomes {
  import opened Wrappers
  import opened WorkerModel
  import opened WorkerInvariant
  import S = Stealing

  /** `ids[i][f]` is the identity of the fiber that worker `i` knows by number `f`, `owner[g]` the `worker_` of `g`. */
  datatype Registry = Registry(pool: S.Pool, ids: seq<seq<nat>>, owner: seq<nat>)

  datatype Move =
    | Plain(move: S.Move)       // anything but a notification
    | Notify(fiber: nat)        // Fiber::notify, by identity

  function Init(modes: seq<bool>): Registry {
    Registry(S.Init(modes), seq(|modes|, i requires 0 <= i < |modes| => [i]),
             seq(|modes|, i requires 0 <= i < |modes| => i))
  }

  /** Worker `i` knows fiber `g` by number `f`. */
  ghost predicate Known(ids: seq<seq<nat>>, i: nat, f: nat, g: nat) {
    i < |ids| && f < |ids[i]| && ids[i][f] == g
  }

  ghost predicate Possible(r: Registry, m: Move) {
    match m
    case Plain(x) => S.Possible(r.pool, x) && !(x.Local? && x.action.DoEnqueueFiber?)
    case Notify(g) =>
      g < |r.owner| && exists f: nat :: Known(r.ids, r.owner[g], f, g) && S.Possible(r.pool, NotifyMove(r, g, f))
  }

  function NotifyMove(r: Registry, g: nat, f: nat): S.Move
    requires g < |r.owner|
  {
    S.Local(r.owner[g], DoEnqueueFiber(f))
  }

  /** The pool's move behind a move of the registry. */
  ghost function Behind(r: Registry, m: Move): (x: S.Move)
    requires Possible(r, m)
    ensures S.Possible(r.pool, x)
  {
    match m
    case Plain(x) => x
    case Notify(g) =>
      var f: nat :| Known(r.ids, r.owner[g], f, g) && S.Possible(r.pool, NotifyMove(r, g, f));
      NotifyMove(r, g, f)
  }

  /** A fiber created by the move is registered with the worker that created it. */
  ghost function Next(r: Registry, m: Move): Registry
    requires Possible(r, m)
  {
    var x := Behind(r, m);
    var (i, _) := S.Touched(r.pool, x);
    var pool := S.Next(r.pool, x);
    if i < |r.ids| && i < |pool.workers| && |pool.workers[i].states| > |r.ids[i]|
    then Registry(pool, r.ids[i := r.ids[i] + [|r.owner|]], r.owner + [i])
    else r.(pool := pool)
  }

  ghost function Run(modes: seq<bool>, moves: seq<Move>): Option<Registry> {
    if moves == [] then Some(Init(modes))
    else
      var last := |moves| - 1;
      match Run(modes, moves[..last])
      case None => None
      case Some(r) => if Possible(r, moves[last]) then Some(Next(r, moves[last])) else None
  }

  // ---------------------------------------------------------------- the invariant

  ghost predicate HasNumber(ids: seq<seq<nat>>, i: nat, g: nat) {
    exists f: nat :: Known(ids, i, f, g)
  }

  /** Every number stands for a fiber of that worker, every fiber has a number there, and no fiber has two. */
  ghost predicate OwnNumbers(ids: seq<seq<nat>>, owner: seq<nat>) {
    && (forall i: nat, f: nat, g: nat :: Known(ids, i, f, g) ==> g < |owner| && owner[g] == i)
    && (forall g: nat :: g < |owner| ==> HasNumber(ids, owner[g], g))
    && (forall i: nat, f: nat, f': nat, g: nat :: Known(ids, i, f, g) && Known(ids, i, f', g) ==> f == f')
  }

  lemma CreatedKeepsNumbers(ids: seq<seq<nat>>, owner: seq<nat>, i: nat)
    requires OwnNumbers(ids, owner) && i < |ids|
    ensures OwnNumbers(ids[i := ids[i] + [|owner|]], owner + [i])
  {
    var ids', owner' := ids[i := ids[i] + [|owner|]], owner + [i];
    forall g: nat | g < |owner'| ensures HasNumber(ids', owner'[g], g) {
      if g < |owner| {
        assert HasNumber(ids, owner[g], g);
        var f: nat :| Known(ids, owner[g], f, g);
        assert Known(ids', owner'[g], f, g);
      } else {
        assert Known(ids', i, |ids[i]|, g);
      }
    }
    forall k: nat, f: nat, g: nat | Known(ids', k, f, g)
      ensures g < |owner'| && owner'[g] == k
      ensures Known(ids, k, f, g) || (k == i && f == |ids[i]| && g == |owner|)
    {
      assert f < |ids[k]| ==> Known(ids, k, f, g);
    }
    forall k: nat, f: nat, f': nat, g: nat | Known(ids', k, f, g) && Known(ids', k, f', g) ensures f == f' {
      assert Known(ids, k, f, g) ==> g < |owner|;
      assert Known(ids, k, f', g) ==> g < |owner|;
    }
  }

  lemma InitNumbers(modes: seq<bool>)
    ensures OwnNumbers(Init(modes).ids, Init(modes).owner)
  {
    var r := Init(modes);
    forall g: nat | g < |r.owner| ensures HasNumber(r.ids, r.owner[g], g) {
      assert r.ids[g] == [g] && r.owner[g] == g;
      assert Known(r.ids, g, 0, g);
    }
  }

  ghost predicate Numbered(w: Worker, ids: seq<nat>) {
    Safe(w) && |ids| == |w.states|
  }

  ghost predicate Inv(r: Registry) {
    && |r.ids| == |r.pool.workers|
    && (forall i :: 0 <= i < |r.ids| ==> Numbered(r.pool.workers[i], r.ids[i]))
    && OwnNumbers(r.ids, r.owner)
  }

  lemma StatesGrow(w: Worker, a: Action)
    requires Enabled(w, a)
    ensures |w.states| <= |Apply(w, a).states| <= |w.states| + 1
  {
    if a.DoSwitchAway? {
      SwitchAwayGrows(w, a.pick);
    } else if a.DoLoopTurn? {
      LoopTurnGrows(w);
    }
  }

  lemma SwitchKeepsFibers(w: Worker, left: Park, to: nat)
    requires |w.parks| == |w.states| && w.current < |w.states| && to < |w.states|
    ensures |SwitchTo(w, left, to).states| == |w.states|
  {
  }

  lemma SwitchAwayGrows(w: Worker, pick: nat)
    requires Sane(w) && (w.queue == [] && w.idle != {} ==> pick in w.idle)
    ensures |w.states| <= |SwitchAway(w, pick).states| <= |w.states| + 1
  {
    if w.queue != [] {
      SwitchKeepsFibers(SuspendTakes(w), InSuspend, w.queue[0]);
    }
  }

  lemma LoopTurnGrows(w: Worker)
    requires Sane(w)
    ensures |LoopTurn(w).states| == |w.states|
  {
    if w.queue != [] {
      SwitchKeepsFibers(LoopTakes(w), InIdleLoop, w.queue[0]);
    }
  }

  lemma WorkerStaysNumbered(w: Worker, a: Action, ids: seq<nat>, g: nat)
    requires Numbered(w, ids) && Enabled(w, a)
    ensures Numbered(Apply(w, a), if |Apply(w, a).states| > |ids| then ids + [g] else ids)
  {
    SafeStep(w, a);
    StatesGrow(w, a);
  }

  lemma NextInv(r: Registry, m: Move)
    requires Inv(r) && Possible(r, m)
    ensures Inv(Next(r, m))
  {
    var x := Behind(r, m);
    S.NextIsLocal(r.pool, x);
    var (i, a) := S.Touched(r.pool, x);
    assert Numbered(r.pool.workers[i], r.ids[i]);
    WorkerStaysNumbered(r.pool.workers[i], a, r.ids[i], |r.owner|);
    CreatedKeepsNumbers(r.ids, r.owner, i);
    var r' := Next(r, m);
    forall k | 0 <= k < |r'.ids| ensures Numbered(r'.pool.workers[k], r'.ids[k]) {
      assert Numbered(r.pool.workers[k], r.ids[k]);
    }
  }

  lemma {:induction false} RunInv(modes: seq<bool>, moves: seq<Move>)
    requires Run(modes, moves).Some?
    ensures Inv(Run(modes, moves).value)
  {
    if moves == [] {
      InitNumbers(modes);
      forall i | 0 <= i < |modes| ensures Numbered(Init(modes).pool.workers[i], Init(modes).ids[i]) {
        InitInv(modes[i]);
      }
    } else {
      var last := |moves| - 1;
      RunInv(modes, moves[..last]);
      NextInv(Run(modes, moves[..last]).value, moves[last]);
    }
  }

  // ---------------------------------------------------------------- containers by identity

  /** A worker's containers as the source has them: they hold fibers, not numbers. */
  datatype Containers = Containers(queue: seq<nat>, waiting: set<nat>, idle: set<nat>, current: nat)

  ghost predicate Covers(ids: seq<nat>, w: Worker) {
    && (forall k :: 0 <= k < |w.queue| ==> w.queue[k] < |ids|)
    && (forall f :: f in w.waiting ==> f < |ids|)
    && (forall f :: f in w.idle ==> f < |ids|)
    && w.current < |ids|
  }

  ghost function ByIdentity(w: Worker, ids: seq<nat>): Containers
    requires Covers(ids, w)
  {
    Containers(seq(|w.queue|, k requires 0 <= k < |w.queue| => ids[w.queue[k]]),
               set f | f in w.waiting :: ids[f],
               set f | f in w.idle :: ids[f],
               ids[w.current])
  }

  lemma NumberedCovers(w: Worker, ids: seq<nat>)
    requires Numbered(w, ids)
    ensures Covers(ids, w)
  {
  }

  /** Every fiber in the containers was created by worker `k`. */
  ghost predicate OwnFibers(c: Containers, owner: seq<nat>, k: nat) {
    && (forall g :: g in c.queue ==> g < |owner| && owner[g] == k)
    && (forall g :: g in c.waiting ==> g < |owner| && owner[g] == k)
    && (forall g :: g in c.idle ==> g < |owner| && owner[g] == k)
    && c.current < |owner| && owner[c.current] == k
  }

  /** What `enqueue(Fiber*)` does to the containers of the worker it is called on, given the fiber's state. */
  function EnqueueAt(c: Containers, g: nat, state: FiberState): Containers {
    match state
    case Running => c
    case Queued => c
    case Waiting => c.(waiting := c.waiting - {g}, queue := c.queue + [g])
    case _ => c.(queue := c.queue + [g])
  }

  lemma OwnByIdentity(r: Registry, i: nat)
    requires Inv(r) && i < |r.ids|
    ensures Covers(r.ids[i], r.pool.workers[i])
    ensures OwnFibers(ByIdentity(r.pool.workers[i], r.ids[i]), r.owner, i)
  {
    var w, ids := r.pool.workers[i], r.ids[i];
    assert Numbered(w, ids);
    NumberedCovers(w, ids);
    assert forall f: nat :: f < |ids| ==> Known(r.ids, i, f, ids[f]);
  }

  // ---------------------------------------------------------------- fibers stay home

  ghost predicate Found(c: Containers, g: nat) {
    g in c.queue || g in c.waiting || g in c.idle || g == c.current
  }

  /** In every run, with notifications by identity from any thread: a worker's containers hold only fibers that it
      created, and so no fiber is ever found on two workers. */
  lemma FibersStayHome(modes: seq<bool>, moves: seq<Move>, i: nat)
    requires Run(modes, moves).Some? && i < |Run(modes, moves).value.ids|
    ensures var r := Run(modes, moves).value;
            && i < |r.pool.workers| && Covers(r.ids[i], r.pool.workers[i])
            && OwnFibers(ByIdentity(r.pool.workers[i], r.ids[i]), r.owner, i)
  {
    RunInv(modes, moves);
    OwnByIdentity(Run(modes, moves).value, i);
  }

  lemma NeverOnTwoWorkers(modes: seq<bool>, moves: seq<Move>, i: nat, k: nat, g: nat)
    requires Run(modes, moves).Some? && i < |Run(modes, moves).value.ids| && k < |Run(modes, moves).value.ids|
    ensures var r := Run(modes, moves).value;
            && i < |r.pool.workers| && Covers(r.ids[i], r.pool.workers[i])
            && k < |r.pool.workers| && Covers(r.ids[k], r.pool.workers[k])
            && (Found(ByIdentity(r.pool.workers[i], r.ids[i]), g) && Found(ByIdentity(r.pool.workers[k], r.ids[k]), g)
                ==> i == k)
  {
    FibersStayHome(modes, moves, i);
    FibersStayHome(modes, moves, k);
  }

  // ---------------------------------------------------------------- and that is due to where notify() goes

  ghost function StateOf(r: Registry, g: nat): FiberState
    requires Inv(r) && g < |r.owner|
  {
    assert HasNumber(r.ids, r.owner[g], g);
    var f: nat :| Known(r.ids, r.owner[g], f, g);
    assert Numbered(r.pool.workers[r.owner[g]], r.ids[r.owner[g]]);
    r.pool.workers[r.owner[g]].states[f]
  }

  /** A notification of a suspended or idle fiber keeps a worker's containers to its own fibers if and only if it is
      sent to the worker that created the fiber. */
  lemma HomeIsTheOnlyAddress(modes: seq<bool>, moves: seq<Move>, k: nat, g: nat)
    requires Run(modes, moves).Some? && k < |Run(modes, moves).value.ids| && g < |Run(modes, moves).value.owner|
    ensures var r := Run(modes, moves).value;
            && Inv(r) && Covers(r.ids[k], r.pool.workers[k])
            && var state := StateOf(r, g);
               (OwnFibers(EnqueueAt(ByIdentity(r.pool.workers[k], r.ids[k]), g, state), r.owner, k)
                <==> k == r.owner[g] || state == Running || state == Queued)
  {
    RunInv(modes, moves);
    var r := Run(modes, moves).value;
    OwnByIdentity(r, k);
    var c := ByIdentity(r.pool.workers[k], r.ids[k]);
    assert g in c.queue + [g];
  }

  lemma EnqueueByIdentity(w: Worker, ids: seq<nat>, f: nat)
    requires Covers(ids, w) && f < |w.states| && f < |ids|
    requires forall x, y :: 0 <= x < y < |ids| ==> ids[x] != ids[y]
    ensures Covers(ids, EnqueueFiber(w, f))
    ensures ByIdentity(EnqueueFiber(w, f), ids) == EnqueueAt(ByIdentity(w, ids), ids[f], w.states[f])
  {
  }

  /** `Fiber::notify` on an identity is `enqueue(Fiber*)` on the containers of the fiber's own worker, and touches no
      other worker. */
  lemma NotifyGoesHome(r: Registry, g: nat)
    requires Inv(r) && Possible(r, Notify(g))
    ensures var i, r' := r.owner[g], Next(r, Notify(g));
            && i < |r.ids| && r'.ids == r.ids && r'.owner == r.owner
            && Covers(r.ids[i], r.pool.workers[i]) && Covers(r.ids[i], r'.pool.workers[i])
            && ByIdentity(r'.pool.workers[i], r.ids[i])
               == EnqueueAt(ByIdentity(r.pool.workers[i], r.ids[i]), g, StateOf(r, g))
            && forall k :: 0 <= k < |r.ids| && k != i ==> r'.pool.workers[k] == r.pool.workers[k]
  {
    var i := r.owner[g];
    var x := Behind(r, Notify(g));
    var f: nat :| Known(r.ids, i, f, g) && x == NotifyMove(r, g, f);
    var w := r.pool.workers[i];
    assert Numbered(w, r.ids[i]);
    NumberedCovers(w, r.ids[i]);
    forall a, b | 0 <= a < b < |r.ids[i]| ensures r.ids[i][a] != r.ids[i][b] {
      assert Known(r.ids, i, a, r.ids[i][a]) && Known(r.ids, i, b, r.ids[i][b]);
    }
    EnqueueByIdentity(w, r.ids[i], f);
  }
}
