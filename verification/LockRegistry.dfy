/** The registry of reference-counted, re-entrant locks, one for each target name.

    A thread enters a section in two atomic steps (count itself as a user under the guard, then acquire the lock) and
    leaves it in two (release the lock, then give up its use under the guard).  Threads interleave in any way. */
module LockRegistry {
  import opened Outcomes

  type Thread = nat
  type Key = (nat, nat, string)

  datatype Phase = Waiting | Inside | Leaving

  /** One activation of the lock's context manager. */
  datatype Frame = Frame(thread: Thread, key: Key, holder: nat, phase: Phase)

  /** `depth` and `owner` are the re-entrant lock of a holder. */
  datatype Holder = Holder(refs: int, depth: nat, owner: Option<Thread>)

  datatype State = State(locks: map<Key, nat>, holders: map<nat, Holder>, frames: map<nat, Frame>)

  datatype Step =
    | Register(frame: nat, thread: Thread, key: Key, newHolder: nat)
    | Acquire(frame: nat)
    | Interrupt(frame: nat)
    | Release(frame: nat)
    | Unregister(frame: nat)

  const Idle := State(map[], map[], map[])

  predicate Enabled(s: State, step: Step) {
    match step
    case Register(f, _, _, h) => f !in s.frames && h !in s.holders
    case Acquire(f) =>
      && f in s.frames && s.frames[f].phase.Waiting? && s.frames[f].holder in s.holders
      && s.holders[s.frames[f].holder].owner in {None, Some(s.frames[f].thread)}
    case Interrupt(f) => f in s.frames && s.frames[f].phase.Waiting?
    case Release(f) =>
      f in s.frames && s.frames[f].phase.Inside? && s.frames[f].holder in s.holders && s.holders[s.frames[f].holder].depth > 0
    case Unregister(f) => f in s.frames && s.frames[f].phase.Leaving? && s.frames[f].holder in s.holders
  }

  function Next(s: State, step: Step): State
    requires Enabled(s, step)
  {
    match step
    case Register(f, thread, key, spare) =>
      var h := if key in s.locks then s.locks[key] else spare;
      var holder := if h in s.holders then s.holders[h] else Holder(0, 0, None);
      State(s.locks[key := h], s.holders[h := holder.(refs := holder.refs + 1)], s.frames[f := Frame(thread, key, h, Waiting)])
    case Acquire(f) =>
      var h, holder := s.frames[f].holder, s.holders[s.frames[f].holder];
      s.(holders := s.holders[h := holder.(depth := holder.depth + 1, owner := Some(s.frames[f].thread))],
         frames := s.frames[f := s.frames[f].(phase := Inside)])
    case Interrupt(f) =>
      s.(frames := s.frames[f := s.frames[f].(phase := Leaving)])
    case Release(f) =>
      var h, holder := s.frames[f].holder, s.holders[s.frames[f].holder];
      s.(holders := s.holders[h := holder.(depth := holder.depth - 1, owner := if holder.depth == 1 then None else holder.owner)],
         frames := s.frames[f := s.frames[f].(phase := Leaving)])
    case Unregister(f) =>
      var h, key := s.frames[f].holder, s.frames[f].key;
      var holder := s.holders[h].(refs := s.holders[h].refs - 1);
      State(
        if holder.refs == 0 && key in s.locks && s.locks[key] == h then s.locks - {key} else s.locks,
        s.holders[h := holder], s.frames - {f})
  }

  /** Whoever leaves takes no entry away that belongs to another holder, not even under the same key. */
  lemma OthersEntriesStay(s: State, f: nat, key: Key)
    requires Enabled(s, Unregister(f)) && key in s.locks && s.locks[key] != s.frames[f].holder
    ensures key in Next(s, Unregister(f)).locks && Next(s, Unregister(f)).locks[key] == s.locks[key]
  {
  }

  ghost predicate Run(states: seq<State>, steps: seq<Step>) {
    && |states| == |steps| + 1 && states[0] == Idle
    && forall i :: 0 <= i < |steps| ==> Enabled(states[i], steps[i]) && states[i + 1] == Next(states[i], steps[i])
  }

  function Users(s: State, h: nat): set<nat> {
    set f | f in s.frames && s.frames[f].holder == h
  }

  function Insiders(s: State, h: nat): set<nat> {
    set f | f in s.frames && s.frames[f].holder == h && s.frames[f].phase.Inside?
  }

  /** An activation uses the holder registered for its key, and owns its lock while inside. */
  predicate FrameOk(s: State, f: nat)
    requires f in s.frames
  {
    var frame := s.frames[f];
    && frame.key in s.locks && s.locks[frame.key] == frame.holder && frame.holder in s.holders
    && (frame.phase.Inside? ==> s.holders[frame.holder].owner == Some(frame.thread))
  }

  ghost predicate FramesOk(s: State) {
    forall f {:trigger FrameOk(s, f)} :: f in s.frames ==> FrameOk(s, f)
  }

  /** Every registered holder is in use and belongs to one key. */
  ghost predicate LocksOk(s: State) {
    && (forall k {:trigger InUse(s, k)} :: k in s.locks ==> InUse(s, k))
    && (forall k, l :: k in s.locks && l in s.locks && s.locks[k] == s.locks[l] ==> k == l)
  }

  predicate InUse(s: State, k: Key)
    requires k in s.locks
  {
    s.locks[k] in s.holders && s.holders[s.locks[k]].refs > 0
  }

  /** Both counters of a holder are right. */
  predicate CountOk(s: State, h: nat)
    requires h in s.holders
  {
    && s.holders[h].refs == |Users(s, h)| && s.holders[h].depth == |Insiders(s, h)|
    && (s.holders[h].owner.None? <==> s.holders[h].depth == 0)
  }

  ghost predicate CountsOk(s: State) {
    forall h {:trigger CountOk(s, h)} :: h in s.holders ==> CountOk(s, h)
  }

  ghost predicate Inv(s: State) {
    FramesOk(s) && LocksOk(s) && CountsOk(s)
  }

  /** The holder whose counters a step changes. */
  function Touched(s: State, step: Step): nat
    requires Enabled(s, step)
  {
    if step.Register? then if step.key in s.locks then s.locks[step.key] else step.newHolder
    else s.frames[step.frame].holder
  }

  lemma UsersAfter(s: State, step: Step, h: nat)
    requires Enabled(s, step)
    ensures Users(Next(s, step), h) ==
            if h != Touched(s, step) then Users(s, h)
            else if step.Register? then Users(s, h) + {step.frame}
            else if step.Unregister? then Users(s, h) - {step.frame} else Users(s, h)
  {
  }

  lemma InsidersAfter(s: State, step: Step, h: nat)
    requires Enabled(s, step)
    ensures Insiders(Next(s, step), h) ==
            if h == Touched(s, step) && step.Acquire? then Insiders(s, h) + {step.frame}
            else if h == Touched(s, step) && step.Release? then Insiders(s, h) - {step.frame}
            else Insiders(s, h)
  {
  }

  lemma NewHolderIsUnused(s: State, h: nat)
    requires Inv(s) && h !in s.holders
    ensures Users(s, h) == {} && Insiders(s, h) == {}
  {
    forall f | f in s.frames
      ensures s.frames[f].holder != h
    {
      assert FrameOk(s, f);
    }
  }

  lemma CountStaysOk(s: State, step: Step, h: nat)
    requires Inv(s) && Enabled(s, step) && h in Next(s, step).holders
    ensures CountOk(Next(s, step), h)
  {
    UsersAfter(s, step, h);
    InsidersAfter(s, step, h);
    if h in s.holders {
      assert CountOk(s, h);
      KnownHolderStaysRight(s, step, h);
    } else {
      NewHolderIsUnused(s, h);
    }
  }

  lemma KnownHolderStaysRight(s: State, step: Step, h: nat)
    requires Enabled(s, step) && h in s.holders && CountOk(s, h)
    ensures h in Next(s, step).holders && CountOk(Next(s, step), h)
  {
    UsersAfter(s, step, h);
    InsidersAfter(s, step, h);
    if h == Touched(s, step) {
      if step.Register? {
        assert step.frame !in Users(s, h);
      } else {
        assert step.frame in Users(s, h);
        assert step.Acquire? ==> step.frame !in Insiders(s, h);
        assert step.Release? ==> step.frame in Insiders(s, h);
      }
    }
  }

  lemma FrameStaysOk(s: State, step: Step, f: nat)
    requires Inv(s) && Enabled(s, step) && f in Next(s, step).frames
    ensures FrameOk(Next(s, step), f)
  {
    if step.Register? {
      assert step.key in s.locks ==> InUse(s, step.key);
    } else {
      assert FrameOk(s, step.frame);
    }
    if f in s.frames {
      assert FrameOk(s, f);
      if !step.Register? && f != step.frame && s.frames[f].holder == Touched(s, step) {
        assert CountOk(s, Touched(s, step));
        OthersKeepTheHolder(s, step, f);
      }
    }
  }

  /** Another user of the holder that a step gives up keeps it alive; another thread's user is not inside. */
  lemma OthersKeepTheHolder(s: State, step: Step, f: nat)
    requires Enabled(s, step) && !step.Register? && f in s.frames && f != step.frame && s.frames[f].holder == Touched(s, step)
    requires Touched(s, step) in s.holders && CountOk(s, Touched(s, step))
    ensures s.holders[Touched(s, step)].refs >= 2
    ensures step.Release? && s.holders[Touched(s, step)].depth == 1 ==> !s.frames[f].phase.Inside?
  {
    var h := Touched(s, step);
    assert step.frame in Users(s, h) && f in Users(s, h);
    CardinalityTwo(Users(s, h), step.frame, f);
    if step.Release? && s.holders[h].depth == 1 {
      assert step.frame in Insiders(s, h);
      CardinalityOne(Insiders(s, h), step.frame);
      assert f !in Insiders(s, h);
    }
  }

  lemma CardinalityOne<T>(s: set<T>, x: T)
    requires |s| == 1 && x in s
    ensures s == {x}
  {
    assert |s - {x}| == 0;
  }

  lemma CardinalityTwo<T>(s: set<T>, x: T, y: T)
    requires x in s && y in s && x != y
    ensures |s| >= 2
  {
    assert |s - {x, y}| == |s| - 2;
  }

  lemma LockStaysInUse(s: State, step: Step, k: Key)
    requires Inv(s) && Enabled(s, step) && k in Next(s, step).locks
    ensures InUse(Next(s, step), k)
  {
    assert k in s.locks ==> InUse(s, k);
    var h := Touched(s, step);
    if h in s.holders {
      assert CountOk(s, h);
    }
    if !step.Register? {
      assert FrameOk(s, step.frame);
      assert step.frame in Users(s, h);
    }
  }

  lemma LocksStayDistinct(s: State, step: Step, k: Key, l: Key)
    requires Inv(s) && Enabled(s, step)
    requires k in Next(s, step).locks && l in Next(s, step).locks && Next(s, step).locks[k] == Next(s, step).locks[l]
    ensures k == l
  {
    assert k in s.locks ==> InUse(s, k);
    assert l in s.locks ==> InUse(s, l);
  }

  lemma StepKeepsInv(s: State, step: Step)
    requires Inv(s) && Enabled(s, step)
    ensures Inv(Next(s, step))
  {
    var t := Next(s, step);
    forall h | h in t.holders
      ensures CountOk(t, h)
    {
      CountStaysOk(s, step, h);
    }
    forall f | f in t.frames
      ensures FrameOk(t, f)
    {
      FrameStaysOk(s, step, f);
    }
    forall k | k in t.locks
      ensures InUse(t, k)
    {
      LockStaysInUse(s, step, k);
    }
    forall k, l | k in t.locks && l in t.locks && t.locks[k] == t.locks[l]
      ensures k == l
    {
      LocksStayDistinct(s, step, k, l);
    }
  }

  /** The invariant holds in every state of every interleaving. */
  lemma {:induction false} RunsKeepInv(states: seq<State>, steps: seq<Step>, i: nat)
    requires Run(states, steps) && i <= |steps|
    ensures Inv(states[i])
  {
    if i > 0 {
      RunsKeepInv(states, steps, i - 1);
      StepKeepsInv(states[i - 1], steps[i - 1]);
    }
  }

  /** The invariant spelled out for all activations, keys and holders. */
  lemma Facts(s: State)
    requires Inv(s)
    ensures forall f :: f in s.frames ==>
              && s.frames[f].key in s.locks && s.locks[s.frames[f].key] == s.frames[f].holder && s.frames[f].holder in s.holders
              && (s.frames[f].phase.Inside? ==> s.holders[s.frames[f].holder].owner == Some(s.frames[f].thread))
    ensures forall k :: k in s.locks ==> s.locks[k] in s.holders && |Users(s, s.locks[k])| > 0
    ensures forall h :: h in s.holders ==> s.holders[h].depth == |Insiders(s, h)| && (s.holders[h].owner.None? <==> s.holders[h].depth == 0)
  {
    forall f | f in s.frames
      ensures FrameOk(s, f)
    {
    }
    forall h | h in s.holders
      ensures CountOk(s, h)
    {
    }
    forall k | k in s.locks
      ensures InUse(s, k) && |Users(s, s.locks[k])| > 0
    {
      assert InUse(s, k) && CountOk(s, s.locks[k]);
    }
  }

  ghost predicate Used(s: State, k: Key) {
    exists f :: f in s.frames && s.frames[f].key == k
  }

  lemma RegisteredIffUsed(s: State, k: Key)
    requires Inv(s)
    ensures k in s.locks <==> Used(s, k)
  {
    Facts(s);
    if k in s.locks {
      var f :| f in Users(s, s.locks[k]);
      assert s.locks[s.frames[f].key] == s.locks[k];
    }
  }

  /** Mutual exclusion and bookkeeping, in every state of every interleaving: activations of one key share one
      holder; two of them inside belong to the same thread; and a key is registered exactly while it has users,
      so nothing is registered when nobody uses the registry. */
  lemma Exclusion(states: seq<State>, steps: seq<Step>, i: nat)
    requires Run(states, steps) && i <= |steps|
    ensures var s := states[i];
            && (forall f, g | f in s.frames && g in s.frames && s.frames[f].key == s.frames[g].key ::
                  && s.frames[f].holder == s.frames[g].holder
                  && (s.frames[f].phase.Inside? && s.frames[g].phase.Inside? ==> s.frames[f].thread == s.frames[g].thread))
            && (forall k :: k in s.locks <==> Used(s, k))
            && (s.frames == map[] ==> s.locks == map[])
  {
    RunsKeepInv(states, steps, i);
    Facts(states[i]);
    forall k {
      RegisteredIffUsed(states[i], k);
    }
  }

  /** A holder leaves the registry in the very step that gives up its last use and in no other, and the identity test
      on the way out never finds another holder under the key. */
  lemma LastUserDeletes(states: seq<State>, steps: seq<Step>, i: nat)
    requires Run(states, steps) && i < |steps|
    ensures var s, t, step := states[i], states[i + 1], steps[i];
            if step.Unregister? then
              var key := s.frames[step.frame].key;
              && key in s.locks && s.locks[key] == s.frames[step.frame].holder
              && (key !in t.locks <==> forall f :: f in s.frames && s.frames[f].key == key ==> f == step.frame)
            else
              forall k :: k in s.locks ==> k in t.locks && t.locks[k] == s.locks[k]
  {
    RunsKeepInv(states, steps, i);
    if steps[i].Unregister? {
      RunsKeepInv(states, steps, i + 1);
      UnregisterDeletes(states[i], steps[i].frame);
    }
  }

  lemma UnregisterDeletes(s: State, frame: nat)
    requires Inv(s) && Enabled(s, Unregister(frame)) && Inv(Next(s, Unregister(frame)))
    ensures var t, key := Next(s, Unregister(frame)), s.frames[frame].key;
            && key in s.locks && s.locks[key] == s.frames[frame].holder
            && (key !in t.locks <==> forall f :: f in s.frames && s.frames[f].key == key ==> f == frame)
  {
    var t, key := Next(s, Unregister(frame)), s.frames[frame].key;
    Facts(s);
    RegisteredIffUsed(t, key);
    if f :| f in s.frames && s.frames[f].key == key && f != frame {
      assert f in t.frames && t.frames[f].key == key;
    }
  }

  /** A waiting thread can take its lock whenever no other thread is inside the same section. */
  lemma FreeLocksCanBeTaken(states: seq<State>, steps: seq<Step>, i: nat, f: nat)
    requires Run(states, steps) && i <= |steps|
    requires f in states[i].frames && states[i].frames[f].phase.Waiting?
    ensures Enabled(states[i], Acquire(f)) <==>
            forall g :: g in states[i].frames && states[i].frames[g].key == states[i].frames[f].key && states[i].frames[g].phase.Inside? ==>
                          states[i].frames[g].thread == states[i].frames[f].thread
  {
    var s := states[i];
    RunsKeepInv(states, steps, i);
    Facts(s);
    var h := s.frames[f].holder;
    if s.holders[h].depth > 0 {
      var g :| g in Insiders(s, h);
      assert s.locks[s.frames[g].key] == s.locks[s.frames[f].key];
    }
  }
}
