/** The LRU maintainer by itself drains the bump buffer; and when a bump gets in. */
module BumpDrain {
  import opened Common
  import opened BipBuffer
  import opened BumpQueue

  /** A bump gets into the buffer if and only if the free piece behind the newest entry is long enough: up to region
      A while region B is in use, else up to the end of the buffer. A bump that does not get in gives its reference
      back. */
  lemma GetsIn(s: State, k: nat)
    requires Inv(s) && Enabled(s, APush(k))
    ensures var t := Apply(s, APush(k)); var v := s.cursors; var e := s.pending[k];
      && t.pending == s.pending[..k] + s.pending[k + 1..] && t.processed == s.processed && t.consumer == s.consumer
      && if s.entrySize <= (if v.bInuse then v.aStart - v.bEnd else v.size - v.aEnd) then
           t.accepted == s.accepted + [e] && t.refs == s.refs && t.dropped == s.dropped
         else
           t.accepted == s.accepted && t.refs == s.refs - multiset{e.it} && t.dropped == s.dropped + 1
           && t.cursors == v && t.mem == s.mem
  {
  }

  /** Steps of the maintainer alone. */
  predicate Alone(actions: seq<Action>) {
    forall i | 0 <= i < |actions| :: !actions[i].ATake? && !actions[i].APush?
  }

  lemma {:induction false} RunTwice(s: State, a: seq<Action>, b: seq<Action>)
    ensures Run(s, a + b) == Run(Run(s, a), b)
    decreases |a|
  {
    if a == [] {
      assert a + b == b;
    } else {
      assert (a + b)[1..] == a[1..] + b;
      RunTwice(if Enabled(s, a[0]) then Apply(s, a[0]) else s, a[1..], b);
    }
  }

  lemma RunOne(s: State, a: Action)
    requires Enabled(s, a)
    ensures Run(s, [a]) == Apply(s, a)
  {
    assert [a][1..] == [];
  }

  /** The maintainer changes nothing of what the workers have done. */
  ghost predicate Beside(s: State, t: State) {
    t.accepted == s.accepted && t.pending == s.pending && t.dropped == s.dropped && t.entrySize == s.entrySize
  }

  /** A batch is carried out entry by entry and then given back to the producers. */
  lemma {:induction false} FinishBatch(s: State) returns (actions: seq<Action>)
    requires Inv(s) && s.consumer.Walking?
    ensures Alone(actions) && |actions| <= s.consumer.todo + 1
    ensures var t := Run(s, actions);
      && Inv(t) && t.consumer.Away? && Beside(s, t)
      && |t.processed| >= |s.processed| + if s.consumer.todo > 0 then 1 else 0
    decreases s.consumer.todo
  {
    var qa, qb, d, m :| InvWith(s, qa, qb, d, m);
    if s.consumer.todo == 0 {
      StepKeeps(s, APoll);
      RunOne(s, APoll);
      return [APoll];
    }
    NextEntry(s, qa, qb, d, m);
    StepKeeps(s, AProcess);
    var t := Apply(s, AProcess);
    var rest := FinishBatch(t);
    RunOne(s, AProcess);
    RunTwice(s, [AProcess], rest);
    actions := [AProcess] + rest;
  }

  lemma Ordered(s: State)
    requires Inv(s)
    ensures s.entrySize > 0 && |s.processed| <= |s.accepted| && s.cursors.aStart <= s.cursors.aEnd
    ensures s.consumer.Away? && s.cursors.aStart == s.cursors.aEnd ==> s.processed == s.accepted && s.refs == Items(s.pending)
  {
    var qa, qb, d, m :| InvWith(s, qa, qb, d, m);
    if s.consumer.Away? && s.cursors.aStart == s.cursors.aEnd {
      assert qa == [] && qb == [];
      assert qa[d..] + qb == [];
    }
  }

  /** A peek takes all of region A. */
  lemma PeekTakes(s: State)
    requires Inv(s) && s.consumer.Away? && s.cursors.aStart != s.cursors.aEnd
    ensures Enabled(s, APeek) && Inv(Apply(s, APeek)) && Beside(s, Apply(s, APeek))
    ensures var t := Apply(s, APeek); var n := s.cursors.aEnd - s.cursors.aStart;
      t.consumer == Walking(n, s.cursors.aStart, n) && n > 0 && t.processed == s.processed
  {
    Ordered(s);
    StepKeeps(s, APeek);
  }

  ghost predicate Empty(s: State) {
    s.consumer.Away? && s.cursors.aStart == s.cursors.aEnd
  }

  /** The rest of the batch at hand, or the next one. */
  lemma NextBatch(s: State) returns (actions: seq<Action>)
    requires Inv(s) && !Empty(s)
    ensures Alone(actions)
    ensures var t := Run(s, actions);
      && Inv(t) && t.consumer.Away? && Beside(s, t)
      && |t.processed| >= |s.processed| && (s.consumer.Away? ==> |t.processed| > |s.processed|)
  {
    if s.consumer.Walking? {
      actions := FinishBatch(s);
    } else {
      PeekTakes(s);
      var batch := FinishBatch(Apply(s, APeek));
      RunOne(s, APeek);
      RunTwice(s, [APeek], batch);
      actions := [APeek] + batch;
    }
  }

  /** From wherever it is, the maintainer by itself comes to an empty buffer with every accepted bump carried out,
      and then only bumps on their way in hold references. */
  lemma {:induction false} Drains(s: State) returns (actions: seq<Action>)
    requires Inv(s)
    ensures Alone(actions)
    ensures var t := Run(s, actions);
      Empty(t) && Beside(s, t) && t.processed == s.accepted && t.refs == Items(s.pending)
    decreases |s.accepted| - |s.processed|, if s.consumer.Walking? then 1 else 0
  {
    Ordered(s);
    if Empty(s) { return []; }
    actions := NextBatch(s);
    var t := Run(s, actions);
    Ordered(t);
    var rest := Drains(t);
    RunTwice(s, actions, rest);
    actions := actions + rest;
  }
}
