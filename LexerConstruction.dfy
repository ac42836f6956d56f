/**
 * The construction steps of `Lexer::from` in lex.rs: the worklist exploration
 * of the DFA from the anchored start state, the per-state match sets, and
 * the backward fixpoint that turns them into possible sets.
 *
 * `FxHashMap`s are Dafny maps; where the source iterates a map or collects
 * its keys, the order is left open (`:|` picks any remaining key).
 */
module LexerConstruction {
  import opened Vobs
  import opened Automaton

  /**
   * What the exploration leaves in `incoming`: its keys are exactly the
   * states reachable from the start state, and `o` is listed as a
   * predecessor of `s` exactly when `o` is reachable and some byte leads
   * from `o` to `s`.
   */
  ghost predicate Explored(d: Dfa, incoming: map<State, seq<State>>)
  {
    (forall s :: s in incoming <==> Reachable(d, s)) &&
    (forall s, o :: s in incoming ==> (o in incoming[s] <==> o in incoming && Edge(d, o, s)))
  }

  /** A set of states that contains the targets of all transitions out of it contains every run out of it. */
  lemma {:induction false} RunStaysIn(d: Dfa, keys: set<State>, s: State, w: seq<Byte>)
    requires s in keys
    requires forall o, b :: o in keys ==> d.next(o, b) in keys
    ensures Run(d, s, w) in keys
    decreases |w|
  {
    if w != [] {
      RunStaysIn(d, keys, d.next(s, w[0]), w[1..]);
    }
  }

  /** Every discovered state is reachable, and every recorded predecessor is a discovered state with an edge. */
  ghost predicate Discovered(d: Dfa, incoming: map<State, seq<State>>)
  {
    (forall t :: t in incoming ==> Reachable(d, t) && d.IsState(t)) &&
    (forall t, o :: t in incoming && o in incoming[t] ==> o in incoming && Edge(d, o, t))
  }

  /** All 256 transitions out of `o` have been tried: each target is discovered and lists `o`. */
  ghost predicate Visited(d: Dfa, incoming: map<State, seq<State>>, o: State)
  {
    forall c: Byte :: d.next(o, c) in incoming && o in incoming[d.next(o, c)]
  }

  /** `after` keeps every key of `before`, and every predecessor list only grew at its end. */
  predicate Extends(before: map<State, seq<State>>, after: map<State, seq<State>>)
  {
    forall t :: t in before ==> t in after && before[t] <= after[t]
  }

  lemma VisitedStable(d: Dfa, before: map<State, seq<State>>, after: map<State, seq<State>>, o: State)
    requires Visited(d, before, o) && Extends(before, after)
    ensures Visited(d, after, o)
  {
    forall c: Byte ensures d.next(o, c) in after && o in after[d.next(o, c)] {
      var t := d.next(o, c);
      assert o in before[t];
      assert before[t] <= after[t];
    }
  }

  lemma DiscoveredAdd(d: Dfa, incoming: map<State, seq<State>>, t: State)
    requires Discovered(d, incoming) && t !in incoming && Reachable(d, t) && d.IsState(t)
    ensures Discovered(d, incoming[t := []])
  {
  }

  lemma DiscoveredRecord(d: Dfa, incoming: map<State, seq<State>>, o: State, t: State)
    requires Discovered(d, incoming) && o in incoming && t in incoming && Edge(d, o, t)
    ensures Discovered(d, incoming[t := incoming[t] + [o]])
  {
    var after := incoming[t := incoming[t] + [o]];
    forall u, p | u in after && p in after[u] ensures p in after && Edge(d, p, u) {
      if u == t && p !in incoming[t] {
        assert p == o;
      }
    }
  }

  /**
   * The body of the worklist loop for the popped state `s`: for each of the
   * 256 bytes, push the target if it is new and record `s` as its predecessor.
   */
  method Visit(d: Dfa, s: State, incoming: map<State, seq<State>>, todo: seq<State>)
    returns (incoming': map<State, seq<State>>, todo': seq<State>)
    requires d.WellFormed() && s in incoming && Discovered(d, incoming)
    ensures Discovered(d, incoming') && Extends(incoming, incoming') && Visited(d, incoming', s)
    ensures forall t :: t in todo' <==> t in todo || (t in incoming' && t !in incoming)
    ensures incoming'.Keys == incoming.Keys ==> todo' == todo
  {
    incoming', todo' := incoming, todo;
    for b := 0 to 256
      invariant Discovered(d, incoming') && Extends(incoming, incoming')
      invariant forall t :: t in todo' <==> t in todo || (t in incoming' && t !in incoming)
      invariant incoming'.Keys == incoming.Keys ==> todo' == todo
      invariant VisitedBelow(d, incoming', s, b)
    {
      var s2 := d.next(s, b);
      ghost var prev := incoming';
      if s2 !in incoming' {
        ReachableNext(d, s, b);
        ReachableIsState(d, s2);
        DiscoveredAdd(d, incoming', s2);
        todo' := todo' + [s2];
        incoming' := incoming'[s2 := []];
      }
      assert Edge(d, s, s2);
      DiscoveredRecord(d, incoming', s, s2);
      incoming' := incoming'[s2 := incoming'[s2] + [s]];
      RecordExtends(incoming, prev, incoming', s2, s);
      VisitedBelowStep(d, prev, incoming', s, b);
    }
  }

  /** The transitions out of `o` on the bytes below `b` have been tried. */
  ghost predicate VisitedBelow(d: Dfa, incoming: map<State, seq<State>>, o: State, b: int)
  {
    forall c: Byte :: c < b ==> d.next(o, c) in incoming && o in incoming[d.next(o, c)]
  }

  lemma RecordExtends(first: map<State, seq<State>>, before: map<State, seq<State>>,
                      after: map<State, seq<State>>, t: State, o: State)
    requires Extends(first, before)
    requires after == (if t in before then before else before[t := []])[t := (if t in before then before[t] else []) + [o]]
    ensures Extends(before, after) && Extends(first, after)
  {
    forall u | u in first ensures u in after && first[u] <= after[u] {
      assert first[u] <= before[u];
      assert before[u] <= after[u];
    }
  }

  lemma VisitedBelowStep(d: Dfa, before: map<State, seq<State>>, after: map<State, seq<State>>, o: State, b: Byte)
    requires VisitedBelow(d, before, o, b) && Extends(before, after)
    requires d.next(o, b) in after && o in after[d.next(o, b)]
    ensures VisitedBelow(d, after, o, b + 1)
  {
    forall c: Byte | c < b ensures d.next(o, c) in after && o in after[d.next(o, c)] {
      assert before[d.next(o, c)] <= after[d.next(o, c)];
    }
  }

  /**
   * The `todo` worklist loop: pop a state and visit it, until no state is
   * left to visit. Every state is pushed once, when it is first discovered,
   * so the loop ends: either a visit discovers a new state of the finite DFA,
   * or the worklist gets shorter.
   */
  method Explore(d: Dfa) returns (incoming: map<State, seq<State>>)
    requires d.WellFormed()
    ensures Explored(d, incoming)
  {
    var initial := d.initial;
    var todo := [initial];
    incoming := map[initial := []];
    assert Run(d, d.initial, []) == initial;
    while |todo| > 0
      invariant d.initial in incoming
      invariant forall s :: s in todo ==> s in incoming
      invariant Discovered(d, incoming)
      invariant forall o :: o in incoming && o !in todo ==> Visited(d, incoming, o)
      decreases d.AllStates() - incoming.Keys, |todo|
    {
      ghost var todoHead := todo;
      var s := todo[|todo| - 1];
      todo := todo[..|todo| - 1];
      assert todoHead == todo + [s];
      ghost var before, todo0 := incoming, todo;
      incoming, todo := Visit(d, s, incoming, todo);
      forall o | o in incoming && o !in todo ensures Visited(d, incoming, o) {
        if o != s {
          assert o in before && o !in todo0;
          assert o !in todoHead;
          VisitedStable(d, before, incoming, o);
        }
      }
      if incoming.Keys != before.Keys {
        FewerUndiscovered(d, before, incoming);
      }
    }
    VisitedAllExplored(d, incoming);
  }

  /** Discovering a new state leaves fewer of the DFA's states undiscovered. */
  lemma FewerUndiscovered(d: Dfa, before: map<State, seq<State>>, after: map<State, seq<State>>)
    requires Discovered(d, after) && Extends(before, after) && after.Keys != before.Keys
    ensures d.AllStates() - after.Keys < d.AllStates() - before.Keys
  {
    assert before.Keys <= after.Keys;
    var t :| t in after.Keys && t !in before.Keys;
    assert d.IsState(t);
    assert t in d.AllStates() - before.Keys;
  }

  /** Once every discovered state has been visited, exploration is complete. */
  lemma VisitedAllExplored(d: Dfa, incoming: map<State, seq<State>>)
    requires d.initial in incoming && Discovered(d, incoming)
    requires forall o :: o in incoming ==> Visited(d, incoming, o)
    ensures Explored(d, incoming)
  {
    forall s | Reachable(d, s) ensures s in incoming {
      var w :| Run(d, d.initial, w) == s;
      forall o, b | o in incoming ensures d.next(o, b) in incoming {
        assert Visited(d, incoming, o);
      }
      RunStaysIn(d, incoming.Keys, d.initial, w);
    }
    forall s, o | s in incoming && o in incoming && Edge(d, o, s) ensures o in incoming[s] {
      var b: Byte :| d.next(o, b) == s;
      assert Visited(d, incoming, o);
    }
  }

  /** `incoming.keys().collect()`: the keys, each once, in some order. */
  method Enumerate(keys: set<State>) returns (states: seq<State>)
    ensures forall s :: s in states <==> s in keys
    ensures forall i, j :: 0 <= i < j < |states| ==> states[i] != states[j]
  {
    states := [];
    var rest := keys;
    while rest != {}
      invariant forall s :: s in keys <==> s in rest || s in states
      invariant forall s :: s in rest ==> s !in states
      invariant forall i, j :: 0 <= i < j < |states| ==> states[i] != states[j]
      decreases rest
    {
      var s :| s in rest;
      states := states + [s];
      rest := rest - {s};
    }
  }

  /**
   * The match set of one state: a vob of `numPatterns` clear bits, with the
   * bit of every pattern reported by the end-of-input transition set.
   */
  method MatchVob(d: Dfa, s: State) returns (v: Vob)
    requires d.WellFormed() && d.IsState(s)
    ensures v == MatchSet(d, s)
  {
    v := Zeros(d.numPatterns);
    var s2 := d.eoi(s);
    if d.isMatch(s2) {
      var pats := d.matchPatterns(s2);
      for k := 0 to |pats|
        invariant |v| == d.numPatterns
        invariant forall i :: 0 <= i < |v| ==> (v[i] <==> i in pats[..k])
      {
        assert pats[..k + 1] == pats[..k] + [pats[k]];
        v := v[pats[k] := true];
      }
      assert pats[..|pats|] == pats;
    }
  }

  /** `tokenset_by_state` before the fixpoint: each state mapped to its match set. */
  method MatchSets(d: Dfa, states: seq<State>) returns (tbs: map<State, Vob>)
    requires d.WellFormed()
    requires forall s :: s in states ==> d.IsState(s)
    ensures forall s :: s in tbs <==> s in states
    ensures forall s :: s in tbs ==> tbs[s] == MatchSet(d, s)
  {
    tbs := map[];
    for k := 0 to |states|
      invariant forall s :: s in tbs <==> s in states[..k]
      invariant forall s :: s in tbs ==> tbs[s] == MatchSet(d, s)
    {
      var v := MatchVob(d, states[k]);
      tbs := tbs[states[k] := v];
    }
  }

  /** Every bit set for a state names a pattern that can still be completed from it. */
  ghost predicate Sound(d: Dfa, tbs: map<State, Vob>)
  {
    forall s, i :: s in tbs && 0 <= i < |tbs[s]| && tbs[s][i] ==> CanComplete(d, s, i)
  }

  /** No state's set holds a bit that one of its predecessors lacks. */
  predicate Closed(incoming: map<State, seq<State>>, tbs: map<State, Vob>)
  {
    forall s, o :: s in incoming && o in incoming[s] ==>
      s in tbs && o in tbs && Subset(tbs[s], tbs[o])
  }

  /** `after` has the keys of `before`, and every set of `before` is part of the one in `after`. */
  predicate Grown(before: map<State, Vob>, after: map<State, Vob>)
  {
    after.Keys == before.Keys &&
    forall s :: s in before ==> Subset(before[s], after[s])
  }

  predicate Widths(tbs: map<State, Vob>, n: nat)
  {
    forall s :: s in tbs ==> |tbs[s]| == n
  }

  /** The (state, pattern) pairs whose bit is still clear: the measure of the fixpoint. */
  ghost function Unset(tbs: map<State, Vob>): set<(State, nat)>
  {
    set s, i: nat | s in tbs && i < |tbs[s]| && !tbs[s][i] :: (s, i)
  }

  lemma UnsetShrinks(before: map<State, Vob>, after: map<State, Vob>, ws: State, wi: nat)
    requires Grown(before, after)
    requires ws in before && wi < |before[ws]| && after[ws][wi] && !before[ws][wi]
    ensures Unset(after) < Unset(before)
  {
    assert (ws, wi) in Unset(before) - Unset(after);
  }

  /** Unioning a predecessor's sound set with the sound set of a state keeps it sound. */
  lemma SoundUnion(d: Dfa, o: State, s: State, ours: Vob, theirs: Vob)
    requires Edge(d, o, s) && |ours| == |theirs|
    requires forall i :: 0 <= i < |ours| && ours[i] ==> CanComplete(d, s, i)
    requires forall i :: 0 <= i < |theirs| && theirs[i] ==> CanComplete(d, o, i)
    ensures forall i :: 0 <= i < |ours| && Union(ours, theirs)[i] ==> CanComplete(d, o, i)
  {
    var b: Byte :| d.next(o, b) == s;
    forall i | 0 <= i < |ours| && ours[i] ensures CanComplete(d, o, i) {
      CanCompleteBack(d, o, b, i);
    }
  }

  lemma GrownTransitive(a: map<State, Vob>, b: map<State, Vob>, c: map<State, Vob>)
    requires Grown(a, b) && Grown(b, c)
    ensures Grown(a, c)
  {
    forall s | s in a ensures Subset(a[s], c[s]) {
      SubsetTransitive(a[s], b[s], c[s]);
    }
  }

  /**
   * The inner loop of one pass, for the state `s`: union the set `s` had when
   * the loop began into the set of each predecessor, counting the sets that
   * grew.
   */
  method UnionIntoPredecessors(d: Dfa, s: State, preds: seq<State>, tbs: map<State, Vob>, n: nat)
    returns (tbs': map<State, Vob>, numSet: nat)
    requires s in tbs && Widths(tbs, n) && Sound(d, tbs)
    requires forall o :: o in preds ==> o in tbs && Edge(d, o, s)
    ensures Grown(tbs, tbs') && Widths(tbs', n) && Sound(d, tbs')
    ensures numSet == 0 ==> tbs' == tbs && forall o :: o in preds ==> Subset(tbs[s], tbs[o])
    ensures numSet > 0 ==> Unset(tbs') < Unset(tbs)
  {
    tbs', numSet := tbs, 0;
    var ours := tbs[s];
    ghost var ws: State, wi: nat := 0, 0;
    for j := 0 to |preds|
      invariant Grown(tbs, tbs') && Widths(tbs', n) && Sound(d, tbs')
      invariant numSet > 0 ==> ws in tbs && wi < n && tbs'[ws][wi] && !tbs[ws][wi]
      invariant numSet == 0 ==> tbs' == tbs
      invariant numSet == 0 ==> forall o :: o in preds[..j] ==> Subset(ours, tbs[o])
    {
      var o := preds[j];
      var theirs := tbs'[o];
      SoundUnion(d, o, s, ours, theirs);
      var tmp := Union(ours, theirs);
      if tmp != theirs {
        wi := NewBit(theirs, tmp);
        ws := o;
        SubsetTransitive(tbs[o], theirs, tmp);
        numSet := numSet + 1;
        tbs' := tbs'[o := tmp];
      } else {
        UnionUnchangedIffSubset(ours, theirs);
      }
      assert preds[..j + 1] == preds[..j] + [o];
    }
    assert preds[..|preds|] == preds;
    if numSet > 0 {
      UnsetShrinks(tbs, tbs', ws, wi);
    }
  }

  /**
   * One pass of the fixpoint `loop` over all states, counting in `numSet`
   * the predecessor sets that grew.
   */
  method Pass(d: Dfa, states: seq<State>, incoming: map<State, seq<State>>, tbs: map<State, Vob>, n: nat)
    returns (tbs': map<State, Vob>, numSet: nat)
    requires forall s :: s in states <==> s in incoming
    requires forall s, o :: s in incoming && o in incoming[s] ==> o in incoming && Edge(d, o, s)
    requires tbs.Keys == incoming.Keys && Widths(tbs, n) && Sound(d, tbs)
    ensures Grown(tbs, tbs') && Widths(tbs', n) && Sound(d, tbs')
    ensures numSet == 0 <==> tbs' == tbs
    ensures numSet == 0 ==> Closed(incoming, tbs')
    ensures numSet > 0 ==> Unset(tbs') < Unset(tbs)
  {
    tbs', numSet := tbs, 0;
    for k := 0 to |states|
      invariant Grown(tbs, tbs') && Widths(tbs', n) && Sound(d, tbs')
      invariant numSet == 0 ==> tbs' == tbs
      invariant numSet > 0 ==> Unset(tbs') < Unset(tbs)
      invariant numSet == 0 ==> ClosedUpTo(incoming, tbs, states, k)
    {
      var s := states[k];
      var next, count := UnionIntoPredecessors(d, s, incoming[s], tbs', n);
      GrownTransitive(tbs, tbs', next);
      if numSet + count == 0 {
        ClosedUpToStep(incoming, tbs, states, k);
      }
      tbs', numSet := next, numSet + count;
    }
    if numSet == 0 {
      ClosedUpToAll(incoming, tbs, states);
    }
  }

  lemma ClosedUpToStep(incoming: map<State, seq<State>>, tbs: map<State, Vob>, states: seq<State>, k: nat)
    requires k < |states| && states[k] in incoming && states[k] in tbs
    requires ClosedUpTo(incoming, tbs, states, k)
    requires forall o :: o in incoming[states[k]] ==> o in tbs && Subset(tbs[states[k]], tbs[o])
    ensures ClosedUpTo(incoming, tbs, states, k + 1)
  {
  }

  lemma ClosedUpToAll(incoming: map<State, seq<State>>, tbs: map<State, Vob>, states: seq<State>)
    requires forall s :: s in states <==> s in incoming
    requires ClosedUpTo(incoming, tbs, states, |states|)
    ensures Closed(incoming, tbs)
  {
    forall s, o | s in incoming && o in incoming[s] ensures s in tbs && o in tbs && Subset(tbs[s], tbs[o]) {
      var i :| 0 <= i < |states| && states[i] == s;
    }
  }

  /** The sets of the first `k` states are part of their predecessors' sets. */
  predicate ClosedUpTo(incoming: map<State, seq<State>>, tbs: map<State, Vob>, states: seq<State>, k: nat)
  {
    forall i, o :: 0 <= i < k && i < |states| && states[i] in incoming && o in incoming[states[i]] ==>
      states[i] in tbs && o in tbs && Subset(tbs[states[i]], tbs[o])
  }

  /**
   * Completeness of a closed assignment: if every set holds its state's match
   * set and no set holds a bit its predecessor lacks, then any pattern
   * completed by some continuation from `s` has its bit set at `s`.
   */
  lemma {:induction false} ClosedComplete(d: Dfa, incoming: map<State, seq<State>>, tbs: map<State, Vob>,
                                          s: State, w: seq<Byte>, i: nat)
    requires Explored(d, incoming) && tbs.Keys == incoming.Keys && Closed(incoming, tbs)
    requires Widths(tbs, d.numPatterns)
    requires forall t :: t in tbs ==> Subset(MatchSet(d, t), tbs[t])
    requires s in tbs && i < d.numPatterns && Completes(d, s, w, i)
    ensures tbs[s][i]
    decreases |w|
  {
    if w == [] {
      assert MatchSet(d, s)[i];
    } else {
      var s' := d.next(s, w[0]);
      ReachableNext(d, s, w[0]);
      assert Edge(d, s, s');
      ClosedComplete(d, incoming, tbs, s', w[1..], i);
    }
  }

  /**
   * The backward fixpoint: passes repeat until one changes nothing. The sets
   * only grow, so the number of clear bits bounds the number of passes. At
   * the end each state holds exactly its possible set, and no state's set
   * holds a bit that a predecessor's lacks.
   */
  method Propagate(d: Dfa, states: seq<State>, incoming: map<State, seq<State>>, init: map<State, Vob>)
    returns (tbs: map<State, Vob>)
    requires d.WellFormed() && Explored(d, incoming)
    requires forall s :: s in states <==> s in incoming
    requires init.Keys == incoming.Keys && forall s :: s in init ==> init[s] == MatchSet(d, s)
    ensures tbs.Keys == incoming.Keys
    ensures forall s :: s in tbs ==> tbs[s] == PossibleSet(d, s)
    ensures Closed(incoming, tbs)
  {
    var n := d.numPatterns;
    tbs := init;
    forall s, i | s in tbs && 0 <= i < |tbs[s]| && tbs[s][i] ensures CanComplete(d, s, i) {
      assert Completes(d, s, [], i);
    }
    while true
      invariant Grown(init, tbs) && Widths(tbs, n) && Sound(d, tbs)
      decreases Unset(tbs)
    {
      var grown, numSet := Pass(d, states, incoming, tbs, n);
      if numSet == 0 {
        break;
      }
      tbs := grown;
    }
    forall s | s in tbs ensures tbs[s] == PossibleSet(d, s) {
      forall i | 0 <= i < n ensures tbs[s][i] == PossibleSet(d, s)[i] {
        if CanComplete(d, s, i) {
          var w :| Completes(d, s, w, i);
          ClosedComplete(d, incoming, tbs, s, w, i);
        }
      }
    }
  }
}
