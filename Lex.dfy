/**
 * The lexer of lex.rs: `Lexer::from`, which explores the DFA, computes the
 * possible set of every reachable state and interns it in a shared
 * `VobSet`, and the runtime lookups (`possible_tokens`, `is_dead`,
 * `get_token`, `advance`) that drive maximal-munch tokenisation one byte at
 * a time.
 */
module Lex {
  import opened Wrappers
  import opened Vobs
  import opened VobPool
  import opened Automaton
  import opened LexerConstruction

  type PatIdx = nat

  /** The largest element, as `states_idx.iter().max()` computes it. */
  function MaxOf(xs: seq<nat>): (m: nat)
    requires |xs| > 0
    ensures m in xs && forall x :: x in xs ==> x <= m
  {
    if |xs| == 1 then xs[0]
    else
      var m' := MaxOf(xs[1..]);
      assert forall x :: x in xs ==> x == xs[0] || x in xs[1..];
      if xs[0] >= m' then xs[0] else m'
  }

  /** The smallest element, as the `.min()` over the matched patterns computes it. */
  function MinOf(xs: seq<nat>): (m: nat)
    requires |xs| > 0
    ensures m in xs && forall x :: x in xs ==> m <= x
  {
    if |xs| == 1 then xs[0]
    else
      var m' := MinOf(xs[1..]);
      assert forall x :: x in xs ==> x == xs[0] || x in xs[1..];
      if xs[0] <= m' then xs[0] else m'
  }

  /** No pattern completes at `s`. */
  ghost predicate NoMatch(d: Dfa, s: State)
  {
    forall i: nat :: !MatchesAt(d, s, i)
  }

  /** Pattern `t` completes at `s`, and no pattern with a lower index does. */
  predicate LowestMatch(d: Dfa, s: State, t: PatIdx)
  {
    MatchesAt(d, s, t) && forall j :: 0 <= j < t ==> !MatchesAt(d, s, j)
  }

  datatype Lexer = Lexer(
    dfa: Dfa,
    skipPatterns: Vob,
    friendlyPatternNames: seq<string>,
    possibleByState: map<State, VobIdx>,
    initial: State,
    fileStart: State,
    vobidxByStateOff: seq<VobIdx>)
  {
    /**
     * What `Lexer::from` establishes: the discovered states are exactly the
     * reachable ones, each has a slot in the handle table holding the same
     * handle as `possible_by_state`, and `file_start` is the start state
     * after a newline.
     */
    ghost predicate Valid()
    {
      dfa.WellFormed() &&
      initial == dfa.initial &&
      fileStart == dfa.next(initial, NEWLINE) &&
      (forall s :: s in possibleByState <==> Reachable(dfa, s)) &&
      initial in possibleByState &&
      (forall s, b :: s in possibleByState ==> dfa.next(s, b) in possibleByState) &&
      (forall s :: s in possibleByState ==>
         dfa.Slot(s) < |vobidxByStateOff| && vobidxByStateOff[dfa.Slot(s)] == possibleByState[s])
    }

    /** Every discovered state's handle names its possible set in the pool `vobs`. */
    ghost predicate Interned(vobs: seq<Vob>)
    {
      forall s :: s in possibleByState ==>
        possibleByState[s].idx < |vobs| && vobs[possibleByState[s].idx] == PossibleSet(dfa, s)
    }

    /** `possible_tokens`: the table lookup at the state's slot agrees with `possible_by_state`. */
    function PossibleTokens(state: State): (h: VobIdx)
      requires Valid() && state in possibleByState
      ensures h == possibleByState[state]
    {
      vobidxByStateOff[dfa.Slot(state)]
    }

    /** `is_dead`: the possible set of `state` has the zero handle. */
    predicate IsDead(state: State)
      requires Valid() && state in possibleByState
    {
      PossibleTokens(state).IsZero()
    }

    /**
     * `get_token`: nothing for a state that is not a match state, and
     * otherwise the lowest pattern index the state reports, so that a
     * keyword declared before an identifier pattern wins.
     */
    function GetToken(state: State): (r: Option<PatIdx>)
      requires dfa.WellFormed() && dfa.IsState(state)
      ensures r.None? <==> !dfa.isMatch(state)
      ensures r.Some? ==> r.value in dfa.matchPatterns(state)
      ensures r.Some? ==> forall p :: p in dfa.matchPatterns(state) ==> r.value <= p
    {
      if !dfa.isMatch(state) then None else Some(MinOf(dfa.matchPatterns(state)))
    }

    /**
     * `advance`: one maximal-munch step. On a byte whose target still has a
     * possible pattern, move there and report no token. Otherwise the token
     * ends before this byte: report the lowest pattern completed at `prev`
     * and restart from the start state on the same byte, or fail when no
     * pattern completes at `prev`. At end of input, report the pattern
     * completed at `prev` and return to the start state.
     */
    function Advance(prev: State, byte: Option<Byte>): (r: Option<(State, VobIdx, Option<PatIdx>)>)
      requires Valid() && prev in possibleByState
      ensures r.Some? ==> r.value.0 in possibleByState && r.value.1 == possibleByState[r.value.0]
      ensures (r.Some? && r.value.2.None?) <==> (byte.Some? && !IsDead(dfa.next(prev, byte.value)))
      ensures r.Some? && r.value.2.None? ==> r.value.0 == dfa.next(prev, byte.value)
      ensures r.Some? && r.value.2.Some? ==>
        LowestMatch(dfa, prev, r.value.2.value) &&
        r.value.0 == (if byte.Some? then dfa.next(initial, byte.value) else initial)
      ensures r.None? <==> (byte.None? || IsDead(dfa.next(prev, byte.value))) && NoMatch(dfa, prev)
    {
      ReachableIsState(dfa, prev);
      var tok := GetToken(dfa.eoi(prev));
      TokenIsLowestMatch(prev);
      if byte.Some? then
        var state := dfa.next(prev, byte.value);
        var v := PossibleTokens(state);
        if v.IsZero() then
          if tok.None? then None
          else
            var state := dfa.next(initial, byte.value);
            Some((state, PossibleTokens(state), tok))
        else
          Some((state, v, None))
      else
        if tok.None? then None
        else Some((initial, PossibleTokens(initial), tok))
    }

    /** What `get_token` at the end-of-input transition of `s` says about the patterns completed at `s`. */
    lemma TokenIsLowestMatch(s: State)
      requires dfa.WellFormed() && dfa.IsState(s)
      ensures GetToken(dfa.eoi(s)).None? <==> NoMatch(dfa, s)
      ensures GetToken(dfa.eoi(s)).Some? ==> LowestMatch(dfa, s, GetToken(dfa.eoi(s)).value)
    {
      var e := dfa.eoi(s);
      if dfa.isMatch(e) {
        assert MatchesAt(dfa, s, dfa.matchPatterns(e)[0]);
      }
    }
  }

  /**
   * The first half of `Lexer::from`: explore the DFA, list the discovered
   * states, give each its match set and run the backward fixpoint. The
   * result maps exactly the reachable states, each to its possible set.
   */
  method PossibleSets(d: Dfa) returns (states: seq<State>, tbs: map<State, Vob>)
    requires d.WellFormed()
    ensures forall s :: s in states <==> Reachable(d, s)
    ensures forall s :: s in tbs <==> Reachable(d, s)
    ensures forall s :: s in tbs ==> tbs[s] == PossibleSet(d, s)
    ensures forall s :: s in states ==> d.IsState(s)
    ensures d.initial in states
  {
    assert Run(d, d.initial, []) == d.initial;
    var incoming := Explore(d);
    states := Enumerate(incoming.Keys);
    forall s | s in states ensures d.IsState(s) {
      ReachableIsState(d, s);
    }
    tbs := MatchSets(d, states);
    tbs := Propagate(d, states, incoming, tbs);
  }

  /**
   * `Lexer::from`, from the DFA on: explore the reachable states, compute
   * their match sets, run the backward fixpoint, and intern each possible
   * set into the caller's pool, in a table indexed by slot and again in
   * `possible_by_state`. The pool must already hold its zero vob (see
   * `VobSet.Get`), because the sets are interned in map order.
   */
  method From(d: Dfa, skipPatterns: Vob, friendlyPatternNames: seq<string>, vobset: VobSet)
    returns (lx: Lexer)
    requires d.WellFormed() && vobset.Valid() && |vobset.vobs| > 0
    modifies vobset
    ensures vobset.Valid() && old(vobset.vobs) <= vobset.vobs && vobset.nonEmpty == old(vobset.nonEmpty)
    ensures lx.Valid() && lx.Interned(vobset.vobs)
    ensures lx.dfa == d && lx.skipPatterns == skipPatterns && lx.friendlyPatternNames == friendlyPatternNames
    ensures forall i :: |old(vobset.vobs)| <= i < |vobset.vobs| ==>
      exists s :: Reachable(d, s) && vobset.vobs[i] == PossibleSet(d, s)
  {
    var states, tbs := PossibleSets(d);
    var maxState := MaxOf(states);
    var table := InternTable(d, tbs, maxState, vobset);
    forall i | |old(vobset.vobs)| <= i < |vobset.vobs|
      ensures exists s :: Reachable(d, s) && vobset.vobs[i] == PossibleSet(d, s)
    {
      var k :| k in tbs && tbs[k] == vobset.vobs[i];
    }
    var off := table[..];
    forall k | k in tbs ensures d.Slot(k) < |off| && off[d.Slot(k)].idx < |vobset.vobs| && vobset.vobs[off[d.Slot(k)].idx] == tbs[k] {
      assert off[d.Slot(k)] == table[d.Slot(k)];
    }
    var possibleByState := InternByState(d, tbs, off, vobset);
    var fileStart := d.next(d.initial, NEWLINE);
    lx := Lexer(d, skipPatterns, friendlyPatternNames, possibleByState, d.initial, fileStart, off);
    Assembled(lx, tbs, vobset.vobs);
  }

  /** The pieces `From` computes make a valid lexer whose handles name the possible sets. */
  lemma Assembled(lx: Lexer, tbs: map<State, Vob>, vobs: seq<Vob>)
    requires lx.dfa.WellFormed()
    requires lx.initial == lx.dfa.initial && lx.fileStart == lx.dfa.next(lx.initial, NEWLINE)
    requires forall s :: s in tbs <==> Reachable(lx.dfa, s)
    requires forall s :: s in tbs ==> tbs[s] == PossibleSet(lx.dfa, s)
    requires lx.possibleByState.Keys == tbs.Keys
    requires forall k :: k in tbs ==>
      lx.dfa.Slot(k) < |lx.vobidxByStateOff| && lx.possibleByState[k] == lx.vobidxByStateOff[lx.dfa.Slot(k)] &&
      lx.possibleByState[k].idx < |vobs| && vobs[lx.possibleByState[k].idx] == tbs[k]
    ensures lx.Valid() && lx.Interned(vobs)
  {
    var d := lx.dfa;
    assert Run(d, d.initial, []) == d.initial;
    forall s, b | s in lx.possibleByState ensures d.next(s, b) in lx.possibleByState {
      ReachableNext(d, s, b);
    }
  }

  /**
   * `vobidx_by_state_off`: a table of `1 + (max >> stride2)` zero handles,
   * then, for each state in map order, the handle of its interned set at the
   * state's slot.
   */
  method InternTable(d: Dfa, tbs: map<State, Vob>, maxState: State, vobset: VobSet)
    returns (table: array<VobIdx>)
    requires vobset.Valid() && |vobset.vobs| > 0
    requires forall k :: k in tbs ==> d.IsState(k) && k <= maxState
    modifies vobset
    ensures fresh(table)
    ensures vobset.Valid() && old(vobset.vobs) <= vobset.vobs && vobset.nonEmpty == old(vobset.nonEmpty)
    ensures table.Length == 1 + d.Slot(maxState)
    ensures forall k :: k in tbs ==>
      d.Slot(k) < table.Length && table[d.Slot(k)].idx < |vobset.vobs| && vobset.vobs[table[d.Slot(k)].idx] == tbs[k]
    ensures forall i :: |old(vobset.vobs)| <= i < |vobset.vobs| ==> vobset.vobs[i] in tbs.Values
  {
    table := new VobIdx[1 + d.Slot(maxState)](_ => VobIdx(0));
    ghost var v0 := vobset.vobs;
    var rest := tbs.Keys;
    while rest != {}
      invariant rest <= tbs.Keys
      invariant vobset.Valid() && old(vobset.vobs) <= vobset.vobs && vobset.nonEmpty == old(vobset.nonEmpty)
      invariant forall k :: k in tbs && k !in rest ==>
        d.Slot(k) < table.Length && table[d.Slot(k)].idx < |vobset.vobs| && vobset.vobs[table[d.Slot(k)].idx] == tbs[k]
      invariant forall i :: |v0| <= i < |vobset.vobs| ==> vobset.vobs[i] in tbs.Values
      decreases rest
    {
      var k :| k in rest;
      SlotMonotone(d, k, maxState);
      forall k' | k' in tbs && k' !in rest && k' != k ensures d.Slot(k') != d.Slot(k) {
        SlotInjective(d, k', k);
      }
      ghost var before := vobset.vobs;
      var h := vobset.Get(tbs[k]);
      assert vobset.vobs == before || vobset.vobs == before + [tbs[k]];
      table[d.Slot(k)] := h;
      rest := rest - {k};
    }
  }

  /**
   * `possible_by_state`: each state's set interned again, in map order. The
   * sets are already in the pool, so the pool does not change and each
   * state gets the handle its slot holds in the table.
   */
  method InternByState(d: Dfa, tbs: map<State, Vob>, table: seq<VobIdx>, vobset: VobSet)
    returns (possibleByState: map<State, VobIdx>)
    requires vobset.Valid()
    requires forall k :: k in tbs ==>
      d.Slot(k) < |table| && table[d.Slot(k)].idx < |vobset.vobs| && vobset.vobs[table[d.Slot(k)].idx] == tbs[k]
    modifies vobset
    ensures vobset.Valid() && vobset.vobs == old(vobset.vobs) && vobset.nonEmpty == old(vobset.nonEmpty)
    ensures possibleByState.Keys == tbs.Keys
    ensures forall k :: k in possibleByState ==> d.Slot(k) < |table| && possibleByState[k] == table[d.Slot(k)]
  {
    possibleByState := map[];
    var rest := tbs.Keys;
    while rest != {}
      invariant rest <= tbs.Keys
      invariant vobset.Valid() && vobset.vobs == old(vobset.vobs) && vobset.nonEmpty == old(vobset.nonEmpty)
      invariant forall k :: k in possibleByState <==> k in tbs && k !in rest
      invariant forall k :: k in possibleByState ==> possibleByState[k] == table[d.Slot(k)]
      decreases rest
    {
      var k :| k in rest;
      var h := vobset.Get(tbs[k]);
      possibleByState := possibleByState[k := h];
      rest := rest - {k};
    }
  }

  /**
   * With the pool's handle 0 holding the zero vob of the pattern width, a
   * discovered state is dead exactly when no pattern can be completed from it.
   */
  lemma DeadIffNothingPossible(lx: Lexer, vobs: seq<Vob>, s: State)
    requires lx.Valid() && lx.Interned(vobs) && WellFormedPool(vobs)
    requires |vobs| > 0 && |vobs[0]| == lx.dfa.numPatterns
    requires s in lx.possibleByState
    ensures lx.IsDead(s) <==> forall i :: 0 <= i < lx.dfa.numPatterns ==> !CanComplete(lx.dfa, s, i)
  {
    var h := lx.possibleByState[s];
    var p := PossibleSet(lx.dfa, s);
    if forall i :: 0 <= i < lx.dfa.numPatterns ==> !CanComplete(lx.dfa, s, i) {
      assert vobs[0] == p;
    } else {
      var i :| 0 <= i < lx.dfa.numPatterns && CanComplete(lx.dfa, s, i);
      assert p[i];
    }
  }

  /**
   * Whatever the width of the pool's zero vob, a dead state is one from which
   * no pattern can be completed: its possible set is the vob at handle 0.
   */
  lemma DeadMeansNothingPossible(lx: Lexer, vobs: seq<Vob>, s: State)
    requires lx.Valid() && lx.Interned(vobs) && WellFormedPool(vobs)
    requires s in lx.possibleByState
    ensures lx.IsDead(s) ==> forall i :: 0 <= i < lx.dfa.numPatterns ==> !CanComplete(lx.dfa, s, i)
  {
    if lx.IsDead(s) {
      var p := PossibleSet(lx.dfa, s);
      assert vobs[0] == p;
      forall i | 0 <= i < lx.dfa.numPatterns ensures !CanComplete(lx.dfa, s, i) {
        assert !p[i];
      }
    }
  }

  /**
   * A step that continues the current token never enlarges the possible set:
   * whatever can be completed after the byte could be completed before it.
   */
  lemma AdvanceNeverGrows(lx: Lexer, vobs: seq<Vob>, prev: State, b: Byte)
    requires lx.Valid() && lx.Interned(vobs) && prev in lx.possibleByState
    requires lx.Advance(prev, Some(b)).Some? && lx.Advance(prev, Some(b)).value.2.None?
    ensures var h := lx.Advance(prev, Some(b)).value.1;
            h.idx < |vobs| && Subset(vobs[h.idx], vobs[lx.PossibleTokens(prev).idx])
  {
    PossibleSetClosed(lx.dfa, prev, b);
  }

  /**
   * Maximal munch with restart, for a session that has read the bytes `w`
   * since the last token: a step that continues lands on the state of
   * `w + [b]`; a step that reports token `t` does so because no pattern can
   * be completed after `w + [b]`, `t` is the lowest pattern that `w` itself
   * completes, and matching restarts on the state of `[b]`.
   */
  lemma AdvanceMaximalMunch(lx: Lexer, vobs: seq<Vob>, w: seq<Byte>, b: Byte)
    requires lx.Valid() && lx.Interned(vobs) && WellFormedPool(vobs)
    ensures Run(lx.dfa, lx.initial, w) in lx.possibleByState
    ensures var r := lx.Advance(Run(lx.dfa, lx.initial, w), Some(b));
            r.Some? && r.value.2.None? ==> r.value.0 == Run(lx.dfa, lx.initial, w + [b])
    ensures var r := lx.Advance(Run(lx.dfa, lx.initial, w), Some(b));
            r.Some? && r.value.2.Some? ==>
              (forall i :: 0 <= i < lx.dfa.numPatterns ==> !CanComplete(lx.dfa, Run(lx.dfa, lx.initial, w + [b]), i)) &&
              Completes(lx.dfa, lx.initial, w, r.value.2.value) &&
              (forall j :: 0 <= j < r.value.2.value ==> !Completes(lx.dfa, lx.initial, w, j)) &&
              r.value.0 == Run(lx.dfa, lx.initial, [b])
  {
    var d := lx.dfa;
    var s := Run(d, d.initial, w);
    RunSnoc(d, d.initial, w, b);
    RunSnoc(d, d.initial, [], b);
    assert [] + [b] == [b];
    var r := lx.Advance(s, Some(b));
    if r.Some? && r.value.2.Some? {
      ReachableNext(d, s, b);
      DeadMeansNothingPossible(lx, vobs, d.next(s, b));
    }
  }

  /**
   * At end of input, a session that has read `w` since the last token
   * reports the lowest pattern that `w` completes, or nothing when `w`
   * completes no pattern.
   */
  lemma AdvanceEndOfInput(lx: Lexer, w: seq<Byte>)
    requires lx.Valid()
    ensures Run(lx.dfa, lx.initial, w) in lx.possibleByState
    ensures var r := lx.Advance(Run(lx.dfa, lx.initial, w), None);
            (r.None? <==> forall i: nat :: !Completes(lx.dfa, lx.initial, w, i)) &&
            (r.Some? ==> r.value.0 == lx.initial && r.value.2.Some? &&
                         Completes(lx.dfa, lx.initial, w, r.value.2.value) &&
                         forall j :: 0 <= j < r.value.2.value ==> !Completes(lx.dfa, lx.initial, w, j))
  {
    var d := lx.dfa;
    var s := Run(d, d.initial, w);
    assert forall i: nat :: Completes(d, d.initial, w, i) == MatchesAt(d, s, i);
  }
}
