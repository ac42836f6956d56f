/**
 * The dense DFA that lex.rs obtains from `regex_automata`, seen only through
 * the calls the lexer makes on it: `next_state`, `next_eoi_state`,
 * `is_match_state`, `match_len`/`match_pattern`, `stride2` and the anchored
 * universal start state. Building the DFA from the pattern strings is not
 * part of this model: a DFA is any value of this type that is `WellFormed`.
 *
 * State identifiers are premultiplied, as in `regex_automata`: a state is a
 * multiple of `2^stride2`, so `id >> stride2` is the state's dense slot.
 */
module Automaton {
  import opened Vobs

  type Byte = b: int | 0 <= b < 256

  /** A `StateID`, as the natural number `as_usize` returns. */
  type State = nat

  /** The byte `b'\n'`. */
  const NEWLINE: Byte := 10

  function Pow2(k: nat): (p: nat)
    ensures p >= 1
  {
    if k == 0 then 1 else 2 * Pow2(k - 1)
  }

  datatype Dfa = Dfa(
    stride2: nat,
    stateCount: nat,
    numPatterns: nat,
    initial: State,
    next: (State, Byte) -> State,
    eoi: State -> State,
    isMatch: State -> bool,
    matchPatterns: State -> seq<nat>)
  {
    function Stride(): (st: nat)
      ensures st > 0
    {
      Pow2(stride2)
    }

    /** `s` is the identifier of one of the DFA's states. */
    predicate IsState(s: State)
    {
      s % Stride() == 0 && s < stateCount * Stride()
    }

    /** `s.as_usize() >> stride2`, the dense slot of state `s`. */
    function Slot(s: State): nat
    {
      Quotient(s, Stride())
    }

    /** Every identifier the DFA can hand out. */
    function AllStates(): (all: set<State>)
      ensures forall s :: s in all <==> IsState(s)
    {
      set s: State | s < stateCount * Stride() && IsState(s)
    }

    /**
     * What the lexer relies on: the start state and the targets of all
     * transitions are states, and a match state reports at least one
     * pattern, each below the number of patterns.
     */
    ghost predicate WellFormed()
    {
      IsState(initial) &&
      (forall s, b :: IsState(s) ==> IsState(next(s, b))) &&
      (forall s {:trigger eoi(s)} :: IsState(s) ==> IsState(eoi(s))) &&
      (forall s {:trigger isMatch(s)} :: IsState(s) && isMatch(s) ==>
         |matchPatterns(s)| > 0 &&
         forall k :: 0 <= k < |matchPatterns(s)| ==> matchPatterns(s)[k] < numPatterns)
    }
  }

  function Quotient(n: nat, d: nat): nat
    requires d > 0
  {
    n / d
  }

  /** Two distinct states never share a slot. */
  lemma SlotInjective(d: Dfa, s: State, t: State)
    requires d.IsState(s) && d.IsState(t) && s != t
    ensures d.Slot(s) != d.Slot(t)
  {
    var st := d.Stride();
    assert s == st * (s / st) + s % st;
    assert t == st * (t / st) + t % st;
  }

  /** A state no greater than `m` has a slot no greater than `m`'s. */
  lemma SlotMonotone(d: Dfa, s: State, m: nat)
    requires s <= m
    ensures d.Slot(s) <= m / d.Stride()
  {
    DivMonotone(s, m, d.Stride());
  }

  lemma {:induction false} MulMonotone(c: nat, a: nat, b: nat)
    requires a <= b
    ensures c * a <= c * b
    decreases b - a
  {
    if a < b {
      MulMonotone(c, a, b - 1);
      assert c * b == c * (b - 1) + c;
    }
  }

  lemma DivMonotone(s: nat, m: nat, st: nat)
    requires s <= m && st > 0
    ensures s / st <= m / st
  {
    var q, q' := s / st, m / st;
    if q > q' {
      MulMonotone(st, q' + 1, q);
      assert false;
    }
  }

  /** The state reached from `s` by the bytes of `w`, one `next_state` at a time. */
  function Run(d: Dfa, s: State, w: seq<Byte>): State
    decreases |w|
  {
    if w == [] then s else Run(d, d.next(s, w[0]), w[1..])
  }

  lemma {:induction false} RunIsState(d: Dfa, s: State, w: seq<Byte>)
    requires d.WellFormed() && d.IsState(s)
    ensures d.IsState(Run(d, s, w))
    decreases |w|
  {
    if w != [] {
      RunIsState(d, d.next(s, w[0]), w[1..]);
    }
  }

  lemma RunCons(d: Dfa, s: State, b: Byte, w: seq<Byte>)
    ensures Run(d, s, [b] + w) == Run(d, d.next(s, b), w)
  {
    assert ([b] + w)[1..] == w;
  }

  /** Running `w` and then one more byte is one more `next_state` after `w`. */
  lemma {:induction false} RunSnoc(d: Dfa, s: State, w: seq<Byte>, b: Byte)
    ensures Run(d, s, w + [b]) == d.next(Run(d, s, w), b)
    decreases |w|
  {
    if w == [] {
      assert [] + [b] == [b];
    } else {
      assert (w + [b])[1..] == w[1..] + [b];
      RunSnoc(d, d.next(s, w[0]), w[1..], b);
    }
  }

  /** Some byte leads from `o` to `s`. */
  ghost predicate Edge(d: Dfa, o: State, s: State)
  {
    exists b: Byte :: d.next(o, b) == s
  }

  /** `s` is reached from the anchored start state by some bytes. */
  ghost predicate Reachable(d: Dfa, s: State)
  {
    exists w :: Run(d, d.initial, w) == s
  }

  lemma ReachableIsState(d: Dfa, s: State)
    requires d.WellFormed() && Reachable(d, s)
    ensures d.IsState(s)
  {
    var w :| Run(d, d.initial, w) == s;
    RunIsState(d, d.initial, w);
  }

  lemma ReachableNext(d: Dfa, s: State, b: Byte)
    requires Reachable(d, s)
    ensures Reachable(d, d.next(s, b))
  {
    var w :| Run(d, d.initial, w) == s;
    RunSnoc(d, d.initial, w, b);
  }

  /**
   * Pattern `i` is reported by the end-of-input transition of `s`: input
   * ending at `s` completes pattern `i`.
   */
  predicate MatchesAt(d: Dfa, s: State, i: nat)
  {
    d.isMatch(d.eoi(s)) && i in d.matchPatterns(d.eoi(s))
  }

  /** The match set of `s`: bit `i` is set iff pattern `i` completes at `s`. */
  function MatchSet(d: Dfa, s: State): (v: Vob)
    ensures |v| == d.numPatterns
    ensures forall i :: 0 <= i < |v| ==> (v[i] <==> MatchesAt(d, s, i))
  {
    seq(d.numPatterns, i requires 0 <= i => MatchesAt(d, s, i))
  }

  /** The bytes `w` read from `s` complete pattern `i`. */
  ghost predicate Completes(d: Dfa, s: State, w: seq<Byte>, i: nat)
  {
    MatchesAt(d, Run(d, s, w), i)
  }

  /** Some continuation from `s` completes pattern `i`. */
  ghost predicate CanComplete(d: Dfa, s: State, i: nat)
  {
    exists w :: Completes(d, s, w, i)
  }

  /** The possible set of `s`: bit `i` is set iff pattern `i` can still be completed from `s`. */
  ghost function PossibleSet(d: Dfa, s: State): (v: Vob)
    ensures |v| == d.numPatterns
    ensures forall i :: 0 <= i < |v| ==> (v[i] <==> CanComplete(d, s, i))
  {
    seq(d.numPatterns, i requires 0 <= i => CanComplete(d, s, i))
  }

  /** Whatever can be completed after a byte step can be completed before it. */
  lemma CanCompleteBack(d: Dfa, o: State, b: Byte, i: nat)
    requires CanComplete(d, d.next(o, b), i)
    ensures CanComplete(d, o, i)
  {
    var w :| Completes(d, d.next(o, b), w, i);
    RunCons(d, o, b, w);
    assert Completes(d, o, [b] + w, i);
  }

  /** The possible set of a state contains its match set and that of every successor. */
  lemma PossibleSetClosed(d: Dfa, o: State, b: Byte)
    ensures Subset(MatchSet(d, o), PossibleSet(d, o))
    ensures Subset(PossibleSet(d, d.next(o, b)), PossibleSet(d, o))
  {
    forall i | 0 <= i < d.numPatterns && MatchesAt(d, o, i)
      ensures CanComplete(d, o, i)
    {
      assert Completes(d, o, [], i);
    }
    forall i | 0 <= i < d.numPatterns && CanComplete(d, d.next(o, b), i)
      ensures CanComplete(d, o, i)
    {
      CanCompleteBack(d, o, b, i);
    }
  }
}
