# Incremental lexer of the AST runner, in Dafny

This project models the lexer core of `aici_ast_runner/src/lex.rs`. That code
is the byte-at-a-time tokeniser the AST runner uses to decide which grammar
terminals can still follow the text generated so far. It has two parts:

- **The vob pool** (`VobIdx`, `VobSet`). Bit-vectors over the pattern
  indices ("vobs") are interned: identical vobs are stored once and named by
  a dense handle, and handle 0 is the all-zero vob. Once the pool is
  complete, `pre_compute` fills a matrix of which pairs of interned vobs
  intersect.
- **The lexer** (`Lexer`). `Lexer::from` does five things:
  - it explores the DFA compiled from the patterns, starting at the anchored
    start state, with a worklist, recording every state's predecessors;
  - it gives each reachable state its match set (the patterns its
    end-of-input transition reports);
  - it runs a backward fixpoint that unions each state's set into its
    predecessors' sets, until nothing changes;
  - it interns each resulting *possible set* in the caller's pool;
  - it stores the handles in a table indexed by `state >> stride2`.

  At run time, `advance` does one maximal-munch step:
  - on a byte whose target state does not have the zero handle, it moves to
    that state (when the pool's zero vob has the pattern width, this means
    some pattern is still possible);
  - otherwise it reports the lowest-numbered pattern completed before the
    byte, and restarts from the start state on that byte;
  - at end of input, it reports the pattern completed so far.

The DFA is an abstract value (`Automaton.Dfa`). Its transition function, its
end-of-input transition, its match flag and its match-pattern lists are
function fields. State identifiers are premultiplied by `2^stride2`, as
`regex_automata` does, so `>> stride2` is division by the stride.

The specification side is stated in the automaton's own terms:

- `Run` gives the state reached by a byte string.
- `Reachable` holds when some byte string reaches the state.
- `Completes`, `CanComplete` and `PossibleSet` say which patterns a
  continuation can complete.

The construction is proved to compute, for every reachable state, exactly
its possible set, and to discover exactly the reachable states. `advance` is
proved to implement maximal munch with one-byte lookahead and no
backtracking, with lowest-index priority among the patterns completed.

Modules:

- `Wrappers`: `Option`.
- `Vobs`: vobs as `seq<bool>`, and the scans `vob_is_zero` and `vob_and_is_zero`.
- `VobPool`: `VobIdx`, the `VobSet` class and the `pre_compute` matrix.
- `Automaton`: the DFA boundary and the semantic definitions.
- `LexerConstruction`: exploration, match sets and the fixpoint.
- `Lex`: `Lexer::from` and the run-time lookups.

## Model

| member | source | states |
|---|---|---|
| `Vobs.VobIsZero` | aici_ast_runner/src/lex.rs:305-312 | The early-exit scan returns true exactly when no bit of the vob is set. |
| `Vobs.VobAndIsZero` | aici_ast_runner/src/lex.rs:295-303 | The early-exit scan returns true exactly when no position is set in both vobs. Positions are compared over the shorter of the two lengths, as the zip over the storages does. |
| `Vobs.UnionUnchangedIffSubset` | aici_ast_runner/src/lex.rs:157-159 | Or-ing `ours` into `theirs` (`tmp` after line 158) leaves `theirs` unchanged exactly when every bit of `ours` is already in `theirs`. This is the test that decides whether a pass changed anything. |
| `VobPool.ZeroHandleIffEmpty` | aici_ast_runner/src/lex.rs:17-20 | In a well-formed pool, for a handle whose vob has the same width as the vob at handle 0, `is_zero` (index 0) holds exactly when that vob has no bit set. |
| `VobPool.VobSet.constructor` | aici_ast_runner/src/lex.rs:30-36 | `new` gives an empty, valid pool. |
| `VobPool.VobSet.Get` | aici_ast_runner/src/lex.rs:38-50 | A vob already interned gets its old handle, and the pool is left unchanged. A new vob is appended and gets the old length as its handle. Either way the handle names the vob, and the pool stays duplicate-free with an all-zero vob at handle 0. |
| `VobPool.VobSet.AndIsZero` | aici_ast_runner/src/lex.rs:52-55 | The result is true exactly when the two interned vobs are disjoint. |
| `VobPool.FillIntersections` | aici_ast_runner/src/lex.rs:60-67 | The nested loop over the pairs `y <= x` sets, on top of the bits it started with, exactly the cells `(x, y)` and `(y, x)` of the pairs that intersect. |
| `VobPool.VobSet.PreCompute` | aici_ast_runner/src/lex.rs:57-67 | As written: `non_empty` becomes the old bits, resized to `l * l` (old bits kept), with every intersecting pair's cell set. The pool itself is unchanged. |
| `VobPool.PreComputeFromClearExact` | aici_ast_runner/src/lex.rs:57-59 | Starting from an all-clear `non_empty` (a fresh pool), the as-written `pre_compute` gives exactly the intersection matrix. |
| `VobPool.StaleBitAfterGrowth` | aici_ast_runner/src/lex.rs:57-59 | A concrete pool in which a second `pre_compute`, after the pool grew from 2 to 3 vobs, leaves cell `(1, 0)` set. The two vobs of that pair share no bit. |
| `VobPool.VobSet.PreComputeCleared` | aici_ast_runner/src/lex.rs:57-67 | Corrected: with the matrix cleared first, cell `(x, y)` and cell `(y, x)` are set exactly when vobs `x` and `y` intersect. |
| `VobPool.IntersectionMatrixSymmetric` | aici_ast_runner/src/lex.rs:62-65 | Both cells of a pair hold the same answer, whether the pair is visited as `(x, y)` or as `(y, x)`. |
| `VobPool.Resize` | aici_ast_runner/src/lex.rs:59 | `resize(n, false)` keeps the first `n` old bits and clears any bits beyond the old length. |
| `Automaton.SlotInjective` | aici_ast_runner/src/lex.rs:180-181 | Distinct states have distinct `>> stride2` slots, so no table write overwrites another state's handle. |
| `Automaton.SlotMonotone` | aici_ast_runner/src/lex.rs:178-179 | A state no greater than the maximum has a slot within `1 + (max >> stride2)`. |
| `Automaton.MatchSet` | aici_ast_runner/src/lex.rs:136-146 | The match set has one bit per pattern. Bit `i` is set exactly when the end-of-input transition is a match state that reports `i`. |
| `Automaton.PossibleSetClosed` | aici_ast_runner/src/lex.rs:150-164 | A state's possible set contains its match set, and also the possible set of each of its successors. These are the two facts the fixpoint establishes. |
| `LexerConstruction.Visit` | aici_ast_runner/src/lex.rs:121-129 | After the 256-byte loop for `s`, every successor of `s` is discovered and lists `s` as a predecessor. Earlier lists are only extended. The worklist gains exactly the newly discovered states. |
| `LexerConstruction.Explore` | aici_ast_runner/src/lex.rs:116-130 | The keys of `incoming` are exactly the reachable states. `o` is listed as a predecessor of `s` exactly when `o` is reachable and some byte leads from `o` to `s`. |
| `LexerConstruction.Enumerate` | aici_ast_runner/src/lex.rs:132 | `states` lists every key of `incoming` exactly once. |
| `LexerConstruction.MatchVob` | aici_ast_runner/src/lex.rs:136-146 | The vob built for a state is its match set. |
| `LexerConstruction.MatchSets` | aici_ast_runner/src/lex.rs:133-148 | `tokenset_by_state` maps each listed state, and nothing else, to its match set. |
| `LexerConstruction.UnionIntoPredecessors` | aici_ast_runner/src/lex.rs:154-163 | Sets only grow, and every bit set still names a pattern that can be completed. A zero count means nothing changed and each predecessor already contained the set. A non-zero count means some clear bit became set. |
| `LexerConstruction.Pass` | aici_ast_runner/src/lex.rs:150-164 | One pass grows sets soundly. Its count is zero exactly when it changed nothing, in which case no state's set has a bit its predecessor lacks. Otherwise the number of clear bits strictly decreases. |
| `LexerConstruction.ClosedComplete` | aici_ast_runner/src/lex.rs:150-172 | If the sets are closed under predecessors and contain the match sets, then every pattern that any continuation from a state completes has its bit set there. |
| `LexerConstruction.Propagate` | aici_ast_runner/src/lex.rs:150-172 | The `loop` ends. Each state then holds exactly its possible set, and the sets are closed under predecessors. |
| `Lex.PossibleSets` | aici_ast_runner/src/lex.rs:116-172 | The state list and `tokenset_by_state` both cover exactly the reachable states. Each set is that state's possible set. |
| `Lex.MaxOf` | aici_ast_runner/src/lex.rs:179 | `max` returns an element of the list that is no smaller than any other. |
| `Lex.InternTable` | aici_ast_runner/src/lex.rs:174-182 | The table has `1 + (max >> stride2)` entries. Each reachable state's slot holds a handle that names its possible set. The pool only grows at its end, and every vob it gains is one of the sets being interned. |
| `Lex.InternByState` | aici_ast_runner/src/lex.rs:199-202 | Interning again leaves the pool unchanged. Each state gets the same handle as its slot in the table. |
| `Lex.From` | aici_ast_runner/src/lex.rs:87-218 | The lexer's discovered states are exactly the reachable ones. The start state and `file_start` are correct, and the table agrees with `possible_by_state`. Every handle names the state's possible set. The pool is extended, never rewritten, and every vob it gains is the possible set of some reachable state. |
| `Lex.Lexer.PossibleTokens` | aici_ast_runner/src/lex.rs:224-227 | The table lookup at the state's slot gives the same handle as `possible_by_state`. |
| `Lex.DeadIffNothingPossible` | aici_ast_runner/src/lex.rs:220-222 | When the vob at handle 0 has the pattern width, `is_dead` holds exactly when no continuation from the state can complete any pattern. |
| `Lex.DeadMeansNothingPossible` | aici_ast_runner/src/lex.rs:220-222 | For a pool seeded with a zero vob of any width, a dead state is one from which no continuation can complete any pattern. |
| `Lex.MinOf` | aici_ast_runner/src/lex.rs:236-239 | `min` returns an element of the list that is no larger than any other. |
| `Lex.Lexer.GetToken` | aici_ast_runner/src/lex.rs:229-246 | The result is none exactly for a non-match state. Otherwise it is a reported pattern no larger than any other reported pattern. |
| `Lex.Lexer.TokenIsLowestMatch` | aici_ast_runner/src/lex.rs:229-246 | `get_token` at the end-of-input transition of `s` is none exactly when no pattern completes at `s`. Otherwise it is the lowest pattern that completes there. |
| `Lex.Lexer.Advance` | aici_ast_runner/src/lex.rs:249-292 | The returned state is discovered and comes with its own handle. No token is reported exactly when a byte is given and its target is not dead; the state then moves to that target. A token is always the lowest pattern completed at `prev`, and the state restarts from the start state on the byte, or at the start state at end of input. The result is none exactly when the step cannot continue and no pattern completes at `prev`. |
| `Lex.AdvanceNeverGrows` | aici_ast_runner/src/lex.rs:266-281 | A step that continues the token never enlarges the possible set. |
| `Lex.AdvanceMaximalMunch` | aici_ast_runner/src/lex.rs:255-282 | After the bytes `w`, a step on `b` that continues lands on the state of `w + [b]`. A step that reports token `t` does so only when no pattern can be completed after `w + [b]`. In that case `t` is the lowest pattern that `w` completes, and matching restarts at the state of `[b]`. |
| `Lex.AdvanceEndOfInput` | aici_ast_runner/src/lex.rs:283-291 | At end of input after `w`, the result is none exactly when `w` completes no pattern. Otherwise the lowest completed pattern is reported, and the state returns to the start state. |

## Left out

- Regex compilation: `dense::Builder::build_many(...).unwrap()` is not modelled, including its panic on a bad pattern. Nor is the panic of `universal_start_state(anch).unwrap()` (lex.rs:117) on a DFA without a universal anchored start state: the model's `Dfa` always has its start state `initial`. The DFA is any value satisfying `Dfa.WellFormed`: the start state and all transition targets are states, and a match state reports at least one pattern, each below the pattern count.
- Logging: the `wprintln!` calls, the `LOG_LEXER` and `if false` blocks, and the `is_dead_state` call inside them are diagnostics only.
- Hashing: `FxHashMap` becomes a Dafny `map`. Wherever the source iterates a map, the model takes an arbitrary order (`:|`), and every property is proved for all orders. The exact handle numbering that the hash order produces is not modelled.
- Vob storage: a vob is a sequence of bits. The `vob` crate's word storage is not modelled. Scanning words and scanning bits agree because unused bits are clear.
- `states_idx.sort()`: not modelled, because sorting does not change the maximum that is taken next.
- Integer width: `usize` overflow of `l * l`, `x * l + y` and `num_set` is not modelled; the integers are unbounded.
- `and_is_zero`: the commented-out lookup in `non_empty` is not modelled.
- `skip_patterns` and `friendly_pattern_names`: these are carried into the lexer unchanged. `skip_patterns` is a public field for the lexer's callers, which are not part of this model. `friendly_pattern_names` is otherwise used only in logging.
- `Vobs.VobAndIsZero`: `debug_assert!(a.len() == b.len())` is not modelled. Without it, the zip compares only the shorter length, and that is what is modelled.
- `VobPool.VobSet.Get`: the panic "first vob must be empty" is a precondition (`|vobs| == 0 ==> IsZero(vob)`), not a modelled failure.
- `Lex.From`: requires the pool to hold at least one vob. On an empty pool the source panics unless the first set interned in hash order is empty, which depends on hashing. Neither `From` nor the source checks the width of the zero vob at handle 0. If it differs from the pattern count (for example `Vob::new()`), the all-clear possible set is interned as a new, non-zero handle. Then no state is ever dead, `advance` never ends a token on a byte, and tokens are reported only at end of input. `Lex.DeadIffNothingPossible` therefore requires the pattern width; `Lex.DeadMeansNothingPossible` and `Lex.AdvanceMaximalMunch` hold for any width.
- `Lex.Lexer.Advance`: requires `prev` to be a discovered state, which is true of every state `advance` itself returns. For any other state, the source reads whatever handle the table happens to hold, or indexes past its end.
- `VobPool.VobSet.AndIsZero`: requires both handles to be below the pool's length. The source's `self.vobs[a.0]` panics on a handle the pool never gave out, and that panic is not modelled.
- `Lex.Lexer.IsDead`: `is_dead` is modelled as a predicate, and its meaning is stated by `Lex.DeadIffNothingPossible`.

## Findings

| source | as written | input that shows it | evidently intended | confidence | as-written member | corrected member |
|---|---|---|---|---|---|---|
| aici_ast_runner/src/lex.rs:59 | `non_empty.resize(l * l, false)` keeps the old matrix's bits, which were laid out for the old `l`. | Pool `[00, 10]`, `pre_compute`, then intern `01` and call `pre_compute` again. Cell 3 was pair (1, 1) of the 2-by-2 matrix and is now pair (1, 0). It stays set, although `10` and `00` share no bit. | The matrix is rebuilt from clear bits, so that cell `(x, y)` is set exactly when vobs `x` and `y` intersect. | low: not executed. Only harmful when `pre_compute` runs again after the pool has grown, and the callers are not part of this model. | `VobPool.StaleBitAfterGrowth` | `VobPool.VobSet.PreComputeCleared` |
