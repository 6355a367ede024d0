# Qualitative reasoning engine for a tap, container and drain

This project models the qualitative-reasoning engine of `QR.py` in Dafny. The engine describes a
container that a tap fills and a drain empties. Six symbolic variables make up a state: the inflow
derivative and quantity (ID, IQ), the volume derivative and quantity (VD, VQ), and the outflow
derivative and quantity (OD, OQ). Derivatives range over {-1, 0, 1}. The inflow quantity ranges
over {0, 1}, and the volume and outflow quantities over {0, 1, 2} (zero, positive, maximum). The
engine:

- enumerates every assignment in `itertools.product` order and keeps the ones that break none of
  nine dependency and exogenous conditions (`get_states`);
- computes, for a state, the next values allowed for IQ, ID, VQ and VD (`next_iq`, `next_id`,
  `next_vq`, `next_vd`);
- builds every ordered pair of distinct state positions (`itertools.permutations`) and keeps the
  plausible pairs (`plausible_transitions`);
- drops the pairs that mix an instantaneous change with a gradual one (`is_instant`,
  `epsilon_ordering`).

Modules:

- `Seqs` (`seqs.dfy`) holds the generic pieces: an order-preserving `Filter`, Python's
  `list.remove` as `RemoveFirst`, and `MarkThenRemove`. `MarkThenRemove` is the engine's two-pass
  pruning: collect the rejected elements, then remove each one. It is proved equal to `Filter` on
  duplicate-free input.
- `Domain` (`domain.dfy`) holds the value spaces as subset types and the `State` datatype. It also
  holds the product enumeration, as a mixed-radix `Decode` with inverse `Encode`.
- `Successors` (`successors.dfy`) holds `NextIQ`, `NextID`, `NextVQ` and `NextVD`. Each is given
  an independent description of which moves it allows.
- `States` (`states.dfy`) holds the legality predicate and the state sequence.
- `Transitions` (`transitions.dfy`) holds the candidate pairs, the plausibility and
  epsilon-ordering filters, and the transition sequence.

The state sequence is fully determined by two facts. It holds exactly the legal states, and it is
strictly increasing in product position. The same holds for the transition sequence: it holds
exactly the legal position pairs, in strictly increasing lexicographic order.

Some behaviour of the code is worth spelling out:

- The code has no overflow guard (VQ == 2 ⇒ VD ≠ 1). Neither the state filter nor the
  transition filters contain one. `States.FullAndRisingIsLegal` and
  `Transitions.FullContainerMayKeepRising` show the consequence: a full container can still be
  rising.
- With VD == -1 at VQ == 2, `next_vq` gives [1, 2]: a decreasing full container may stay full.
- A "tap just opened" state with ID = 1, IQ = 0 and VD = 1 is not legal in the code, because
  IQ == 0 ⇒ VD ≠ 1 (`States.OpeningWithRisingVolumeIsIllegal`). The legal state with the tap just
  opened on an empty, steady container is (ID=1, IQ=0, VD=0, VQ=0, OD=0, OQ=0)
  (`States.TapOpenedIsLegal`). It has an outgoing transition (`Transitions.TapOpenedHasSuccessor`).
- `next_vd` is never called by the transition pipeline. It is modelled on its own and related to
  the state constraints by `States.LegalIffBalanced`.

## Model

| member | source | states |
|---|---|---|
| `Domain.Product` | QR.py:120-121 | The enumeration has 486 entries and lists every assignment of the six variables exactly once. The entry at position k is the one whose mixed-radix position (ID outermost, OQ innermost) is k, so the entries are in strictly ascending product order. |
| `States.Legal` | QR.py:125-157 | No contract: the definition is the nine rejection tests, each negated, in the order the code makes them. `States.LegalIffBalanced` gives an independent reading. |
| `Transitions.Plausible` | QR.py:185-193 | A step passes iff IQ moves as `InflowStep` allows, VQ moves as `VolumeStep` allows, an opening tap keeps opening (or steadies once the container is full), and a tap that is not opening does not start opening. |
| `Transitions.EpsilonOk` | QR.py:221-227 | A step passes iff every quantity that changes lands on the positive value 1, or none of them does. |
| `Domain.DecodeEncode` | QR.py:120-121 | Decoding a state's product position gives the state back. |
| `Domain.EncodeDecode` | QR.py:120-121 | Encoding the state at a product position gives that position back. |
| `Successors.NextIQ` | QR.py:19-34 | v is a next inflow quantity iff v ∈ {0,1} and v holds when ID = 0, v = 1 when ID = 1, and v ≤ IQ when ID = -1. The list is ascending and non-empty. |
| `Successors.NextID` | QR.py:36-54 | 1 is a successor iff the tap is opening and the container is not full, so a tap that is not opening is never reopened. 0 is a successor iff the tap is not opening or the container is full. -1 is a successor iff the tap is not opening. |
| `Successors.NextVQ` | QR.py:56-89 | Every next volume lies in {0,1,2} and within one step of VQ. It never moves against VD, is exactly [VQ] when VD = 0, and leaves zero when rising from zero. |
| `Successors.NextVD` | QR.py:91-113 | At most one value. The value is the sign of the inflow/outflow balance; the list is empty exactly when both inflow and outflow are positive. |
| `States.GetStates` | QR.py:115-162 | A state is in the sequence iff it violates none of the nine conditions. Each state appears once, in ascending product order. |
| `States.ComputeStates` | QR.py:122-160 | Marking the rejected assignments and then removing each one yields exactly the legal-state sequence. |
| `States.LegalIffBalanced` | QR.py:123-157 | Legal iff VQ = OQ, VD = OD, VD agrees with the inflow/outflow balance whenever `next_vd` determines it, a tap with no inflow is not closing, and an opening tap with no inflow means an empty container. |
| `States.TapOpenedIsLegal` | QR.py:124-127 | The tap just opened on an empty, steady container is a generated state, so the state sequence is never empty. |
| `States.OpeningWithRisingVolumeIsIllegal` | QR.py:146-149 | An opening tap with no inflow and a rising volume is not a generated state. |
| `States.FullAndRisingIsLegal` | QR.py:123-157 | A full container whose volume is still rising is a generated state: there is no overflow guard. |
| `Seqs.FirstIndex` | QR.py:159-160 | The position `list.remove(y)` acts on: it holds y, and no earlier position does. |
| `Seqs.RemoveFirst` | QR.py:159-160 | `list.remove(y)` returns the list with exactly the element at the first position holding y cut out; the others keep their order. |
| `Seqs.RemoveFirstIsFilter` | QR.py:159-160 | On a duplicate-free list, removing the first copy of y equals filtering y out. |
| `Seqs.Mark` | QR.py:179-193 | On a duplicate-free list, the collected rejects are exactly the elements the keep condition fails, in list order. |
| `Seqs.RemoveAll` | QR.py:195-196 | Removing each marked element in turn, when both lists are duplicate-free and every marked element is in the list, leaves exactly the unmarked elements in order. |
| `Seqs.MarkThenRemove` | QR.py:179-196 | Collecting the rejects and then removing each one equals the order-preserving filter by the keep condition. |
| `Seqs.Filter` | QR.py:215-231 | The result holds exactly the input elements that pass, and is no longer than the input. |
| `Seqs.FilterIdempotent` | QR.py:215-231 | Filtering twice by the same condition equals filtering once. |
| `Transitions.Permutations` | QR.py:168-170 | The candidates are exactly the ordered pairs of distinct positions below n, each once, in lexicographic order. |
| `Transitions.PlausibleTransitions` | QR.py:175-197 | A candidate survives iff the target's IQ, VQ and ID are among the source's successor values. Order and duplicate-freedom are kept. |
| `Transitions.IsInstant` | QR.py:199-208 | 'neither' iff unchanged; 'instant' iff changed onto 1; 'not-instant' iff changed onto any other value. |
| `Transitions.InstantIffLeavingLandmark` | QR.py:199-208 | For a one-step quantity change, 'instant' means leaving the zero or maximum landmark, and 'not-instant' means leaving the interval to reach a landmark. |
| `Transitions.EpsilonOkIffNoMixedChange` | QR.py:221-228 | The list-membership test, restated over the three quantities: a step passes iff no quantity among IQ, VQ and OQ changes instantly while another changes gradually. |
| `Transitions.EpsilonOrdering` | QR.py:210-233 | A candidate survives iff its IQ, VQ and OQ classifications do not include both 'instant' and 'not-instant'. Order and duplicate-freedom are kept. |
| `Transitions.EpsilonOrderingIdempotent` | QR.py:210-233 | Applying epsilon ordering to its own output removes nothing. |
| `Transitions.GetTransitions` | QR.py:164-173 | (a, b) is a transition iff a ≠ b, both are below the state count, the step is plausible and it obeys epsilon ordering. Each appears once, in lexicographic order. |
| `Transitions.ComputeTransitions` | QR.py:164-173 | Building all candidate pairs and pruning them twice by mark-and-remove yields exactly that transition sequence. |
| `Transitions.EdgeBetween` | QR.py:181-193 | A restatement of the completeness half of `GetTransitions` at explicit positions: every distinct, in-range, plausible, epsilon-ordered pair is a transition. It is the helper of the two scenario lemmas, not a separate property. |
| `Transitions.TapNeverReopens` | QR.py:48-52 | Along any transition, a target whose tap is opening has a source whose tap is opening too. |
| `Transitions.VolumeMovesOneStep` | QR.py:188-190 | Along any transition the volume quantity changes by at most one step. |
| `Transitions.TapOpenedHasSuccessor` | QR.py:24-27 | From the tap just opened on an empty container, the next inflow is exactly [1]. Over the legal states, that state has an outgoing transition. |
| `Transitions.GeneratedTapOpenedHasSuccessor` | QR.py:115-173 | In the graph built from the engine's own state sequence, the tap-just-opened state has an outgoing transition. |
| `Transitions.FullContainerMayKeepRising` | QR.py:67-76 | Over the legal states, some transition leads from a full container into a state whose volume is still rising. |
| `Transitions.GeneratedFullContainerMayKeepRising` | QR.py:115-173 | In the graph built from the engine's own state sequence, some transition leads from a full container into a state whose volume is still rising. |

## Left out

- `create_graph` and `state_to_string`, with the `d_name` and `q_name` tables (QR.py:16-17, 235-262): Graphviz rendering, file output and string formatting. This includes the hard-coded start edge to node '17'.
- `main` and the `print` calls (QR.py:232, 264-271): console output only.
- The `PATH` change and the unused `state_counter` global (QR.py:12-14): environment configuration only.
- `state.py`: a mutable getter/setter wrapper that the engine never uses. There is no logic in it to model.
- Python dictionaries can hold any value. The model's subset types admit only the values the engine itself creates. The `next_*` fall-through cases for values outside the domains cannot arise.
- Python's negative list indices: `states[i]` is modelled only for 0 ≤ i < len(states). The candidates never hold a negative position, and an out-of-range position raises `IndexError` in Python.
- The number of legal states is not computed. The model states which states are legal but does not evaluate the enumeration.
- `Transitions.PlausibleTransitions`: does not model `plausible_transitions` on a candidate list with duplicates. The code collects each reject once (QR.py:186-193) and removes one copy of it (QR.py:195-196), so for `[(0,1),(0,1)]` with (0,1) implausible it returns `[(0,1)]`. The model drops every copy and returns `[]`. The only caller passes the duplicate-free permutations list (QR.py:170-171), and there the two agree (`Seqs.MarkThenRemove`). `epsilon_ordering` collects every copy of a reject (QR.py:228), so `Transitions.EpsilonOrdering` matches the code on every input.
- The code has no check for an empty state set. `States.TapOpenedIsLegal` shows that the set cannot be empty.
