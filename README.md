# Yard allocation model

This project models, in Dafny, the container-yard allocator of the `yard_template` app. The app has two parts.

- **Block names.** The yard's block names are built from one row letter per yard row (`C`, `B`, `A`) and a zero-padded block number `01`..`05`. That gives 15 names in the order `C01`..`C05`, `B01`..`B05`, `A01`..`A05`.
- **`allocate_yard`.** For every vessel row (name, container count, ETA), in input order, it works out the cluster size `slots_per_block * containers_per_slot`. The vessel gets `-(-total // cluster_size)` clusters, which is the ceiling of total / cluster size. Cluster `k` (numbered from 1) holds `min(containers_left, cluster_size)` containers. Each cluster gets a block chosen from the yard blocks that no earlier cluster of the run has used. The output is one record per cluster: vessel name, block, cluster number, container count and the ETA copied unchanged.

Module `YardLayout` (`yard_layout.dfy`) builds the block names. Module `Allocation` (`allocation.dfy`) holds the allocator.

The allocator is imperative, like the source. `AllocateYard` runs the loop over vessels. `PlaceClusters` runs the loop over one vessel's clusters, and threads the growing record list and the set of used blocks through. Both are specified against pure functions:

- `Plan` lists every cluster of the run, without its block.
- `VesselPlan` and `Clusters` list the clusters of one vessel.
- `LeftAfter` gives `containers_left` after k clusters.
- `NumClusters` is Python's `-(-a // b)`, with `//` written out as floor division for either sign of the divisor.

The random pick (`random.choice`) is a nondeterministic choice (`:|`) of any available block. So `AllocateYard`'s contract describes every possible outcome:

- the records, with their blocks dropped, are exactly `Plan`;
- each record's block is in the yard list;
- no two records share a block (each chosen block was unused when it was chosen).

The two exceptions the source can raise are modelled as results instead of preconditions:

- `ZeroClusterSize`: a zero cluster size makes `//` raise. This only happens once there is a vessel row.
- `NoBlockAvailable`: `random.choice` raises on an empty list.

The contract says the run succeeds exactly when there are no vessels, or when the cluster size is non-zero and the run needs at most as many clusters as the yard has distinct blocks. With the yard's own 15 distinct names, that means at most 15 clusters in all.

The ETA is a type parameter (`Eta`): it is only copied, never inspected. Container counts and slot parameters are unbounded integers, like Python's. The model does not exclude negative or zero inputs, because `allocate_yard` does not either. With a positive cluster size, a vessel whose count is zero or negative gets no clusters: `range(num_clusters)` is empty, so its containers silently do not reach the output (`EmptyVesselPlan`). A negative cluster size (a negative `slots_per_block`, say) flips the signs: a vessel with a non-negative count then gets no clusters, and one with a negative count gets at least one (`NegativeSizeVesselPlan`). `app.py` contains only this random-block allocator; there is no timeline, zone preference or clash tracking in it.

## Model

| member | source | states |
|---|---|---|
| `Allocation.Min` | app.py:41 | Python's `min`: the result is at most each argument and is one of them |
| `Allocation.RangeLength` | app.py:35 | the number of iterations of `range(num_clusters)`: `num_clusters` when it is non-negative, otherwise 0 |
| `Allocation.LeftAfter` | app.py:33-49 | `containers_left` after k iterations of the inner loop; for a positive cluster size and non-negative start it stays between 0 and the start |
| `Allocation.VesselPlan` | app.py:30-48 | the blockless records of one vessel: `range(num_clusters)` iterations of `Clusters` from the vessel's total; stated by `VesselPlanSpec` and `EmptyVesselPlan` |
| `Allocation.Plan` | app.py:25-48 | the blockless record stream of the whole run, vessel after vessel; stated by `PlanAppend`, `PlanLength`, `PlanConservation` and `PlanBound`, and tied to the output by `AllocateYard` |
| `Allocation.FloorDiv` | app.py:32 | Python's `a // b`: the q with q*b <= a < q*b + b for b > 0 (mirrored for b < 0) |
| `Allocation.NumClusters` | app.py:31-32 | `-(-total // size)` is the ceiling of total / size: (n-1)*size < total <= n*size for size > 0 (mirrored for size < 0) |
| `Allocation.Clusters` | app.py:35-49 | the inner loop makes exactly `count` clusters |
| `Allocation.Available` | app.py:37 | a block is available exactly when it is in the yard list and not yet used |
| `Allocation.ClustersFields` | app.py:35-48 | every cluster of a vessel carries the vessel's name and ETA, and clusters are numbered consecutively |
| `Allocation.FirstCluster` | app.py:41-49 | the first cluster is full unless it is the only one, and the remainder after it needs one cluster fewer |
| `Allocation.ClustersSum` | app.py:41-49 | the clusters' container counts add up to the containers left at the start |
| `Allocation.ClustersSizes` | app.py:41 | every cluster but the last holds exactly cluster_size, and the last holds the rest |
| `Allocation.LeftAfterDrains` | app.py:33-49 | containers_left drops by cluster_size per cluster, never goes negative, and is 0 after the last cluster |
| `Allocation.VesselPlanSpec` | app.py:30-49 | for a vessel with a non-negative count: ceil(total / size) clusters numbered 1..n with its name and ETA, each holding 1..size containers, all but the last full, summing to its total |
| `Allocation.PlanAppend` | app.py:25-48 | the plan of concatenated vessel lists is the concatenation of their plans, so records come out in input-vessel order |
| `Allocation.PlanLength` | app.py:25-35 | the run makes as many records as the per-vessel cluster counts add up to |
| `Allocation.PlanConservation` | app.py:25-49 | the records of the whole run hold exactly the vessels' total containers |
| `Allocation.PlanBound` | app.py:25-49 | with non-negative counts and a positive cluster size, every record of the whole run holds at least one and at most cluster_size containers |
| `Allocation.EmptyVesselPlan` | app.py:32-35 | with a positive cluster size, a vessel with a zero or negative count gets no clusters, so its count does not reach the output |
| `Allocation.NegativeSizeVesselPlan` | app.py:31-35 | with a negative cluster size, a vessel with a non-negative count gets no clusters and one with a negative count gets at least one |
| `Allocation.ChooseBlock` | app.py:37-50 | adding a record whose block is an available yard block keeps the blocks distinct, each block in the used set, and one used block per record |
| `Allocation.OutOfBlocks` | app.py:37-38 | if a vessel's clusters do not all fit in the remaining blocks, the run needs more clusters than the yard has distinct blocks |
| `Allocation.PlaceClusters` | app.py:35-50 | earlier records are kept; on success the new records are exactly the vessel's clusters, each in a fresh yard block; it fails only when the yard has fewer distinct blocks than the records needed so far |
| `Allocation.AllocateYard` | app.py:21-52 | succeeds iff there are no vessels, or the cluster size is non-zero and the total cluster count is at most the number of distinct yard blocks; the failure is ZeroClusterSize or NoBlockAvailable accordingly; on success the records equal the plan in order, with pairwise distinct blocks from the yard |
| `Allocation.DistinctCardinality` | app.py:37-38 | a block list without repeats names as many distinct blocks as it has entries |
| `Allocation.YardBlockCapacity` | app.py:16 | the yard's own block list names 15 distinct blocks |
| `YardLayout.Decimal` | app.py:16 | `str(num)` for a natural number: a non-empty digit string whose value (by the separately defined `DigitsValue`) is the number, with no leading zero for a positive number, one digit long exactly for numbers below 10 |
| `YardLayout.ZFill` | app.py:16 | `zfill(width)` on an unsigned digit string: the string left-padded with '0' to the width, unchanged when already that long |
| `YardLayout.BlockName` | app.py:16 | one block name: the row letter followed by the number's decimal text zero-filled to two characters; its values for 1..5 are fixed by `SmallBlockName` and `YardBlocksLayout` |
| `YardLayout.Row` | app.py:16 | the comprehension's inner loop over the numbers lo..hi-1: one name per number, in ascending order |
| `YardLayout.Grid` | app.py:16 | the comprehension's outer loop over the row letters: the rows of the letters, one after another |
| `YardLayout.YardBlocks` | app.py:16 | the `yard_blocks` list itself: the grid over letters "CBA" and numbers `range(1, 6)`; its contents are stated by `YardBlocksLayout` and `YardBlocksDistinct` |
| `YardLayout.YardBlocksLayout` | app.py:16 | there are 15 names; entry i is letter "CBA"[i / 5], then '0', then the digit i % 5 + 1 |
| `YardLayout.YardBlocksDistinct` | app.py:16 | no block name occurs twice |

## Left out

- `visualize_yard` (app.py:55-90) is left out. It is matplotlib drawing with random colours, which is presentation only.
- The distribution of `random.choice` is left out. The model only says that some available block is chosen.
- pandas DataFrames are left out. Input and output rows are sequences of datatype records, and the output record fields follow the source's column names.
- The module-level script is left out: the dummy vessel data, the call with 37 slots * 30 containers per slot, and `plt.show()`.
- The failure results do not carry the records built before the exception. Python discards them when it raises.
- Available: its contract states only which blocks are available. It does not state that the list keeps the yard's order and repeats, because the choice that follows may pick any available block anyway.
- The inner cluster loop is its own method (`PlaceClusters`) rather than inline code in `AllocateYard`. This keeps each proof small. It runs the same loop over the same state: the records, the used-block set and containers_left.
