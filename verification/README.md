# Blindrange, verified

A model of blindrange's data plane in Dafny, and proofs of what its parts promise one another: an encrypted range index
whose owner walks append-only chains spread over a replicated key/value network, the compaction protocol that rewrites
those chains while others read and write, the local mirror that stands in for the network, the Merkle log that commits
to its history, the tokens writes are paid with, and the SQL clauses that are compiled onto it.

`dafny verify dfyconfig.toml` checks the whole project.

## How it fits together

- **Digests and log.** `Merkle` models digests as terms of a free algebra, so hashing is collision-free by construction.
  The two iterative verifiers are methods proved against declarative acceptance predicates, for which completeness and
  soundness are proved.
- **Geometry.** `Dyadic` is the tree of intervals, the cover of a range and the five-bit string encoding. A cover is
  minimal only for ranges that split no pair of sibling leaves, which `MinimalExactly` shows to be the exact condition.
- **Reading.** `Chains` is the batched gallop. `Index` says what it means for a key/value map to be faithful to a plain
  table of records, under a view: the epochs and writers read, how far a reader has counted, and how far each chain was
  ever filled. `Query` is the owner's state and `query_multi`, proved against the table's answer for every view its caches
  are reliable under. A network, a network in the middle of a compaction, and a mirror are three such views.
- **Writing and compacting.** `Compaction` is a step relation over the network map, the writers' logs and the table.
  `CompactionProof` shows that every step keeps the invariant, which makes every state of every run one that readers can
  rely on, and says exactly when a compaction leaves something behind or uncovers something deleted. `Writing` and
  `Compacting` show that `insert_many`, `delete_many` and `compact` are runs of those steps.
- **Readers over runs.** `Readers` carries an owner's caches across the steps of others and concludes about whole sessions
  of queries, with the exact condition under which no deleted record comes back. `Counterexamples` holds the runs and reads
  in which one does, or in which a live one is missed.
- **Mirroring.** `EpochWalk` is the slow descent, `Probes` and `Derivation` the fast reconstruction of an epoch from its
  top level and its records. `Mirroring` shows that after a pass a query of the copy alone has the answer the table had at
  that pass, pass after pass, while others write, delete and compact between them. `SoleWriter` shows that the only
  writer's mirror, once passed over, stays current by its own writes.
- **Replicas.** `HashRing` is consistent hashing with group-diverse reordering, `Replication` the reads and writes over
  nodes that may be down. An honest read in the sense of `Chains` is what `Replication.MGetNetwork` provides.
- **Streams and aggregates.** `Streaming` specifies a stream as a sequence and proves `query_stream` and its paging
  against it. `Aggregates` proves counts, histograms and estimates from chain lengths. `Sharding` is how several
  databases are read as one.
- **Tokens.** `NumberTheory` and `BlindToken` prove the blind issuance round trip, `SpendLedger` and `SpendRuns` the
  ledger under any interleaving, `Wallet` the choice of tokens. `Sequences` is the network of clients that claim numbers by
  insert-if-absent, as a state machine, with the clients' loops as runs of it.
- **SQL.** `SqlWhere` is the compilation of a WHERE clause.
- `Basics` holds what several of them need.

The map's keys are values of a datatype instead of pseudorandom strings, so different entries never collide, and masking
is left out since it undoes itself. A node is an atomic map with an up or down flag; which nodes answer, which writes
land and which keys are silent are parameters; where a theorem needs some of them to answer, its row or the last section
says so. At the level of the index a key is in the network until its last copy is gone, so read repair adds nothing there;
that it does not is `Replication`'s result.

The protocol's state carries two histories: how far each compacted epoch's chains were read by its last drain walk, and
which tombstones its rewrite went by. A record is left behind when it was written into an epoch without its drain walk
coming upon it. A tombstone lapses when its epoch is read no more while a newer one lists the record. What stands is the
table without what was left behind.

## Where the code does less than its comments

- The cover is called minimal without a condition (blindrange/dyadic.py:24); see `Dyadic.MinimalExactly` and
  `Dyadic.NotAlwaysMinimal`.
- Round 1 of a query refuses unresolved entries but not unresolved growth probes (blindrange/client.py:2166-2170): a chain
  that grew behind silent replicas is taken for one that did not. `Counterexamples.SilentProbe` is a query that succeeds
  without its record. A counter is right after the walk if and only if its chain had not grown or its probe was answered
  (`Query.CountedIffHeard`), and the rows are all that is live if and only if each such record sits in slots the counters
  then prove (`Query.NearlyIffCounted`). Silent ciphertexts are refused.
- Refreshing the epoch skips markers that do not come back but moves past them (blindrange/client.py:1601-1613); so does
  the refresh of the registry. `Counterexamples.SilentMarker` is one that leaves the owner in a sealed epoch. The caches are
  right afterwards if and only if no missing marker was higher than those read, and every missing name was known
  (`Query.Owner.RefreshEpoch`, `Query.Owner.RefreshWriters`).
- The refresh of tombstones moves past those that do not come back (blindrange/client.py:1712-1720).
  `Counterexamples.SilentTombstone` returns a deleted record from a query that everybody answers; `Mirroring.RefreshTombs`
  says when that cannot happen.
- A compaction deletes the old epoch's tombstones in any order with the entries they hide, and its rewrite drops only what
  it found (blindrange/client.py:2400-2437), while the removal of ciphertexts is best effort. It goes by the tombstones that
  come back, and refuses nothing when some do not (blindrange/client.py:2409). `Counterexamples.TombstoneGoesFirst`,
  `Counterexamples.StragglerBuries` and `Counterexamples.TombstoneUnheard` are runs after which a deleted record is returned.
  The rewrite uncovers none if and only if each tombstone of what it has read came back (`CompactionProof.LayoutUncovers`).
- It walks the writers whose names have come back from the registry (blindrange/client.py:2338), and its drain ends when two
  walks agree (blindrange/client.py:2400-2407): neither keeps a writer it does not know, or one that is slow, from writing
  into the old epoch unread. `Counterexamples.WriterUnheard` and `Counterexamples.WriterTooLate` lose a live record.
  `CompactionProof.WalkMisses` and `CompactionProof.LayoutLoses` say exactly when none is lost.
- All queries are exact, outside the deletion of an epoch, if and only if nothing live was left behind and every deleted
  record that can still be come upon has a tombstone that can be found (`Readers.ExactIff`; `Readers.ExactIffHidden` during
  it).
- Derivation tolerates 99 unreadable ids in a chain and marks a chain done up to 98 (blindrange/client.py:968-980);
  `Derivation.PassesSuffice` shows both bounds to be exact. Its probes are not covered by the refusal of unresolved keys, so
  that one silent slot settles a chain short of its end, as in `Counterexamples.SilentSlot`: a length is exact if and only
  if it is within the bound and no slot of the chain went unheard (`Derivation.DerivedExact`). Neither are the fallback's
  second read, which copies exactly what comes back (`Derivation.WalkCovers`), nor the fetch of missing records
  (blindrange/client.py:841), which loses nothing live if and only if no live record fails to come back
  (`Mirroring.RecordsLandIff`).
- A stream refuses nothing that does not come back while it is walked, neither entries nor ciphertexts
  (blindrange/client.py:1906-1989, 2043-2045). `Counterexamples.SilentStream` is a batch without its row. A batch is complete
  if and only if of each matching record an entry and the ciphertext came back (`Streaming.BatchExactIff`).
- A stream passes records that lack the field of another predicate (blindrange/client.py:2051-2052), which a query never
  returns; `Streaming.StreamVersusQuery` states the exact difference.
- Counters move before an insert is durable (blindrange/client.py:1751-1758); `Writing.FailedPutLeavesHoles` says in which
  chains a failed one leaves a hole, and in which not.
- Two clients whose claims reach no common replica both win (blindrange/client.py:1184-1190), as in
  `Sequences.DisjointClaimsBothWin`; `Sequences.NumbersUnique` shows that nothing else hands out a number twice.
- A key refresh between verification and spending can let a token be accepted twice (blindrange/node.py:559-605), as in
  `SpendRuns.RefreshMidRequest` and `SpendRuns.ReturningEpoch`; `SpendRuns.RefreshSafeIff` says which refreshes are harmless.
- Overpayment is not bounded by the smallest denomination held (blindrange/token.py:289-291):
  `Wallet.SmallestIsNoBound` is what is then taken, and `Wallet.OverpaymentIff` when the bound is kept.
- Values outside a field's domain are stored under labels no query reaches, and a compaction drops those labels;
  `Counterexamples.OutsideIsLost` shows such a value, and `Index.ReachableIff` draws the line. What is called satisfying a
  predicate here includes that the value lies in the domain.

## Model

| member | source | states |
|---|---|---|
| Merkle.Split | blindrange/merkle.py:46-51 | the doubling loop finds the one power of two k with k < n <= 2k; below two leaves it stays at 1 |
| Merkle.RootInjective | blindrange/merkle.py:54-62 | two trees over equally many leaves share a head only when all their leaves are equal |
| Merkle.PathsAgree | blindrange/merkle.py:84-98 | the sides read off the bits of an index and the level sizes are the sides of the recursive split, for every tree |
| Merkle.VerifyInclusion | blindrange/merkle.py:78-98 | accepts exactly when folding the proof along the path, surplus siblings on the left, gives the head; total on bad sizes and short or long proofs |
| Merkle.InclusionComplete | blindrange/merkle.py:65-98 | every audit path the log hands out is accepted (sections 2.1.1 of RFC 6962 and 2.1.3.2 of RFC 9162) |
| Merkle.SurplusLeavesTree | blindrange/merkle.py:78-98 | siblings folded in after the size has reached 1 can never lead from a leaf to the head of a real log |
| Merkle.InclusionSound | blindrange/merkle.py:78-98 | whatever path is accepted for an entry at m against the head of n leaves, the log holds that entry at m, and the path has the exact length |
| Merkle.VerifyConsistency | blindrange/merkle.py:119-152 | accepts exactly when both heads are rebuilt from one seed along the prefix path, the seed being the old head for powers of two |
| Merkle.VerifySteps | blindrange/merkle.py:131-152 | the loop over last indices: right exactly when the listed steps rebuild both heads, with none missing and none left over |
| Merkle.ConsistencyComplete | blindrange/merkle.py:101-152 | for all 0 < m <= n the proof built between the first m leaves and all n is accepted |
| Merkle.ConsistencySound | blindrange/merkle.py:119-152 | any accepted proof between heads of m and n leaves forces the old log to be exactly the first m leaves of the new one (sections 2.1.2 of RFC 6962 and 2.1.4.2 of RFC 9162) |
| Merkle.Log.Append | blindrange/merkle.py:172-175 | adds one entry at the end and returns its index; the stored leaf hashes stay those of the entries |
| Merkle.Log.Consistency | blindrange/merkle.py:183-184 | a log's own proof joins its current head to the head it had at any earlier size; other sizes are refused |
| Merkle.Log.Inclusion | blindrange/merkle.py:180-181 | a log's own proof is accepted for each of its entries; other positions are refused |
| Merkle.HistoryUnrevised | blindrange/merkle.py:155-184 | two heads joined by an accepted proof: the entries behind the older are a prefix of those behind the newer |
| Dyadic.MaxLevel | blindrange/dyadic.py:9-15 | succeeds exactly for power-of-two leaf widths narrower than the domain, and then leaves are exactly that wide |
| Dyadic.LevelsForContains | blindrange/dyadic.py:18-20 | a label is listed for a value exactly when it is a stored level and its interval holds the value |
| Dyadic.Descend | blindrange/dyadic.py:28-41 | the recursion that carries lo and hi and appends to one list yields the cover of its node after what was there |
| Dyadic.DyadicCover | blindrange/dyadic.py:23-43 | the list returned is the cover whose geometry the next rows state |
| Dyadic.CoverStored | blindrange/dyadic.py:23-43 | the cover's intervals are stored, inside the domain, disjoint and ascending, whatever the bounds |
| Dyadic.CoverExact | blindrange/dyadic.py:23-43 | a value is held by the cover exactly when its leaf meets [a, b]: the union is the leaf hull of the range |
| Dyadic.SharesOneLabel | blindrange/dyadic.py:18-43 | an indexed value and a cover have exactly one label in common, or none |
| Dyadic.CoverSize | blindrange/dyadic.py:23-43 | at most two intervals a level |
| Dyadic.CoverOfNode | blindrange/dyadic.py:23-43 | the cover of exactly one stored interval is that interval |
| Dyadic.MinimalExactly | blindrange/dyadic.py:23-43 | the cover is smallest among families of stored intervals with its union if and only if neither end of the range splits a pair of sibling leaves |
| Dyadic.NotAlwaysMinimal | blindrange/dyadic.py:23-24 | the comment's unconditional minimality fails: [1, 2] over leaves of width 2 |
| Dyadic.EncodeStr | blindrange/dyadic.py:51-55 | the loop computes the base-32 number of the first characters' codes, zero past the end |
| Dyadic.PrefixRange | blindrange/dyadic.py:58-67 | the loop computes the bounds the next row is about |
| Dyadic.PrefixRangeExact | blindrange/dyadic.py:46-67 | a string's encoding lies in a prefix's range exactly when every stored character of the prefix has the string's code at that place |
| Dyadic.LettersFold | blindrange/dyadic.py:46-48 | letters have the codes 1 to 26 in alphabetical order, the same in both cases, and everything else has 0 |
| Dyadic.EncodedInDomain | blindrange/dyadic.py:51-55 | encodings fit into five bits a character |
| Chains.StopOfDense | blindrange/client.py:1500-1564 | on a dense chain, searched from any count not above its end, an entry followed by a gap can only be the end |
| Chains.DiscoverEnds | blindrange/client.py:1500-1564 | for a batch of chains: each result is a stop above its cached length, on dense chains the exact end, and the number of rounds is exactly that of the largest gap, 2 * floor(log2(gap + 1)) + 1; it fails only when a slot the search asks for is silent |
| Index.SatisfierLabelled | blindrange/client.py:2120-2156 | a record that satisfies a predicate carries a label of the predicate's cover |
| Index.SatisfiesMeans | blindrange/client.py:2120-2130 | a range is satisfied by the values between its ends and inside the domain, a prefix by the texts that have its codes as far as characters are stored |
| Index.LabelledInDomain | blindrange/client.py:2141-2156 | a record listed under a label of a predicate's cover carries the field with a value of its domain |
| Index.ReachableIff | blindrange/client.py:2120-2156 | a record with a value in the range asked for is listed under a label of the cover if and only if the value lies in the field's domain |
| Index.ListedFound | blindrange/client.py:2182-2216 | an id is among those read up to the stop whenever no empty slot lies between what the reader is sure to have counted and the id, from any counter at or past that |
| Index.NearlyIsAnswer | blindrange/client.py:2242-2268 | rows that hold all that is live and satisfies the query are the answer if and only if none of them is deleted |
| Query.Enumerate | blindrange/client.py:2158-2201 | the speculative walk reads every entry up to each chain's stop, in one round plus a gallop for what grew; a chain whose growth probe nobody answered keeps its count; a refusal names silent keys that the counters prove or that lie on chains heard to have grown, and growth of a system chain is reported only when there is some |
| Query.CountedIffHeard | blindrange/client.py:2158-2201 | after the walk the count of a gap-free chain is right if and only if the chain had not grown or its probe was answered |
| Query.Catchup | blindrange/client.py:2180-2201 | chains that grew are galloped from the probe hit and everything past it is fetched; the others keep their counts |
| Query.AbsorbMarks | blindrange/client.py:1601-1612 | taking in the markers that came back from a true prefix gives the epoch and sealed mark of the longer prefix if and only if no marker that did not come back is higher; a newer epoch empties the own counters |
| Query.AbsorbNames | blindrange/client.py:1653-1659 | taking in the registry slots that came back from a true prefix gives the writers of the longer prefix if and only if every name that did not come back was known |
| Query.Owner.RefreshEpoch | blindrange/client.py:1587-1622 | the epoch chain is known to its end afterwards, and the cached epoch and sealed mark are right if and only if no marker that did not come back is higher than what was read; caches that could be trusted, with counters of epochs no longer read, then still can; it fails only when a slot the search asks for is silent |
| Query.Owner.RefreshWriters | blindrange/client.py:1645-1661 | the registry is known to its end afterwards, and the cached writers, registered ones all, are right if and only if every name that did not come back was known; caches that could be trusted then still can |
| Query.WalkSettles | blindrange/client.py:2204-2240 | after a walk with every growth heard of, every touched gap-free chain is counted exactly, every tombstone with no gap before it has been taken in, and the caches are still reliable |
| Query.AnswerExact | blindrange/client.py:2242-2259 | intersecting the ids found, subtracting tombstones and filtering the ciphertexts gives every live record that satisfies the query, and beside those at most deleted ones whose ciphertext and an entry are still there and whose tombstone was not taken in |
| Query.PassRows | blindrange/client.py:2204-2268 | whatever went unanswered: the rows of a pass are exactly the ids in slots the counters prove under every predicate, less the tombstones taken in, as far as their ciphertexts pass the filter |
| Query.NearlyIffCounted | blindrange/client.py:2158-2268 | the rows of a pass hold all that is live and satisfies the query, and nothing untrue, if and only if every such record sits, under each predicate, in a slot the counters prove after the pass |
| Query.PassExact | blindrange/client.py:2158-2268 | one complete pass, under any view its caches are reliable for: rows are the answer, but for deleted records still shown without a findable tombstone; counters are exact, and reliability is kept |
| Query.Owner.QueryOnce | blindrange/client.py:2158-2268 | a single pass: its rows and counters are exactly what the slots counted afterwards say, a counter being right if and only if growth was heard of; with every growth heard of the rows are the answer as far as the view allows, for every view at once; a refresh is asked for only when a system chain grew, and what did not respond is named |
| Query.Owner.QueryMulti | blindrange/client.py:2100-2268 | from caches that are true prefixes and counted no chain past what it ever held, with no index entry silent: rows are the live records that satisfy every predicate, exactly when each deleted record still shown has a findable tombstone; all counters touched are exact, at most one retry is needed, and an unknown field is refused; with nothing silent it always succeeds |
| Compaction.ReadersSeeTable | blindrange/client.py:1587-1629 | in every state of the protocol's invariant a reader of the current epochs and writers finds all that is live and was not left behind, and nothing untrue of the table |
| Compaction.DeadOnWalk | blindrange/client.py:2323-2450 | a deleted record that can still be come upon has a tombstone any reader is sure to find, unless the deletion of the epoch has got to its tombstones or one in an epoch no longer read has lapsed |
| Compaction.DeadOnTop | blindrange/client.py:2427-2448 | once the rewrite is in place the newest epoch has the tombstones of all that it lists, lapsed ones aside |
| Compaction.LostIsNowhere | blindrange/client.py:2400-2448 | a record a compaction left behind is listed in no epoch that is still read whole, now or later |
| CompactionProof.InsertKeeps | blindrange/client.py:1732-1760 | an insert by any registered writer, into the newest epoch or any older one, at any time, keeps the invariant |
| CompactionProof.BuryKeeps | blindrange/client.py:1766-1785 | so does appending a tombstone, in whichever epoch the writer is in |
| CompactionProof.EraseKeeps | blindrange/client.py:1786-1787 | so does removing the ciphertext of a tombstoned record, at any time or never |
| CompactionProof.RegisterKeeps | blindrange/client.py:1671-1689 | so does a writer joining the registry |
| CompactionProof.OpenKeeps | blindrange/client.py:2373-2398 | so does opening the next epoch, whichever registered writers the compactor knows of |
| CompactionProof.WalkKeeps | blindrange/client.py:2400-2407 | so does the last drain walk of the writers known |
| CompactionProof.RewriteKeeps | blindrange/client.py:2409-2436 | so does landing any one entry of the rewrite, in any order |
| CompactionProof.BeginDeleteKeeps | blindrange/client.py:2435-2437 | so does moving on to deletion once the whole rewrite is in place, whichever ciphertexts are still around |
| CompactionProof.RemoveKeeps | blindrange/client.py:2437 | so does deleting any one key of the old epoch, in any order |
| CompactionProof.SealKeeps | blindrange/client.py:2438-2448 | so does the seal |
| CompactionProof.StepKeeps | blindrange/client.py:2323-2450 | every step of writers and compactor keeps the invariant, whatever names and tombstones the compactor has missed and however late stragglers are |
| CompactionProof.RunKeeps | blindrange/client.py:2323-2450 | it holds in every state of every such run, through any number of compactions |
| CompactionProof.LayoutForgets | blindrange/client.py:2409-2425 | under a label queries reach, the rewrite carries over exactly what the walk has read there, less the tombstones that have come back |
| CompactionProof.WalkMisses | blindrange/client.py:2400-2407 | the drain walk misses nothing live that is there by then if and only if every writer with a live record in the old epoch is among those the compactor knows |
| CompactionProof.LayoutLoses | blindrange/client.py:2409-2425 | the rewrite leaves nothing live behind if and only if the walk has come upon all that is live in the old epoch |
| CompactionProof.LayoutUncovers | blindrange/client.py:2409-2425 | the rewrite carries over no record with a tombstone in the old epoch if and only if every such record it has read is among the tombstones that have come back |
| CompactionProof.LapsedIsNotDropped | blindrange/client.py:2409-2448 | a tombstone that lapses is one no rewrite has gone by |
| Compacting.Announce | blindrange/client.py:2336-2398 | the compactor's names are registered ones, all of them if and only if every name that did not come back was known; its announcement is the opening step if and only if no marker that did not come back is higher than those it has read, and then its caches are warm in the world it opens if and only if the names are all there; with everything heard it is made exactly when no compaction is in flight, and refused exactly when one is |
| Compacting.Rewrite | blindrange/client.py:2409-2436 | laid out from what walk and tombstones have brought, whatever has not come back, the rewrite and its writes are the layout step and rewriting steps of the protocol; it goes by tombstones known or heard of, all that were counted if and only if each one that did not come back was known, and then warm caches are warm afterwards |
| Compacting.LandAll | blindrange/client.py:2435-2436 | any set of the rewrite's slots can land by rewriting steps, one after another |
| Compacting.WarmAlong | blindrange/client.py:2323-2450 | along any stretch of the protocol's steps counters stay within the chains, known names stay known, and warm caches stay warm |
| Compacting.Finish | blindrange/client.py:2427-2450 | the deletion of whichever old keys are reached and the seal are the deleting steps and the seal of the protocol; the compactor's counters are right for its next inserts; and in the world it leaves its caches are warm and can be trusted by its next query, whatever tombstones it had missed before, if and only if it knew every writer its registry slots name and no seal still to come |
| Readers.StepFollows | blindrange/client.py:2323-2450 | every step leaves logs, system chains, the table and what was left behind only grown, and fills no tombstone's slot again |
| Readers.WarmFollows | blindrange/client.py:1587-1629 | caches that were right before a step of anybody's are right after it, counters of chains the compactor is deleting included |
| Readers.WarmIsTrusted | blindrange/client.py:2323-2450 | in every state, caches can be trusted by queries if and only if they are true prefixes, counted no chain past what it ever held, and have taken in the tombstones they counted |
| Readers.Session | blindrange/client.py:2100-2450 | an owner that starts with nothing and queries at any moments of any run, through any number of compactions by others: every answer holds all that is live, was not left behind and satisfies the query, and nothing untrue; nothing deleted, outside the deletion of an epoch, but records whose tombstones have lapsed; nothing left behind outside it; and a record whose tombstone an answered query could not miss never comes back |
| Readers.ExactIffHidden | blindrange/client.py:2323-2450 | whatever a deletion has removed, where nothing live was left behind: all queries of all owners with right caches are exact if and only if every deleted record that can still be come upon has a tombstone with no empty slot before it |
| Readers.ExactIff | blindrange/client.py:2323-2450 | outside the deletion of an epoch they are exact if and only if that is so and nothing live was left behind |
| Readers.ExactButForLapsed | blindrange/client.py:2323-2450 | that is the case in every state in which no epoch's deletion has got to its tombstones, records left behind and lapsed tombstones aside |
| Readers.OldEpochDispensable | blindrange/client.py:2427-2448 | from the complete rewrite on, during the deletion of the old epoch and after its seal, the newest epoch alone shows all that is live and was not left behind, and the tombstones of all else it lists, lapsed ones aside |
| Counterexamples.TombstoneGoesFirst | blindrange/client.py:2427-2437 | a run in which the deletion of an epoch removes a tombstone before the entries it hides: a deleted record whose ciphertext survived is returned |
| Counterexamples.StragglerBuries | blindrange/client.py:2400-2437 | a run in which a straggler deletes, in the old epoch, a record inserted in the new one: the rewrite has nothing to drop, the tombstone lapses with its epoch, and the record is returned again |
| Counterexamples.TombstoneUnheard | blindrange/client.py:2409-2425 | a run in which a tombstone does not come back when they are read for the rewrite: the deleted record, whose ciphertext survived, is carried over and returned from then on |
| Counterexamples.WriterUnheard | blindrange/client.py:2336-2407 | a run in which the name of a writer does not come back from the registry: its live record is never walked, is sealed away with the old epoch, and no query finds it |
| Counterexamples.WriterTooLate | blindrange/client.py:2400-2448 | a run in which a known writer inserts into the old epoch after the last drain walk: its live record is sealed away, and no query finds it |
| Counterexamples.SilentProbe | blindrange/client.py:2158-2180 | one record (reached by OneRecordIsReached) behind one silent growth probe: a query that goes unanswered there succeeds without the record |
| Counterexamples.SilentSlot | blindrange/client.py:967-1008 | one entry predicted of two and the first slot past it silent: the pass succeeds, and if the slot does not come back the chain is settled one short for good |
| Counterexamples.OutsideIsLost | blindrange/client.py:2120-2156 | the value two in a field of one bit: a query for everything up to two looks under no label of the record |
| Counterexamples.SilentMarker | blindrange/client.py:1587-1622 | a chain of four markers with the third silent, read from the first: the refresh succeeds, and if the marker does not come back the owner stays in a sealed epoch with a count past the marker |
| Counterexamples.SilentTombstone | blindrange/client.py:1702-1729 | a chain of three tombstones (reached by ThreeTombsAreReached) with the second silent: the refresh succeeds and counts it, and if it does not come back the deleted record is returned by later queries that everybody answers |
| Counterexamples.SilentStream | blindrange/client.py:1906-1989 | one record whose entry is counted and silent: a stream's batch over its interval succeeds, and if the entry does not come back it is without the row |
| EpochWalk.WalkLevel | blindrange/client.py:2286-2315 | one level of the descent finds what each frontier label lists, and the keys of exactly those entries |
| EpochWalk.ParentContents | blindrange/client.py:2316-2318 | everything listed under an interval is listed under the interval above it, so descending from non-empty labels misses nothing |
| EpochWalk.DeeperEmpty | blindrange/client.py:2287-2318 | once the frontier is empty no deeper label lists anything |
| EpochWalk.WalkField | blindrange/client.py:2282-2318 | the descent through a field's tree finds exactly the contents of every label of the domain, and exactly the keys |
| EpochWalk.WalkEpoch | blindrange/client.py:2272-2321 | the same for all fields asked for, or for a given subset of them |
| EpochWalk.WalkIsDrain | blindrange/client.py:2400-2407 | such a walk of a drained epoch is the drain step of the protocol |
| Probes.TrackedStep | blindrange/client.py:990-1006 | one probing of a chain adds the entries found, settling it exactly when the probe range was not used up or a probe of a slot that is there went unheard |
| Probes.Pass | blindrange/client.py:969-1006 | one pass over all unsettled chains keeps the account of what has been seen and what went unheard, or refuses on account of predicted entries that did not answer |
| Probes.SettledLifts | blindrange/client.py:1007-1008 | leaving early because every chain is settled is the same as going through the passes that remain |
| Probes.Verify | blindrange/client.py:967-1008 | up to three passes over predicted lengths give what three passes give, with an account of the probes that went unheard |
| Probes.ThreePasses | blindrange/client.py:967-1008 | the length found is the true end if and only if at most three times the slack lies past the prediction and none of the chain's slots went unheard; the chain is marked done if and only if strictly less does or one did |
| Derivation.ReadTop | blindrange/client.py:889-907 | level 1 is read to its exact ends |
| Derivation.Homes | blindrange/client.py:908-916 | each id read is given the writer of a slot it was read from |
| Derivation.HomesRight | blindrange/client.py:889-919 | level 1 names every record of the epoch, each with the one writer whose chains hold it |
| Derivation.TallyRecord | blindrange/client.py:946-960 | a record counts once for each of its labels below level 1 |
| Derivation.Tally | blindrange/client.py:939-960 | per chain the number of readable records that belong there, per writer the number of unreadable ids |
| Derivation.PredictedLength | blindrange/client.py:854-860 | the records themselves tell the tree: a chain's predicted length is the number of its ids that can still be read |
| Derivation.StartWithin | blindrange/client.py:962-980 | a prediction is short of the true end by exactly the chain's unreadable ids, which are no more than the writer's |
| Derivation.PassesSuffice | blindrange/client.py:967-1008 | three passes of at most 33 probes find the end if and only if at most 99 of the chain's ids are unreadable and no probe of a slot of it went unheard; they mark it done if and only if at most 98 are or one did |
| Derivation.FallbackIsStray | blindrange/client.py:993-998 | a field falls back only on account of a value outside its domain |
| Derivation.DerivedExact | blindrange/client.py:1009-1011 | derived lengths equal the true ends exactly where the condition above is met |
| Derivation.SettledIsExact | blindrange/client.py:1005-1006 | a chain marked done has its true end, whatever the number of unreadable records, if and only if none of its slots went unheard |
| Derivation.WalkCovers | blindrange/client.py:1013-1023 | of the fields walked instead, every slot is copied if and only if it came back when it was read |
| Derivation.DeriveEpoch | blindrange/client.py:846-1024 | the whole derivation, whatever goes unanswered: level 1 exact and ids all found, or refused; below it, lengths exact for a label with a readable record if and only if it is within the bound and its probes were heard of; what cannot be vouched for is walked instead |
| Mirroring.Mirror.Read | blindrange/client.py:1247-1278 | before a pass has completed, and with other writers once both the window and three times the last pass's duration are over, a read is an honest read of network and copy together; otherwise the mirror answers alone and leaves nothing unresolved |
| Mirroring.NotedKeeps | blindrange/client.py:873-878 | counters noted by a derivation keep a mirror ready for its next pass, and an own counter that was right stays right |
| Mirroring.RefreshTombs | blindrange/client.py:1691-1729 | tombstone counters move to where the chains stop and tombstones known only grow; every counted tombstone has been taken in afterwards if and only if each one that did not come back was known from elsewhere; it fails only when a slot the search asks for is silent |
| Mirroring.RecordsLandIff | blindrange/client.py:835-842 | after the fetch of the ciphertexts a mirror lacks it has every live one, if and only if none of those that did not come back is of a live record |
| Mirroring.SyncEpoch | blindrange/client.py:832-842 | one epoch of a pass copies every entry of a label with a readable record and every live record's ciphertext, within the bound on unreadable records, whatever earlier passes have left in the mirror |
| Mirroring.SyncPass | blindrange/client.py:823-844 | a pass over a quiet network, whose entries and live records answer, with at most 99 unreadable ids in any chain: it copies all a reader needs and counts all tombstones, whatever others have deleted, erased or compacted since the last one; whether or not it completes the mirror is ready for the next, and a failed one leaves the freshness marks as they were |
| Mirroring.ReadyFollows | blindrange/client.py:823-844 | whatever step others take between two passes, a mirror and its owner's caches stay ready for the next pass |
| Mirroring.CopyIsReliable | blindrange/client.py:823-844 | after a completed pass the copy alone is as faithful to the table as the network, under the same view, and the caches are reliable on it |
| Mirroring.HiddenInCopy | blindrange/client.py:823-844 | a record the copy still shows and that no longer stands is a deleted one, and its tombstone has been taken in unless that has lapsed |
| Mirroring.OneAnswer | blindrange/client.py:2100-2268 | the answer to a query is unique |
| Mirroring.QueryMirror | blindrange/client.py:1268-1272 | a query answered by a mirror that serves always succeeds with all that is live and satisfies it, and beside that at most deleted records the copy still shows whose tombstones are not known; the mirror goes on serving and stays ready for its next pass however far the network has moved on |
| Mirroring.PassServes | blindrange/client.py:823-844 | a completed pass puts the mirror into that state, with every deleted record it still shows known as deleted but for lapsed tombstones |
| Mirroring.EmptyMirrorReady | blindrange/mirror.py:40-52 | an empty mirror and caches that are right are a valid start for the first pass |
| Mirroring.MirrorSession | blindrange/client.py:744-762 | a mirror that starts empty and passes over any quiet worlds of any run, entries and live records answering and no chain with more than 99 unreadable ids, others inserting, deleting and compacting in between: each completed pass ends in a mirror that serves, and what it answers later is the table as it stood at that pass, but for records whose tombstones have lapsed |
| Writing.AppendField | blindrange/client.py:1747-1757 | one entry per level, each in the slot its counter gives, every counter moved by one |
| Writing.AppendRecord | blindrange/client.py:1738-1757 | the entries of all indexed fields of a record and its ciphertext, nothing else |
| Writing.InsertRefines | blindrange/client.py:1732-1760 | from counters that are true, those writes are an insert step of the protocol and leave the counters true |
| Writing.InsertMany | blindrange/client.py:1732-1760 | a durable batch is a run of insert steps into the epoch the owner goes by, and adds exactly its records; after one that is not durable the network is unchanged but the counters have moved |
| Writing.FailedPutLeavesHoles | blindrange/client.py:1751-1758 | after a failed insert the next one leaves a chain nothing has been deleted from dense if and only if the failed record did not carry that label |
| Writing.DeleteMany | blindrange/client.py:1766-1787 | a durable batch is a run of protocol steps that deletes exactly its records, tombstones before ciphertexts; a failed one changes neither network nor caches |
| Writing.Erasures | blindrange/client.py:1786-1787 | removing whichever ciphertexts are reached is a run of erasing steps |
| SoleWriter.SoleNeverLapses | blindrange/client.py:1732-1787 | as long as only one writer has ever registered, and it writes into the newest epoch and goes by all its own tombstones when it compacts, nothing is left behind and no tombstone lapses, in every state of every run |
| Writing.StepsKeep | blindrange/client.py:1732-1787 | any such run keeps the protocol's invariant |
| SoleWriter.PassServesSole | blindrange/mirror.py:107-129 | one completed pass between compactions (SolePass makes it) puts the only writer's mirror into the state in which it serves until its owner's next compaction |
| SoleWriter.SoleInsert | blindrange/client.py:1102-1112 | a durable insert of the only writer, written through, leaves its mirror as current as before |
| SoleWriter.SoleDelete | blindrange/client.py:1766-1787 | so does a durable delete, whichever ciphertexts were reached on the network |
| SoleWriter.SoleQuery | blindrange/client.py:801-811 | in that state every query answered by the mirror alone succeeds with exactly the table's answer, however old the pass is |
| HashRing.Ring.constructor | blindrange/ring.py:92-104 | the ring is sorted and its points are exactly the virtual nodes of the nodes given; replicas never exceed nodes |
| HashRing.Gather | blindrange/ring.py:118-124 | the nodes met first, one after another, clockwise from the place before which every point's hash is at most the key's and from which on every point's hash is higher; fewer than asked for only when the ring has no more |
| HashRing.SuccessorsClockwise | blindrange/ring.py:117-124 | a key's successors are met in that order |
| HashRing.PickLeaders | blindrange/ring.py:143-153 | the first loop picks one node per failure group, nodes without a group counting as their own |
| HashRing.Complete | blindrange/ring.py:154-159 | the second loop fills up in ring order |
| HashRing.Diversify | blindrange/ring.py:132-159 | together they give the diversified order the rows below are about |
| HashRing.DiversifiedInTurn | blindrange/ring.py:132-159 | each pick is the first candidate of a failure group not picked yet, nodes without a group counting as their own, or, when there is none, the first candidate not picked yet |
| HashRing.Ring.Route | blindrange/ring.py:106-127 | as many nodes as asked for, as far as there are any, each picked in turn, as the row above says, from the count + 3 nodes met first clockwise from the first point beyond the key's hash |
| HashRing.RoutedBest | blindrange/ring.py:106-159 | for every ring and count: as many distinct nodes as there are up to the count, all among the first count + 3 successors, the plain first successor in front, and as many failure groups as any choice from those successors |
| HashRing.DiversifiedBest | blindrange/ring.py:132-159 | no choice of as many candidates spans more failure groups |
| HashRing.DiversifiedGrows | blindrange/ring.py:132-159 | asking for more never drops a node already chosen, as long as no more candidates are added than picks |
| HashRing.RoutedNested | blindrange/ring.py:106-159 | every node a write goes to is among those a read probes, after the reordering of both |
| HashRing.JoiningOnlyInserts | blindrange/ring.py:91-124 | a node that joins is only inserted into each key's successor order, all others keeping theirs |
| Replication.Fan | blindrange/client.py:1306-1327 | one parallel round: what is returned is held by a node that answered, and what is still missing was denied by every node that answered |
| Replication.Lookup | blindrange/client.py:1329-1410 | primaries, successors and retries: every key is returned, reported unresolved, or denied by every probed node |
| Replication.SettledIsHonest | blindrange/client.py:1332-1367 | such a lookup is an honest read: silence is never reported as absence |
| Replication.AllUpResolves | blindrange/client.py:1343-1367 | when every probed node answers nothing is unresolved |
| Replication.FoundExactly | blindrange/client.py:1306-1338 | what a lookup has found are exactly the keys held by a probed node that is up |
| Replication.UnresolvedExactly | blindrange/client.py:1343-1367 | what it reports unresolved are exactly the keys not found of whose probed nodes one is down, the count of silent primaries adding nothing to that |
| Replication.Repair | blindrange/client.py:1410-1427 | read repair only gives keys to primaries that answered without them |
| Replication.RepairInvisible | blindrange/client.py:1410-1427 | and changes nothing any read can see |
| Replication.MGetNetwork | blindrange/client.py:1280-1427 | whichever nodes are down: a key is returned exactly when a probed node that is up holds it, with the value such a node holds; it is reported unresolved exactly when it is not returned and a probed node is down; so a key visible to readers is never taken for absent, and read repair changes nothing they see |
| Replication.PrimariesProbed | blindrange/client.py:1301-1303 | every node a write may have gone to is one a read probes |
| Replication.Offer | blindrange/client.py:1093-1105 | a key nobody acknowledged is offered along the read's route until one takes it |
| Replication.Put | blindrange/client.py:1049-1112 | afterwards each key is held, with its value, by as many of its known primaries as the write waits for, which is the acknowledgements asked for, one at least and at most the replicas, or by as many as are up; nodes that are down are untouched; it succeeds exactly when each key has a node of its read route up, and then every key has landed on such a node |
| Replication.WriteVisible | blindrange/client.py:1049-1112 | what landed is visible to every later read and nothing else changed, so a write that got an acknowledgement is never taken for absent |
| NumberTheory.PrimeDividesProduct | blindrange/token.py:178-187 | Euclid's lemma |
| NumberTheory.Fermat | blindrange/token.py:178-187 | Fermat's little theorem |
| NumberTheory.FermatExponent | blindrange/token.py:178-187 | an exponent that is 1 modulo p - 1 changes nothing modulo p, for every base, multiples of p included |
| NumberTheory.ChineseRemainder | blindrange/token.py:178-187 | congruence modulo two different primes is congruence modulo their product |
| NumberTheory.Inverse | blindrange/token.py:182-183 | the extended algorithm's result is an inverse modulo n |
| BlindToken.Mgf1 | blindrange/token.py:135-140 | each byte of the mask is the byte of the digest its position belongs to (appendix B.2.1 of RFC 8017) |
| BlindToken.Fdh | blindrange/token.py:143-155 | below the modulus for every message and every modulus; and it is what the digests of the label, the message and a counter, in their order, leave as a number when cut to the bits that surely fit below the modulus |
| BlindToken.CounterBytes | blindrange/token.py:135-140 | the counter is written as four bytes, most significant first |
| BlindToken.Blind | blindrange/token.py:167-175 | a draw coprime to the modulus is used, and the nonce's hash blinded with it |
| BlindToken.SignThenVerify | blindrange/token.py:178-187 | for n = pq with distinct primes and ed = 1 modulo p - 1 and q - 1, raising to e and d in turn is the identity modulo n |
| BlindToken.UnblindIsSignature | blindrange/token.py:167-183 | what unblinding leaves is the plain signature of the nonce's hash, independent of the blinding |
| BlindToken.RoundTrip | blindrange/token.py:167-187 | a token issued blindly always passes verification |
| BlindToken.RequestTokens | blindrange/token.py:333-358 | whatever the issuer answers, tokens that are kept verify; an issuer that signs is never refused |
| SpendLedger.RefCount | blindrange/node.py:599-601 | the set of refs is as large as the list exactly when no token repeats |
| SpendLedger.Store.Spend | blindrange/node.py:829-843 | a ref lands exactly once, and nothing else changes |
| SpendLedger.TokenGate.Refresh | blindrange/node.py:539-563 | keys and epochs are replaced together and the ledger pruned; an empty answer changes nothing |
| SpendLedger.TokenGate.Appraise | blindrange/node.py:588-595 | a list is worth the sum of its denominations if each token names a known key, has a nonce of 32 bytes and a signature which raised to the key's exponent is the full-domain hash of the nonce; and nothing if one does not |
| SpendLedger.TokenGate.SpendAll | blindrange/node.py:602-605 | all tokens are spent if none had been; otherwise exactly those before the first that had been |
| SpendLedger.TokenGate.Check | blindrange/node.py:565-608 | whatever is paid, already spent, too little or repeated has only tokens that somebody signed, as in the row of Appraise, and a list with one that nobody signed is refused and spends nothing; paid exactly when besides sufficient, without repetition and unspent, and then each token is recorded, by its key and nonce as written, with its epoch; every other refusal says what is the matter |
| SpendRuns.StepKeeps | blindrange/node.py:565-608 | every interleaved step of requests and key refreshes keeps the ledger's invariant |
| SpendRuns.RunKeeps | blindrange/node.py:565-608 | it holds in every state of every run |
| SpendRuns.AcceptedOnce | blindrange/node.py:565-608 | in every run whose refreshes are safe in the sense of the next row but one, however requests interleave, a token is accepted in at most one request |
| SpendRuns.NeverUnderpaid | blindrange/node.py:565-608 | in every run whose refreshes are safe, the keys admitted as paid are at most the denominations redeemed, each token counted once |
| SpendRuns.RefreshSafeIff | blindrange/node.py:559-605 | exactly which refreshes are harmless, as long as retired epochs do not return: nothing can be spent by two requests afterwards if and only if no request under way has, within its reach, a token left whose record the refresh drops and which another request has spent |
| SpendRuns.RefreshMidRequest | blindrange/node.py:559-605 | from a node without keys: a payable request is sent twice and both copies are verified, one is spent and admitted, a refresh retires the token's epoch, and the other copy is admitted too |
| SpendRuns.ReturningEpoch | blindrange/node.py:559-562 | an epoch that was dropped and comes back lets its tokens be spent again |
| Wallet.Choose | blindrange/token.py:295-314 | takes the shortest prefix that suffices, largest first, with its last token traded for the cheapest of the rest that closes the gap; nothing exactly when the balance falls short |
| Wallet.Purse.TakeFor | blindrange/token.py:279-317 | what is taken is that choice from the purse sorted by falling worth; it leaves the purse and nothing else does; an insufficient purse is left alone |
| Wallet.OverpaymentBound | blindrange/token.py:289-317 | overpayment is less than the last token's worth |
| Wallet.OverpaymentIff | blindrange/token.py:289-317 | overpayment stays below a bound, such as the smallest denomination held, if and only if the gap left by all picks but the last is closed to within the bound by one of the tokens not picked before |
| Wallet.SmallestIsNoBound | blindrange/token.py:289-291 | the comment's bound by the smallest denomination held fails: from one token of a hundred and three tens, thirty are paid for with the hundred |
| Sequences.OneWinner | blindrange/client.py:1176-1198 | under any interleaving of the clients' calls and the replicas' insert-if-absent answers, values that land with their replies lost included, two winning claims of one slot were made by different clients and reached no replica in common |
| Sequences.RunKeeps | blindrange/client.py:658-740 | in every state of every run a client's counter is at least every slot it has tried outside a call, what it has collected it owns, and numbers handed out are owned and past all it was handed before |
| Sequences.NumbersUnique | blindrange/client.py:658-740 | a number is handed out twice in a run only to two different clients whose claims of it reached no replica in common |
| Sequences.NumbersIncrease | blindrange/client.py:658-696 | the numbers each client is handed strictly increase, within a call and from call to call |
| Sequences.DisjointClaimsBothWin | blindrange/client.py:1184-1190 | a run in which two clients, one replica each, are both handed the number one |
| Sequences.NextValue | blindrange/client.py:658-698 | the loop from the counter or wherever the search came out, one slot after another, is a run of those steps with everybody else's in between: the number returned is the one handed out by its last step, and none is handed out when time runs out |
| Sequences.NextValues | blindrange/client.py:700-740 | the same for waves of claims started together and collected in any order: exactly as many numbers as asked for are returned and handed out, or none |
| Aggregates.ChainLengths | blindrange/client.py:1805-1820 | on one epoch an interval's length is the number of records listed under it |
| Aggregates.TotalIsInRange | blindrange/client.py:1805-1843 | over disjoint intervals that hold exactly a range's leaves, lengths add up to the number of entries in the range |
| Aggregates.Count | blindrange/client.py:1822-1843 | equals the number of index entries whose leaf meets the range, deleted or not |
| Aggregates.LeavesAreExactly | blindrange/client.py:1850-1873 | the leaves of a range inside the domain hold exactly the values whose leaves meet it, side by side |
| Aggregates.MergedSum | blindrange/client.py:1865-1871 | merging bars keeps their total |
| Aggregates.MergedSpan | blindrange/client.py:1865-1871 | and their span, leaving bars side by side |
| Aggregates.MergedFew | blindrange/client.py:1865-1871 | and leaves no more bars than asked for |
| Aggregates.Reduce | blindrange/client.py:1865-1871 | the reduction to so many buckets does all three, and each of its bars counts what the bars between its ends count together |
| Aggregates.BarCounts | blindrange/client.py:1850-1873 | a bar, merged or not, counts exactly the entries whose values lie between its ends |
| Aggregates.Histogram | blindrange/client.py:1850-1873 | bars are side by side, no more than asked for, add up to the number of entries in the range, and each counts exactly the entries with a value between its ends, before and after merging |
| Aggregates.EstimateError | blindrange/client.py:1875-1886 | over leaves, twice the estimate is within one leaf width per entry of twice the true sum |
| Aggregates.ApproxSum | blindrange/client.py:1875-1886 | the estimate is within n times half a leaf of the true sum of the entries counted, and that error is what is reported |
| Streaming.UnitsExactly | blindrange/client.py:1889-1904 | the intervals walked hold exactly the range's leaves, no value twice |
| Streaming.UnitsInOrder | blindrange/client.py:1889-1904 | for an ordered stream they come in the order of the rows |
| Streaming.UnitEntries | blindrange/client.py:1906-1989 | whatever goes unanswered, a batch takes each chain to stop where the cache had it, or at its true stop if growth was heard of, and of the slots up to there reads exactly those that come back |
| Streaming.SortIds | blindrange/client.py:2055-2063 | rows of a batch come by value, then by id, both reversed when descending |
| Streaming.BatchExact | blindrange/client.py:2043-2054 | a batch's rows are exactly the live records with a value in its intervals that pass the filter |
| Streaming.BatchWhereHeard | blindrange/client.py:2043-2054 | whatever goes unanswered, its rows are exactly the matching records of which an entry and the ciphertext came back |
| Streaming.BatchExactIff | blindrange/client.py:2043-2067 | so it delivers all it should if and only if of each matching record both came back |
| Streaming.StreamBatch | blindrange/client.py:2040-2067 | a batch delivers rows for exactly those matching records of which a counted entry and the ciphertext came back, in the specified order with their cursors, and leaves the caches good; with entries and live records answering it is the batch of the specification |
| Streaming.Deliver | blindrange/client.py:2064-2074 | rows before the cursor are skipped and the limit cuts after the row that reaches it |
| Streaming.QueryStream | blindrange/client.py:1991-2076 | on a network that does not change, where every deleted record still shown has a findable tombstone, and where entries answer while the stream is prepared: every row delivered belongs to the stream, whatever goes unanswered later; and if entries and live records answer throughout, the rows from any cursor are the specified stream from there, cut at the limit |
| Streaming.StreamOnce | blindrange/client.py:2038-2070 | the stream yields each matching record exactly once |
| Streaming.StreamAnswers | blindrange/client.py:1991-2076 | its rows are exactly the live records with a driving value of the domain that lie in every range whose field they carry |
| Streaming.StreamSorted | blindrange/client.py:2055-2063 | an ordered stream is sorted as a whole, across batches, in either direction |
| Streaming.StreamByValue | blindrange/client.py:2055-2063 | in terms of the rows: values of the field rise, or fall when descending, and equal values are ordered by id the same way |
| Streaming.CursorResumes | blindrange/client.py:2035-2067 | what follows the cursor of a row is the stream after that row, so pages of any sizes concatenate to the stream |
| Streaming.FromCursor | blindrange/client.py:2035-2067 | the same for the rows a call with that cursor delivers |
| Streaming.StreamVersusQuery | blindrange/client.py:2051-2052 | a record satisfies all predicates if and only if it passes the stream's filter and carries every asked field inside its domain |
| Streaming.LackingFieldPasses | blindrange/client.py:2051-2052 | a record without an asked field passes the stream and is returned by no query |
| Sharding.Merge | blindrange/sharded.py:268-277 | the rows delivered are the stable merge of the shards' streams, cut at the limit |
| Sharding.MergeSorted | blindrange/sharded.py:270-271 | merging sorted streams gives a sorted stream, in either direction |
| Sharding.MergeStable | blindrange/sharded.py:270-271 | of rows with equal keys those of an earlier shard come first |
| Sharding.ShardedStream | blindrange/sharded.py:241-277 | a sharded stream ordered by an integer field, end to end: what is delivered is the merge of the shards' whole streams cut at the limit, sorted throughout by the rows' values of that field, with each shard's rows in their own order and equal values in the order of the shards |
| Sharding.MergeKeepsShards | blindrange/sharded.py:270-271 | the merge delivers each shard's rows, all of them, in the shard's order |
| Sharding.LimitPassesOn | blindrange/sharded.py:250-277 | passing the limit on to every shard does not change what is delivered within it |
| Sharding.Interleave | blindrange/sharded.py:411-424 | round robin delivers each shard's rows, all of them, in the shard's order |
| Sharding.TotalsSum | blindrange/sharded.py:343-348 | adding up bar by bar keeps the total |
| Sharding.FlatAdds | blindrange/sharded.py:339-348 | adding up shard by shard is adding up all bars, in total and for each pair of ends |
| Sharding.Histogram | blindrange/sharded.py:334-357 | for each pair of ends some shard's bar has, the bars of all shards with those ends are added up, in ascending order; when there are more than asked for, each one delivered stands for a run of neighbours and counts what they count; and the total is what the shards' bars add up to |
| Sharding.ErrorsAdd | blindrange/sharded.py:319-332 | the summed estimate is within the summed error whenever each shard's is within its own |
| Sharding.UntagTag | blindrange/sharded.py:198-208 | untagging undoes tagging for every shard and every handle that is not empty |
| SqlWhere.Cursor.EatCond | blindrange/sql.py:497-566 | one condition is read if and only if a well-written one stands at the cursor, which then stands after it; what is read is true of exactly the rows of which those tokens say something true: a value before, after, equal to or between numbers, a handle or a text that is equal, a text that begins with the pattern's letters |
| SqlWhere.ReadCondSays | blindrange/sql.py:507-566 | the same for each position of a clause and every row, one case for each comparison and column type |
| SqlWhere.ReadIsClause | blindrange/sql.py:494-568 | whatever is read are well-written conditions joined by AND, at most one on a text column, with no AND after the last |
| SqlWhere.ClauseIsRead | blindrange/sql.py:494-568 | every such clause is read, and asks that each of its conditions, as written, is true of the row |
| SqlWhere.Cursor.Gather | blindrange/sql.py:494-568 | the loop refuses exactly the clauses the grammar refuses, and what it compiles accepts exactly the rows on which every condition holds |
| SqlWhere.CompileMeans | blindrange/sql.py:529-561 | compiling one more condition asks exactly that condition in addition |
| SqlWhere.RangeMeans | blindrange/sql.py:570-578 | clamping a range to the domain does not change what it asks of stored rows, and a contradictory one asks for nothing that exists |
| SqlWhere.StartMeans | blindrange/sql.py:592-604 | a prefix range asks for the shared five-bit codes |
| SqlWhere.Finish | blindrange/sql.py:569-581 | the predicates laid out select what the bounds, prefixes and checks accept, with one predicate per column; nothing is asked only when nothing can match |
| SqlWhere.Where | blindrange/sql.py:485-581 | refused exactly when the tokens do not begin with well-written conditions joined by AND, at most one on a text column; otherwise a row is selected exactly when each of the conditions, as written, is true of it, for INT, KEY and TEXT columns; a contradiction selects none |

## Left out

- Dyadic.MinimalExactly: minimality is among families of stored intervals with the cover's own union, the leaf hull, not
  with the range's.
- Query.Owner.QueryMulti: predicates name distinct fields, as the code's dictionary by field needs; rows are a map by id,
  their order is not modelled. The answer to an empty list of predicates is empty, as in the code.
- Readers.Session: a query is atomic with respect to the steps of others. Of a record deleted while an epoch's keys are
  being deleted nothing is promised but what `Readers.ExactIffHidden` says of the state. No index entry is silent during
  the queries; ciphertexts may be.
- CompactionProof.RunKeeps: the compactor does nothing else until the seal, a drain walk is atomic, each write of a batch
  lands whole or not at all and one that fails leaves no trace (`Writing.FailedPutLeavesHoles` says what it does to the
  writer's next inserts), and the run does not crash. Resuming an interrupted compaction and the race for the epoch slot are
  not modelled; the repeated drain walks are represented by the last one.
- Compacting.Announce: what follows an announcement by a compactor that has missed a higher marker is not modelled.
- Mirroring.SyncPass: the network does not change during the pass, no compaction is rewriting or deleting, and index entries
  answer; otherwise nothing is promised. If a live record does not answer, or a chain has more than 99 unreadable ids, the
  pass only keeps the mirror ready.
- Mirroring.MirrorSession: nothing is stated of what a mirror answers after a failed pass until the next one completes.
- SoleWriter.SoleNeverLapses: that a mirror stays current across its owner's own compaction is not stated.
- SoleWriter.SoleInsert: nothing is promised after an insert that was not durable, whose counters have moved; see
  `Writing.FailedPutLeavesHoles`.
- Mirroring.Mirror.Read: hit and miss counters, chunking and the write-through of sequence claims are left out. Time is a
  parameter.
- Replication.MGetNetwork: which nodes answer is fixed within a call, the ring does not change, and membership refresh
  between attempts is left out. Keys are written with one value only, as index entries and ciphertexts are. Deletion of
  replicas is best effort in the code and has no guarantee to state here.
- Replication.Put: writes still in flight when the call returns may land or not; there is no later moment at which they
  are known to have landed.
- HashRing.Ring.Route: keys and virtual nodes are placed by arbitrary numbers instead of SHA-256; nodes are numbers.
- Merkle.VerifyInclusion: proof elements are digests; byte strings of other lengths are not modelled.
- BlindToken.RequestTokens: random draws are a parameter, and the issuer answers every blinded number; one that answers
  fewer yields fewer tokens in the code. Key generation and the encoding of tokens are left out.
- SpendRuns.AcceptedOnce: a token is identified, as in the ledger, by its key id and nonce as written; two writings that
  decode to the same nonce are two tokens. Retired epochs do not return, and refreshes are harmless in the sense of
  `SpendRuns.RefreshSafeIff`; both conditions are shown to be needed.
- SpendLedger.TokenGate.Check: a request that is refused because one token was already spent has spent those before it,
  as in the code.
- Sequences.OneWinner: a claim that reached no replica at all counts as won in the code and in the model.
- Sequences.NextValues: a client makes one call at a time and keeps its counter between calls; a crash that loses it is not
  modelled. Claims of a wave are started in the order of their slots. Time is the number of tries or waves.
- Streaming.QueryStream: which predicate drives an unordered stream is a parameter, so the choice of the cheapest is left
  out. A deleted record that is still shown without a findable tombstone is streamed, as it is returned by a query; with
  silent entries while it is prepared, nothing is promised. Ranges of ordered streams lie inside the domain. Producing rows
  lazily is represented by the list of all of them.
- EpochWalk.WalkEpoch: the epoch walked is whole, that is, not in the middle of being rewritten or deleted; the same holds
  for Derivation.DeriveEpoch and for the epochs counted by the aggregates.
- Aggregates.Count: with two readable epochs the numbers of both are added, and nothing is stated about their overlap.
- Sharding.Merge: shards are sequences; prefetching threads are left out.
- SqlWhere.Where: only the clause is compiled. The tokenizer, data definition, projection, statements without a clause
  and the limit loop are left out, and LIKE compares folded five-bit codes, as the index does. Text is ASCII.
- Wallet.Purse.TakeFor: denominations are read off well-formed key ids.
- Field names that contain the separator of label names are not modelled.
- AES-GCM, HMAC, SHA-256 and Ed25519 are ideal; nothing is said about secrecy or leakage.
- HTTP, QUIC, STUN, relays, retry timing and freshness windows of system chains are parameters or absent.
- Orphan and epoch purging, drop, audit, repair, statistics, schema inference, the S3 gateway, the command line, the web
  interface and the JavaScript port would add members that are easy or have no clean guarantee.
