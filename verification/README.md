# Arcadia recommendation service: a verified model

Dafny models, one module per part of the service, of an event-driven recommender: what ingest does to profiles,
ownership and popularity; how lists are ranked, stored, announced and served; and how the outbox gets the
announcements to a broker. `dafny verify dfyconfig.toml` checks everything.

| module | models |
|---|---|
| `Ordering` | sort keys, `sorted(...)[:limit]`, uniqueness of an ordering under a total key |
| `Vectors` | the sparse and the dense vector space: sums, cosine, overlap, folds |
| `Catalog`, `Preference`, `Recommendations` | the aggregates |
| `Store` | the memory store and the unit of work that stages writes over it, as classes |
| `Ingest` | the four event handlers, each one transaction |
| `Ledger` | the log of every credit issued, and what the store must agree with it about |
| `Outcomes` | what each event leaves behind, field by field |
| `Delivery` | the idempotent wrapper and the consumer's retry loop: runs of attempts, with faults |
| `Confluence` | runs that apply the same events in different orders |
| `Scoring`, `CoPurchase` | content and collaborative scores, ranking, the co-purchase loop and its self-join |
| `Generate` | one generation, the sweep over users, the embedding pass and its two transactions |
| `Lists` | what a generated list holds, in terms of catalogue, ownership rows and profiles |
| `System` | deliveries, generations and the two transactions of any number of embedding passes interleaved, from an empty store |
| `Tastes` | what a taste is in every reachable state, in terms of the events that took effect |
| `Passes` | what a pass in flight can undo, and exactly when it undoes nothing |
| `Drafts` | generations that wait for their explanations: read in one step, committed in a later one |
| `Refresh` | the whole sweep, embedding included, and what a plan reads of the dense vectors |
| `Sweeps` | sweeps of any number of replicas, interleaved, in either space |
| `Steering`, `Landings` | the dense space: when a game that gets its vector changes a user's list, and when none can any more |
| `Serve` | the read path, its popularity fallback and similar games |
| `Outbox` | one dispatcher draining records: attempts, backoff, dead-lettering |
| `Relay` | many dispatchers over one leased table, as an interleaving protocol with a clock |
| `Guards` | what a late record does to a row, and the comparison under which every run is clean |
| `Leases` | runs in which every replica acts within its own leases |
| `Patience` | how long many replicas together keep trying before a row is given up |
| `Witnesses` | runs on which a promise stated with a condition elsewhere is broken |

How things are represented. Ids and feature names are integers whose `<` stands for the order of their strings.
Floats are reals; a square root is a function `root` together with the requirement that it is right at the numbers it
is asked for, and `round(x, 6)` is an arbitrary function, assumed monotone in one lemma only. Clocks, jitter, fresh
ids, embedding vectors, explanations, publish outcomes and infrastructure failures are inputs. A raised exception is
`None` or `Raised`. Methods that change state are proved equal to functions on the store's value (`View`, `Merged`),
and the theorems are about those functions.

What the theorems say, in the order of the code:

* A unit of work reads its own writes and committing it is the same as having written straight to the store, with
  ownership flags OR-ed in any order; leaving without a commit changes nothing. Two reads are not write-through:
  `co_purchases` looks at the store alone, and `uncounted_owners` misreads a row this transaction has counted; when
  the latter is exact, and when it repeats nobody, is proved.
* Whatever is redelivered, retried, faulted or refused, a run of deliveries leaves the store that applying each
  effective message once would leave. An event is refused exactly when it publishes an inadmissible description, or buys
  or reviews a game whose vector and the user's taste have different widths.
* In every state the service can reach a taste counts, feature by feature, the user's credited purchases of games that
  carried it, half the likes, and minus three tenths of the dislikes.
* In every state the service can reach, with any number of embedding passes in flight, each profile is the weighted
  sum of the credits issued to its user, an ownership row is counted exactly when its game is in the owned set, nobody
  is backfilled twice for a game, and flags only rise. A generation that waits for its explanations disturbs the first
  two exactly when it writes a profile back, in the dense space, and its user was credited while it waited.
* An embedding pass writes back whole games as its snapshot held them, so what happens to a game between its two
  transactions is undone. Every purchase of a game is accounted for: it is in the counter, or came before the game was
  known, or was lost to a write-back; a counter is right throughout a run exactly when no purchase of its game falls
  inside a pass that holds it. A withdrawn game stays hidden, and a republished one stays without a vector, exactly
  when no pass in flight holds it. Runs that break each of the three are given.
* While a withdrawn game is hidden no newly generated list, fallback or similarity offers it; a list stored before is
  served until its user's next successful generation.
* Purchases, publications and credited reviews may arrive in any order and end in the same tastes, owned sets,
  counters, rows, titles and feature vectors. The popularity counter is the exception: it is complete exactly when no
  purchase of the game took effect before the game was known.
* Cosine stays in [-1, 1] in both spaces, is blind to scale, and the sparse space is the dense one along any ordering
  of features. Rankings, top sellers, similar games and co-purchases hold exactly the eligible elements that fewer
  than `limit` others beat.
* Until the next event, the sweeps of any number of replicas, one inside another, embedding passes begun and landed
  anywhere, leave each user they generate for with the list the first state determines, as long as no vector the list
  reads is landed: on the sparse path none is read, so sweeping is idempotent; in the dense space the vectors of the
  remembered games and of the candidates are. There a single waiting game can change a list exactly when it is a
  candidate that would be listed at its best for a taste that points anywhere, or a game whose actions do not cancel
  out while some candidate's vector is within reach. Each answered pass takes its whole batch off the waiting games,
  and once none waits sweeping is idempotent in the dense space too.
* A served list is the stored one in order and the latest event of its user carries the same entries.
* One dispatcher makes at most five calls a record and gives up on none before 7.5 seconds. With many, that patience
  holds on every run in which each record finds its row as it was claimed; whatever the
  leases do, a run settles every row at most one way, leaves settled rows alone and raises attempts one by one exactly
  when every record finds its row pending with one attempt less than its copy, a comparison the update does not make;
  acting within one's own lease is enough. Then every call and every send is accounted for.

Where the documentation promises more than the code does, the model follows the code:

* "this endpoint has no failure mode that returns nothing" (src/arcadia_recommendation/application/usecases/serve.py:26-29):
  the fallback is empty exactly when the user owns every game the scan reaches (`Serve.FallbackEmptyIff`), which can
  happen (`Witnesses.FallbackCanBeEmpty`).
* "two replicas draining the same outbox do not both send the same row"
  (src/arcadia_recommendation/infrastructure/persistence/sql/outbox_store.py:13-18): they do when the first is slower
  than its lease (`Guards.SentTwice`), and within the leases exactly for each accepted send whose lease ran out, or
  whose replica died, before it was recorded (`Leases.SendsExplained`). A replica that records after its lease can also
  publish a dead-lettered row, revive one, and forget its attempts (`Guards.LateRecord`); when a record does any of it
  is `Guards.RecordCleanIff`, over whole runs `Guards.CleanIffGuarded`.
* Every early owner has "their taste vector reinforced" by a publication
  (src/arcadia_recommendation/application/usecases/ingest.py:21-23): exactly when they are at most 500
  (`Confluence.PublicationCountsAllIff`); a run with more is `Witnesses.OverflowLeavesUncounted`.
* A regenerated list is published "whenever" it changes (src/arcadia_recommendation/domain/recommendation/events.py:17):
  an emptied list is not (`System.LatestEventStaleIff`, `Witnesses.AnnouncedThenEmptied`).
* "the sweep is idempotent" (src/arcadia_recommendation/infrastructure/scheduler.py:14-18): in the dense space not when
  the later sweep embeds a game the list reads, as after a provider that was down (`Witnesses.DenseSweepMoves`). It is
  when the second batch holds no such game (`Sweeps.WholeSweepsIdempotent`) and once every game has its vector
  (`Sweeps.SettledForGood`, `Landings.EnoughPassesSettle`); which waiting games can change a list is
  `Landings.CandidateMovesIff` and `Landings.RememberedMovesIff`.
* A counted row stands for a signal "already folded into a taste vector"
  (src/arcadia_recommendation/infrastructure/persistence/memory/unit_of_work.py:59-63): a dense generation that waits
  for its explanations writes back the profile it read, and what was folded in meanwhile is lost
  (`Witnesses.WaitLosesCredit`); in either space it stores a list that offers what was bought meanwhile
  (`Witnesses.WaitOffersOwned`). When it does is `Drafts.WaitDisturbsIff` and `Drafts.WaitedListUnowned`.
* A withdrawn game is no longer recommended (src/arcadia_recommendation/domain/catalog/game_profile.py:97-105), a
  republished one loses the vector of its old words (lines 70-89) and `purchase_count` "only ever increments"
  (src/arcadia_recommendation/presentation/consumers/registry.py:18-20): each fails when an embedding pass is in flight
  (`Passes.PassRevives`, `Passes.PassKeepsOldWords`, `Passes.PassLosesSale`), and only then (`Passes.HiddenForeverIff`,
  `Passes.NoStaleVectorIff`, `Passes.SalesRightIff`).

## Model

| member | source | states |
|---|---|---|
| Ordering.SortPermuted | src/arcadia_recommendation/domain/policy/scoring.py:143-151 | under a key with a unique last component, sorting does not depend on the order elements arrive in |
| Ordering.SortFilter | src/arcadia_recommendation/domain/policy/scoring.py:128-152 | dropping candidates and sorting commute |
| Ordering.TopExactly | src/arcadia_recommendation/domain/policy/scoring.py:145-152 | `sorted(...)[:limit]` keeps exactly the elements with fewer than `limit` others ahead |
| Vectors.PlusInPlace | src/arcadia_recommendation/domain/policy/embedding.py:58-64 | the dictionary loop computes the pointwise weighted sum with zeros dropped |
| Vectors.SamePoints | src/arcadia_recommendation/domain/policy/embedding.py:37-39 | sparse vectors that agree at every feature are equal: the normal form is unique |
| Vectors.FoldIsWeightedSum | src/arcadia_recommendation/domain/policy/embedding.py:58-64 | a fold of `plus` is, at every feature, the weighted sum of the folded vectors |
| Vectors.FoldPermuted | src/arcadia_recommendation/domain/policy/embedding.py:58-64 | folding the same actions in another order gives the same vector |
| Vectors.Homomorphism | src/arcadia_recommendation/domain/policy/embedding.py:54-80 | along any feature ordering covering both vectors, densifying commutes with `plus` and preserves magnitude and cosine |
| Vectors.DenseCauchySchwarz | src/arcadia_recommendation/domain/policy/embedding.py:143-153 | the squared dot product is at most the product of the squared magnitudes |
| Vectors.DenseCosineInUnit | src/arcadia_recommendation/domain/policy/embedding.py:143-153 | dense cosine lies in [-1, 1], mismatched widths included |
| Vectors.CosineInUnit | src/arcadia_recommendation/domain/policy/embedding.py:66-80 | sparse cosine lies in [-1, 1] |
| Vectors.CosineScaled | src/arcadia_recommendation/domain/policy/embedding.py:66-80 | a positive factor on a vector changes no sparse cosine |
| Vectors.DenseCosineScaled | src/arcadia_recommendation/domain/policy/embedding.py:143-153 | nor any dense one, on either side |
| Vectors.CosineSymmetric | src/arcadia_recommendation/domain/policy/embedding.py:66-80 | two games are as similar one way as the other |
| Vectors.Overlap | src/arcadia_recommendation/domain/policy/embedding.py:82-90 | the shared features are exactly those both weigh positively, strongest in the first vector first |
| Vectors.OverlapScaled | src/arcadia_recommendation/domain/policy/embedding.py:82-90 | scaling keeps the shared features and their order |
| Preference.Observe | src/arcadia_recommendation/domain/preference/profile.py:45-59 | folding an action fails exactly on two non-empty dense vectors of different widths, and never moves the profile to another user |
| Preference.ActionMoves | src/arcadia_recommendation/domain/preference/signal.py:23-27 | at every feature and every dense coordinate an accepted action adds 1.0, 0.5 or -0.3 times the vector of the game, by purchase, like or dislike |
| Preference.ActionRecorded | src/arcadia_recommendation/domain/preference/profile.py:45-59 | and it records its game and weight, keeping the last 200, owns the game if it was a purchase, counts one signal, and sets the moment |
| Preference.ColdIffWeightless | src/arcadia_recommendation/domain/preference/profile.py:39-43 | a profile is cold iff it has no signal or its taste has magnitude zero, where the cosine gives up |
| Preference.WarmCosine | src/arcadia_recommendation/domain/policy/embedding.py:66-80 | a warm user and a game with features have positive magnitudes, and their cosine is the dot product over both |
| Preference.RebuiltIn | src/arcadia_recommendation/domain/preference/profile.py:61-75 | the loop computes the recursive rebuild, failing exactly when it does |
| Preference.RebuiltIsWeightedSum | src/arcadia_recommendation/domain/preference/profile.py:61-75 | a rebuild fails iff two remembered games carry vectors of different widths; otherwise each coordinate is the weighted sum of the available vectors |
| Preference.RebuiltCommutes | src/arcadia_recommendation/domain/preference/profile.py:45-75 | below the history cap, rebuilding after an action equals acting, with the game's final vector, after rebuilding |
| Preference.LateEmbeddingLosesNothing | src/arcadia_recommendation/domain/preference/profile.py:61-69 | for up to 200 actions the rebuild gives the profile, or the failure, that embeddings present from the start would have given |
| Preference.HistoryIsRecent | src/arcadia_recommendation/domain/preference/profile.py:56 | history is the last 200 actions |
| Preference.Remembered | src/arcadia_recommendation/domain/preference/profile.py:80-87 | the reversed loop computes the remembered games |
| Preference.RememberedOnce | src/arcadia_recommendation/domain/preference/profile.py:80-87 | without repeats |
| Preference.RememberedNewestFirst | src/arcadia_recommendation/domain/preference/profile.py:80-87 | a new action moves its game to the front and keeps the order of the others |
| Preference.RememberedSuffice | src/arcadia_recommendation/domain/preference/profile.py:80-87 | the vectors of the remembered games determine the rebuild |
| Preference.RememberedNecessary | src/arcadia_recommendation/domain/preference/profile.py:80-87 | and leaving any of them out can change it |
| Store.RaiseRow | src/arcadia_recommendation/infrastructure/persistence/memory/unit_of_work.py:59-63 | a row's flag is OR-ed with the new one; no other owner's row changes |
| Store.RaisedInPlace | src/arcadia_recommendation/infrastructure/persistence/memory/unit_of_work.py:59-63 | a new owner goes to the end of the table and a known one keeps the place |
| Store.RowsAreMerged | src/arcadia_recommendation/infrastructure/persistence/memory/unit_of_work.py:59-63 | after a commit a flag is true iff it was or some staged row raised it, and a row exists iff it did or was staged |
| Store.StagingOrderIrrelevant | src/arcadia_recommendation/infrastructure/persistence/sql/repositories.py:153-173 | the order of staged ownership writes never shows in the committed flags |
| Store.Uncounted | src/arcadia_recommendation/infrastructure/persistence/memory/repositories.py:84-87 | lists each owner whose flag is false, once |
| Store.UncountedInOrder | src/arcadia_recommendation/infrastructure/persistence/memory/repositories.py:84-87 | of two such owners the one whose row is older is listed first |
| Store.CountAllFlags | src/arcadia_recommendation/infrastructure/persistence/memory/repositories.py:95-97 | `mark_counted` raises exactly the named owners of that game |
| Store.PendingReadExact | src/arcadia_recommendation/infrastructure/persistence/memory/repositories.py:84-93 | `uncounted_owners` is what a commit would leave uncounted iff nobody it lists is counted by the same transaction or the store |
| Store.PendingReadOnceIff | src/arcadia_recommendation/infrastructure/persistence/memory/repositories.py:84-93 | before the cut, `uncounted_owners` repeats nobody iff this transaction stages no uncounted row of the game twice for a user the store does not list |
| Store.UnitOfWork.constructor | src/arcadia_recommendation/infrastructure/persistence/memory/unit_of_work.py:27-42 | a fresh unit of work sees the store as it is |
| Store.UnitOfWork.GetGame | src/arcadia_recommendation/infrastructure/persistence/memory/repositories.py:19-20 | reads see staged games over stored ones |
| Store.UnitOfWork.UpsertGame | src/arcadia_recommendation/infrastructure/persistence/memory/repositories.py:22-23 | the write is visible to every later read of this unit of work |
| Store.UnitOfWork.GetRecommendable | src/arcadia_recommendation/infrastructure/persistence/memory/repositories.py:25-29 | the popularity scan runs over staged and stored games together |
| Store.RecommendableExactly | src/arcadia_recommendation/infrastructure/persistence/memory/repositories.py:25-29 | the scan holds a game iff it is published and fewer than `limit` published games are bought more, smaller ids first among equals |
| Store.UnitOfWork.GetByIds | src/arcadia_recommendation/infrastructure/persistence/memory/repositories.py:31-33 | so does the lookup by ids, in the order asked |
| Store.ByIdsInOrder | src/arcadia_recommendation/infrastructure/persistence/memory/repositories.py:31-33 | one entry for each known id asked, in the order asked |
| Store.UnitOfWork.GetPreference | src/arcadia_recommendation/infrastructure/persistence/memory/repositories.py:63-64 | reads see staged profiles over stored ones |
| Store.UnitOfWork.UpsertPreference | src/arcadia_recommendation/infrastructure/persistence/memory/repositories.py:66-67 | the write is visible to later reads |
| Store.UnitOfWork.RecordOwnership | src/arcadia_recommendation/infrastructure/persistence/memory/repositories.py:81-82 | staging a row raises its flag in what a commit will leave |
| Store.UnitOfWork.UncountedOwners | src/arcadia_recommendation/infrastructure/persistence/memory/repositories.py:84-93 | store rows first, then this transaction's, cut at the limit |
| Store.UnitOfWork.MarkCounted | src/arcadia_recommendation/infrastructure/persistence/memory/repositories.py:95-97 | the loop stages a raise for every named owner |
| Store.UnitOfWork.ReplaceFor | src/arcadia_recommendation/infrastructure/persistence/memory/repositories.py:122-123 | a user's list is replaced whole |
| Store.UnitOfWork.ForUser | src/arcadia_recommendation/infrastructure/persistence/memory/repositories.py:125-126 | reads see a staged list over the stored one |
| Store.UnitOfWork.Enqueue | src/arcadia_recommendation/infrastructure/persistence/memory/unit_of_work.py:86-100 | an event joins the end of the outbox a commit will leave |
| Store.UnitOfWork.Seen | src/arcadia_recommendation/infrastructure/persistence/memory/unit_of_work.py:108-109 | a mark staged in this transaction is already seen by it |
| Store.UnitOfWork.Mark | src/arcadia_recommendation/infrastructure/persistence/memory/unit_of_work.py:111-112 | marking adds the id to what a commit will leave |
| Store.UnitOfWork.Commit | src/arcadia_recommendation/infrastructure/persistence/memory/unit_of_work.py:56-69 | the store becomes what reads of the unit of work already showed |
| Store.UnitOfWork.Rollback | src/arcadia_recommendation/infrastructure/persistence/memory/unit_of_work.py:71-77 | every staged write is forgotten and the store is not touched |
| Store.UnitOfWork.Exit | src/arcadia_recommendation/infrastructure/persistence/memory/unit_of_work.py:47-54 | leaving rolls back exactly when nothing was committed |
| Ingest.CreditUser | src/arcadia_recommendation/application/usecases/ingest.py:129-131 | one action is folded into one profile, or the profile's refusal stages nothing |
| Ingest.CreditOwners | src/arcadia_recommendation/application/usecases/ingest.py:72-74 | the loop credits the owners one after another and fails iff one of them does |
| Ingest.BackfillOwners | src/arcadia_recommendation/application/usecases/ingest.py:67-76 | the first 500 uncounted owners are credited with a purchase and marked, everyone else untouched |
| Ingest.StagePublished | src/arcadia_recommendation/application/usecases/ingest.py:48-63 | a known game is redescribed, an unknown one created, and early owners are credited with the new description |
| Ingest.StageWithdrawn | src/arcadia_recommendation/application/usecases/ingest.py:89-94 | a known game stops being published; an unknown one is ignored |
| Ingest.StagePurchase | src/arcadia_recommendation/application/usecases/ingest.py:118-133 | an unknown game leaves an uncounted row; a known one moves the taste, raises the row and bumps the counter |
| Ingest.StageReview | src/arcadia_recommendation/application/usecases/ingest.py:158-166 | a review of a known game moves the taste only; of an unknown one, nothing |
| Ingest.Handle | src/arcadia_recommendation/application/usecases/ingest.py:112-135 | a new event's writes and mark are committed together, or not at all |
| Ingest.Execute | src/arcadia_recommendation/application/usecases/ingest.py:45-65 | one handler run applies the event once if it is new, and leaves the store as it was if it was handled, raised or faulted |
| Ledger.EventCredited | src/arcadia_recommendation/application/usecases/ingest.py:33-168 | every event keeps profiles, owned sets and rows in agreement with the log of credits, whatever the catalogue holds |
| Ledger.EventSells | src/arcadia_recommendation/application/usecases/ingest.py:129-135 | the counter of a game and the purchases logged for it move together, by one for a purchase of a known game |
| Ledger.EventLedgered | src/arcadia_recommendation/application/usecases/ingest.py:33-168 | every event keeps the store and the log of credits in agreement |
| Ledger.EventRefusedIff | src/arcadia_recommendation/domain/policy/embedding.py:126-141 | in any state an event is refused iff it publishes an inadmissible description, or buys or reviews a known game whose vector and the taste of the user have different non-zero widths |
| Ledger.FlagsOnlyRise | src/arcadia_recommendation/infrastructure/persistence/sql/repositories.py:153-158 | no event lowers a flag or removes a row |
| Outcomes.CatalogueAfter | src/arcadia_recommendation/application/usecases/ingest.py:48-133 | every field of every game after an event: a publication sets the words, publishes and drops the dense vector, a withdrawal unpublishes, a purchase adds one |
| Outcomes.RowsAfter | src/arcadia_recommendation/application/usecases/ingest.py:67-133 | every ownership row after an event: the first 500 early owners of a published game are counted, a purchase leaves a row counted iff the game is known or it was counted before |
| Outcomes.ProfileAfter | src/arcadia_recommendation/application/usecases/ingest.py:67-166 | every profile after an event: one more action at the moment the event names, or on arrival, with its weight, for the users it touches, and nothing for the others |
| Delivery.Call | src/arcadia_recommendation/infrastructure/messaging/bus/idempotent.py:20-25 | the wrapper runs the handler for unseen ids only, and a failed mark afterwards does not undo the handler |
| Delivery.AttemptLeaves | src/arcadia_recommendation/infrastructure/messaging/bus/idempotent.py:20-25 | an attempt returns iff its id was seen, or its event is accepted and neither the handler nor the mark after it fails; it is applied as soon as the handler did not fail |
| Delivery.TryEach | src/arcadia_recommendation/infrastructure/messaging/kafka/subscriber.py:117-134 | the loop stops at the first attempt that returns; every earlier one raised |
| Delivery.HandleMessage | src/arcadia_recommendation/infrastructure/messaging/kafka/subscriber.py:112-141 | up to three attempts of the one handler registered for a type; only after all of them raised is the message rerouted, to the retry topic or, from it, to the dead letters, dropped without a producer, or left to the consumer when the send raises |
| Delivery.PoisonLeavesNoTrace | src/arcadia_recommendation/infrastructure/messaging/kafka/subscriber.py:117-131 | attempts that all raise before their commit leave the store as it was |
| Delivery.NoEffectRemoved | src/arcadia_recommendation/application/usecases/ingest.py:171-175 | an attempt without effect can be removed from any run |
| Delivery.DuplicateRemoved | src/arcadia_recommendation/infrastructure/messaging/bus/idempotent.py:8-25 | so can any later delivery of an id that has taken effect |
| Delivery.ExactlyOnce | src/arcadia_recommendation/application/usecases/ingest.py:171-175 | a run equals the unguarded application of its effective messages, in order, and no id is effective twice |
| Delivery.RunLedgered | src/arcadia_recommendation/domain/preference/profile.py:45-59 | after any run: taste is the weighted sum of the user's log, history its last 200 entries, the counter its length, rows counted iff owned, sales equal to the purchases credited |
| Confluence.RunDetermined | src/arcadia_recommendation/application/usecases/ingest.py:33-135 | without overflow, the applied events alone determine rows, known games and who was credited with what |
| Confluence.OrderIrrelevant | src/arcadia_recommendation/application/usecases/ingest.py:33-168 | runs that applied the same events, each game published and each (user, game) bought once, no overflow and every review credited, end with the same tastes, owned sets, counters and rows, and the same known games with the same titles, developers and feature vectors |
| Confluence.AppliedIsDelivered | src/arcadia_recommendation/application/usecases/ingest.py:171-175 | such a run applies exactly the admissible events delivered without a fault |
| Confluence.DeliveryOrderIrrelevant | src/arcadia_recommendation/application/usecases/ingest.py:33-168 | the same confluence, said of what is delivered: any order, duplicates and retries |
| Confluence.FewBuyersFit | src/arcadia_recommendation/application/usecases/ingest.py:67-76 | whatever the order, no backfill overflows when the delivered events have at most 500 buyers a game |
| Confluence.DeliveriesCommute | src/arcadia_recommendation/application/usecases/ingest.py:33-135 | so purchases, publications and withdrawals with at most 500 buyers a game commute, with nothing assumed about the order |
| Confluence.PublicationCountsAllIff | src/arcadia_recommendation/application/usecases/ingest.py:67-76 | a publication leaves no owner of its game uncounted iff the early owners fit one backfill |
| Confluence.PurchaseCountDependsOnOrder | src/arcadia_recommendation/application/usecases/ingest.py:67-76 | buying before or after the publication leaves popularity 0 or 1 |
| Confluence.PurchasesAccounted | src/arcadia_recommendation/application/usecases/ingest.py:118-135 | over any run the effective purchases of a game are those in its counter plus those that came before it was known |
| Confluence.PurchaseCountCompleteIff | src/arcadia_recommendation/application/usecases/ingest.py:118-135 | the counter counts every effective purchase of the game iff none took effect before the game was known |
| Scoring.Rank | src/arcadia_recommendation/domain/policy/scoring.py:119-152 | the loop, the in-place sort and the slice compute the specified ranking |
| Scoring.RankExactly | src/arcadia_recommendation/domain/policy/scoring.py:119-152 | a game is ranked iff it is a published, unowned candidate with a positive score that fewer than `limit` eligible candidates beat |
| Scoring.RankOrderIrrelevant | src/arcadia_recommendation/domain/policy/scoring.py:143-151 | the order candidates are found in does not matter |
| Scoring.RankPrefix | src/arcadia_recommendation/domain/policy/scoring.py:152 | a shorter list is a prefix of a longer one |
| Scoring.RankRelativeOrder | src/arcadia_recommendation/domain/policy/scoring.py:143-152 | two games keep their order whatever other candidates there are and whatever the limits |
| Scoring.ShrunkInUnit | src/arcadia_recommendation/domain/policy/scoring.py:91-92 | a co-purchase count scores in [0, 1), positive iff somebody co-bought |
| Scoring.ShrunkMonotone | src/arcadia_recommendation/domain/policy/scoring.py:82-92 | more co-buyers always score higher |
| Scoring.SparseScoresInUnit | src/arcadia_recommendation/domain/policy/scoring.py:119-155 | content in [0, 1], collaborative in [0, 1), ranked scores strictly between 0 and 1 |
| Scoring.DenseScoresInUnit | src/arcadia_recommendation/domain/policy/scoring.py:119-155 | the same in the dense space |
| Scoring.SparseRankScaleFree | src/arcadia_recommendation/domain/policy/embedding.py:67-72 | a longer taste vector in the same direction gives the same games, scores and reasons |
| Scoring.DenseRankScaleFree | src/arcadia_recommendation/domain/policy/embedding.py:143-153 | the same in the dense space |
| Scoring.ReasonsExplain | src/arcadia_recommendation/domain/policy/scoring.py:44-48 | a positive content score comes with reasons, each a feature of the game the taste weighs positively, strongest first |
| Scoring.RankTopSellers | src/arcadia_recommendation/domain/policy/scoring.py:166-169 | the fallback ranking is the most popular published games the user does not own |
| Scoring.TopSellersExactly | src/arcadia_recommendation/domain/policy/scoring.py:166-169 | a game is a top seller iff it is published, not owned, and fewer than `limit` such games are bought more, smaller ids first among equals |
| CoPurchase.GatherNeighbours | src/arcadia_recommendation/infrastructure/persistence/memory/repositories.py:104-108 | the loop collects the other owners of any game of the caller |
| CoPurchase.CountCoPurchases | src/arcadia_recommendation/infrastructure/persistence/memory/repositories.py:104-113 | the neighbour loop computes the counts of the self-join |
| CoPurchase.JoinCountsVoters | src/arcadia_recommendation/infrastructure/persistence/sql/repositories.py:192-220 | the self-join counts, outside the caller's library, the distinct other users who own the game and one of the caller's |
| CoPurchase.OneVoteEach | src/arcadia_recommendation/infrastructure/persistence/sql/repositories.py:195-200 | a neighbour with one more game changes no other game's count |
| CoPurchase.CoPurchasesOf | src/arcadia_recommendation/infrastructure/persistence/sql/repositories.py:203-220 | the counts are cut at the limit by count, then game id |
| CoPurchase.CoPurchasedExactly | src/arcadia_recommendation/infrastructure/persistence/sql/repositories.py:203-220 | a counted game is kept, with its count, iff fewer than `limit` others are counted higher, smaller ids first among equals |
| Generate.Explain | src/arcadia_recommendation/application/usecases/generate.py:99-116 | a model's reasons replace the scorer's for the games it answered about; games, scores and order stay |
| Generate.Prepare | src/arcadia_recommendation/application/usecases/generate.py:66-69 | in the dense space the profile is rebuilt from the remembered games still known, and written back |
| Generate.StageGeneration | src/arcadia_recommendation/application/usecases/generate.py:58-97 | a cold user's list is emptied; any other gets the ranked, explained list and, if it is not empty, its event |
| Lists.CollaborativeIs | src/arcadia_recommendation/infrastructure/persistence/sql/repositories.py:192-220 | the collaborative score of a game the user does not own is n / (n + 5), where n other users own it and a game of the user, if fewer than 200 games have more such users, and 0 otherwise |
| Lists.ContentIs | src/arcadia_recommendation/domain/policy/scoring.py:44-66 | the content score is the cosine of the wired space, never negative, with the shared features for reasons on the sparse path and none in the dense space |
| Lists.ListExactly | src/arcadia_recommendation/application/usecases/generate.py:71-75 | a game is in a generated list iff it is scanned, not owned, its 0.65 content plus 0.35 collaborative score is positive, and fewer than `limit` such games outrank it by score, popularity and id |
| Lists.ListInOrder | src/arcadia_recommendation/domain/policy/scoring.py:143-152 | and the list is in that order |
| Lists.CoBoughtListable | src/arcadia_recommendation/application/usecases/generate.py:72-75 | a scanned, unowned game without content is listable iff somebody else owns it and a game of the user, and it is among the 200 most co-bought |
| Lists.PlanKinds | src/arcadia_recommendation/application/usecases/generate.py:59-69 | nothing is ranked iff the user has no signal or an empty taste, and the generation fails iff remembered games carry vectors of different widths in the dense space |
| Lists.StoredEntry | src/arcadia_recommendation/application/usecases/generate.py:78-92 | entry by entry, what is stored: id, user, game, blended score, source by the halves that are positive, rank, moment, and the explanation when the model gave one |
| Lists.AnnouncedEntry | src/arcadia_recommendation/application/usecases/generate.py:92-97 | and announced: one event with the same entries, scores rounded, unless the list is empty |
| Generate.Execute | src/arcadia_recommendation/application/usecases/generate.py:52-56 | a generation commits whole or leaves the store as it was, and returns the length written |
| Generate.ListWellShaped | src/arcadia_recommendation/application/usecases/generate.py:75-90 | whatever the explainer answers: distinct published games outside the owned set, ranks 1..n, positive scores that never rise |
| Generate.PlanStable | src/arcadia_recommendation/application/usecases/generate.py:58-97 | a generation changes nobody's next list, its own user's included |
| Generate.RunStores | src/arcadia_recommendation/infrastructure/scheduler.py:14-18 | any interleaving of generations stores for each covered user the list the starting store determines, and no other list |
| Generate.SweepIdempotent | src/arcadia_recommendation/infrastructure/scheduler.py:14-18 | sweeping again, in any order, by any replica, changes no stored game, score, source or rank |
| Generate.GenerateAll | src/arcadia_recommendation/application/usecases/generate.py:152-167 | a user's failure is skipped and leaves that user's state alone; the counters see only what was written |
| Generate.SweepReport | src/arcadia_recommendation/application/usecases/generate.py:149-167 | the report equals the number and total length of the lists stored when the sweep ends |
| Generate.SnapshotPending | src/arcadia_recommendation/application/usecases/enrich.py:29-30 | the first transaction reads the most popular published games without a vector |
| Lists.PendingExactly | src/arcadia_recommendation/infrastructure/persistence/memory/repositories.py:35-43 | they are those that fewer than `batch` others without a vector are bought more than |
| Generate.WriteBack | src/arcadia_recommendation/application/usecases/enrich.py:34-48 | the second writes every game of the snapshot back whole with its vector; a provider failure changes nothing, a wrong number of vectors raises |
| Generate.EmbedPendingGames | src/arcadia_recommendation/application/usecases/enrich.py:28-48 | the whole pass, when nothing comes between the two |
| Generate.WriteBackKeepsIff | src/arcadia_recommendation/infrastructure/persistence/sql/mapping.py:55-66 | a write-back changes nothing but vectors iff the store still says of every game of the snapshot what the snapshot says, vectors aside |
| Generate.EmbeddingChangesVectors | src/arcadia_recommendation/application/usecases/enrich.py:28-48 | with nothing between its two transactions the pass changes nothing but dense vectors |
| Generate.ActiveExactly | src/arcadia_recommendation/infrastructure/persistence/memory/repositories.py:69-73 | the users of a sweep are those with a signal that fewer than `limit` such users come before, profiles with a moment first, then by id |
| Generate.SweepReaches | src/arcadia_recommendation/application/usecases/generate.py:149-167 | with room in the batch and no fault, every user with a signal whose profile can be rebuilt ends with the list the store determines |
| Generate.RefreshAll | src/arcadia_recommendation/application/usecases/generate.py:145-167 | the sweep embeds once, then generates for each active user; with room and no fault it reaches them all |
| System.AlwaysCredited | src/arcadia_recommendation/application/usecases/ingest.py:118-135 | in every state the service can reach, passes in flight included and generations taken as one step, profiles and rows agree with the credits issued and nobody is backfilled twice |
| Tastes.TasteIsTally | src/arcadia_recommendation/domain/preference/signal.py:23-27 | in every reachable state the taste for a feature is the number of credited purchases, early ones included, of games that carried it, plus 0.5 per like, minus 0.3 per dislike |
| Tastes.SignalsAreTouches | src/arcadia_recommendation/domain/preference/profile.py:45-59 | in every reachable state a profile counts the actions of its user that took effect and carries the moment of the last, or none |
| Drafts.AtOnce | src/arcadia_recommendation/application/usecases/generate.py:52-97 | a generation that reads and commits with nothing in between is the one-step generation |
| Drafts.CommitCreditedIff | src/arcadia_recommendation/infrastructure/persistence/memory/unit_of_work.py:56-58 | a late commit keeps profiles and rows in agreement with the credits iff the profile it writes back, if any, stands for the same credits as the stored one |
| Drafts.CreditedIff | src/arcadia_recommendation/application/usecases/generate.py:66-76 | over any run, with any number of generations waiting, profiles and rows agree with the credits throughout iff every commit finds the profile it read |
| Drafts.SparseAlwaysCredited | src/arcadia_recommendation/application/usecases/generate.py:66-69 | on the sparse path they always do |
| Drafts.WaitDisturbsIff | src/arcadia_recommendation/application/usecases/generate.py:66-76 | a commit keeps the agreement iff it writes no profile back or no credit was issued to its user since the read |
| Drafts.WaitedListUnowned | src/arcadia_recommendation/application/usecases/generate.py:71-92 | a list that waited avoids the games counted when it was read, and offers a counted one only if its user was credited since |
| System.CountedForever | src/arcadia_recommendation/infrastructure/persistence/memory/unit_of_work.py:59-63 | a counted row stays counted however the run goes on |
| System.ListedGamesUnowned | src/arcadia_recommendation/domain/policy/scoring.py:128-130 | a list generated in one step avoids every counted game of its user, and every game with a row while no backfill has overflowed |
| System.AlwaysExplained | src/arcadia_recommendation/domain/catalog/game_profile.py:126-130 | in every reachable state the sparse path explains every content match |
| System.AlwaysAnnounced | src/arcadia_recommendation/application/usecases/generate.py:92-96 | a non-empty stored list is well shaped and the latest event of its user lists it entry for entry |
| System.LatestEventStaleIff | src/arcadia_recommendation/application/usecases/generate.py:60-64 | the latest event disagrees with the store iff the list has since been emptied |
| Passes.SalesAccounted | src/arcadia_recommendation/application/usecases/enrich.py:43-46 | every purchase of a known game is in its counter or was lost to a write-back |
| Passes.PurchasesAccounted | src/arcadia_recommendation/application/usecases/ingest.py:118-135 | every effective purchase is in the counter, came before the game was known, or was lost to a write-back |
| Passes.LedgeredIff | src/arcadia_recommendation/application/usecases/enrich.py:43-46 | the store agrees with the log, counters included, iff no game has lost a sale |
| Passes.SalesRightIff | src/arcadia_recommendation/application/usecases/enrich.py:29-46 | a counter is right throughout a run iff no purchase of its game takes effect between the two transactions of a pass that holds it |
| Passes.HiddenForeverIff | src/arcadia_recommendation/infrastructure/persistence/sql/mapping.py:55-66 | an unpublished game stays so over every continuation that does not publish it iff no pass in flight holds it |
| Passes.WithdrawnForeverIff | src/arcadia_recommendation/domain/catalog/game_profile.py:97-105 | so an effective withdrawal lasts over every continuation that does not publish the game iff no pass in flight held it |
| Passes.HiddenRunsIff | src/arcadia_recommendation/infrastructure/persistence/sql/mapping.py:55-66 | the same of every run from an empty store and its continuations |
| Passes.HiddenNeverOffered | src/arcadia_recommendation/domain/catalog/game_profile.py:97-105 | while it does, no scan finds it and no newly generated list offers it |
| Passes.HiddenServedIff | src/arcadia_recommendation/application/usecases/serve.py:39-48 | a list stored earlier offers it iff it did at the start and its user has had no successful generation since |
| Passes.NoStaleVectorIff | src/arcadia_recommendation/application/usecases/enrich.py:29-46 | until a new snapshot is taken the game has no vector over every continuation iff no pass in flight holds it |
| Passes.RepublishedIff | src/arcadia_recommendation/domain/catalog/game_profile.py:70-89 | so an effective publication discards the old vector until the next snapshot, over every continuation, iff no pass in flight held the game |
| Passes.SnapshotCurrentIff | src/arcadia_recommendation/application/usecases/enrich.py:29-46 | between a snapshot and its write-back, with no publication of the game and no other pass landing it, the snapshot stays current iff no purchase and no withdrawal of it takes effect |
| Passes.PassRevives | src/arcadia_recommendation/application/usecases/enrich.py:29-46 | a run in which a withdrawal is undone by a pass |
| Passes.PassLosesSale | src/arcadia_recommendation/application/usecases/enrich.py:29-46 | a run in which a purchase is taken back out of the counter |
| Passes.PassKeepsOldWords | src/arcadia_recommendation/application/usecases/enrich.py:29-46 | a run in which a republication is undone, old title, features and vector included |
| Witnesses.OverflowLeavesUncounted | src/arcadia_recommendation/application/usecases/ingest.py:67-76 | with any number of early buyers above 500, the publication leaves somebody who owns the game uncounted |
| Witnesses.FallbackCanBeEmpty | src/arcadia_recommendation/application/usecases/serve.py:54-56 | a run after which a user owns all of a non-empty scan and the fallback is empty |
| Witnesses.AnnouncedThenEmptied | src/arcadia_recommendation/application/usecases/generate.py:60-64 | a run after which the stored list is empty and the latest event still offers a game |
| Witnesses.WaitLosesCredit | src/arcadia_recommendation/application/usecases/generate.py:66-76 | a dense run in which a purchase made while a list waits for its explanations is credited and then taken back: the row says counted, the profile does not own the game |
| Witnesses.WaitOffersOwned | src/arcadia_recommendation/application/usecases/generate.py:71-92 | a sparse run in which the stored list offers the game bought while it waited |
| Witnesses.DenseSweepMoves | src/arcadia_recommendation/infrastructure/scheduler.py:14-18 | a dense run in which a second sweep, with no event in between, stores another list than the first |
| Refresh.PlanIgnoresVectors | src/arcadia_recommendation/application/usecases/generate.py:71-76 | on the sparse path an embedding pass changes nobody's list |
| Refresh.SweptStores | src/arcadia_recommendation/application/usecases/generate.py:145-167 | a whole sparse sweep stores, for each user it reaches, the list determined before it began |
| Refresh.SparseSweepIdempotent | src/arcadia_recommendation/infrastructure/scheduler.py:14-18 | a second whole sweep, with any vectors and any order of users, changes no stored game, score, source or rank |
| Sweeps.PlanReads | src/arcadia_recommendation/application/usecases/generate.py:66-75 | of the dense vectors a list reads those of the remembered games and of the candidates, and on the sparse path none |
| Sweeps.InterleavedStores | src/arcadia_recommendation/infrastructure/scheduler.py:14-18 | from any state whose snapshots in flight are current, over any interleaving of generations and embedding passes of any number of replicas without an event: a user some faultless generation covers ends with the list the first state determines, anyone else with the list they had, when no vector the list reads is landed |
| Sweeps.SparseInterleavedStores | src/arcadia_recommendation/infrastructure/scheduler.py:14-18 | on the sparse path, whatever is landed |
| Sweeps.SparseSweepsIdempotent | src/arcadia_recommendation/infrastructure/scheduler.py:14-18 | so on the sparse path interleaved sweeps are idempotent together, with any answers of any provider |
| Sweeps.SweepsIdempotent | src/arcadia_recommendation/infrastructure/scheduler.py:14-18 | in either space, whatever the first sweeps embedded before generating, as long as the later ones land no vector the list reads |
| Sweeps.WholeSweepsIdempotent | src/arcadia_recommendation/application/usecases/generate.py:145-167 | one whole sweep after another changes no list of a user when the provider is down or the second batch holds no game whose vector the list reads |
| Sweeps.SettledForGood | src/arcadia_recommendation/application/usecases/enrich.py:28-48 | once every game has its vector and no pass holds one, sweeping is idempotent in either space until the next event |
| Landings.CandidateMovesIff | src/arcadia_recommendation/domain/policy/scoring.py:61-62 | some vector for a waiting candidate the user has not acted on changes their list iff the rebuilt taste points anywhere and fewer than `limit` others would be ahead of the candidate at the highest content score |
| Landings.RememberedMovesIff | src/arcadia_recommendation/domain/preference/profile.py:61-75 | some vector for a waiting game the user acted on, and that is no candidate, changes their list iff its actions do not cancel out, the limit is not zero, and some candidate has a vector the taste can be compared with |
| Landings.ActedOnCandidateMoves | src/arcadia_recommendation/domain/preference/profile.py:61-75 | a waiting candidate the user acted on moves the list whenever the first of the two conditions holds |
| Landings.AnswerStirs | src/arcadia_recommendation/application/usecases/enrich.py:34-46 | a vector that changes the list is part of an answer of the provider after which the next sweep stores another list |
| Landings.TogetherTheyStir | src/arcadia_recommendation/application/usecases/enrich.py:34-46 | a waiting game the user acted on and a waiting candidate in one batch change the list together, whatever vectors there are already |
| Landings.PassProgress | src/arcadia_recommendation/application/usecases/enrich.py:34-46 | a pass whose provider answers every game takes min(batch, n) of the n waiting games off |
| Landings.EnoughPassesSettle | src/arcadia_recommendation/application/usecases/enrich.py:28-48 | after enough answered passes with no event in between, sweeping is idempotent for good, in the dense space too |
| Serve.Execute | src/arcadia_recommendation/application/usecases/serve.py:36-49 | a stored list is served by rank with the titles still known; without one, the fallback |
| Serve.ServedEntry | src/arcadia_recommendation/application/usecases/serve.py:40-48 | entry by entry, a stored list is served with its games, sources, ranks and reasons, the scores rounded, and the titles of the games still known |
| Serve.FallbackEntry | src/arcadia_recommendation/application/usecases/serve.py:57-76 | every fallback entry is a known game under its own title, ranked by its place, labelled a fallback, without reasons, and scored by its purchases as a share of the first |
| Serve.FallbackInOrder | src/arcadia_recommendation/application/usecases/serve.py:54-56 | no game twice, the most bought first, smaller ids first among equals |
| Serve.FallbackShows | src/arcadia_recommendation/application/usecases/serve.py:54-56 | a game is shown iff it is published, not owned, among the 4 * limit most bought, and fewer than `limit` such games are bought more |
| Serve.DominantSourceExactly | src/arcadia_recommendation/application/usecases/serve.py:151-164 | a response carries a method's label iff every entry came from it, and any mixture is a hybrid |
| Serve.ServesWhatWasAnnounced | src/arcadia_recommendation/application/usecases/serve.py:39-48 | asking for k games gives the first k stored entries, which open the latest announced event |
| Serve.FallbackExactIff | src/arcadia_recommendation/application/usecases/serve.py:51-56 | the bounded scan gives the true top of the catalogue minus owned games iff it holds enough unowned games or none lie beyond it |
| Serve.FallbackExactForMost | src/arcadia_recommendation/application/usecases/serve.py:54-56 | in particular for a user owning at most 3 * limit of the 4 * limit scanned games |
| Serve.FallbackEmptyIff | src/arcadia_recommendation/application/usecases/serve.py:54-56 | the fallback is empty iff the user owns every scanned game |
| Serve.SharesDescend | src/arcadia_recommendation/application/usecases/serve.py:167-171 | popularity shares never rise down the list and the first item is the yardstick |
| Serve.ListSimilar | src/arcadia_recommendation/application/usecases/serve.py:103-148 | an unknown game is not found; a known one gets its ranked neighbours in the sparse or the dense space, each with its rounded similarity and, on the sparse path, the shared features |
| Serve.SimilarExactly | src/arcadia_recommendation/application/usecases/serve.py:127-135 | a game is similar iff it is another scanned game of positive cosine and fewer than `limit` such games come before it by cosine, popularity and id |
| Serve.SimilarInOrder | src/arcadia_recommendation/application/usecases/serve.py:132-135 | similarities never rise down the list |
| Serve.SimilarEntry | src/arcadia_recommendation/application/usecases/serve.py:136-148 | every entry is another game under its own title, with the cosine rounded and the shared features |
| Serve.NearestExactly | src/arcadia_recommendation/infrastructure/persistence/memory/repositories.py:45-55 | in the dense space: iff it is another published game, both have vectors, and fewer than `limit` such games are nearer; no catalogue limit, and no floor on the cosine |
| Serve.NearestInOrder | src/arcadia_recommendation/infrastructure/persistence/memory/repositories.py:54-55 | nor in the dense space |
| Serve.NearestEntry | src/arcadia_recommendation/application/usecases/serve.py:110-124 | every entry is another game under its own title, with the dense cosine rounded and no shared features |
| Serve.NeighboursShare | src/arcadia_recommendation/application/usecases/serve.py:127-148 | every neighbour is another published game, similar in (0, 1] both ways, sharing a token with the subject |
| Outbox.OutboxDispatcher.Publish | src/arcadia_recommendation/infrastructure/messaging/outbox/dispatcher.py:71-88 | one call counts an attempt and publishes, postpones or dead-letters the record |
| Outbox.CallLeaves | src/arcadia_recommendation/infrastructure/messaging/outbox/dispatcher.py:71-88 | field by field, what a call leaves: a refused one waits 0.5, 1, 2 or 4 seconds and up to a tenth more, and the fifth goes to the dead letters |
| Outbox.OutboxDispatcher.DrainOnce | src/arcadia_recommendation/infrastructure/messaging/outbox/dispatcher.py:63-69 | every due record of the batch is tried once, in order; the count is that of accepted calls |
| Outbox.DrainLeaves | src/arcadia_recommendation/infrastructure/messaging/outbox/dispatcher.py:63-69 | record by record: the k-th oldest due record of the batch is called with the k-th outcome, every other one is left as it was |
| Outbox.MemoryOutboxStore.Due | src/arcadia_recommendation/infrastructure/persistence/memory/outbox_store.py:24-31 | the comprehension, sort and slice compute the due positions |
| Outbox.DueExactly | src/arcadia_recommendation/infrastructure/persistence/memory/outbox_store.py:24-31 | a record is drained iff it is due and fewer than `limit` due records are older |
| Outbox.DrainLowersBudget | src/arcadia_recommendation/infrastructure/messaging/outbox/dispatcher.py:71-88 | each call strictly lowers the calls the pending records may still cost |
| Outbox.CallsAreAttempts | src/arcadia_recommendation/infrastructure/messaging/outbox/dispatcher.py:71-88 | over any run, publish calls equal recorded attempts and accepted calls equal published records |
| Outbox.CallsBounded | src/arcadia_recommendation/infrastructure/messaging/outbox/dispatcher.py:10-12 | N records cost at most 5N publish calls |
| Outbox.SettledForever | src/arcadia_recommendation/infrastructure/messaging/outbox/record.py:31-33 | no record is lost, and a published or dead-lettered one never changes again |
| Outbox.BackoffGrows | src/arcadia_recommendation/infrastructure/messaging/outbox/dispatcher.py:80-82 | the next wait is longer whatever the jitter of both |
| Outbox.DeadLetterPatience | src/arcadia_recommendation/infrastructure/messaging/outbox/dispatcher.py:77-82 | a record is dead-lettered only after five attempts over at least 7.5 seconds, however the clock moves |
| Relay.SqlOutboxStore.Due | src/arcadia_recommendation/infrastructure/persistence/sql/outbox_store.py:40-59 | a poll returns the oldest due unlocked rows as they were, leases them, and refreshes both gauges |
| Relay.SqlOutboxStore.RecordPublished | src/arcadia_recommendation/infrastructure/persistence/sql/outbox_store.py:61-67 | only the publication, the attempts and the error of that row are written |
| Relay.SqlOutboxStore.RecordFailure | src/arcadia_recommendation/infrastructure/persistence/sql/outbox_store.py:69-76 | a failure never unpublishes a row |
| Relay.ClaimedExactly | src/arcadia_recommendation/infrastructure/persistence/sql/outbox_store.py:42-52 | a row is claimed iff it is due, unlocked, and fewer than the batch limit of such rows occurred earlier, smaller ids first at the same moment |
| Relay.ClaimedOldestFirst | src/arcadia_recommendation/infrastructure/persistence/sql/outbox_store.py:49 | the records come oldest first |
| Relay.ClaimedRests | src/arcadia_recommendation/infrastructure/persistence/sql/outbox_store.py:55-56 | nobody can claim a claimed row again for 30 seconds, and anybody can after that |
| Relay.PollIsClaim | src/arcadia_recommendation/infrastructure/persistence/sql/outbox_store.py:40-59 | a poll is one claim step of the protocol |
| Relay.NeverStuck | src/arcadia_recommendation/infrastructure/persistence/sql/outbox_store.py:15-18 | in every run a pending row has attempts left and is claimable again one lease from now |
| Relay.NothingLost | src/arcadia_recommendation/infrastructure/persistence/sql/outbox_store.py:61-81 | in every run no row disappears and none is unpublished |
| Guards.RecordCleanIff | src/arcadia_recommendation/infrastructure/persistence/sql/outbox_store.py:78-81 | in any reachable state an enabled record leaves a settled row alone, raises attempts by one and keeps published and dead-lettered exclusive iff the row is pending with one attempt less than the copy |
| Guards.CleanIffGuarded | src/arcadia_recommendation/infrastructure/persistence/sql/outbox_store.py:61-81 | for any replicas, interleaving, clocks and leases, every step of a run is clean iff every record in it finds its row as it was claimed |
| Guards.SettledForever | src/arcadia_recommendation/infrastructure/persistence/sql/outbox_store.py:61-76 | on such a run a published or dead-lettered row is never written again |
| Guards.CallsAccounted | src/arcadia_recommendation/infrastructure/messaging/outbox/dispatcher.py:71-88 | and every call is an attempt of its row, in flight, or dropped with a replica; every accepted one is the publication, in flight, or lost |
| Guards.CallsBounded | src/arcadia_recommendation/infrastructure/messaging/outbox/dispatcher.py:10-12 | so a row costs at most five calls plus those in flight or dropped |
| Guards.SentTwice | src/arcadia_recommendation/infrastructure/persistence/sql/outbox_store.py:13-18 | a run in which two replicas send the same row though neither died |
| Guards.LateRecord | src/arcadia_recommendation/infrastructure/persistence/sql/outbox_store.py:61-81 | a run from the empty table: a replica stalls with its first copy while another drains the row to the dead letters; its late record publishes the dead row, or revives it, and attempts fall from 5 to 1 |
| Leases.AlwaysLeased | src/arcadia_recommendation/infrastructure/persistence/sql/outbox_store.py:13-18 | if nobody publishes or records past its own lease: one live holder a row, whose copy is current |
| Leases.DisciplinedIsClean | src/arcadia_recommendation/infrastructure/persistence/sql/outbox_store.py:13-18 | so every record finds its row as it was claimed and the run is clean |
| Leases.LeasedRows | src/arcadia_recommendation/infrastructure/persistence/sql/outbox_store.py:13-18 | and for every row: settled one way, for good, with every call and send accounted for |
| Leases.SendsExplained | src/arcadia_recommendation/infrastructure/persistence/sql/outbox_store.py:16-18 | within the leases a row was sent once if published or about to be, and once more for each accepted send whose lease ran out, or whose replica died, before it was recorded |
| Patience.DeadLetterPatience | src/arcadia_recommendation/infrastructure/messaging/outbox/dispatcher.py:77-82 | with any number of replicas, on a run in which every record finds its row as it was claimed, a row is dead-lettered only after five recorded attempts polled for over at least 7.5 seconds |

## Left out

- Two transactions at once: writes are atomic and come one after another. An embedding pass is two steps and, in `Drafts`, so is a generation, since the memory backend suspends there; elsewhere a generation, its explanation call included, is one step. The isolation of the database is not part of this model.
- Refresh.SweptStores: the embedding pass of one sweep is taken with nothing between its two transactions; `Sweeps.InterleavedStores` is the interleaved statement.
- Landings.ActedOnCandidateMoves: one direction only; such a game moves both the taste and its own score, and may change the list under other conditions as well.
- Landings.TogetherTheyStir: one direction only; that several landings of one batch change no list when none would alone and no such pair is in it is not stated.
- Failures of the clock, the logger or a connection appear only as a fault before the commit, or as a refused publish.
- Preference.LateEmbeddingLosesNothing: beyond 200 actions the rebuild forgets the older ones, which `RebuiltIsWeightedSum` covers; the fold does not.
- Confluence.OrderIrrelevant: withdrawals may be part of the runs, but whether a game is published at the end depends on their order and is not compared; a review of a game not yet known is dropped by the code, so runs with such a review are not compared.
- Leases.AlwaysLeased: acting only within one's own lease is an assumption about the replicas, which the code does not enforce; `Guards` assumes nothing about leases.
- Delivery.HandleMessage: each type has one handler, as the registry subscribes them (src/arcadia_recommendation/presentation/consumers/registry.py:26-49); sleeping between attempts and the offset commit are not modelled.
- Generate.EmbedPendingGames: dimensions promised by the provider are not checked, as in the use case.
- Serve.ListSimilar: the dense path is the memory backend's, ties by id; the database leaves the order of ties open.
- CoPurchase.CoPurchasesOf: ties at the limit are broken by game id as in the SQL query; the memory backend breaks them by set iteration order.
- Generate.SweepIdempotent: about the generations of a sweep; `Sweeps` includes the embedding passes.
- Generate.RefreshAll: `with_signals` in the memory order (has activity, then id); the SQL order by recency is not modelled.
- Store: the four repositories are methods of the unit of work, and outbox records are the events alone, in insertion order, freshness of their ids assumed.
- Titles, descriptions, genres and tags are opaque: a description is a title, its feature tokens and whether one is too long; normalising strings is not modelled.
- Float rounding, float32 storage of vectors and integer widths: reals and unbounded integers.
- HTTP, authentication, settings, migrations, metrics, caching, the Kafka producer, the model providers: foreign calls without an invariant of their own.
- Order of one user's published events: retries can reorder them.
