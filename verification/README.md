# Distributed word embedding: rendezvous ranking and parameter Communicator

This project models the synchronisation layer of a distributed word-embedding
trainer in Dafny. It has two parts.

**Rendezvous** (`src/client.cpp`)
- A worker registers with every broker by sending a small JSON message, built by `Client::MakeJson`.
- Each broker replies with the list of known workers, as parallel `ClientIps` and `ClientPorts` arrays.
- `Client::ParseJson` walks the replies in order. It builds the key `ip:port` for each entry and drops keys it has already seen. Each new endpoint gets the next rank.
- The counter and the seen-set are shared by all replies.
- A reply the JSON reader rejects is skipped. The model receives replies already decoded, as `Option<Reply>`.

**Communicator** (`src/communicator.cpp`)
- Moves rows of the shared embedding tables in and out of a unit of training work, the `DataBlock`. There are input and output embeddings, plus the two AdaGrad gradient accumulators when AdaGrad is on.
- `RequestParameter` does three things:
  - It draws one pooled buffer per node from the memory manager.
  - It `Get`s the table's current row into that buffer.
  - It attaches the buffer to the block.
- `AddDeltaParameter` pushes the block back, in four steps:
  - It draws fresh scratch buffers and re-`Get`s the *current* shared rows.
  - It overwrites each scratch row with `(new − current) / thread_cnt`, where `new` is the row the block's getter yields.
  - It `Add`s the deltas to the table.
  - It returns the scratch buffers and every getter buffer to the pool.
- `AddWordCount` and `GetWordCount` maintain one global counter.

How the model represents things:
- Tables are maps from node id to a row of ideal `real`s.
- The memory manager is a pool of abstract handles, with a multiset of handles that are out.
- A `DataBlock` holds its node lists and, per table, a map from node to buffer.
- Every operation is a pure function from state to state.

Modules:

| module | contents |
|---|---|
| `Wrappers` | `Option` |
| `Seqs` | Sequence helpers: `Distinct`, `FirstIndex`, counting |
| `Decimal` | The `itoa`/`%d` rendering of integers, and its inverse |
| `Rendezvous`, `RendezvousLemmas` | `ParseJson` and `MakeJson`, and their properties |
| `BufferPool` | The request/return contract of the memory manager |
| `ParamTables` | The `Get`/`Add` contract of a matrix table |
| `Communicator`, `CommunicatorLemmas` | The fetch and push operations, and the laws relating them |

Two points of the code worth knowing when reading the model:
- `MakeJson` inserts the identity exactly as given, with no quotes around it, because `sprintf` is called with a bare `%s` (`src/client.cpp:141`). The round trip `MakeJsonRoundTrip` holds for every identity text without a NUL character, including one that contains quotes, colons or commas.
- The delta's baseline is the row re-fetched just before the `Add` (`src/communicator.cpp:192-193`), not the row `RequestParameter` fetched. The pushed row is therefore `current + (new − current) / thread_cnt`, where `current` is the shared row at push time. This is "latest wins", damped by `1 / thread_cnt`. Suppose another worker moved the shared row from `o` to `o + u` between the two fetches, and this worker trained it to `o + k`. The push leaves `o + u + (k − u) / thread_cnt`, which cancels `u / thread_cnt` of the other worker's update. With one thread, the other update is overwritten entirely (`SingleThreadAdopts`).

## Model

| member | source | states |
|---|---|---|
| Rendezvous.Visit | src/client.cpp:174-183 | An unseen key is appended to the endpoints with rank equal to its slot, and enters the seen-set. A seen key changes nothing. The loop state stays consistent: rank k at slot k, no repeated endpoint, seen-set equal to the filled endpoints. |
| Rendezvous.VisitAll | src/client.cpp:160-186 | The inner loop keeps the loop state consistent and never rewrites a filled slot: the old endpoints are a prefix of the new. |
| Rendezvous.VisitAllMembers | src/client.cpp:160-186 | After the inner loop the endpoints are exactly the old ones together with the keys fed in. |
| Rendezvous.Absorb | src/client.cpp:153-187 | A reply that failed to parse leaves the state exactly as it was. A parsed one keeps the state consistent. |
| Rendezvous.Ranking | src/client.cpp:147-188 | After all replies the state is consistent: rank k at slot k, no repeated endpoint, seen-set equal to the filled endpoints. |
| Rendezvous.RankingMembers | src/client.cpp:147-188 | After all replies the endpoints are exactly the keys of the parsed replies. |
| Rendezvous.ParseJson | src/client.cpp:145-189 | The nested loops compute `Ranking`. The ranks are 0, 1, 2, … in slot order. The endpoints are pairwise distinct. A string is an endpoint iff it is a key of some parsed reply. |
| Rendezvous.MakeJson | src/client.cpp:138-143 | The message starts with `{"clientsSize":` and ends with `}`. The round trip below recovers its three fields. |
| Rendezvous.PortAt | src/client.cpp:166 | Port j is `ClientPorts[j]` when the array has an entry j. Past its end the port reads as 0, which is jsoncpp's `asInt` of a null value. |
| Rendezvous.EndpointKey | src/client.cpp:165-171 | The key starts with the IP, followed by a colon. The text after that colon holds no colon, so the key's last colon is the separator. |
| RendezvousLemmas.KeyReadsBack | src/client.cpp:166-170 | The text after the IP's colon in a key reads back as the port. |
| Rendezvous.ReplyKeys | src/client.cpp:158-171 | A reply gives one key per `ClientIps` entry. What each key holds is stated by `ReplyKeyReads`. |
| RendezvousLemmas.ReplyKeyReads | src/client.cpp:165-171 | Key j of a reply is IP j, a colon, and text that reads back as the port read at position j. |
| RendezvousLemmas.PortsPadding | src/client.cpp:158-166 | A short `ClientPorts` array gives the same keys as one padded with zeros up to the length of `ClientIps`. Ports beyond the length of `ClientIps` are never read. |
| Decimal.IntString | src/client.cpp:168 | The `%d` / `itoa` text has a minus sign exactly for negative values. Then come one or more digits with no leading zero: the digits are led by `0` only when the value is zero, and then they are exactly `0`. So there is no `-0` and no `00`. It holds no colon, comma or closing brace. |
| RendezvousLemmas.RankingIsVisitAll | src/client.cpp:151-188 | Walking the replies is the same as feeding every key of every parsed reply, in order, to one loop state that starts empty. |
| RendezvousLemmas.CounterPersists | src/client.cpp:147-151 | The replies after a prefix continue from the prefix's state. Ranks and endpoints given for the prefix are kept, and later replies only append. |
| RendezvousLemmas.FailedReplySkipped | src/client.cpp:155 | Inserting an unparsable reply anywhere among the replies changes neither endpoints nor ranks. |
| RendezvousLemmas.RankedExactlyOnce | src/client.cpp:151-183 | Every key of every parsed reply occurs exactly once among the endpoints, and no other string occurs. |
| RendezvousLemmas.CountIsDistinctKeys | src/client.cpp:158-182 | The number of filled slots equals the number of distinct keys. |
| RendezvousLemmas.FirstSeenOrderKeys | src/client.cpp:174-183 | The endpoints come in the order their keys first occur in the key stream. |
| RendezvousLemmas.RankingFirstSeenOrder | src/client.cpp:147-183 | Across all replies, every endpoint is a key of some parsed reply. Endpoint i comes before endpoint j exactly when i's key first occurs before j's key. |
| RendezvousLemmas.VisitAllFirstOccurrences | src/client.cpp:174-183 | The loop's output equals an independent definition: the keys with every repeat dropped. |
| RendezvousLemmas.RankingIsFirstOccurrences | src/client.cpp:151-183 | The endpoint array is the keys of the parsed replies, in order, with every repeat dropped. |
| RendezvousLemmas.EndpointKeyInjective | src/client.cpp:165-171 | Two `ip:port` keys are equal iff the IPs and the ports are equal. So, for IPs without a NUL character, deduplicating by the string is deduplicating by the endpoint. |
| RendezvousLemmas.ExampleKeys | src/client.cpp:165-171 | IPs `10.0.0.1, 10.0.0.2, 10.0.0.1`, all on port 9000, give the keys `10.0.0.1:9000`, `10.0.0.2:9000`, `10.0.0.1:9000`. |
| RendezvousLemmas.ExampleVisits | src/client.cpp:174-183 | Keys `k1, k2, k1` with `k1 != k2` give endpoints `[k1, k2]` and ranks `[0, 1]`. |
| RendezvousLemmas.DuplicateEndpointExample | src/client.cpp:160-183 | The reply above yields exactly `["10.0.0.1:9000", "10.0.0.2:9000"]` with ranks 0 and 1. |
| RendezvousLemmas.MakeJsonRoundTrip | src/client.cpp:141 | A reader that takes the size up to the first comma and the port after the last colon recovers the clients size, the identity and the port from the message. This holds for every identity text. |
| Decimal.IntStringRoundTrip | src/client.cpp:168 | The decimal rendering of any integer reads back as that integer. |
| Decimal.IntStringInjective | src/client.cpp:168 | Two integers have the same decimal text iff they are equal. |
| BufferPool.Acquire | src/communicator.cpp:135-136 | A request yields exactly as many handles as asked for. They are pairwise distinct, none was already out, and all of them are out afterwards. |
| BufferPool.Release | src/communicator.cpp:239-240 | Only handles that are out may be returned. Returning them removes exactly them from the outstanding ones. |
| BufferPool.AcquireRelease | src/communicator.cpp:231-240 | Returning what a request handed out restores the outstanding handles. |
| BufferPool.AcquireTwiceReleaseTwice | src/communicator.cpp:231-240 | Two requests followed by returning both batches, in the Communicator's order, restore the outstanding handles. |
| ParamTables.GetRows | src/communicator.cpp:75-77 | Buffer i keeps its handle and receives the current row of node i. |
| ParamTables.AddRows | src/communicator.cpp:66-69 | The table keeps its set of rows and every row's length. |
| ParamTables.AddRowsKeeps | src/communicator.cpp:66-69 | A row not named in the update is untouched. |
| ParamTables.AddRowsUnnamed | src/communicator.cpp:66-69 | Every row not named in the update is untouched. |
| ParamTables.AddRowsAdds | src/communicator.cpp:66-69 | With no node repeated, each named row becomes its old value plus its own delta. |
| Communicator.SetDataBlockEmbedding | src/communicator.cpp:100-123 | The maps of other tables and the node lists are unchanged. A node has a buffer afterwards iff it had one or was named. Nodes not named keep their buffer. |
| Communicator.SetDataBlockEmbeddingAttaches | src/communicator.cpp:100-123 | With no node repeated, node i ends up holding buffer i. |
| Communicator.RequestParameterByTableId | src/communicator.cpp:79-98 | Only the named table's map changes. With no node repeated, node i's buffer holds handle i and the table's current row. |
| Communicator.FetchPair | src/communicator.cpp:135-141 | Exactly one buffer is drawn per input node and per output node. Node lists and other tables' maps are unchanged. |
| Communicator.FetchBlock | src/communicator.cpp:131-152 | Exactly `(|input| + |output|)` buffers are drawn, twice that with AdaGrad. Without AdaGrad the gradient maps are untouched. |
| Communicator.RequestParameter | src/communicator.cpp:125-156 | No table and not the word counter changes. The pool hands out exactly the `Drawn` count. Without AdaGrad the gradient maps are untouched. |
| Communicator.DeltaRow | src/communicator.cpp:181-184 | The delta has one coordinate per coordinate of the row. Its values are stated by the blend lemmas below. |
| Communicator.GetDeltaLoop | src/communicator.cpp:158-187 | Scratch buffer i keeps its handle and holds `(new[j] − current[j]) / thread_cnt` for every coordinate j, where `new` is the getter's row for node i. The recycle list grows by the getter handles, one per node, in node order. |
| Communicator.AddParameterByTableId | src/communicator.cpp:189-212 | The table keeps its rows and their lengths. Rows not named are unchanged. The recycle list grows by one getter handle per node. |
| Communicator.PushTables | src/communicator.cpp:236-237 | Only the input-side and output-side tables change. The recycle list grows by both tables' getter handles, in order. |
| Communicator.PushPair | src/communicator.cpp:231-240 | The scratch buffers drawn for a pair of tables are all returned, so the pool ends where it started. Only the pair's tables change. |
| Communicator.PushEmbeddings | src/communicator.cpp:231-240 | The pool is unchanged. The recycle list is the embedding buffers' handles. Only the two embedding tables change. |
| Communicator.PushGradients | src/communicator.cpp:242-253 | The pool is unchanged. The recycle list grows by the gradient buffers' handles. Only the two gradient tables change. |
| Communicator.PushBlock | src/communicator.cpp:223-256 | The word counter and the set of tables are unchanged. Without AdaGrad only the embedding tables change. The block's attached buffers must be out, and the pool loses exactly those. |
| Communicator.AddDeltaParameter | src/communicator.cpp:215-257 | A null block changes nothing. Otherwise the word counter is unchanged, and without AdaGrad only the embedding tables change. The block's attached buffers must be out, and the outstanding handles drop by exactly those. |
| Communicator.GetWordCount | src/communicator.cpp:259-263 | Reads the global processed-word counter, nothing else of the state. |
| Communicator.AddWordCount | src/communicator.cpp:259-267 | `GetWordCount` afterwards reads the old count plus `n`. Tables and pool are unchanged. |
| CommunicatorLemmas.FetchTableLoads | src/communicator.cpp:79-98 | After fetching one table, every node of that table has a buffer holding the table's row and the handle given for it. |
| CommunicatorLemmas.FetchPairLoads | src/communicator.cpp:140-141 | After fetching a pair, both tables' buffers hold the tables' rows. |
| CommunicatorLemmas.FetchPairDraws | src/communicator.cpp:135-141 | The handles drawn for a pair are exactly those attached to the block for the pair. |
| CommunicatorLemmas.FetchBlockLoads | src/communicator.cpp:140-151 | Every active table's buffers hold the rows the tables held. |
| CommunicatorLemmas.RequestParameterFetchesRows | src/communicator.cpp:125-156 | After `RequestParameter`, each input node's input-embedding buffer and each output node's output-embedding buffer holds the table's current row. The same holds for the gradient tables under AdaGrad. |
| CommunicatorLemmas.RequestParameterAttaches | src/communicator.cpp:79-151 | Every attached buffer holds a row of the embedding size. |
| CommunicatorLemmas.FetchBlockDrawsPlain | src/communicator.cpp:135-141 | Without AdaGrad the outstanding handles grow by exactly the block's attached handles. |
| CommunicatorLemmas.FetchBlockDrawsAdagrad | src/communicator.cpp:143-152 | With AdaGrad the outstanding handles grow by exactly the attached handles of all four tables. |
| CommunicatorLemmas.RequestParameterDraws | src/communicator.cpp:135-152 | The buffers `RequestParameter` draws are exactly those it attaches to the block. |
| CommunicatorLemmas.RetrainedBlockHandles | src/communicator.cpp:239-255 | A trainer that rewrites rows but keeps buffers leaves the block's handles unchanged. |
| CommunicatorLemmas.RequestThenAddConserves | src/communicator.cpp:231-255 | Fetch, train without swapping buffers, then push: the pool has exactly the handles out it had before. |
| CommunicatorLemmas.UntrainedIsRetrained | src/communicator.cpp:125-156 | The block `RequestParameter` fills satisfies the conservation law's premise as it stands. |
| CommunicatorLemmas.AddParameterByTableIdBlends | src/communicator.cpp:189-212 | With no node repeated, each named row becomes `current + (new − current) / thread_cnt`, with `current` the re-fetched row. Every other row is unchanged. |
| CommunicatorLemmas.PushPairBlends | src/communicator.cpp:231-240 | Pushing a pair blends each named row of both tables. |
| CommunicatorLemmas.PushEmbeddingsRows | src/communicator.cpp:236-237 | The embedding push blends each named row of both embedding tables. |
| CommunicatorLemmas.PushGradientsRows | src/communicator.cpp:248-249 | The gradient push blends each named row of both gradient tables. |
| CommunicatorLemmas.PushGradientsKeeps | src/communicator.cpp:242-253 | The gradient push leaves the embedding tables as they are. |
| CommunicatorLemmas.PushBlockRows | src/communicator.cpp:236-249 | Pushing a block blends each named row of each active table. |
| CommunicatorLemmas.AddDeltaParameterRows | src/communicator.cpp:215-257 | After `AddDeltaParameter`, each named row of each active table is the blend of the current row with the block's row. Every other row is unchanged. |
| CommunicatorLemmas.Scale | src/communicator.cpp:183 | Each coordinate of the scaled row times `thread_cnt` gives back the original coordinate. |
| CommunicatorLemmas.BlendShift | src/communicator.cpp:181-184 | A row trained locally by `k` moves the shared row by exactly `k / thread_cnt`. |
| CommunicatorLemmas.SingleThreadAdopts | src/communicator.cpp:183 | With one thread the shared row becomes the locally trained row. |
| CommunicatorLemmas.UntouchedRowUnchanged | src/communicator.cpp:183 | A row the trainer left as fetched pushes a zero delta. |
| CommunicatorLemmas.BlendTowardsTrained | src/communicator.cpp:183 | The distance from the shared row to the trained row shrinks by the factor `(thread_cnt − 1) / thread_cnt`. |
| CommunicatorLemmas.WordCountsAccumulate | src/communicator.cpp:265-267 | Word counts added in turn accumulate, and the order does not matter. |

## Left out

- `Client::Start`, `Connect`, `SendMessages`, `ReceiveMessages` and `GetServerIP` are left out. They are Winsock I/O, threads, timeouts and `Sleep` polling, and have no logic beyond the messages modelled here.
- JSON decoding by `Json::Reader` is a foreign library. A reply arrives decoded as `Option<Reply>`, with `None` for a rejected text.
- A `ClientPorts` array shorter than `ClientIps` reads 0 past its end, which is jsoncpp's `asInt` of a null value. The model assumes that reading.
- The C-string plumbing of `ParseJson` is memory handling, not behaviour, and is left out. This covers the `strcpy`/`strcat`/`itoa` buffers, the 300- and 5000-byte limits, and the leaked key string of a duplicate. Keys and messages are unbounded strings. The one behavioural effect of C strings, that `strcpy`, `std::string(char*)` and `%s` stop at the first NUL character, is not modelled; see the two lines below.
- `int` ranks and ports are unbounded integers. The 32-bit range of `count` is not modelled.
- `filler`, the constructor and destructor, `PrepareParameterTables` and `ClearParameterTables` are left out. They are random initialisation and heap management, and the tables are given as a map.
- The internals of the memory manager and of the multiverso worker tables are not shown. Only their request/return and `Get`/`Add` contracts are modelled. A handle is never reused by the model's pool, which is a stronger freshness than a free list gives. Every law stated here is about which handles are out, so reuse would not change them.
- Rows hold ideal `real`s, not `float`s, and rounding is not modelled.
- Timing, logging and concurrency are left out. Concurrency includes other workers' updates between the two fetches and the per-row atomicity of the external store. A push is a single step on the state.
- `GetWorkerTableRows`, `RequestBlocks` and `ReturnBlocks` of the Communicator are one-line forwards. They are covered by `ParamTables.GetRows` and `BufferPool`.
- The word counter is one integer. The value of the `kWordCountId` key and the key-value table around it are not part of this model.
- Communicator.RequestParameterByTableId takes the chosen table and its kind rather than a table id with a switch. The kind picks the block's setter, and the caller passes the table of that kind.
- Communicator.AddParameterByTableId takes the chosen table itself rather than a table id with a switch. `PushTables` writes it back under its kind, and an id outside the four kinds, which the source ignores, cannot be expressed.
- CommunicatorLemmas.RequestParameterFetchesRows and the other lemmas about loaded or blended rows assume `WellFormed`, meaning no node is repeated in either list. The source keeps nodes in sets, so this always holds there. The operations themselves do not require it.
- Communicator.AddDeltaParameter requires the block to carry a buffer of the table's row length for every node. The source reads the getter's row unchecked, apart from an `assert` that it is not null.
- Communicator.DeltaRow states only the length of the delta in its own contract. Its values are stated by `GetDeltaLoop` and by the blend lemmas.
- Rendezvous.EndpointKey assumes IP texts without a NUL character. The source's `strcpy` (`src/client.cpp:167`) and `std::string(point_port)` (`src/client.cpp:171`) cut an IP at its first NUL, so `"10.0.0.1"` and `"10.0.0.1\0x"` on the same port give one key there and two in the model. JSON strings may carry `\u0000`, but IP texts in practice do not.
- Rendezvous.MakeJson assumes an identity without a NUL character. `%s` (`src/client.cpp:141`) stops at the first NUL, so the source's message holds only the identity's text before it, while the model inserts it whole.
- Rendezvous.MakeJson states only the message's first field and its closing brace in its own contract. `RendezvousLemmas.MakeJsonRoundTrip` shows that the clients size, the identity and the port can be read back from the message. The reader used there accepts leading zeros, so the round trip alone does not fix how the numbers are written. That is stated by the contract of `Decimal.IntString`.
