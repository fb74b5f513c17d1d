# Jubatus server node and LSH recommender, modelled in Dafny

This project models two sequential parts of Jubatus, an online machine
learning framework in which each node owns a model and periodically mixes
model diffs with its peers.

- `jubatus_serv.dfy`, module `JubatusServ`: the generic server node
  `jubatus_serv<M, Diff>`. It covers how artifact file names are built, the
  outcomes of `save` and `load`, the mixer wiring done by `set_mixer` and
  `start`, the `get_diff`/`put_diff` handlers, and one mix round (`do_mix`).
  The model type `M` becomes `Model<S>`: a type tag plus an opaque state `S`.
  The diff type stays a type parameter `D`. The callbacks are function
  values: `get_diff` is `S -> D`, `reduce` is `(S, D, D) -> D` (model, diff,
  accumulator in, accumulator out), and `put_diff` is `(S, D) -> (int, S)`
  (status, new state). A mix round takes each peer's `get_diff` reply as a
  function `fetch: Peer -> D`. It returns the final accumulator and a ghost
  trace of the calls it made (`MixEvent`). Lemmas about that trace state the
  call order, the call counts and what is broadcast.
- `lsh.dfy`, module `Recommender`: the `lsh` recommender front-end. The
  column cache `column2baseval_` and the two storages are `map` fields of
  class `Lsh`. The original storage `orig` maps a row id to its feature
  vector, and the bit-index storage `bitIndex` maps a row id to its bit
  vector. Code outside the file is passed in as functions in a value
  `Env`: the string hash, the random-vector generator, the projection to
  bits, the bit-index search and the original storage's `set_row` merge.
  The class keeps an invariant: every cached vector equals
  `randomVector(base_num, hash(column))`, both storages hold the same row
  ids, and each bit-index row is the LSH signature of its original row.
  Because of the first part, a row's signature does not depend on when its
  columns were cached.
- `wrappers.dfy`, module `Wrappers`: `Option` and `Result`.

Behaviour of the source worth knowing:

- `do_mix` contacts peers in list order. It does not catch RPC failures, so
  a failing peer aborts the round rather than being skipped.
- `load` does not branch on a failed open. A false return from the
  deserialiser yields the `errno` read just after it. That value is not a
  dedicated error code, and it can be 0, which is also the success code;
  `Server.Load`'s contract shows this (`LoadFailed(0)` gives 0 with the model
  unchanged).
- `save` takes no lock.
- The constructor ignores its `base_path` argument and uses the `tmpdir`
  setting.
- `load` replaces the model before it calls `after_load`, so when that hook
  throws, `load` returns -1 with the new model already in place
  (`LoadedHookThrew`).

The `Server` model is the build with ZooKeeper support (`HAVE_ZOOKEEPER_H`).
Without it, `start` creates no mixer, `set_mixer` does nothing even on a
clustered node, and `do_mix`, `get_diff_impl` and `put_diff_impl` do not
exist.

The configuration field `hash_num` is declared in a header that is not part
of this model. It is modelled as an unsigned 64-bit integer (`Uint64`), like
`base_num`, so the `1 <= hash_num` guard rejects only 0. If the field is
signed, negative values are rejected too, and the model cannot represent
them.

## Model

| member | source | states |
|---|---|---|
| `JubatusServ.ArtifactPathShape` | src/server/jubatus_serv.hpp:68-74 | The artifact path starts with the base path and "/", ends in ".jc", and is exactly 5 characters longer than base, type and id together |
| `JubatusServ.ArtifactPathInjective` | src/server/jubatus_serv.hpp:68-74 | For a fixed base path and model type, two ids give the same artifact path if and only if they are equal |
| `JubatusServ.Server.BuildLocalPath` | src/server/jubatus_serv.hpp:68-74 | The step-by-step appends produce exactly base + "/" + type + "_" + id + ".jc"; the output string's old content plays no part |
| `JubatusServ.CollectTraceFacts` | src/server/jubatus_serv.hpp:146-151 | The collecting loop asks every peer for a diff once, in list order, calls reduce once per peer, makes no put_diff call, and takes two steps per peer |
| `JubatusServ.BroadcastTraceFacts` | src/server/jubatus_serv.hpp:153-156 | The broadcasting loop makes one put_diff per peer, in list order, each carrying the same accumulator, and makes no get_diff or reduce call |
| `JubatusServ.MixRoundCollects` | src/server/jubatus_serv.hpp:143-157 | A whole mix round asks each peer for its diff once, in list order, reduces once per peer, and makes three calls per peer in all |
| `JubatusServ.MixRoundBroadcasts` | src/server/jubatus_serv.hpp:143-157 | A whole mix round sends every peer, in list order, one put_diff carrying the same final accumulator |
| `JubatusServ.MixRoundEmpty` | src/server/jubatus_serv.hpp:143-157 | A round makes no call at all exactly when the peer list is empty; the accumulator then stays the default diff |
| `JubatusServ.MixAccOrderInsensitive` | src/server/jubatus_serv.hpp:144-151 | If reduce lets any two diffs be folded in either order, the final accumulator is the same for any reordering of the peer list |
| `JubatusServ.Server.DoMix` | src/server/jubatus_serv.hpp:143-157 | The returned accumulator is each peer's reply folded into the default diff through reduce, in list order; the recorded calls are exactly the mix round's trace |
| `JubatusServ.Server.constructor` | src/server/jubatus_serv.hpp:37-42 | A new node has no callbacks, no mixer, the flag cleared, and the tmpdir setting as its artifact directory |
| `JubatusServ.Server.Start` | src/server/jubatus_serv.hpp:45-65 | Clustered: a fresh mixer with the configured name and intervals and no mix function bound, running only if the mix callbacks are set; standalone: no mixer change; always returns 0 |
| `JubatusServ.Server.StartRebinding` | src/server/jubatus_serv.hpp:54-58 | Corrected start: the fresh mixer has the mix function bound exactly when the callbacks are set, so a running mixer always has it |
| `JubatusServ.StartSetMixerStart` | src/server/jubatus_serv.hpp:45-93 | start, set_mixer, start on a clustered node leaves the mixer running without the mix function bound |
| `JubatusServ.StartThenSetMixer` | src/server/jubatus_serv.hpp:45-93 | start then set_mixer on a fresh clustered node leaves the mixer bound but not running |
| `JubatusServ.StartSetMixerStartRebinding` | src/server/jubatus_serv.hpp:45-93 | The same sequence with the corrected start leaves the mixer running with the mix function bound |
| `JubatusServ.Server.SetMixer` | src/server/jubatus_serv.hpp:78-93 | Standalone: nothing changes; clustered: all three callbacks stored, the mix function bound into the mixer, and the flag set |
| `JubatusServ.Server.GetDiffImpl` | src/server/jubatus_serv.hpp:129-134 | The diff handed out is what the get_diff callback extracts from the current model |
| `JubatusServ.Server.PutDiffImpl` | src/server/jubatus_serv.hpp:135-142 | The model takes the put_diff callback's new state, and the callback's status is returned unchanged |
| `JubatusServ.Server.Save` | src/server/jubatus_serv.hpp:160-176 | Writes to the artifact named by the model type and id; returns 0 when serialisation completes and -1 when it throws; never replaces the model |
| `JubatusServ.Server.Load` | src/server/jubatus_serv.hpp:182-214 | Reads the artifact named by the model type and id. Success: the loaded model replaces the old one, after_load runs once, and 0 is returned. after_load throws: the loaded model stays in place, the hook ran once, and -1 is returned. False return: the errno is returned and model and hook count are unchanged. Exception from before_load or the deserialiser: -1 and no change |
| `JubatusServ.SaveThenLoad` | src/server/jubatus_serv.hpp:160-214 | save and then load of one id use the same artifact name; the final model is the loaded one whenever deserialisation succeeded, even if after_load threw, and the old one otherwise |
| `Recommender.WithBase` | jubatus/core/recommender/lsh.cpp:121-127 | A cached column leaves the cache unchanged; otherwise exactly that column is added, with the vector for base_num and the column's hash, and every old entry keeps its vector |
| `Recommender.WithBaseIdempotent` | jubatus/core/recommender/lsh.cpp:121-127 | Generating a column's base twice leaves the same cache as generating it once |
| `Recommender.WithBases` | jubatus/core/recommender/lsh.cpp:115-119 | Afterwards the cache keys are exactly the old keys plus every column of the vector; old entries are unchanged and each new entry is that column's base vector |
| `Recommender.WithBasesValid` | jubatus/core/recommender/lsh.cpp:115-127 | Filling a cache in which every vector is its column's base vector keeps that property |
| `Recommender.CachedSignature` | jubatus/core/recommender/lsh.cpp:107-113 | Projecting through such a cache gives the feature vector's signature, which depends only on its columns, weights, base_num and the hash |
| `Recommender.Complement` | jubatus/core/recommender/lsh.cpp:89-92 | Keeps the ids, their order and their count, and replaces each score s by 1 - s |
| `Recommender.ComplementScores` | jubatus/core/recommender/lsh.cpp:90-92 | The loop leaves exactly the complemented list: same ids in the same order, each score s replaced by 1 - s |
| `Recommender.Lsh.Init` | jubatus/core/recommender/lsh.cpp:154-158 | A recommender with the given size as base_num and an empty cache and empty storages |
| `Recommender.Lsh.Default` | jubatus/core/recommender/lsh.cpp:63-66 | The default constructor uses base_num 64 and starts empty |
| `Recommender.Lsh.FromBaseNum` | jubatus/core/recommender/lsh.cpp:43-50 | Fails with invalid_parameter "1 <= base_num" exactly when the size is 0; otherwise an empty recommender with that base_num |
| `Recommender.FromDefaultConfig` | jubatus/core/recommender/lsh.cpp:39-41 | The default configuration has hash_num 64, so lsh(config()) succeeds with base_num 64 and starts empty |
| `Recommender.Lsh.FromConfig` | jubatus/core/recommender/lsh.cpp:52-61 | Fails with invalid_parameter "1 <= hash_num" exactly when hash_num is 0; otherwise an empty recommender with base_num set to hash_num |
| `Recommender.Lsh.GenerateColumnBase` | jubatus/core/recommender/lsh.cpp:121-127 | The cache becomes its insert-if-absent update for the column, and stays valid |
| `Recommender.Lsh.GenerateColumnBases` | jubatus/core/recommender/lsh.cpp:115-119 | The loop leaves the cache equal to the insert-if-absent of every column of the vector, in order |
| `Recommender.Lsh.CalcLshValues` | jubatus/core/recommender/lsh.cpp:107-113 | Caches every column of the vector, then returns the vector's signature |
| `Recommender.Lsh.SimilarRow` | jubatus/core/recommender/lsh.cpp:71-83 | The result is built afresh. With ret_num 0 it is empty and the cache is untouched. Otherwise it is the bit-index search for the query's signature, and every query column is cached. Storages are unchanged |
| `Recommender.Lsh.NeighborRow` | jubatus/core/recommender/lsh.cpp:85-93 | Returns what similar_row returns, with the same ids in the same order and each score s made 1 - s; the cache changes as in similar_row |
| `Recommender.Lsh.Clear` | jubatus/core/recommender/lsh.cpp:95-100 | Both storages and the column cache are empty afterwards |
| `Recommender.Lsh.ClearRow` | jubatus/core/recommender/lsh.cpp:102-105 | The id is removed from both storages; nothing else changes, the cache included |
| `Recommender.Lsh.UpdateRow` | jubatus/core/recommender/lsh.cpp:129-139 | The diff's columns are cached first. The diff is merged into the stored row. The bit-index row for the id becomes the signature of the row read back, and the class invariant is kept |
| `Recommender.Lsh.GetAllRowIds` | jubatus/core/recommender/lsh.cpp:141-143 | Lists each row id of the bit-index storage exactly once and nothing else |
| `Recommender.Lsh.Type` | jubatus/core/recommender/lsh.cpp:145-147 | The model type tag is "lsh" |

## Left out

- `join_to_cluster`: ZooKeeper listing, busy-wait master-lock polling, `rand()` and an RPC client; its try body is empty.
- Reader/writer locking (`rlock`, `wlock`, `get_rw_mutex`, `JRLOCK__`, `JWLOCK__`): concurrency. The model assumes no other thread changes the model state during a mix round.
- msgpack packing and unpacking in `get_diff_impl` and `put_diff_impl`, and the RPC clients: peers' replies are the function `fetch`, and the handlers work on unserialised diffs.
- `get_storage`: it only serialises the model into a string.
- File streams and `errno`: the serialiser's and deserialiser's results are the inputs `SaveOutcome` and `LoadOutcome`. The unchecked opens and the unchecked null result of `before_load` do not branch in the source.
- `serv.serv`, `LOG`, the debug `printf` calls, and the getters `get_ipaddr`, `get_port` and `get_threadum`: output, server start-up and plain accessors.
- `mixer0` itself is not part of this model. `Mixer` records only its configuration, whether `set_mixer` bound the mix function into it and whether `start` started it.
- JubatusServ.Server.constructor: `initial` is the model that the derived server installs. The base constructor itself leaves `model_` a null pointer, and only `load` assigns it; the null dereferences in `save`, `load` and `get_diff_impl` before a model is installed are not modelled.
- JubatusServ.Server.SetMixer: requires an existing mixer in clustered mode, because the source calls `mixer_->set_mixer_func` through a pointer that only `start` sets; the null dereference is not modelled.
- JubatusServ.Server.GetDiffImpl: requires the get_diff callback to be set. Before `set_mixer`, and always on a standalone node, `get_diff_` is an empty function and calling it throws; that exception is not modelled.
- JubatusServ.Server.PutDiffImpl: requires the put_diff callback to be set, for the same reason: calling the empty `put_diff_` throws, and that is not modelled.
- JubatusServ.Server.DoMix: peer RPC failures and timeouts are not modelled; in the source they raise an exception out of the round.
- The float numerics of `prod_invert_and_vector`, `set_bit_vector` and `generate_random_vector`, and `calc_string_hash`: these are the uninterpreted functions in `Env`. Weights and scores are reals, so `1 - score` is exact here.
- The bit-index search and the original storage's `set_row` merge are external storage code, kept as functions. `register_mixables_to_holder` is framework code, and mixing of the storages is not modelled.
- The original storage `orig_` is set up outside this file; the model starts it empty.
- Recommender.Lsh.GetAllRowIds: the order of the ids is the storage's, so the contract gives only the set of ids and that each appears once.

## Findings

| source | as written | input that shows it | evidently intended | confidence | as-written member | corrected member |
|---|---|---|---|---|---|---|
| src/server/jubatus_serv.hpp:55-58 | `start` always replaces `mixer_` with a new `mixer0` and only starts it, so the mix function that `set_mixer` bound into the old mixer (:88) is lost | on a clustered node, the single-start lifecycle `start()`, `set_mixer(g, r, p)` leaves the mixer bound but never started, because `start` read the flag at :56 before `set_mixer` ran; calling `set_mixer` before `start` dereferences the null `mixer_` at :88 instead. If `serv.serv` at :63 returns, a second `start()` then runs a new mixer with no mix function | when the callbacks are set, `start` binds `do_mix` into the new mixer before starting it, so a running mixer always has its mix function | not executed; medium, because `mixer0` is not part of this model | `JubatusServ.Server.Start`, `JubatusServ.StartThenSetMixer`, `JubatusServ.StartSetMixerStart` | `JubatusServ.Server.StartRebinding`, `JubatusServ.StartSetMixerStartRebinding` |
