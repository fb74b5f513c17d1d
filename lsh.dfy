/** The LSH recommender front-end: a memoised cache of per-column random
    base vectors, an original-row storage and a bit-index storage whose
    rows are the LSH signatures of the original rows. */
module Recommender {
  import opened Wrappers

  newtype Uint32 = x: int | 0 <= x < 0x1_0000_0000
  newtype Uint64 = x: int | 0 <= x < 0x1_0000_0000_0000_0000

  /** The number of base vectors when none is configured. */
  const DefaultBaseNum: Uint64 := 64

  /** A sparse feature vector: (column name, weight) pairs. Weights are floats
      in the source and reals here. */
  type Sfv = seq<(string, real)>
  type BitVector = seq<bool>
  /** Row ids with their scores, best first, as the bit-index search returns them. */
  type Scored = seq<(string, real)>

  datatype Config = Config(hashNum: Uint64)

  /** The default configuration (lsh::config::config). */
  const DefaultConfig: Config := Config(DefaultBaseNum)

  datatype Error = InvalidParameter(message: string)

  /** The collaborators this file calls but does not define. */
  datatype Env = Env(
    stringHash: string -> Uint32,                             // calc_string_hash
    randomVector: (Uint64, Uint32) -> seq<real>,              // generate_random_vector(base_num, seed)
    project: (seq<(seq<real>, real)>, Uint64) -> BitVector,   // prod_invert_and_vector, then set_bit_vector
    search: (map<string, BitVector>, BitVector, nat) -> Scored, // bit_index_storage::similar_row
    setRow: (Sfv, Sfv) -> Sfv)                                // sparse_matrix_storage::set_row on one stored row

  /** The base vector of a column: a function of the base count and of the
      column name's hash only. */
  function ColumnBase(env: Env, baseNum: Uint64, column: string): seq<real>
  {
    env.randomVector(baseNum, env.stringHash(column))
  }

  /** The columns a feature vector mentions. */
  function ColumnSet(sfv: Sfv): set<string>
  {
    set i | 0 <= i < |sfv| :: sfv[i].0
  }

  /** Every cached vector is the base vector of its column. */
  ghost predicate CacheValid(env: Env, baseNum: Uint64, cache: map<string, seq<real>>)
  {
    forall k :: k in cache ==> cache[k] == ColumnBase(env, baseNum, k)
  }

  /** The cache after generate_column_base(column): insert if absent. */
  function WithBase(env: Env, baseNum: Uint64, cache: map<string, seq<real>>, column: string): (r: map<string, seq<real>>)
    ensures column in cache ==> r == cache
    ensures column !in cache ==> r.Keys == cache.Keys + {column} && r[column] == ColumnBase(env, baseNum, column)
    ensures forall k :: k in cache ==> k in r && r[k] == cache[k]
  {
    if column in cache then cache else cache[column := ColumnBase(env, baseNum, column)]
  }

  /** The cache after generate_column_bases(sfv): one insert-if-absent per entry, in order. */
  function WithBases(env: Env, baseNum: Uint64, cache: map<string, seq<real>>, sfv: Sfv): (r: map<string, seq<real>>)
    ensures r.Keys == cache.Keys + ColumnSet(sfv)
    ensures forall k :: k in cache ==> r[k] == cache[k]
    ensures forall k :: k in r && k !in cache ==> r[k] == ColumnBase(env, baseNum, k)
    decreases |sfv|
  {
    if |sfv| == 0 then cache
    else
      var k := |sfv| - 1;
      assert ColumnSet(sfv) == ColumnSet(sfv[..k]) + {sfv[k].0} by {
        forall c | c in ColumnSet(sfv) ensures c in ColumnSet(sfv[..k]) + {sfv[k].0} {
          var i :| 0 <= i < |sfv| && sfv[i].0 == c;
          if i < k { assert sfv[..k][i].0 == c; }
        }
        forall c | c in ColumnSet(sfv[..k]) ensures c in ColumnSet(sfv) {
          var i :| 0 <= i < k && sfv[..k][i].0 == c;
          assert sfv[i].0 == c;
        }
      }
      WithBase(env, baseNum, WithBases(env, baseNum, cache, sfv[..k]), sfv[k].0)
  }

  /** generate_column_base is idempotent. */
  lemma WithBaseIdempotent(env: Env, baseNum: Uint64, cache: map<string, seq<real>>, column: string)
    ensures WithBase(env, baseNum, WithBase(env, baseNum, cache, column), column) == WithBase(env, baseNum, cache, column)
  {
  }

  /** Filling a valid cache keeps it valid: every vector in it is still the
      base vector of its column. */
  lemma WithBasesValid(env: Env, baseNum: Uint64, cache: map<string, seq<real>>, sfv: Sfv)
    requires CacheValid(env, baseNum, cache)
    ensures CacheValid(env, baseNum, WithBases(env, baseNum, cache, sfv))
  {
  }

  /** The (base vector, weight) pairs of a feature vector, read from the cache. */
  function Bases(cache: map<string, seq<real>>, sfv: Sfv): seq<(seq<real>, real)>
    requires forall i :: 0 <= i < |sfv| ==> sfv[i].0 in cache
  {
    seq(|sfv|, i requires 0 <= i < |sfv| => (cache[sfv[i].0], sfv[i].1))
  }

  /** The LSH signature of a feature vector, from the base vectors of its columns. */
  function Signature(env: Env, baseNum: Uint64, sfv: Sfv): BitVector
  {
    env.project(seq(|sfv|, i requires 0 <= i < |sfv| => (ColumnBase(env, baseNum, sfv[i].0), sfv[i].1)), baseNum)
  }

  /** Projecting through a valid cache that holds every column gives the
      signature: the bits do not depend on when the vectors were cached. */
  lemma CachedSignature(env: Env, baseNum: Uint64, cache: map<string, seq<real>>, sfv: Sfv)
    requires CacheValid(env, baseNum, cache)
    requires forall i :: 0 <= i < |sfv| ==> sfv[i].0 in cache
    ensures env.project(Bases(cache, sfv), baseNum) == Signature(env, baseNum, sfv)
  {
    assert Bases(cache, sfv) == seq(|sfv|, i requires 0 <= i < |sfv| => (ColumnBase(env, baseNum, sfv[i].0), sfv[i].1));
  }

  /** The row stored under id, or the empty row. */
  function StoredRow(orig: map<string, Sfv>, id: string): Sfv
  {
    if id in orig then orig[id] else []
  }

  /** The ids of a scored list, in order. */
  function Ids(s: Scored): seq<string>
  {
    seq(|s|, i requires 0 <= i < |s| => s[i].0)
  }

  /** Each score s replaced by 1 - s, ids and order kept. */
  function Complement(s: Scored): (r: Scored)
    ensures |r| == |s| && Ids(r) == Ids(s)
    ensures forall i :: 0 <= i < |s| ==> r[i].1 == 1.0 - s[i].1
  {
    seq(|s|, i requires 0 <= i < |s| => (s[i].0, 1.0 - s[i].1))
  }

  /** The loop of neighbor_row: replaces each score s by 1 - s, in place. */
  method ComplementScores(s: Scored) returns (ids: Scored)
    ensures ids == Complement(s)
  {
    ids := s;
    for i := 0 to |ids|
      invariant |ids| == |s|
      invariant forall j :: 0 <= j < i ==> ids[j] == (s[j].0, 1.0 - s[j].1)
      invariant forall j :: i <= j < |ids| ==> ids[j] == s[j]
    {
      ids := ids[i := (ids[i].0, 1.0 - ids[i].1)];
    }
  }

  /** lsh: the recommender. */
  class Lsh {
    const baseNum: Uint64
    const env: Env
    var column2baseval: map<string, seq<real>>
    /** The original storage: row id to the row's feature vector. */
    var orig: map<string, Sfv>
    /** The bit-index storage: row id to the row's LSH signature. */
    var bitIndex: map<string, BitVector>

    /** The cache holds only true base vectors. */
    ghost predicate CacheOk()
      reads this`column2baseval
    {
      1 <= baseNum && CacheValid(env, baseNum, column2baseval)
    }

    /** Both storages hold the same rows, and every bit-index row is the
        signature of its original row. */
    ghost predicate StoragesAgree()
      reads this`orig, this`bitIndex
    {
      && bitIndex.Keys == orig.Keys
      && forall id :: id in bitIndex ==> id in orig && bitIndex[id] == Signature(env, baseNum, orig[id])
    }

    ghost predicate Valid()
      reads this
    {
      CacheOk() && StoragesAgree()
    }

    /** initialize_model for a size already checked to be at least 1. */
    constructor Init(n: Uint64, env: Env)
      requires 1 <= n
      ensures Valid() && baseNum == n && this.env == env
      ensures column2baseval == map[] && orig == map[] && bitIndex == map[]
    {
      baseNum := n;
      this.env := env;
      column2baseval := map[];
      orig := map[];
      bitIndex := map[];
    }

    /** lsh(): DefaultBaseNum base vectors. */
    constructor Default(env: Env)
      ensures Valid() && baseNum == DefaultBaseNum && this.env == env
      ensures column2baseval == map[] && orig == map[] && bitIndex == map[]
    {
      baseNum := DefaultBaseNum;
      this.env := env;
      column2baseval := map[];
      orig := map[];
      bitIndex := map[];
    }

    /** lsh(base_num): throws invalid_parameter when base_num is 0. */
    static method FromBaseNum(n: Uint64, env: Env) returns (r: Result<Lsh, Error>)
      ensures r.Failure? <==> n == 0
      ensures r.Failure? ==> r.error == InvalidParameter("1 <= base_num")
      ensures r.Success? ==>
        (fresh(r.value) && r.value.Valid() && r.value.baseNum == n && r.value.env == env
         && r.value.column2baseval == map[] && r.value.orig == map[] && r.value.bitIndex == map[])
    {
      if !(1 <= n) {
        return Failure(InvalidParameter("1 <= base_num"));
      }
      var l := new Lsh.Init(n, env);
      r := Success(l);
    }

    /** lsh(config): throws invalid_parameter when hash_num is 0. */
    static method FromConfig(c: Config, env: Env) returns (r: Result<Lsh, Error>)
      ensures r.Failure? <==> c.hashNum == 0
      ensures r.Failure? ==> r.error == InvalidParameter("1 <= hash_num")
      ensures r.Success? ==>
        (fresh(r.value) && r.value.Valid() && r.value.baseNum == c.hashNum && r.value.env == env
         && r.value.column2baseval == map[] && r.value.orig == map[] && r.value.bitIndex == map[])
    {
      if !(1 <= c.hashNum) {
        return Failure(InvalidParameter("1 <= hash_num"));
      }
      var l := new Lsh.Init(c.hashNum, env);
      r := Success(l);
    }

    /** generate_column_base: caches the column's base vector if absent. */
    method GenerateColumnBase(column: string)
      requires CacheOk()
      modifies this`column2baseval
      ensures CacheOk()
      ensures column2baseval == WithBase(env, baseNum, old(column2baseval), column)
    {
      if column in column2baseval {
        return;
      }
      var seed := env.stringHash(column);
      column2baseval := column2baseval[column := env.randomVector(baseNum, seed)];
    }

    /** generate_column_bases: generate_column_base for each entry, in order. */
    method GenerateColumnBases(sfv: Sfv)
      requires CacheOk()
      modifies this`column2baseval
      ensures CacheOk()
      ensures column2baseval == WithBases(env, baseNum, old(column2baseval), sfv)
    {
      for i := 0 to |sfv|
        invariant CacheOk()
        invariant column2baseval == WithBases(env, baseNum, old(column2baseval), sfv[..i])
      {
        assert sfv[..i + 1][..i] == sfv[..i];
        GenerateColumnBase(sfv[i].0);
      }
      assert sfv[..|sfv|] == sfv;
    }

    /** calc_lsh_values: caches the vector's columns, then projects it. */
    method CalcLshValues(sfv: Sfv) returns (bv: BitVector)
      requires CacheOk()
      modifies this`column2baseval
      ensures CacheOk()
      ensures column2baseval == WithBases(env, baseNum, old(column2baseval), sfv)
      ensures bv == Signature(env, baseNum, sfv)
    {
      GenerateColumnBases(sfv);
      assert forall i :: 0 <= i < |sfv| ==> sfv[i].0 in ColumnSet(sfv);
      CachedSignature(env, baseNum, column2baseval, sfv);
      bv := env.project(Bases(column2baseval, sfv), baseNum);
    }

    /** What similar_row answers: nothing for ret_num 0, otherwise the
        bit-index search for the query's signature. */
    ghost function SimilarResult(query: Sfv, retNum: nat): Scored
      reads this
    {
      if retNum == 0 then [] else env.search(bitIndex, Signature(env, baseNum, query), retNum)
    }

    /** similar_row: the result is built afresh; ret_num 0 returns at once
        without touching the cache, otherwise every query column is cached. */
    method SimilarRow(query: Sfv, retNum: nat) returns (ids: Scored)
      requires Valid()
      modifies this`column2baseval
      ensures Valid()
      ensures ids == SimilarResult(query, retNum)
      ensures retNum == 0 ==> ids == [] && column2baseval == old(column2baseval)
      ensures retNum > 0 ==> column2baseval == WithBases(env, baseNum, old(column2baseval), query)
    {
      ids := [];
      if retNum == 0 {
        return;
      }
      var queryBv := CalcLshValues(query);
      ids := env.search(bitIndex, queryBv, retNum);
    }

    /** neighbor_row: similar_row's ids in the same order, each score s made 1 - s. */
    method NeighborRow(query: Sfv, retNum: nat) returns (ids: Scored)
      requires Valid()
      modifies this`column2baseval
      ensures Valid()
      ensures ids == Complement(SimilarResult(query, retNum))
      ensures retNum == 0 ==> ids == [] && column2baseval == old(column2baseval)
      ensures retNum > 0 ==> column2baseval == WithBases(env, baseNum, old(column2baseval), query)
    {
      ids := SimilarRow(query, retNum);
      ids := ComplementScores(ids);
    }

    /** clear: empties both storages and the column cache. */
    method Clear()
      requires Valid()
      modifies this`orig, this`column2baseval, this`bitIndex
      ensures Valid()
      ensures orig == map[] && column2baseval == map[] && bitIndex == map[]
    {
      orig := map[];
      column2baseval := map[];
      bitIndex := map[];
    }

    /** clear_row: removes id from both storages; the cache is untouched. */
    method ClearRow(id: string)
      requires Valid()
      modifies this`orig, this`bitIndex
      ensures Valid()
      ensures orig == old(orig) - {id} && bitIndex == old(bitIndex) - {id}
    {
      orig := orig - {id};
      bitIndex := bitIndex - {id};
    }

    /** update_row: caches the diff's columns, merges the diff into the
        original row, then stores the signature of the row read back. */
    method UpdateRow(id: string, diff: Sfv)
      requires Valid()
      modifies this`column2baseval, this`orig, this`bitIndex
      ensures Valid()
      ensures orig == old(orig)[id := env.setRow(StoredRow(old(orig), id), diff)]
      ensures bitIndex == old(bitIndex)[id := Signature(env, baseNum, orig[id])]
      ensures column2baseval == WithBases(env, baseNum, WithBases(env, baseNum, old(column2baseval), diff), orig[id])
    {
      GenerateColumnBases(diff);
      orig := orig[id := env.setRow(StoredRow(orig, id), diff)];
      var row := orig[id];
      var bv := CalcLshValues(row);
      bitIndex := bitIndex[id := bv];
    }

    /** get_all_row_ids: every row id of the bit-index storage, once each, in
        an order the storage chooses. */
    method GetAllRowIds() returns (ids: seq<string>)
      ensures forall id :: id in ids <==> id in bitIndex
      ensures forall i, j :: 0 <= i < j < |ids| ==> ids[i] != ids[j]
    {
      ids := [];
      var rest := bitIndex.Keys;
      while rest != {}
        invariant rest <= bitIndex.Keys
        invariant forall id :: id in ids <==> id in bitIndex && id !in rest
        invariant forall i, j :: 0 <= i < j < |ids| ==> ids[i] != ids[j]
        decreases rest
      {
        var k :| k in rest;
        ids := ids + [k];
        rest := rest - {k};
      }
    }

    /** type(): the model type tag. */
    function Type(): (t: string)
      ensures t == "lsh"
    {
      "lsh"
    }
  }

  /** The default configuration is accepted: lsh(config()) has DefaultBaseNum
      base vectors and starts empty. */
  method FromDefaultConfig(env: Env) returns (r: Result<Lsh, Error>)
    ensures r.Success? && r.value.baseNum == DefaultBaseNum && r.value.Valid()
    ensures r.value.column2baseval == map[] && r.value.orig == map[] && r.value.bitIndex == map[]
  {
    r := Lsh.FromConfig(DefaultConfig, env);
  }
}
