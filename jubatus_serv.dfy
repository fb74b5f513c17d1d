/** The generic server node that hosts one model: artifact naming,
    save/load outcomes, mixer wiring and one mix round. */
module JubatusServ {
  import opened Wrappers

  /** The command-line settings (server_argv) that the modelled operations read. */
  datatype ServerArgv = ServerArgv(
    standalone: bool,
    name: string,
    intervalCount: int,
    intervalSec: int,
    tmpdir: string)

  /** RPC endpoint of a peer, as listed by the cluster directory. */
  datatype Peer = Peer(host: string, port: int)

  /** A hosted model: its type tag (model_->type) and its opaque state. */
  datatype Model<S> = Model(typeName: string, state: S)

  /** The mixer object (mixer0): how start() configured it, whether a mix
      function was bound into it by set_mixer, and whether it was started. */
  datatype Mixer = Mixer(name: string, intervalCount: int, intervalSec: int, mixFuncBound: bool, running: bool)

  /** One step of a mix round, in the order the round takes it. */
  datatype MixEvent<D> =
    | GetDiff(peer: Peer, reply: D)   // get_diff RPC to peer, and the diff it answered
    | Reduce(diff: D, acc: D)         // reduce_(model_, diff, acc), with acc as it was before the call
    | PutDiff(peer: Peer, diff: D)    // put_diff RPC carrying diff

  /** What the model's serialiser did. */
  datatype SaveOutcome = SaveCompleted | SaveThrew

  /** What before_load(), the model's deserialiser and after_load() did: a
      loaded model and a hook that returned, a loaded model and a hook that
      threw, a false return with the errno seen right after it, or an
      exception before a model was loaded. */
  datatype LoadOutcome<S> =
    | Loaded(model: Model<S>)
    | LoadedHookThrew(model: Model<S>)
    | LoadFailed(errno: int)
    | LoadThrew

  /* ---------------- artifact naming ---------------- */

  /** The artifact file for a model type and an id, under the base path. */
  function ArtifactPath(base: string, typeName: string, id: string): string
  {
    base + "/" + typeName + "_" + id + ".jc"
  }

  /** The artifact path lies in the base directory and carries the ".jc" extension. */
  lemma ArtifactPathShape(base: string, typeName: string, id: string)
    ensures var p := ArtifactPath(base, typeName, id);
      |p| == |base| + |typeName| + |id| + 5
      && p[..|base| + 1] == base + "/"
      && p[|p| - 3..] == ".jc"
  {
  }

  /** For one base path and one model type, distinct ids name distinct artifacts. */
  lemma ArtifactPathInjective(base: string, typeName: string, id1: string, id2: string)
    ensures ArtifactPath(base, typeName, id1) == ArtifactPath(base, typeName, id2) <==> id1 == id2
  {
    var pre := base + "/" + typeName + "_";
    var p1, p2 := ArtifactPath(base, typeName, id1), ArtifactPath(base, typeName, id2);
    assert p1 == pre + id1 + ".jc";
    assert p2 == pre + id2 + ".jc";
    assert p1[|pre|..|p1| - 3] == id1;
    assert p2[|pre|..|p2| - 3] == id2;
  }

  /* ---------------- the mix round, as functions ---------------- */

  /** The accumulator after folding, in list order, each peer's reply into init. */
  function MixAcc<S, D>(reduce: (S, D, D) -> D, m: S, init: D, fetch: Peer -> D, peers: seq<Peer>): D
    decreases |peers|
  {
    if |peers| == 0 then init
    else
      var k := |peers| - 1;
      reduce(m, fetch(peers[k]), MixAcc(reduce, m, init, fetch, peers[..k]))
  }

  /** The events of the collecting phase: for each peer in turn, one get_diff
      and one reduce of its reply into the accumulator built so far. */
  ghost function CollectTrace<S, D>(reduce: (S, D, D) -> D, m: S, init: D, fetch: Peer -> D, peers: seq<Peer>): seq<MixEvent<D>>
    decreases |peers|
  {
    if |peers| == 0 then []
    else
      var k := |peers| - 1;
      CollectTrace(reduce, m, init, fetch, peers[..k])
        + [GetDiff(peers[k], fetch(peers[k])), Reduce(fetch(peers[k]), MixAcc(reduce, m, init, fetch, peers[..k]))]
  }

  /** The events of the broadcasting phase: one put_diff of acc per peer. */
  ghost function BroadcastTrace<D>(peers: seq<Peer>, acc: D): seq<MixEvent<D>>
  {
    seq(|peers|, i requires 0 <= i < |peers| => PutDiff(peers[i], acc))
  }

  /** Every event of one mix round. */
  ghost function MixTrace<S, D>(reduce: (S, D, D) -> D, m: S, init: D, fetch: Peer -> D, peers: seq<Peer>): seq<MixEvent<D>>
  {
    CollectTrace(reduce, m, init, fetch, peers) + BroadcastTrace(peers, MixAcc(reduce, m, init, fetch, peers))
  }

  /** The peers asked for a diff, in the order they were asked. */
  ghost function GetDiffPeers<D>(t: seq<MixEvent<D>>): seq<Peer>
    decreases |t|
  {
    if |t| == 0 then []
    else GetDiffPeers(t[..|t| - 1]) + (if t[|t| - 1].GetDiff? then [t[|t| - 1].peer] else [])
  }

  /** The put_diff calls made, as (peer, diff sent), in order. */
  ghost function PutDiffCalls<D>(t: seq<MixEvent<D>>): seq<(Peer, D)>
    decreases |t|
  {
    if |t| == 0 then []
    else PutDiffCalls(t[..|t| - 1]) + (if t[|t| - 1].PutDiff? then [(t[|t| - 1].peer, t[|t| - 1].diff)] else [])
  }

  /** The number of reduce calls made. */
  ghost function ReduceCount<D>(t: seq<MixEvent<D>>): nat
    decreases |t|
  {
    if |t| == 0 then 0
    else ReduceCount(t[..|t| - 1]) + (if t[|t| - 1].Reduce? then 1 else 0)
  }

  lemma {:induction false} ProjectionsAppend<D>(a: seq<MixEvent<D>>, b: seq<MixEvent<D>>)
    ensures GetDiffPeers(a + b) == GetDiffPeers(a) + GetDiffPeers(b)
    ensures PutDiffCalls(a + b) == PutDiffCalls(a) + PutDiffCalls(b)
    ensures ReduceCount(a + b) == ReduceCount(a) + ReduceCount(b)
    decreases |b|
  {
    if |b| == 0 {
      assert a + b == a;
    } else {
      var k := |b| - 1;
      assert (a + b)[..|a + b| - 1] == a + b[..k];
      assert (a + b)[|a + b| - 1] == b[k];
      ProjectionsAppend(a, b[..k]);
    }
  }

  lemma ProjectionsSingle<D>(e: MixEvent<D>)
    ensures GetDiffPeers([e]) == (if e.GetDiff? then [e.peer] else [])
    ensures PutDiffCalls([e]) == (if e.PutDiff? then [(e.peer, e.diff)] else [])
    ensures ReduceCount([e]) == (if e.Reduce? then 1 else 0)
  {
  }

  /** The two events one peer adds to the collecting phase. */
  lemma CollectStepProjections<D>(p: Peer, d: D, acc: D)
    ensures GetDiffPeers([GetDiff(p, d), Reduce(d, acc)]) == [p]
    ensures PutDiffCalls([GetDiff(p, d), Reduce(d, acc)]) == []
    ensures ReduceCount([GetDiff(p, d), Reduce(d, acc)]) == 1
  {
    var e1, e2 := GetDiff(p, d), Reduce(d, acc);
    ProjectionsSingle(e1);
    ProjectionsSingle(e2);
    ProjectionsAppend([e1], [e2]);
    assert [e1, e2] == [e1] + [e2];
  }

  lemma {:induction false} CollectTraceFacts<S, D>(reduce: (S, D, D) -> D, m: S, init: D, fetch: Peer -> D, peers: seq<Peer>)
    ensures GetDiffPeers(CollectTrace(reduce, m, init, fetch, peers)) == peers
    ensures PutDiffCalls(CollectTrace(reduce, m, init, fetch, peers)) == []
    ensures ReduceCount(CollectTrace(reduce, m, init, fetch, peers)) == |peers|
    ensures |CollectTrace(reduce, m, init, fetch, peers)| == 2 * |peers|
    decreases |peers|
  {
    if |peers| > 0 {
      var k := |peers| - 1;
      var front := CollectTrace(reduce, m, init, fetch, peers[..k]);
      var step: seq<MixEvent<D>> := [GetDiff(peers[k], fetch(peers[k])), Reduce(fetch(peers[k]), MixAcc(reduce, m, init, fetch, peers[..k]))];
      CollectTraceFacts(reduce, m, init, fetch, peers[..k]);
      ProjectionsAppend(front, step);
      CollectStepProjections(peers[k], fetch(peers[k]), MixAcc(reduce, m, init, fetch, peers[..k]));
      assert peers[..k] + [peers[k]] == peers;
    }
  }

  lemma {:induction false} BroadcastTraceFacts<D>(peers: seq<Peer>, acc: D)
    ensures GetDiffPeers(BroadcastTrace(peers, acc)) == []
    ensures PutDiffCalls(BroadcastTrace(peers, acc)) == seq(|peers|, i requires 0 <= i < |peers| => (peers[i], acc))
    ensures ReduceCount(BroadcastTrace(peers, acc)) == 0
    decreases |peers|
  {
    if |peers| > 0 {
      var k := |peers| - 1;
      BroadcastTraceFacts(peers[..k], acc);
      assert BroadcastTrace(peers, acc)[..k] == BroadcastTrace(peers[..k], acc);
    }
  }

  /** A mix round asks each peer for its diff exactly once, in list order,
      and reduces exactly once per peer. */
  lemma MixRoundCollects<S, D>(reduce: (S, D, D) -> D, m: S, init: D, fetch: Peer -> D, peers: seq<Peer>)
    ensures GetDiffPeers(MixTrace(reduce, m, init, fetch, peers)) == peers
    ensures ReduceCount(MixTrace(reduce, m, init, fetch, peers)) == |peers|
    ensures |MixTrace(reduce, m, init, fetch, peers)| == 3 * |peers|
  {
    var acc := MixAcc(reduce, m, init, fetch, peers);
    CollectTraceFacts(reduce, m, init, fetch, peers);
    BroadcastTraceFacts(peers, acc);
    ProjectionsAppend(CollectTrace(reduce, m, init, fetch, peers), BroadcastTrace(peers, acc));
  }

  /** A mix round sends one put_diff per peer, in list order, every one
      carrying the same final accumulator. */
  lemma MixRoundBroadcasts<S, D>(reduce: (S, D, D) -> D, m: S, init: D, fetch: Peer -> D, peers: seq<Peer>)
    ensures PutDiffCalls(MixTrace(reduce, m, init, fetch, peers))
      == seq(|peers|, i requires 0 <= i < |peers| => (peers[i], MixAcc(reduce, m, init, fetch, peers)))
  {
    var acc := MixAcc(reduce, m, init, fetch, peers);
    CollectTraceFacts(reduce, m, init, fetch, peers);
    BroadcastTraceFacts(peers, acc);
    ProjectionsAppend(CollectTrace(reduce, m, init, fetch, peers), BroadcastTrace(peers, acc));
  }

  /** With no peers, a mix round makes no call at all and the accumulator stays
      the default diff; and a round that makes no call had no peers. */
  lemma MixRoundEmpty<S, D>(reduce: (S, D, D) -> D, m: S, init: D, fetch: Peer -> D, peers: seq<Peer>)
    ensures MixTrace(reduce, m, init, fetch, peers) == [] <==> peers == []
    ensures peers == [] ==> MixAcc(reduce, m, init, fetch, peers) == init
  {
    MixRoundCollects(reduce, m, init, fetch, peers);
  }

  /** reduce can take two diffs in either order. */
  ghost predicate ReduceCommutes<S, D(!new)>(reduce: (S, D, D) -> D, m: S)
  {
    forall d1: D, d2: D, a: D :: reduce(m, d1, reduce(m, d2, a)) == reduce(m, d2, reduce(m, d1, a))
  }

  lemma {:induction false} MixAccMoveToEnd<S, D(!new)>(reduce: (S, D, D) -> D, m: S, init: D, fetch: Peer -> D,
                                                  a: seq<Peer>, x: Peer, b: seq<Peer>)
    requires ReduceCommutes(reduce, m)
    ensures MixAcc(reduce, m, init, fetch, a + [x] + b) == MixAcc(reduce, m, init, fetch, a + b + [x])
    decreases |b|
  {
    if |b| > 0 {
      var k := |b| - 1;
      var b' := b[..k];
      var y := b[k];
      assert b == b' + [y];
      assert a + [x] + b == (a + [x] + b') + [y];
      assert a + b == (a + b') + [y];
      assert a + b + [x] == (a + b) + [x];
      assert a + b' + [x] == (a + b') + [x];
      calc {
        MixAcc(reduce, m, init, fetch, a + [x] + b);
        { LastStep(reduce, m, init, fetch, a + [x] + b', y); }
        reduce(m, fetch(y), MixAcc(reduce, m, init, fetch, a + [x] + b'));
        { MixAccMoveToEnd(reduce, m, init, fetch, a, x, b'); }
        reduce(m, fetch(y), MixAcc(reduce, m, init, fetch, a + b' + [x]));
        { LastStep(reduce, m, init, fetch, a + b', x); }
        reduce(m, fetch(y), reduce(m, fetch(x), MixAcc(reduce, m, init, fetch, a + b')));
        reduce(m, fetch(x), reduce(m, fetch(y), MixAcc(reduce, m, init, fetch, a + b')));
        { LastStep(reduce, m, init, fetch, a + b', y); }
        reduce(m, fetch(x), MixAcc(reduce, m, init, fetch, a + b));
        { LastStep(reduce, m, init, fetch, a + b, x); }
        MixAcc(reduce, m, init, fetch, a + b + [x]);
      }
    } else {
      assert a + [x] + b == a + b + [x];
    }
  }

  lemma LastStep<S, D>(reduce: (S, D, D) -> D, m: S, init: D, fetch: Peer -> D, front: seq<Peer>, p: Peer)
    ensures MixAcc(reduce, m, init, fetch, front + [p]) == reduce(m, fetch(p), MixAcc(reduce, m, init, fetch, front))
  {
  }

  lemma MultisetDropLast(p: seq<Peer>)
    requires |p| > 0
    ensures multiset(p[..|p| - 1]) == multiset(p) - multiset{p[|p| - 1]}
  {
    assert p == p[..|p| - 1] + [p[|p| - 1]];
  }

  lemma MultisetDropAt(p: seq<Peer>, j: nat)
    requires j < |p|
    ensures multiset(p[..j] + p[j + 1..]) == multiset(p) - multiset{p[j]}
  {
    assert p == p[..j] + [p[j]] + p[j + 1..];
  }

  /** When reduce commutes, the accumulator of a mix round does not depend on
      the order in which the peers are listed. */
  lemma {:induction false} MixAccOrderInsensitive<S, D(!new)>(reduce: (S, D, D) -> D, m: S, init: D, fetch: Peer -> D,
                                                              p1: seq<Peer>, p2: seq<Peer>)
    requires ReduceCommutes(reduce, m)
    requires multiset(p1) == multiset(p2)
    ensures MixAcc(reduce, m, init, fetch, p1) == MixAcc(reduce, m, init, fetch, p2)
    decreases |p1|
  {
    if |p1| == 0 {
      assert |p2| == |multiset(p2)| == 0;
    } else {
      var k := |p1| - 1;
      var x := p1[k];
      assert x in multiset(p1);
      var j :| 0 <= j < |p2| && p2[j] == x;
      var rest := p2[..j] + p2[j + 1..];
      MultisetDropLast(p1);
      MultisetDropAt(p2, j);
      MixAccOrderInsensitive(reduce, m, init, fetch, p1[..k], rest);
      calc {
        MixAcc(reduce, m, init, fetch, p1);
        reduce(m, fetch(x), MixAcc(reduce, m, init, fetch, p1[..k]));
        reduce(m, fetch(x), MixAcc(reduce, m, init, fetch, rest));
        { LastStep(reduce, m, init, fetch, rest, x); }
        MixAcc(reduce, m, init, fetch, rest + [x]);
        { MixAccMoveToEnd(reduce, m, init, fetch, p2[..j], x, p2[j + 1..]);
          assert p2 == p2[..j] + [x] + p2[j + 1..]; }
        MixAcc(reduce, m, init, fetch, p2);
      }
    }
  }

  /* ---------------- the server node ---------------- */

  /** jubatus_serv: the node that owns the model and wires its mixer. */
  class Server<S, D> {
    const argv: ServerArgv
    /** Directory under which artifacts are saved (a_.tmpdir). */
    const basePath: string
    /** The default-constructed Diff every mix round starts from. */
    const emptyDiff: D

    var model: Model<S>
    var isMixerFuncSet: bool
    var mixer: Option<Mixer>
    var getDiff: Option<S -> D>
    var reduce: Option<(S, D, D) -> D>
    var putDiff: Option<(S, D) -> (int, S)>
    /** How many times the after_load hook has run. */
    ghost var afterLoadCalls: nat

    /** The callbacks are set exactly when the flag says so, and never in standalone mode. */
    ghost predicate Valid()
      reads this
    {
      && (isMixerFuncSet <==> getDiff.Some? && reduce.Some? && putDiff.Some?)
      && (argv.standalone ==> !isMixerFuncSet && mixer.None? && getDiff.None? && reduce.None? && putDiff.None?)
    }

    /** The base_path argument is ignored: artifacts go under argv.tmpdir. */
    constructor (a: ServerArgv, basePathArg: string, initial: Model<S>, emptyDiff: D)
      ensures Valid()
      ensures argv == a && basePath == a.tmpdir && this.emptyDiff == emptyDiff
      ensures model == initial && !isMixerFuncSet && mixer.None?
      ensures getDiff.None? && reduce.None? && putDiff.None? && afterLoadCalls == 0
    {
      argv := a;
      basePath := a.tmpdir;
      this.emptyDiff := emptyDiff;
      model := initial;
      isMixerFuncSet := false;
      mixer := None;
      getDiff, reduce, putDiff := None, None, None;
      afterLoadCalls := 0;
    }

    /** In clustered mode start() creates a fresh mixer and starts it only if
        the mix callbacks have been set; it always reports 0. */
    method Start() returns (r: int)
      requires Valid()
      modifies this`mixer
      ensures Valid() && r == 0
      ensures argv.standalone ==> mixer == old(mixer)
      ensures !argv.standalone ==>
        mixer == Some(Mixer(argv.name, argv.intervalCount, argv.intervalSec, false, isMixerFuncSet))
    {
      if !argv.standalone {
        mixer := Some(Mixer(argv.name, argv.intervalCount, argv.intervalSec, false, false));
        if isMixerFuncSet {
          mixer := Some(mixer.value.(running := true));
        }
      }
      r := 0;
    }

    /** build_local_path_: the artifact path. The source's output string is
        overwritten by the first assignment, so its old content is not a parameter. */
    method BuildLocalPath(typeName: string, id: string) returns (out: string)
      ensures out == ArtifactPath(basePath, typeName, id)
    {
      out := basePath + "/";
      out := out + typeName;
      out := out + "_";
      out := out + id;
      out := out + ".jc";
    }

    /** set_mixer: in clustered mode, stores the three callbacks, binds the mix
        function into the mixer and raises the flag; standalone, changes nothing. */
    method SetMixer(g: S -> D, red: (S, D, D) -> D, p: (S, D) -> (int, S))
      requires Valid()
      requires !argv.standalone ==> mixer.Some?
      modifies this`getDiff, this`reduce, this`putDiff, this`mixer, this`isMixerFuncSet
      ensures Valid()
      ensures argv.standalone ==>
        getDiff == old(getDiff) && reduce == old(reduce) && putDiff == old(putDiff)
        && mixer == old(mixer) && isMixerFuncSet == old(isMixerFuncSet)
      ensures !argv.standalone ==>
        getDiff == Some(g) && reduce == Some(red) && putDiff == Some(p)
        && mixer == Some(old(mixer).value.(mixFuncBound := true)) && isMixerFuncSet
    {
      if !argv.standalone {
        getDiff := Some(g);
        reduce := Some(red);
        putDiff := Some(p);
        mixer := Some(mixer.value.(mixFuncBound := true));
        isMixerFuncSet := true;
      }
    }

    /** A running mixer has the mix function bound into it. */
    ghost predicate MixerReady()
      reads this`mixer
    {
      mixer.Some? && mixer.value.running ==> mixer.value.mixFuncBound
    }

    /** start() as evidently intended: when the mix callbacks are set, the
        fresh mixer gets do_mix bound into it before it is started, so no
        mixer ever runs without its mix function. */
    method StartRebinding() returns (r: int)
      requires Valid()
      modifies this`mixer
      ensures Valid() && MixerReady() && r == 0
      ensures argv.standalone ==> mixer == old(mixer)
      ensures !argv.standalone ==>
        mixer == Some(Mixer(argv.name, argv.intervalCount, argv.intervalSec, isMixerFuncSet, isMixerFuncSet))
    {
      if !argv.standalone {
        mixer := Some(Mixer(argv.name, argv.intervalCount, argv.intervalSec, false, false));
        if isMixerFuncSet {
          mixer := Some(mixer.value.(mixFuncBound := true));
          mixer := Some(mixer.value.(running := true));
        }
      }
      r := 0;
    }

    /** get_diff_impl: the diff the get_diff callback extracts from the model. */
    method GetDiffImpl() returns (d: D)
      requires getDiff.Some?
      ensures d == getDiff.value(model.state)
    {
      d := getDiff.value(model.state);
    }

    /** put_diff_impl: applies the diff through the put_diff callback and
        returns that callback's status unchanged. */
    method PutDiffImpl(d: D) returns (r: int)
      requires putDiff.Some?
      modifies this`model
      ensures r == old(putDiff.value(model.state, d)).0
      ensures model == old(model).(state := old(putDiff.value(model.state, d)).1)
    {
      var res := putDiff.value(model.state, d);
      model := model.(state := res.1);
      r := res.0;
    }

    /** do_mix: folds every peer's diff into one accumulator in list order,
        then sends that accumulator to every peer. fetch(p) is the diff peer p
        answers to get_diff; trace records the calls made. */
    method DoMix(v: seq<Peer>, fetch: Peer -> D) returns (acc: D, ghost trace: seq<MixEvent<D>>)
      requires reduce.Some?
      ensures acc == MixAcc(reduce.value, model.state, emptyDiff, fetch, v)
      ensures trace == MixTrace(reduce.value, model.state, emptyDiff, fetch, v)
    {
      var red := reduce.value;
      acc := emptyDiff;
      trace := [];
      var s := 0;
      while s < |v|
        invariant 0 <= s <= |v|
        invariant acc == MixAcc(red, model.state, emptyDiff, fetch, v[..s])
        invariant trace == CollectTrace(red, model.state, emptyDiff, fetch, v[..s])
      {
        var d := fetch(v[s]);
        trace := trace + [GetDiff(v[s], d)];
        trace := trace + [Reduce(d, acc)];
        acc := red(model.state, d, acc);
        assert v[..s + 1][..s] == v[..s];
        s := s + 1;
      }
      assert v[..s] == v;
      ghost var collected := trace;
      s := 0;
      while s < |v|
        invariant 0 <= s <= |v|
        invariant trace == collected + BroadcastTrace(v[..s], acc)
      {
        trace := trace + [PutDiff(v[s], acc)];
        assert BroadcastTrace(v[..s + 1], acc) == BroadcastTrace(v[..s], acc) + [PutDiff(v[s], acc)];
        s := s + 1;
      }
      assert v[..s] == v;
    }

    /** save: 0 when the serialiser completes, -1 when it throws; the model is
        never replaced. file is the artifact the source writes to. */
    method Save(id: string, outcome: SaveOutcome) returns (r: int, file: string)
      ensures file == ArtifactPath(basePath, model.typeName, id)
      ensures r == (if outcome.SaveCompleted? then 0 else -1)
    {
      file := BuildLocalPath(model.typeName, id);
      match outcome
      case SaveCompleted => r := 0;
      case SaveThrew => r := -1;
    }

    /** load: a successful deserialisation swaps the model and runs after_load,
        returning 0, or -1 when after_load throws; a false return yields the
        errno seen; an exception before that leaves the model and returns -1. */
    method Load(id: string, outcome: LoadOutcome<S>) returns (r: int, file: string)
      requires Valid()
      modifies this`model, this`afterLoadCalls
      ensures Valid()
      ensures file == ArtifactPath(basePath, old(model).typeName, id)
      ensures outcome.Loaded? ==> r == 0 && model == outcome.model && afterLoadCalls == old(afterLoadCalls) + 1
      ensures outcome.LoadedHookThrew? ==> r == -1 && model == outcome.model && afterLoadCalls == old(afterLoadCalls) + 1
      ensures outcome.LoadFailed? ==> r == outcome.errno && model == old(model) && afterLoadCalls == old(afterLoadCalls)
      ensures outcome.LoadThrew? ==> r == -1 && model == old(model) && afterLoadCalls == old(afterLoadCalls)
    {
      file := BuildLocalPath(model.typeName, id);
      match outcome
      case Loaded(s) =>
        model := s;
        afterLoadCalls := afterLoadCalls + 1;
        r := 0;
      case LoadedHookThrew(s) =>
        model := s;
        afterLoadCalls := afterLoadCalls + 1;
        r := -1;
      case LoadFailed(errno) =>
        r := errno;
      case LoadThrew =>
        r := -1;
    }
  }

  /** As written, start(), set_mixer(), start() on a clustered node leaves a
      running mixer into which do_mix was never bound: the second start
      replaces the mixer that set_mixer bound the mix function into. */
  method StartSetMixerStart<S, D>(srv: Server<S, D>, g: S -> D, red: (S, D, D) -> D, p: (S, D) -> (int, S))
    requires srv.Valid() && !srv.argv.standalone
    modifies srv
    ensures srv.Valid() && srv.isMixerFuncSet
    ensures srv.mixer.Some? && srv.mixer.value.running && !srv.mixer.value.mixFuncBound
    ensures !srv.MixerReady()
  {
    var r1 := srv.Start();
    srv.SetMixer(g, red, p);
    var r2 := srv.Start();
  }

  /** As written, the single-start lifecycle start(), set_mixer() leaves the
      mixer bound but never started: start read the flag before set_mixer
      could raise it. */
  method StartThenSetMixer<S, D>(srv: Server<S, D>, g: S -> D, red: (S, D, D) -> D, p: (S, D) -> (int, S))
    requires srv.Valid() && !srv.argv.standalone && !srv.isMixerFuncSet
    modifies srv
    ensures srv.Valid() && srv.isMixerFuncSet
    ensures srv.mixer.Some? && srv.mixer.value.mixFuncBound && !srv.mixer.value.running
  {
    var r := srv.Start();
    srv.SetMixer(g, red, p);
  }

  /** With the corrected start, the same sequence leaves a running mixer with
      do_mix bound. */
  method StartSetMixerStartRebinding<S, D>(srv: Server<S, D>, g: S -> D, red: (S, D, D) -> D, p: (S, D) -> (int, S))
    requires srv.Valid() && !srv.argv.standalone
    modifies srv
    ensures srv.Valid() && srv.isMixerFuncSet && srv.MixerReady()
    ensures srv.mixer.Some? && srv.mixer.value.running && srv.mixer.value.mixFuncBound
  {
    var r1 := srv.StartRebinding();
    srv.SetMixer(g, red, p);
    var r2 := srv.StartRebinding();
  }

  /** save followed by load of one id on one node read and write the same artifact. */
  method SaveThenLoad<S, D>(srv: Server<S, D>, id: string, so: SaveOutcome, lo: LoadOutcome<S>)
    returns (saved: int, savedFile: string, loaded: int, loadedFile: string)
    requires srv.Valid()
    modifies srv
    ensures srv.Valid()
    ensures savedFile == loadedFile == ArtifactPath(srv.basePath, old(srv.model).typeName, id)
    ensures saved == (if so.SaveCompleted? then 0 else -1)
    ensures lo.Loaded? ==> loaded == 0 && srv.model == lo.model
    ensures lo.LoadedHookThrew? ==> loaded == -1 && srv.model == lo.model
    ensures lo.LoadFailed? || lo.LoadThrew? ==> srv.model == old(srv.model)
  {
    saved, savedFile := srv.Save(id, so);
    loaded, loadedFile := srv.Load(id, lo);
  }
}
