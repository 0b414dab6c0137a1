/**
  Scoring a catalogue's tables against a question with a shared vector cache. Calls interleave at each await;
  between two awaits a call runs alone.
 */
module SemanticScorer {
  import opened Sequences

  type Vector = seq<real>

  datatype Table = Table(name: string, text: string)

  datatype Catalog = Catalog(version: string, tables: seq<Table>)

  const DIGEST_LENGTH := 64

  /**
    The digest, a deterministic embedding provider, and the similarity of two vectors. `texts` are the table texts
    that occur.
   */
  datatype Env = Env(
    texts: set<string>,
    digest: string -> string,
    embed: string -> Vector,
    cosine: (Vector, Vector) -> real,
    model: string)

  /** The digest has a fixed length and tells apart the texts that occur. */
  ghost predicate DigestOk(env: Env) {
    && (forall text: string :: |env.digest(text)| == DIGEST_LENGTH)
    && forall a, b :: a in env.texts && b in env.texts && env.digest(a) == env.digest(b) ==> a == b
  }

  ghost predicate Known(env: Env, catalog: Catalog) {
    forall i :: 0 <= i < |catalog.tables| ==> catalog.tables[i].text in env.texts
  }

  function Key(env: Env, version: string, t: Table): string {
    version + ":" + t.name + ":" + env.model + ":" + env.digest(t.text)
  }

  function Keys(env: Env, catalog: Catalog): (keys: seq<string>)
    ensures |keys| == |catalog.tables|
    ensures forall i :: 0 <= i < |keys| ==> keys[i] == Key(env, catalog.version, catalog.tables[i])
  {
    seq(|catalog.tables|, i requires 0 <= i < |catalog.tables| => Key(env, catalog.version, catalog.tables[i]))
  }

  /** The parts of a key may contain the separator; its end still fixes the text. */
  lemma KeyFixesText(env: Env, version: string, t: Table, version': string, t': Table)
    requires DigestOk(env) && t.text in env.texts && t'.text in env.texts
    requires Key(env, version, t) == Key(env, version', t')
    ensures t.text == t'.text
  {
    var k := Key(env, version, t);
    KeyEndsWithDigest(env, version, t);
    KeyEndsWithDigest(env, version', t');
  }

  lemma KeyEndsWithDigest(env: Env, version: string, t: Table)
    requires DigestOk(env)
    ensures var k := Key(env, version, t); |k| >= DIGEST_LENGTH && k[|k| - DIGEST_LENGTH..] == env.digest(t.text)
  {
    var head, d := version + ":" + t.name + ":" + env.model + ":", env.digest(t.text);
    assert Key(env, version, t) == head + d;
    assert (head + d)[|head|..] == d;
  }

  // ---------- The cache ----------

  /** Every cached vector is the embedding of the text of its key. */
  ghost predicate CacheOk(env: Env, cache: map<string, Vector>) {
    forall version: string, t: Table :: t.text in env.texts && Key(env, version, t) in cache ==>
                                          cache[Key(env, version, t)] == env.embed(t.text)
  }

  predicate InBounds(indices: seq<nat>, n: nat) {
    forall j :: 0 <= j < |indices| ==> indices[j] < n
  }

  /** The tables whose key is not cached. */
  function Missing(cache: map<string, Vector>, keys: seq<string>): (missing: seq<nat>)
    ensures InBounds(missing, |keys|)
    ensures forall i :: i in missing <==> 0 <= i < |keys| && keys[i] !in cache
  {
    if keys == [] then [] else
    var n := |keys| - 1;
    assert keys == keys[..n] + [keys[n]];
    Missing(cache, keys[..n]) + if keys[n] !in cache then [n] else []
  }

  lemma MissingStep(cache: map<string, Vector>, keys: seq<string>, i: nat)
    requires i < |keys|
    ensures Missing(cache, keys[..i + 1]) == Missing(cache, keys[..i]) + if keys[i] !in cache then [i] else []
  {
    Snoc(keys, i);
  }

  /** The cache after the vectors have been stored in order. */
  function Stored(cache: map<string, Vector>, keys: seq<string>, missing: seq<nat>,
                  vectors: seq<Vector>): map<string, Vector>
    requires |vectors| == |missing| && InBounds(missing, |keys|)
  {
    if missing == [] then cache else
    var n := |missing| - 1;
    Stored(cache, keys, missing[..n], vectors[..n])[keys[missing[n]] := vectors[n]]
  }

  /** What the provider returns for a batch: an embedding for each text, unless it returns a wrong number of them. */
  ghost predicate BatchOk(env: Env, catalog: Catalog, missing: seq<nat>, vectors: seq<Vector>)
    requires InBounds(missing, |catalog.tables|)
  {
    |vectors| == |missing| ==> forall j :: 0 <= j < |missing| ==> vectors[j] == env.embed(catalog.tables[missing[j]].text)
  }

  lemma {:induction false} StoringKeepsCacheOk(env: Env, catalog: Catalog, cache: map<string, Vector>,
                                               missing: seq<nat>, vectors: seq<Vector>)
    requires DigestOk(env) && CacheOk(env, cache) && Known(env, catalog)
    requires |vectors| == |missing| && InBounds(missing, |catalog.tables|) && BatchOk(env, catalog, missing, vectors)
    ensures var next := Stored(cache, Keys(env, catalog), missing, vectors);
            && CacheOk(env, next)
            && (forall k :: k in cache ==> k in next)
            && (forall i :: i in missing ==> Keys(env, catalog)[i] in next)
  {
    if missing == [] {
    } else {
      var n := |missing| - 1;
      assert forall j :: 0 <= j < n ==> missing[..n][j] == missing[j] && vectors[..n][j] == vectors[j];
      StoringKeepsCacheOk(env, catalog, cache, missing[..n], vectors[..n]);
      var table := catalog.tables[missing[n]];
      var before := Stored(cache, Keys(env, catalog), missing[..n], vectors[..n]);
      var next := Stored(cache, Keys(env, catalog), missing, vectors);
      OneMoreVector(env, catalog.version, table, before);
      assert next == before[Key(env, catalog.version, table) := env.embed(table.text)];
      assert missing == missing[..n] + [missing[n]];
    }
  }

  lemma OneMoreVector(env: Env, version: string, table: Table, cache: map<string, Vector>)
    requires DigestOk(env) && CacheOk(env, cache) && table.text in env.texts
    ensures CacheOk(env, cache[Key(env, version, table) := env.embed(table.text)])
  {
    var next := cache[Key(env, version, table) := env.embed(table.text)];
    forall v: string, t: Table | t.text in env.texts && Key(env, v, t) in next
      ensures next[Key(env, v, t)] == env.embed(t.text)
    {
      if Key(env, v, t) == Key(env, version, table) {
        KeyFixesText(env, v, t, version, table);
      }
    }
  }

  // ---------- Scores ----------

  /** The scores without any cache. */
  function Uncached(env: Env, question: string, catalog: Catalog): (scores: seq<real>)
    ensures |scores| == |catalog.tables|
    ensures forall i :: 0 <= i < |scores| ==>
              scores[i] == env.cosine(env.embed(question), env.embed(catalog.tables[i].text))
  {
    seq(|catalog.tables|, i requires 0 <= i < |catalog.tables| => env.cosine(env.embed(question),
        env.embed(catalog.tables[i].text)))
  }

  /** The scores that the cache gives. */
  function FromCache(env: Env, question: Vector, keys: seq<string>, cache: map<string, Vector>): (scores: seq<real>)
    requires forall k :: k in keys ==> k in cache
    ensures |scores| == |keys|
  {
    seq(|keys|, i requires 0 <= i < |keys| => env.cosine(question, cache[keys[i]]))
  }

  lemma CacheGivesUncachedScores(env: Env, question: string, catalog: Catalog, cache: map<string, Vector>)
    requires CacheOk(env, cache) && Known(env, catalog) && forall k :: k in Keys(env, catalog) ==> k in cache
    ensures FromCache(env, env.embed(question), Keys(env, catalog), cache) == Uncached(env, question, catalog)
  {
    var keys := Keys(env, catalog);
    forall i | 0 <= i < |keys| ensures cache[keys[i]] == env.embed(catalog.tables[i].text) {
      assert keys[i] in keys;
    }
  }

  // ---------- Interleaved calls ----------

  /** Where a call stands: not started, waiting for a batch, waiting for the question, or finished. */
  datatype Pc =
    | Waiting
    | Embedding(missing: seq<nat>)
    | Asking
    | Scored(scores: seq<real>)
    | Raised
    | KeyError

  datatype Task = Task(question: string, catalog: Catalog, pc: Pc)

  datatype State = State(cache: map<string, Vector>, tasks: seq<Task>)

  /** What may happen to a call: it starts, an await returns, or an await raises or is cancelled. */
  datatype Event = Begin | BatchReturns(vectors: seq<Vector>) | QuestionReturns | Interrupted

  function StepTask(env: Env, cache: map<string, Vector>, t: Task, e: Event): (map<string, Vector>, Pc) {
    var keys := Keys(env, t.catalog);
    match (t.pc, e)
    case (Waiting, Begin) =>
      var missing := Missing(cache, keys);
      (cache, if missing == [] then Asking else Embedding(missing))
    case (Embedding(missing), BatchReturns(vectors)) =>
      if |vectors| == |missing| && InBounds(missing, |keys|)
      then (Stored(cache, keys, missing, vectors), Asking)
      else (cache, Raised)
    case (Asking, QuestionReturns) =>
      (cache, if forall k :: k in keys ==> k in cache
              then Scored(FromCache(env, env.embed(t.question), keys, cache))
              else KeyError)
    case (Embedding(_), Interrupted) => (cache, Raised)
    case (Asking, Interrupted) => (cache, Raised)
    case _ => (cache, t.pc)
  }

  function Step(env: Env, s: State, i: nat, e: Event): State {
    if i < |s.tasks| then
      var (cache, pc) := StepTask(env, s.cache, s.tasks[i], e);
      State(cache, s.tasks[i := s.tasks[i].(pc := pc)])
    else s
  }

  /** The provider answers batches as `BatchOk` says. */
  ghost predicate Faithful(env: Env, s: State, i: nat, e: Event) {
    i < |s.tasks| && s.tasks[i].pc.Embedding? && e.BatchReturns? && InBounds(s.tasks[i].pc.missing, |s.tasks[i].catalog.tables|)
    ==> BatchOk(env, s.tasks[i].catalog, s.tasks[i].pc.missing, e.vectors)
  }

  ghost predicate TaskOk(env: Env, cache: map<string, Vector>, t: Task) {
    var keys := Keys(env, t.catalog);
    Known(env, t.catalog) &&
    match t.pc
    case Waiting => true
    case Embedding(missing) =>
      InBounds(missing, |keys|) && forall i :: 0 <= i < |keys| ==> keys[i] in cache || i in missing
    case Asking => forall k :: k in keys ==> k in cache
    case Scored(scores) => scores == Uncached(env, t.question, t.catalog)
    case Raised => true
    case KeyError => false
  }

  ghost predicate Inv(env: Env, s: State) {
    CacheOk(env, s.cache) && forall i :: 0 <= i < |s.tasks| ==> TaskOk(env, s.cache, s.tasks[i])
  }

  lemma StepTaskKeeps(env: Env, cache: map<string, Vector>, t: Task, e: Event)
    requires DigestOk(env) && CacheOk(env, cache) && TaskOk(env, cache, t)
    requires t.pc.Embedding? && e.BatchReturns? ==> BatchOk(env, t.catalog, t.pc.missing, e.vectors)
    ensures var (next, pc) := StepTask(env, cache, t, e);
            && CacheOk(env, next) && TaskOk(env, next, t.(pc := pc))
            && forall k :: k in cache ==> k in next
  {
    var keys := Keys(env, t.catalog);
    match (t.pc, e)
    case (Waiting, Begin) =>
      assert Missing(cache, keys) == [] ==> forall i :: 0 <= i < |keys| ==> i !in Missing(cache, keys);
    case (Embedding(missing), BatchReturns(vectors)) =>
      if |vectors| == |missing| {
        StoringKeepsCacheOk(env, t.catalog, cache, missing, vectors);
      }
    case (Asking, QuestionReturns) =>
      CacheGivesUncachedScores(env, t.question, t.catalog, cache);
    case _ =>
  }

  /** A call that is not stepped keeps what it has: cached keys are never removed. */
  lemma OthersKeep(env: Env, cache: map<string, Vector>, next: map<string, Vector>, t: Task)
    requires TaskOk(env, cache, t) && forall k :: k in cache ==> k in next
    ensures TaskOk(env, next, t)
  {
  }

  lemma StepKeepsInv(env: Env, s: State, i: nat, e: Event)
    requires DigestOk(env) && Inv(env, s) && Faithful(env, s, i, e)
    ensures Inv(env, Step(env, s, i, e))
    ensures forall k :: k in s.cache ==> k in Step(env, s, i, e).cache
  {
    if i < |s.tasks| {
      StepTaskKeeps(env, s.cache, s.tasks[i], e);
      var next := Step(env, s, i, e);
      forall j | 0 <= j < |next.tasks| ensures TaskOk(env, next.cache, next.tasks[j]) {
        if j != i {
          OthersKeep(env, s.cache, next.cache, s.tasks[j]);
        }
      }
    }
  }

  /** The states of a run, from calls that have not started. The cache may hold correct vectors of earlier calls. */
  ghost predicate IsRun(env: Env, states: seq<State>, steps: seq<(nat, Event)>) {
    && |states| == |steps| + 1
    && CacheOk(env, states[0].cache)
    && (forall t :: t in states[0].tasks ==> t.pc == Waiting && Known(env, t.catalog))
    && forall n :: 0 <= n < |steps| ==>
                     Faithful(env, states[n], steps[n].0, steps[n].1)
                     && states[n + 1] == Step(env, states[n], steps[n].0, steps[n].1)
  }

  lemma {:induction false} RunKeepsInv(env: Env, states: seq<State>, steps: seq<(nat, Event)>, n: nat)
    requires DigestOk(env) && IsRun(env, states, steps) && n < |states|
    ensures Inv(env, states[n])
  {
    if n == 0 {
    } else {
      RunKeepsInv(env, states, steps, n - 1);
      StepKeepsInv(env, states[n - 1], steps[n - 1].0, steps[n - 1].1);
    }
  }

  /** Under every interleaving, a call that returns scores returns the uncached ones, and no lookup ever fails. */
  lemma ScoresAreUncached(env: Env, states: seq<State>, steps: seq<(nat, Event)>, n: nat, i: nat)
    requires DigestOk(env) && IsRun(env, states, steps) && n < |states| && i < |states[n].tasks|
    ensures var t := states[n].tasks[i];
            t.pc != KeyError && (t.pc.Scored? ==> t.pc.scores == Uncached(env, t.question, t.catalog))
  {
    RunKeepsInv(env, states, steps, n);
    assert TaskOk(env, states[n].cache, states[n].tasks[i]);
  }

  /** The embeddings of the tables at these places. */
  function Embedded(env: Env, catalog: Catalog, places: seq<nat>): (vectors: seq<Vector>)
    requires InBounds(places, |catalog.tables|)
  {
    seq(|places|, j requires 0 <= j < |places| => env.embed(catalog.tables[places[j]].text))
  }

  /** Storing the embeddings of all missing tables leaves none missing. */
  lemma BatchFills(env: Env, cache: map<string, Vector>, catalog: Catalog)
    requires DigestOk(env) && CacheOk(env, cache) && Known(env, catalog)
    ensures var keys := Keys(env, catalog);
            var missing := Missing(cache, keys);
            var filled := Stored(cache, keys, missing, Embedded(env, catalog, missing));
            CacheOk(env, filled) && forall k :: k in keys ==> k in filled
  {
    var keys := Keys(env, catalog);
    var missing := Missing(cache, keys);
    var filled := Stored(cache, keys, missing, Embedded(env, catalog, missing));
    StoringKeepsCacheOk(env, catalog, cache, missing, Embedded(env, catalog, missing));
    forall k | k in keys ensures k in filled {
      var i :| 0 <= i < |keys| && keys[i] == k;
      assert i in missing || k in cache;
    }
  }

  /** The call from its start to its end: a batch for `missing`, if there are any, and the question. */
  function Undisturbed(env: Env, cache: map<string, Vector>, t: Task, missing: seq<nat>): (map<string, Vector>, Pc)
    requires InBounds(missing, |t.catalog.tables|)
  {
    var (c1, pc1) := StepTask(env, cache, t, Begin);
    if missing == [] then StepTask(env, c1, t.(pc := pc1), QuestionReturns)
    else
      var (c2, pc2) := StepTask(env, c1, t.(pc := pc1), BatchReturns(Embedded(env, t.catalog, missing)));
      StepTask(env, c2, t.(pc := pc2), QuestionReturns)
  }

  /**
    A call that is not disturbed returns the uncached scores. It asks for a batch exactly if a table is not cached, and
    then for those tables; afterwards all its tables are cached.
   */
  lemma UndisturbedCallScores(env: Env, cache: map<string, Vector>, t: Task) returns (missing: seq<nat>)
    requires DigestOk(env) && CacheOk(env, cache) && Known(env, t.catalog) && t.pc == Waiting
    ensures InBounds(missing, |t.catalog.tables|)
    ensures forall i :: i in missing <==>
                          0 <= i < |t.catalog.tables| && Key(env, t.catalog.version, t.catalog.tables[i]) !in cache
    ensures StepTask(env, cache, t, Begin) == (cache, if missing == [] then Asking else Embedding(missing))
    ensures var (filled, pc) := Undisturbed(env, cache, t, missing);
            && pc == Scored(Uncached(env, t.question, t.catalog))
            && (missing == [] ==> filled == cache)
            && forall i :: 0 <= i < |t.catalog.tables| ==> Key(env, t.catalog.version, t.catalog.tables[i]) in filled
  {
    missing := Missing(cache, Keys(env, t.catalog));
    FilledAfterwards(env, cache, t, missing);
    KeysAreFilled(env, t.catalog, Undisturbed(env, cache, t, missing).0);
  }

  lemma KeysAreFilled(env: Env, catalog: Catalog, cache: map<string, Vector>)
    requires forall k :: k in Keys(env, catalog) ==> k in cache
    ensures forall i :: 0 <= i < |catalog.tables| ==> Key(env, catalog.version, catalog.tables[i]) in cache
  {
    forall i | 0 <= i < |catalog.tables| ensures Key(env, catalog.version, catalog.tables[i]) in cache {
      assert Keys(env, catalog)[i] in Keys(env, catalog);
    }
  }

  lemma FilledAfterwards(env: Env, cache: map<string, Vector>, t: Task, missing: seq<nat>)
    requires DigestOk(env) && CacheOk(env, cache) && Known(env, t.catalog) && t.pc == Waiting
    requires missing == Missing(cache, Keys(env, t.catalog))
    ensures var (filled, pc) := Undisturbed(env, cache, t, missing);
            && pc == Scored(Uncached(env, t.question, t.catalog))
            && (missing == [] ==> filled == cache)
            && forall k :: k in Keys(env, t.catalog) ==> k in filled
  {
    var vectors := Embedded(env, t.catalog, missing);
    var filled := Stored(cache, Keys(env, t.catalog), missing, vectors);
    BatchFills(env, cache, t.catalog);
    if missing != [] {
      assert StepTask(env, cache, t, Begin) == (cache, Embedding(missing));
      assert StepTask(env, cache, t.(pc := Embedding(missing)), BatchReturns(vectors)) == (filled, Asking);
    }
    QuestionIsScored(env, filled, t);
  }

  lemma QuestionIsScored(env: Env, cache: map<string, Vector>, t: Task)
    requires CacheOk(env, cache) && Known(env, t.catalog) && forall k :: k in Keys(env, t.catalog) ==> k in cache
    ensures StepTask(env, cache, t.(pc := Asking), QuestionReturns) ==
            (cache, Scored(Uncached(env, t.question, t.catalog)))
  {
    CacheGivesUncachedScores(env, t.question, t.catalog, cache);
  }

  /** The same in a state with other calls: the steps of one call, one after the other, leave the others as they are. */
  lemma UndisturbedStepsScore(env: Env, s: State, i: nat) returns (missing: seq<nat>, end: State)
    requires DigestOk(env) && CacheOk(env, s.cache) && i < |s.tasks|
    requires Known(env, s.tasks[i].catalog) && s.tasks[i].pc == Waiting
    ensures InBounds(missing, |s.tasks[i].catalog.tables|)
    ensures var asking := if missing == [] then Step(env, s, i, Begin)
                          else Step(env, Step(env, s, i, Begin), i,
                                    BatchReturns(Embedded(env, s.tasks[i].catalog, missing)));
            end == Step(env, asking, i, QuestionReturns)
    ensures var t := s.tasks[i];
            end.tasks == s.tasks[i := t.(pc := Scored(Uncached(env, t.question, t.catalog)))]
    ensures forall k :: k in Keys(env, s.tasks[i].catalog) ==> k in end.cache
  {
    var t := s.tasks[i];
    missing := Missing(s.cache, Keys(env, t.catalog));
    var vectors := Embedded(env, t.catalog, missing);
    var filled := if missing == [] then s.cache else Stored(s.cache, Keys(env, t.catalog), missing, vectors);
    BatchFills(env, s.cache, t.catalog);
    var asking := State(filled, s.tasks[i := t.(pc := Asking)]);
    if missing == [] {
      StepIs(env, s, i, t, Begin, s.cache, Asking);
    } else {
      StepIs(env, s, i, t, Begin, s.cache, Embedding(missing));
      var embedding := State(s.cache, s.tasks[i := t.(pc := Embedding(missing))]);
      StepIs(env, embedding, i, t.(pc := Embedding(missing)), BatchReturns(vectors), filled, Asking);
      assert embedding.tasks[i := t.(pc := Asking)] == asking.tasks;
    }
    QuestionIsScored(env, filled, t);
    var scored := Scored(Uncached(env, t.question, t.catalog));
    StepIs(env, asking, i, t.(pc := Asking), QuestionReturns, filled, scored);
    end := State(filled, s.tasks[i := t.(pc := scored)]);
    assert asking.tasks[i := t.(pc := scored)] == end.tasks;
  }

  lemma StepIs(env: Env, s: State, i: nat, t: Task, e: Event, cache: map<string, Vector>, pc: Pc)
    requires i < |s.tasks| && s.tasks[i] == t && StepTask(env, s.cache, t, e) == (cache, pc)
    ensures Step(env, s, i, e) == State(cache, s.tasks[i := t.(pc := pc)])
  {
  }

  /**
    A batch of the wrong size, or an await that raises, ends the call and leaves the cache alone; a finished call stays
    as it is.
   */
  lemma DisturbedCallRaises(env: Env, cache: map<string, Vector>, t: Task, e: Event)
    requires t.pc.Embedding? ==> InBounds(t.pc.missing, |t.catalog.tables|)
    ensures (t.pc.Embedding? || t.pc.Asking?) && e.Interrupted? ==> StepTask(env, cache, t, e) == (cache, Raised)
    ensures t.pc.Embedding? && e.BatchReturns? && |e.vectors| != |t.pc.missing| ==>
              StepTask(env, cache, t, e) == (cache, Raised)
    ensures t.pc.Scored? || t.pc.Raised? || t.pc.KeyError? ==> StepTask(env, cache, t, e) == (cache, t.pc)
  {
  }

  /** A key once cached stays cached, with the same vector. */
  lemma {:induction false} CachedStaysCached(env: Env, states: seq<State>, steps: seq<(nat, Event)>, m: nat, n: nat,
                                             version: string, t: Table)
    requires DigestOk(env) && IsRun(env, states, steps) && m <= n < |states| && t.text in env.texts
    requires Key(env, version, t) in states[m].cache
    ensures Key(env, version, t) in states[n].cache
    ensures states[n].cache[Key(env, version, t)] == states[m].cache[Key(env, version, t)] == env.embed(t.text)
    decreases n
  {
    RunKeepsInv(env, states, steps, m);
    RunKeepsInv(env, states, steps, n);
    if m < n {
      CachedStaysCached(env, states, steps, m, n - 1, version, t);
      RunKeepsInv(env, states, steps, n - 1);
      StepKeepsInv(env, states[n - 1], steps[n - 1].0, steps[n - 1].1);
    }
  }

  // ---------- The class ----------

  /** The scorer's segments between two awaits; `StepTask` interleaves these. */
  class SchemaSemanticScorer {
    const env: Env
    var cache: map<string, Vector>

    constructor (env: Env)
      ensures this.env == env && cache == map[]
    {
      this.env := env;
      cache := map[];
    }

    /** Up to the first await: which tables must be embedded. */
    method FindMissing(keys: seq<string>) returns (missing: seq<nat>)
      ensures missing == Missing(cache, keys)
    {
      missing := [];
      for i := 0 to |keys|
        invariant missing == Missing(cache, keys[..i])
      {
        MissingStep(cache, keys, i);
        if keys[i] !in cache {
          missing := missing + [i];
        }
      }
      assert keys[..|keys|] == keys;
    }

    /** After the batch has returned: stores the vectors, unless their number is wrong. */
    method StoreVectors(keys: seq<string>, missing: seq<nat>, vectors: seq<Vector>) returns (ok: bool)
      requires InBounds(missing, |keys|)
      modifies this`cache
      ensures ok <==> |vectors| == |missing|
      ensures cache == if ok then Stored(old(cache), keys, missing, vectors) else old(cache)
    {
      if |vectors| != |missing| {
        return false;
      }
      for n := 0 to |missing|
        invariant cache == Stored(old(cache), keys, missing[..n], vectors[..n])
      {
        Snoc(missing, n);
        Snoc(vectors, n);
        cache := cache[keys[missing[n]] := vectors[n]];
      }
      assert missing[..|missing|] == missing && vectors[..|vectors|] == vectors;
      return true;
    }

    /** After the question has been embedded: reads every key from the cache. */
    method Score(question: Vector, keys: seq<string>) returns (scores: seq<real>)
      requires forall k :: k in keys ==> k in cache
      ensures scores == FromCache(env, question, keys, cache)
    {
      scores := [];
      for i := 0 to |keys|
        invariant |scores| == i && forall j :: 0 <= j < i ==> scores[j] == env.cosine(question, cache[keys[j]])
      {
        assert keys[i] in keys;
        scores := scores + [env.cosine(question, cache[keys[i]])];
      }
    }
  }
}
