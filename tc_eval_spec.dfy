/** The per-task glue of the text-classification evaluation script: the
    aspect values of each sentence and the per-aspect bucketing in
    `evaluate`, where the predicted side is bucketed into the gold side's
    bucket keys. */
module TcEvalSpec {
  import opened Fallible
  import opened PyText
  import opened Dicts
  import opened Analysis

  // ---------------------------------------------------------------------
  // get_aspect_value
  // ---------------------------------------------------------------------

  /** The aspects whose values the classification script computes. */
  predicate IsTcAspect(aspect: string) {
    aspect == "sLen" || aspect == "tag"
  }

  /** The value of one aspect for a sentence of `len` tokens with the gold
      tag `goldTag`. */
  function TcAspectValue(aspect: string, len: nat, goldTag: string): Scalar
    requires IsTcAspect(aspect)
  {
    if aspect == "sLen" then Num(len as real) else Str(goldTag)
  }

  /** How many tuples `zip` yields for three lists: the shortest length. */
  function ZipLength3(a: nat, b: nat, c: nat): (n: nat)
    ensures n <= a && n <= b && n <= c
    ensures n == a || n == b || n == c
  {
    ZipLength2(ZipLength2(a, b), c)
  }

  /** The values of one aspect for the first n examples. */
  function AspectValues(aspect: string, sents: seq<string>, tags: seq<string>, n: nat,
                        lib: ErrorAnalysis): (vs: seq<Scalar>)
    requires IsTcAspect(aspect) && n <= |sents| && n <= |tags|
    ensures |vs| == n
  {
    seq(n, k requires 0 <= k < n => TcAspectValue(aspect, TokenCount(sents[k], lib), tags[k]))
  }

  /** The dict of one aspect after n examples, keyed by the span keys built
      from `keyTags` (the gold tags for the gold side, the predicted tags for
      the predicted side). */
  function Column(aspect: string, keyTags: seq<string>, sents: seq<string>, tags: seq<string>,
                  n: nat, lib: ErrorAnalysis): AspectDict
    requires n <= |keyTags| && n <= |sents| && n <= |tags|
  {
    if IsTcAspect(aspect) then Entries(keyTags[..n], AspectValues(aspect, sents, tags, n, lib))
    else []
  }

  /** The display texts of the first n sentences. */
  function Texts(sents: seq<string>, n: nat, lib: ErrorAnalysis): (ts: seq<string>)
    requires n <= |sents|
    ensures |ts| == n
  {
    seq(n, k requires 0 <= k < n => lib.format4json2(sents[k]))
  }

  /** One more example extends an aspect's dict by exactly one entry. */
  lemma ColumnStep(aspect: string, keyTags: seq<string>, sents: seq<string>, tags: seq<string>,
                   k: nat, lib: ErrorAnalysis)
    requires IsTcAspect(aspect)
    requires k < |keyTags| && k < |sents| && k < |tags|
    ensures Put(Column(aspect, keyTags, sents, tags, k, lib), SpanKey(k, keyTags[k]),
                TcAspectValue(aspect, TokenCount(sents[k], lib), tags[k]))
            == Column(aspect, keyTags, sents, tags, k + 1, lib)
  {
    var v := TcAspectValue(aspect, TokenCount(sents[k], lib), tags[k]);
    var before := AspectValues(aspect, sents, tags, k, lib);
    assert AspectValues(aspect, sents, tags, k + 1, lib) == before + [v];
    assert keyTags[..k + 1] == keyTags[..k] + [keyTags[k]];
    EntriesStep(keyTags[..k], before, keyTags[k], v);
  }

  /** Every dict in `m` is its aspect's dict after k examples. */
  ghost predicate Filled(m: map<string, AspectDict>, keyTags: seq<string>, sents: seq<string>,
                         tags: seq<string>, k: nat, lib: ErrorAnalysis)
    requires k <= |keyTags| && k <= |sents| && k <= |tags|
  {
    forall a :: a in m ==> m[a] == Column(a, keyTags, sents, tags, k, lib)
  }

  /** One stanza of the loop body: `if aspect in dict_aspect_func.keys():
      d[aspect][pos] = v`, with `pos` the span key of example k.  A
      configured aspect advances from k to k + 1 examples; every other
      aspect's dict is untouched. */
  method StoreStanza(m: map<string, AspectDict>, aspect: string, keyTags: seq<string>,
                     sents: seq<string>, tags: seq<string>, k: nat, lib: ErrorAnalysis, v: Scalar)
    returns (m': map<string, AspectDict>)
    requires IsTcAspect(aspect)
    requires k < |keyTags| && k < |sents| && k < |tags|
    requires v == TcAspectValue(aspect, TokenCount(sents[k], lib), tags[k])
    ensures m'.Keys == m.Keys
    ensures aspect in m && m[aspect] == Column(aspect, keyTags, sents, tags, k, lib)
            ==> m'[aspect] == Column(aspect, keyTags, sents, tags, k + 1, lib)
    ensures forall b :: b in m && b != aspect ==> m'[b] == m[b]
  {
    m' := m;
    if aspect in m {
      ColumnStep(aspect, keyTags, sents, tags, k, lib);
      m' := m[aspect := Put(m[aspect], SpanKey(k, keyTags[k]), v)];
    }
  }

  /** The two stanzas of the loop body of `get_aspect_value` for example k,
      on one side: each stores the aspect's value under `(k, keyTags[k])`;
      the values come from the sentence and the gold tag on both sides. */
  method AddExample(m: map<string, AspectDict>, keyTags: seq<string>, sents: seq<string>,
                    tags: seq<string>, k: nat, lib: ErrorAnalysis)
    returns (m': map<string, AspectDict>)
    requires k < |keyTags| && k < |sents| && k < |tags|
    requires Filled(m, keyTags, sents, tags, k, lib)
    ensures m'.Keys == m.Keys
    ensures Filled(m', keyTags, sents, tags, k + 1, lib)
  {
    var sent, tag := sents[k], tags[k];
    // len(ea.word_segment(sent).split(" "))
    var sentLength := TokenCount(sent, lib);
    assert "sLen"[0] != "tag"[0];
    m' := StoreStanza(m, "sLen", keyTags, sents, tags, k, lib, Num(sentLength as real));
    m' := StoreStanza(m', "tag", keyTags, sents, tags, k, lib, Str(tag));
  }

  /** `dict_sid2sent[str(sample_id)] = ea.format4json2(sent)` for example k. */
  method AddText(sid2sent: Dict<string, string>, sents: seq<string>, k: nat, lib: ErrorAnalysis)
    returns (sid2sent': Dict<string, string>)
    requires k < |sents|
    requires sid2sent == Zip(SidKeys(k), Texts(sents, k, lib))
    ensures sid2sent' == Zip(SidKeys(k + 1), Texts(sents, k + 1, lib))
  {
    SidTableStep(k, Texts(sents, k, lib), lib.format4json2(sents[k]));
    assert Texts(sents, k + 1, lib) == Texts(sents, k, lib) + [lib.format4json2(sents[k])];
    sid2sent' := Put(sid2sent, NatToString(k), lib.format4json2(sents[k]));
  }

  /** `get_aspect_value` of the classification script.  Every configured
      aspect gets a dict on each side, and exactly `sLen` and `tag` are
      filled, one entry per example of the zipped input; the id -> text
      lookup holds one entry per example under str(id). */
  method GetAspectValue(sents: seq<string>, tags: seq<string>, tagsPred: seq<string>,
                        config: Dict<string, AspectConf>, lib: ErrorAnalysis)
    returns (gold: map<string, AspectDict>, pred: map<string, AspectDict>, sid2sent: Dict<string, string>)
    ensures var n := ZipLength3(|sents|, |tags|, |tagsPred|);
            && (forall a :: a in gold <==> a in Keys(config))
            && (forall a :: a in pred <==> a in Keys(config))
            && (forall a :: a in gold ==> gold[a] == Column(a, tags, sents, tags, n, lib))
            && (forall a :: a in pred ==> pred[a] == Column(a, tagsPred, sents, tags, n, lib))
            && sid2sent == Zip(SidKeys(n), Texts(sents, n, lib))
  {
    gold, pred := EmptyDicts(Keys(config));
    ghost var configured := gold.Keys;
    sid2sent := [];
    var n := ZipLength3(|sents|, |tags|, |tagsPred|);
    var sampleId := 0;
    while sampleId < n
      invariant sampleId <= n
      invariant gold.Keys == configured && pred.Keys == configured
      invariant Filled(gold, tags, sents, tags, sampleId, lib)
      invariant Filled(pred, tagsPred, sents, tags, sampleId, lib)
      invariant sid2sent == Zip(SidKeys(sampleId), Texts(sents, sampleId, lib))
    {
      sid2sent := AddText(sid2sent, sents, sampleId, lib);
      // As in the NLI script, the two sides are written to different dicts,
      // so filling one and then the other is the same as interleaving them.
      gold := AddExample(gold, tags, sents, tags, sampleId, lib);
      pred := AddExample(pred, tagsPred, sents, tags, sampleId, lib);
      sampleId := sampleId + 1;
    }
  }

  /** The dict of `sLen` or `tag` holds exactly one entry per example: n
      entries, no key twice, example k's value under example k's span key,
      and no key that is not the span key of an example. */
  lemma ColumnLookup(aspect: string, keyTags: seq<string>, sents: seq<string>, tags: seq<string>,
                     n: nat, k: nat, lib: ErrorAnalysis)
    requires IsTcAspect(aspect)
    requires n <= |keyTags| && n <= |sents| && n <= |tags| && k < n
    ensures |Column(aspect, keyTags, sents, tags, n, lib)| == n
    ensures DistinctKeys(Column(aspect, keyTags, sents, tags, n, lib))
    ensures Keys(Column(aspect, keyTags, sents, tags, n, lib)) == SpanKeys(keyTags[..n])
    ensures Get(Column(aspect, keyTags, sents, tags, n, lib), SpanKey(k, keyTags[k]))
            == Some(TcAspectValue(aspect, TokenCount(sents[k], lib), tags[k]))
  {
    var ks := keyTags[..n];
    assert ks[k] == keyTags[k];
    EntriesLookup(ks, AspectValues(aspect, sents, tags, n, lib), k);
    SpanKeysDistinct(ks);
  }

  /** The two sides agree on every value: under `(k, gold)` and under
      `(k, pred)` the same length is stored, and `tag` stores the gold tag on
      both sides. */
  lemma SidesAgree(aspect: string, sents: seq<string>, tags: seq<string>, tagsPred: seq<string>,
                   n: nat, k: nat, lib: ErrorAnalysis)
    requires IsTcAspect(aspect)
    requires n <= |sents| && n <= |tags| && n <= |tagsPred| && k < n
    ensures Get(Column(aspect, tagsPred, sents, tags, n, lib), SpanKey(k, tagsPred[k]))
            == Get(Column(aspect, tags, sents, tags, n, lib), SpanKey(k, tags[k]))
    ensures aspect == "tag" ==> Get(Column(aspect, tagsPred, sents, tags, n, lib), SpanKey(k, tagsPred[k]))
                                == Some(Str(tags[k]))
    ensures aspect == "sLen" ==> Get(Column(aspect, tagsPred, sents, tags, n, lib), SpanKey(k, tagsPred[k]))
                                 == Some(Num(TokenCount(sents[k], lib) as real))
  {
    ColumnLookup(aspect, tagsPred, sents, tags, n, k, lib);
    ColumnLookup(aspect, tags, sents, tags, n, k, lib);
  }

  /** The lookup finds sentence k's display text under str(k). */
  lemma TextLookup(sents: seq<string>, n: nat, k: nat, lib: ErrorAnalysis)
    requires n <= |sents| && k < n
    ensures Get(Zip(SidKeys(n), Texts(sents, n, lib)), NatToString(k)) == Some(lib.format4json2(sents[k]))
  {
    SidTableLookup(n, Texts(sents, n, lib), k);
  }

  // ---------------------------------------------------------------------
  // The per-aspect bucketing loop of `evaluate`
  // ---------------------------------------------------------------------

  /** The two partitions `evaluate` keeps for one aspect. */
  datatype AspectPartitions = AspectPartitions(goldBuckets: Partition, predBuckets: Partition)

  /** One aspect: the gold values are bucketed by `ea.select_bucketing_func`
      (None: it raised), and the predicted values are bucketed into exactly
      the gold partition's keys by interval bucketing, which may raise too. */
  function AspectBuckets(aspect: string, conf: AspectConf, goldValues: AspectDict, predValues: AspectDict,
                         lib: ErrorAnalysis): (r: Result<AspectPartitions, Error>)
    ensures r.Ok? <==> lib.selectBucketing(conf.funcName, conf.setting, goldValues).Some?
                       && lib.bucketInterval(predValues,
                                             Keys(lib.selectBucketing(conf.funcName, conf.setting, goldValues).value)).Some?
  {
    match lib.selectBucketing(conf.funcName, conf.setting, goldValues)
    case None => Err(BucketingFailed(aspect))
    case Some(goldBuckets) =>
      match Bucketed(lib.bucketInterval(predValues, Keys(goldBuckets)), SPECIFIED_BUCKET_INTERVAL)
      case Err(e) => Err(e)
      case Ok(predBuckets) => Ok(AspectPartitions(goldBuckets, predBuckets))
  }

  /** An exception of `ea.select_bucketing_func` names the aspect, one of
      the predicted side's bucketing names interval bucketing, and the
      predicted partition is built from the gold partition's keys. */
  lemma AspectBucketsMeaning(aspect: string, conf: AspectConf, goldValues: AspectDict, predValues: AspectDict,
                             lib: ErrorAnalysis)
    ensures lib.selectBucketing(conf.funcName, conf.setting, goldValues).None?
            <==> AspectBuckets(aspect, conf, goldValues, predValues, lib) == Err(BucketingFailed(aspect))
    ensures AspectBuckets(aspect, conf, goldValues, predValues, lib).Err?
            && lib.selectBucketing(conf.funcName, conf.setting, goldValues).Some? ==>
              AspectBuckets(aspect, conf, goldValues, predValues, lib).error == BucketingRaised(SPECIFIED_BUCKET_INTERVAL)
    ensures AspectBuckets(aspect, conf, goldValues, predValues, lib).Ok? ==>
              var p := AspectBuckets(aspect, conf, goldValues, predValues, lib).value;
              && lib.selectBucketing(conf.funcName, conf.setting, goldValues) == Some(p.goldBuckets)
              && lib.bucketInterval(predValues, Keys(p.goldBuckets)) == Some(p.predBuckets)
  {
  }

  /** One aspect of the loop in `evaluate`. */
  method BucketAspect(aspect: string, conf: AspectConf, goldValues: AspectDict, predValues: AspectDict,
                      lib: ErrorAnalysis)
    returns (r: Result<AspectPartitions, Error>)
    ensures r == AspectBuckets(aspect, conf, goldValues, predValues, lib)
  {
    var selected := lib.selectBucketing(conf.funcName, conf.setting, goldValues);
    if selected.None? {
      return Err(BucketingFailed(aspect));
    }
    var goldBuckets := selected.value;
    var predBuckets := lib.bucketInterval(predValues, Keys(goldBuckets));
    if predBuckets.None? {
      return Err(BucketingRaised(SPECIFIED_BUCKET_INTERVAL));
    }
    return Ok(AspectPartitions(goldBuckets, predBuckets.value));
  }

  /** The gold and predicted partitions of every configured aspect, in
      configuration order. */
  function AllBuckets(config: Dict<string, AspectConf>, gold: map<string, AspectDict>,
                      pred: map<string, AspectDict>, lib: ErrorAnalysis)
    : (rs: seq<Result<AspectPartitions, Error>>)
    requires forall j :: 0 <= j < |config| ==> config[j].0 in gold && config[j].0 in pred
    ensures |rs| == |config|
  {
    seq(|config|, j requires 0 <= j < |config| =>
      AspectBuckets(config[j].0, config[j].1, gold[config[j].0], pred[config[j].0], lib))
  }

  /** The loop `for aspect, func in dict_aspect_func.items()` of `evaluate`,
      as far as the two partitions: every configured aspect in order,
      stopping at the first bucketing that raises. */
  method BucketAspects(config: Dict<string, AspectConf>, gold: map<string, AspectDict>,
                       pred: map<string, AspectDict>, lib: ErrorAnalysis)
    returns (r: Result<Dict<string, AspectPartitions>, Error>)
    requires forall j :: 0 <= j < |config| ==> config[j].0 in gold && config[j].0 in pred
    ensures r == Collect(Keys(config), AllBuckets(config, gold, pred, lib), |config|)
  {
    ghost var keys, results := Keys(config), AllBuckets(config, gold, pred, lib);
    var buckets: Dict<string, AspectPartitions> := [];
    var i := 0;
    while i < |config|
      invariant i <= |config|
      invariant Collect(keys, results, i) == Ok(buckets)
    {
      var aspect, func := config[i].0, config[i].1;
      var partitions := BucketAspect(aspect, func, gold[aspect], pred[aspect], lib);
      assert partitions == results[i];
      CollectStep(keys, results, i, |config|, buckets);
      if partitions.Err? {
        return Err(partitions.error);
      }
      buckets := Put(buckets, aspect, partitions.value);
      i := i + 1;
    }
    return Ok(buckets);
  }

  /** Over a configuration that names no aspect twice: the loop succeeds
      exactly when every aspect's bucketing does, and then holds every
      configured aspect, in order, with its two partitions. */
  lemma AllBucketsMeaning(config: Dict<string, AspectConf>, gold: map<string, AspectDict>,
                          pred: map<string, AspectDict>, lib: ErrorAnalysis)
    requires forall j :: 0 <= j < |config| ==> config[j].0 in gold && config[j].0 in pred
    requires DistinctKeys(config)
    ensures Collect(Keys(config), AllBuckets(config, gold, pred, lib), |config|).Ok?
            <==> forall j :: 0 <= j < |config| ==> AllBuckets(config, gold, pred, lib)[j].Ok?
    ensures Collect(Keys(config), AllBuckets(config, gold, pred, lib), |config|).Ok? ==>
              var table := Collect(Keys(config), AllBuckets(config, gold, pred, lib), |config|).value;
              && Keys(table) == Keys(config)
              && forall j :: 0 <= j < |config| ==>
                   && AllBuckets(config, gold, pred, lib)[j]
                      == AspectBuckets(config[j].0, config[j].1, gold[config[j].0], pred[config[j].0], lib)
                   && Get(table, config[j].0) == Some(AllBuckets(config, gold, pred, lib)[j].value)
  {
    var keys, results := Keys(config), AllBuckets(config, gold, pred, lib);
    CollectDict(keys, results);
    forall j | 0 <= j < |config|
      ensures keys[j] == config[j].0
    {
    }
  }
}
