/** The vocabulary shared by the text-classification and NLI evaluation
    scripts: aspect values, bucket keys, the composite "span" keys that tie an
    example index to a tag, the errors the scripts raise, and the functions
    they import from `explainaboard.error_analysis`, which are not part of this
    model and appear here only as uninterpreted collaborators. */
module Analysis {
  import opened Fallible
  import opened PyText
  import opened Dicts

  /** An aspect value or one component of a bucket key: a float or a str. */
  datatype Scalar = Num(x: real) | Str(s: string)

  /** A bucket key is a Python tuple: `(lo, hi)`, `(v,)` or `(tag,)`. */
  type BucketKey = seq<Scalar>

  /** Span key -> aspect value, one dict per aspect and side. */
  type AspectDict = Dict<string, Scalar>

  /** Bucket key -> the span keys that fell into that bucket. */
  type Partition = Dict<BucketKey, seq<string>>

  /** One entry of the aspect configuration: bucketing function name, its
      setting string and the "is precomputed" flag. */
  datatype AspectConf = AspectConf(funcName: string, setting: string, precomputed: string)

  /** The exceptions the scripts raise, each with the value that caused it. */
  datatype Error =
    | MissingPredictedBucket(key: BucketKey)  // ValueError("Predict Label Bucketing Errors")
    | MalformedSpan(span: string)             // unpacking `span.split("|||")` into two names fails
    | UnknownSentence(sid: string)            // KeyError in the id -> text lookup
    | IllegalFunctionName(name: string)       // ValueError: unknown bucketing function
    | BadBucketingSetting(setting: string)    // ValueError("selectBucktingFunc Error!")
    | InvalidLiteral(text: string)            // int() or eval() of a setting field fails
    | EmptyBucketKey                          // IndexError on `interval[0]`
    | NotNumeric(value: Scalar)               // float() of a bucket-key component fails
    | BucketingFailed(aspect: string)         // ea.select_bucketing_func raised
    | BucketingRaised(funcName: string)       // an ea.bucket_attribute_* function raised

  /** The functions of `explainaboard.error_analysis` the scripts call, and
      the Python built-ins applied to configuration text.  Their bodies are
      not part of this model; each is a parameter of the operations that use
      it, so every proof holds whatever they compute.  A function that can
      raise returns an `Option`, and `None` stands for the exception: the
      bucketing functions (a value outside every interval, say), `int()`,
      `eval()` and `float()` of a string. */
  datatype ErrorAnalysis = ErrorAnalysis(
    wordSegment: string -> string,                            // ea.word_segment
    format4json2: string -> string,                           // ea.format4json2
    parseInt: string -> Option<int>,                          // int(...)
    evalIntervals: string -> Option<seq<BucketKey>>,          // eval(...) of an interval list
    evalValues: string -> Option<seq<Scalar>>,                // eval(...) of a split-value list
    bucketInterval: (AspectDict, seq<BucketKey>) -> Option<Partition>, // ea.bucket_attribute_specified_bucket_interval
    bucketValue: (AspectDict, int, seq<Scalar>) -> Option<Partition>, // ea.bucket_attribute_specified_bucket_value
    bucketDiscrete: (AspectDict, int, int) -> Option<Partition>,      // ea.bucket_attribute_discrete_value
    selectBucketing: (string, string, AspectDict) -> Option<Partition>, // ea.select_bucketing_func
    accuracy: (seq<string>, seq<string>) -> real,            // ea.accuracy
    confidenceInterval: (seq<string>, seq<string>) -> (real, real), // ea.compute_confidence_interval_acc
    parseFloat: string -> Option<real>,                       // float(s) of a str
    formatG3: real -> string                                  // format(x, '.3g')
  )

  /** `float(v)` of an aspect value or a bucket-key component: a number is
      already a float, a string is parsed and may be rejected. */
  function Float(v: Scalar, lib: ErrorAnalysis): (r: Option<real>)
    ensures v.Num? ==> r == Some(v.x)
  {
    match v
    case Num(x) => Some(x)
    case Str(s) => lib.parseFloat(s)
  }

  const SPECIFIED_BUCKET_INTERVAL := "bucket_attribute_SpecifiedBucketInterval"
  const SPECIFIED_BUCKET_VALUE := "bucket_attribute_SpecifiedBucketValue"
  const DISCRETE_VALUE := "bucket_attribute_DiscreteValue"

  /** A call of a bucketing function named `funcName`: the partition it
      returns, or the exception it raised. */
  function Bucketed(p: Option<Partition>, funcName: string): (r: Result<Partition, Error>)
    ensures r.Ok? <==> p.Some?
    ensures r.Err? ==> r.error == BucketingRaised(funcName)
  {
    match p
    case None => Err(BucketingRaised(funcName))
    case Some(partition) => Ok(partition)
  }

  /** The number of tuples `zip` yields from two lists of lengths a and b:
      the shorter length. */
  function ZipLength2(a: nat, b: nat): (n: nat)
    ensures n <= a && n <= b && (n == a || n == b)
  {
    if a <= b then a else b
  }

  const SPAN_SEP := "|||"

  /** `ea.tuple2str((sample_id, tag))`: the composite key "<id>|||<tag>". */
  function SpanKey(sampleId: nat, tag: string): string {
    NatToString(sampleId) + SPAN_SEP + tag
  }

  /** `sid, tag = span.split("|||")`: exactly two fields or an error. */
  function ParseSpan(span: string): (r: Result<(string, string), Error>)
    ensures r.Ok? <==> |Split(span, SPAN_SEP)| == 2
  {
    var parts := Split(span, SPAN_SEP);
    if |parts| == 2 then Ok((parts[0], parts[1])) else Err(MalformedSpan(span))
  }

  lemma SplitSpanKey(sampleId: nat, tag: string)
    ensures Split(SpanKey(sampleId, tag), SPAN_SEP) == [NatToString(sampleId)] + Split(tag, SPAN_SEP)
  {
    DigitsAreFree(NatToString(sampleId), '|');
    SplitAfterField(NatToString(sampleId), SPAN_SEP, tag);
  }

  /** Parsing a span key gives back its id and tag exactly when the tag
      does not itself contain the separator. */
  lemma ParseSpanKey(sampleId: nat, tag: string)
    ensures ParseSpan(SpanKey(sampleId, tag)).Ok? <==> !Occurs(tag, SPAN_SEP)
    ensures !Occurs(tag, SPAN_SEP) ==>
              ParseSpan(SpanKey(sampleId, tag)) == Ok((NatToString(sampleId), tag))
  {
    SplitSpanKey(sampleId, tag);
    if Occurs(tag, SPAN_SEP) {
      SplitAtSeparator(tag, SPAN_SEP);
    } else {
      SplitWithoutSeparator(tag, SPAN_SEP);
    }
  }

  /** Span keys are injective: one key names one (index, tag) pair. */
  lemma SpanKeyInjective(i: nat, a: string, j: nat, b: string)
    requires SpanKey(i, a) == SpanKey(j, b)
    ensures i == j && a == b
  {
    SplitSpanKey(i, a);
    SplitSpanKey(j, b);
    var parts := Split(SpanKey(i, a), SPAN_SEP);
    assert parts[0] == NatToString(i) && parts[0] == NatToString(j);
    NatToStringInjective(i, j);
    var prefix := NatToString(i) + SPAN_SEP;
    assert SpanKey(i, a)[|prefix|..] == a;
    assert SpanKey(j, b)[|prefix|..] == b;
  }

  /** The span keys of examples 0, 1, ... with the given labels. */
  function SpanKeys(labels: seq<string>): (ks: seq<string>)
    ensures |ks| == |labels|
  {
    seq(|labels|, k requires 0 <= k < |labels| => SpanKey(k, labels[k]))
  }

  lemma SpanKeysDistinct(labels: seq<string>)
    ensures forall p, q :: 0 <= p < q < |labels| ==> SpanKeys(labels)[p] != SpanKeys(labels)[q]
  {
    forall p, q | 0 <= p < q < |labels|
      ensures SpanKeys(labels)[p] != SpanKeys(labels)[q]
    {
      if SpanKeys(labels)[p] == SpanKeys(labels)[q] {
        SpanKeyInjective(p, labels[p], q, labels[q]);
      }
    }
  }

  /** The aspect dict that maps the span key of example k to `values[k]`. */
  function Entries(labels: seq<string>, values: seq<Scalar>): AspectDict
    requires |labels| == |values|
  {
    Zip(SpanKeys(labels), values)
  }

  /** The span key of the next index is not among the earlier ones. */
  lemma SpanKeyFresh(labels: seq<string>, tag: string)
    ensures SpanKey(|labels|, tag) !in SpanKeys(labels)
  {
    var ks := SpanKeys(labels);
    forall p | 0 <= p < |labels|
      ensures ks[p] != SpanKey(|labels|, tag)
    {
      if ks[p] == SpanKey(|labels|, tag) {
        SpanKeyInjective(p, labels[p], |labels|, tag);
      }
    }
  }

  lemma SpanKeysAppend(labels: seq<string>, tag: string)
    ensures SpanKeys(labels + [tag]) == SpanKeys(labels) + [SpanKey(|labels|, tag)]
  {
    var ls := labels + [tag];
    forall p | 0 <= p < |labels|
      ensures SpanKeys(ls)[p] == SpanKeys(labels)[p]
    {
      assert ls[p] == labels[p];
    }
  }

  /** Storing the next example's value under its span key appends it: the key
      of a new index is never already present. */
  lemma EntriesStep(labels: seq<string>, values: seq<Scalar>, tag: string, v: Scalar)
    requires |labels| == |values|
    ensures Put(Entries(labels, values), SpanKey(|labels|, tag), v)
            == Entries(labels + [tag], values + [v])
  {
    var k := SpanKey(|labels|, tag);
    SpanKeyFresh(labels, tag);
    PutFreshZip(SpanKeys(labels), values, k, v);
    SpanKeysAppend(labels, tag);
  }

  /** In an aspect dict built by Entries, example k's value is found under
      example k's span key. */
  lemma EntriesLookup(labels: seq<string>, values: seq<Scalar>, k: nat)
    requires |labels| == |values| && k < |labels|
    ensures Get(Entries(labels, values), SpanKey(k, labels[k])) == Some(values[k])
  {
    SpanKeysDistinct(labels);
    GetZip(SpanKeys(labels), values, k);
  }

  /** The keys "0", "1", ..., str(n - 1) of the id -> text lookup. */
  function SidKeys(n: nat): (ks: seq<string>)
    ensures |ks| == n
  {
    seq(n, k requires 0 <= k < n => NatToString(k))
  }

  lemma SidKeysAppend(n: nat)
    ensures SidKeys(n + 1) == SidKeys(n) + [NatToString(n)]
  {
    forall p | 0 <= p < n
      ensures SidKeys(n + 1)[p] == SidKeys(n)[p]
    {
    }
  }

  /** Storing text under str(n) appends to a lookup built for 0 .. n - 1. */
  lemma SidTableStep(n: nat, texts: seq<string>, text: string)
    requires |texts| == n
    ensures Put(Zip(SidKeys(n), texts), NatToString(n), text) == Zip(SidKeys(n + 1), texts + [text])
  {
    var ks := SidKeys(n);
    forall p | 0 <= p < n
      ensures ks[p] != NatToString(n)
    {
      if ks[p] == NatToString(n) {
        NatToStringInjective(p, n);
      }
    }
    assert NatToString(n) !in ks;
    PutFreshZip(ks, texts, NatToString(n), text);
    SidKeysAppend(n);
  }

  /** The lookup built for n examples finds example k's text under str(k). */
  lemma SidTableLookup(n: nat, texts: seq<string>, k: nat)
    requires |texts| == n && k < n
    ensures Get(Zip(SidKeys(n), texts), NatToString(k)) == Some(texts[k])
  {
    forall p, q | 0 <= p < q < n
      ensures SidKeys(n)[p] != SidKeys(n)[q]
    {
      if SidKeys(n)[p] == SidKeys(n)[q] {
        NatToStringInjective(p, q);
      }
    }
    GetZip(SidKeys(n), texts, k);
  }

  /** `len(ea.word_segment(s).split(" "))`. */
  function TokenCount(s: string, lib: ErrorAnalysis): (n: nat)
    ensures n >= 1
  {
    |Split(lib.wordSegment(s), " ")|
  }

  /** The token count is one more than the number of spaces in the segmented
      text. */
  lemma TokenCountSpaces(s: string, lib: ErrorAnalysis)
    ensures TokenCount(s, lib) == CountChar(lib.wordSegment(s), ' ') + 1
  {
    SplitOnCharCount(lib.wordSegment(s), ' ');
  }

  /** The first loop of both scripts' `get_aspect_value`: an empty dict per
      configured aspect, on each side. */
  method EmptyDicts(aspects: seq<string>) returns (gold: map<string, AspectDict>, pred: map<string, AspectDict>)
    ensures forall a :: (a in gold <==> a in aspects) && (a in pred <==> a in aspects)
    ensures forall a :: a in gold ==> gold[a] == [] && pred[a] == []
  {
    gold, pred := map[], map[];
    var i := 0;
    while i < |aspects|
      invariant i <= |aspects|
      invariant forall a :: (a in gold <==> a in aspects[..i]) && (a in pred <==> a in aspects[..i])
      invariant forall a :: a in gold ==> gold[a] == [] && pred[a] == []
    {
      assert aspects[..i + 1] == aspects[..i] + [aspects[i]];
      gold := gold[aspects[i] := []];
      pred := pred[aspects[i] := []];
      i := i + 1;
    }
    assert aspects[..|aspects|] == aspects;
  }
}
