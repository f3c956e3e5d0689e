# Error-analysis glue of the NLI and text-classification tasks

This project models, in Dafny, the per-task glue of the ExplainaBoard
error-analysis pipeline for two tasks: natural-language inference
(`explainaboard/tasks/nli/eval_spec.py`) and text classification
(`explainaboard/tasks/tc/eval_spec.py`). The glue:

- turns each example into aspect values (sentence lengths, their difference,
  sum and ratio, the gold tag), keyed by composite "span" keys `"<id>|||<label>"`;
- keeps an id → display-text lookup for error cases;
- buckets the gold side with a configured strategy, and buckets the predicted
  side into the same bucket keys;
- scores every bucket, with its sample count, confidence bounds and error cases;
- reads the tab-separated prediction file;
- lists the holistic error cases;
- names buckets for the report.

The functions of `explainaboard.error_analysis`, which is not part of this
model, are fields of the datatype `Analysis.ErrorAnalysis`. These are the word
segmenter, `format4json2`, the bucketing functions, accuracy, the confidence
interval and `'.3g'` formatting. The same datatype also holds `int()`, `eval()`
and `float()` of strings. Every operation takes them as a parameter, so every
proof holds whatever they return. The functions that can raise return an
`Option`, and `None` stands for the exception: the three
`ea.bucket_attribute_*` functions, `ea.select_bucketing_func`, `int()`,
`eval()` and `float()` of a string. An exception of a bucketing function ends
the aspect, and the loop over aspects, with `BucketingRaised` or
`BucketingFailed`.

Files and modules:

- `fallible.dfy` (`Fallible`): `Option` and `Result`. A raised exception is
  `Result.Err` with an `Analysis.Error`.
- `py_text.dfy` (`PyText`): the Python string operations the scripts use:
  `str(n)`, `s.split(sep)`, `s.rstrip("\n")`, and the facts about them that
  the proofs need.
- `dicts.dfy` (`Dicts`): Python dicts as insertion-ordered association lists.
  It holds `d[k]`, `d[k] = v`, and `Collect`, which fills a dict from a list
  of results and stops at the first error.
- `analysis.dfy` (`Analysis`): what both scripts share: aspect values, bucket
  keys, span keys and their parsing, the exceptions, the collaborators, the
  id → text lookup, the token count, and the empty per-aspect dicts.
- `nli_eval_spec.dfy` (`NliEvalSpec`): `get_aspect_value`,
  `get_bucket_acc_with_error_case`, `get_error_case`, `file_to_list`,
  `beautify_interval`, `__select_bucketing_func` and the per-aspect loop of
  `evaluate`.
- `tc_eval_spec.dfy` (`TcEvalSpec`): `get_aspect_value` of the classification
  script and the per-aspect bucketing loop of its `evaluate`.

The code that fills dictionaries or lists in loops is modelled as Dafny
methods with loops. Each is proved equal to a specification function. The
properties are then proved about those functions:

- `GetAspectValue`, `GetBucketAccWithErrorCase`, `BucketErrorCases`,
  `GetErrorCase`, `FileToList`, `BreakDown` and `BucketAspects` are methods
  with loops;
- `beautify_interval` and `__select_bucketing_func` are pure functions.

## Model

| member | source | states |
|---|---|---|
| PyText.NatToStringInjective | explainaboard/tasks/nli/eval_spec.py:76 | `str(i)` of two different example ids differ, so one id key names one example |
| PyText.Split | explainaboard/tasks/nli/eval_spec.py:72 | `s.split(sep)`, cut at the leftmost occurrences of the separator, always returns at least one part |
| PyText.SplitOnCharCount | explainaboard/tasks/nli/eval_spec.py:72-73 | splitting on one character gives one more part than there are occurrences of that character |
| PyText.SplitAfterField | explainaboard/tasks/nli/eval_spec.py:331-332 | a leading field that holds no occurrence of the separator's first character is cut off as the first part of `split` |
| PyText.SplitFour | explainaboard/tasks/nli/eval_spec.py:368-370 | four fields that hold no occurrence of the separator's first character, joined by the separator, split back into exactly those four fields |
| PyText.RStripNewlines | explainaboard/tasks/nli/eval_spec.py:367 | `rstrip("\n")` returns a prefix with no trailing newline, and drops only newlines |
| PyText.RStripOneNewline | explainaboard/tasks/nli/eval_spec.py:366-367 | stripping a line read with its newline gives back the line's text |
| Dicts.PutFresh | explainaboard/tasks/nli/eval_spec.py:98 | `Dicts.Put`, which is `d[k] = v`, appends the entry at the end when the key is fresh |
| Dicts.PutPresent | explainaboard/tasks/nli/eval_spec.py:98 | `Dicts.Put` on a key already present keeps the keys and their order, as `d[k] = v` does on a Python dict |
| Dicts.PutGet | explainaboard/tasks/nli/eval_spec.py:98 | after `Dicts.Put` (`d[k] = v`), `d[k]` is `v` and every other key keeps its value |
| Dicts.GetNone | explainaboard/tasks/nli/eval_spec.py:322-325 | `Dicts.Get`, the lookup `d[k]` / `k in d.keys()`, finds nothing exactly when `k` is not a key of `d` |
| Dicts.CollectKeys | explainaboard/tasks/nli/eval_spec.py:320-346 | a dict filled in a loop over distinct keys holds those keys, once each, in loop order |
| Dicts.CollectTable | explainaboard/tasks/nli/eval_spec.py:320-346 | a dict filled in a loop over distinct keys holds each key once, in loop order, with its own result |
| Dicts.CollectDict | explainaboard/tasks/nli/eval_spec.py:320-346 | a loop filling a dict over distinct keys completes exactly when no step raises, and then holds every key in order with its own result |
| Dicts.CollectAllOk | explainaboard/tasks/nli/eval_spec.py:320-346 | a loop that stops at the first exception completes exactly when no step raises |
| Dicts.CollectErrorOrigin | explainaboard/tasks/nli/eval_spec.py:320-346 | the exception such a loop ends with is the one raised by one of its steps |
| Analysis.ParseSpan | explainaboard/tasks/nli/eval_spec.py:331-332 | unpacking `span.split("\|\|\|")` into two names succeeds exactly when the split has two parts |
| Analysis.ParseSpanKey | explainaboard/tasks/nli/eval_spec.py:82-83 | a span key `"<id>\|\|\|<tag>"` parses back to its id and tag exactly when the tag does not itself contain "\|\|\|" |
| Analysis.SpanKeyInjective | explainaboard/tasks/nli/eval_spec.py:82-83 | equal span keys come from the same index and the same tag |
| Analysis.SpanKeysDistinct | explainaboard/tasks/nli/eval_spec.py:82-83 | the span keys of different examples never collide, whatever the tags |
| Analysis.EntriesStep | explainaboard/tasks/nli/eval_spec.py:97-99 | storing example k's value under its span key appends one entry, since that key is always new |
| Analysis.EntriesLookup | explainaboard/tasks/nli/eval_spec.py:82-83 | example k's value is found under example k's span key |
| Analysis.SidTableStep | explainaboard/tasks/nli/eval_spec.py:76-77 | storing under `str(n)` appends one entry to the lookup of examples 0 .. n-1 |
| Analysis.SidTableLookup | explainaboard/tasks/nli/eval_spec.py:76-77 | the lookup finds example k's text under `str(k)` |
| Analysis.TokenCount | explainaboard/tasks/nli/eval_spec.py:72-80 | a sentence length, `len(word_segment(s).split(" "))`, is at least 1 |
| Analysis.TokenCountSpaces | explainaboard/tasks/nli/eval_spec.py:72-80 | a sentence length is one more than the number of spaces in the segmented text |
| Analysis.ZipLength2 | explainaboard/tasks/nli/eval_spec.py:330 | `zip` of two lists yields as many pairs as the shorter list |
| Analysis.Float | explainaboard/tasks/nli/eval_spec.py:251-255 | `float()` of a number is that number; only `float()` of a string can fail |
| Analysis.Bucketed | explainaboard/tasks/nli/eval_spec.py:194 | a bucketing call gives its partition, or fails with `BucketingRaised` naming the function that raised |
| Analysis.EmptyDicts | explainaboard/tasks/nli/eval_spec.py:62-64 | every configured aspect, and no other, gets an empty dict on both sides (the same loop is explainaboard/tasks/tc/eval_spec.py:14-16) |
| NliEvalSpec.ZipLength4 | explainaboard/tasks/nli/eval_spec.py:70 | `zip` of the four lists yields as many tuples as the shortest list |
| NliEvalSpec.ColumnStep | explainaboard/tasks/nli/eval_spec.py:95-129 | one more example extends a known aspect's dict by exactly its entry |
| NliEvalSpec.StoreStanza | explainaboard/tasks/nli/eval_spec.py:96-99 | a configured aspect advances by one example, and every other aspect's dict is untouched |
| NliEvalSpec.AddExample | explainaboard/tasks/nli/eval_spec.py:72-129 | the loop body keeps every configured aspect's dict equal to its dict over the examples seen so far |
| NliEvalSpec.AddPair | explainaboard/tasks/nli/eval_spec.py:76-77 | the lookup grows by example k's sentence pair under `str(k)` |
| NliEvalSpec.GetAspectValue | explainaboard/tasks/nli/eval_spec.py:58-133 | both sides hold exactly the configured aspects; the known aspects hold one entry per zipped example, keyed `(k, gold)` on the gold side and `(k, pred)` on the predicted side; unknown configured aspects stay empty; the lookup holds one pair per example under `str(k)` |
| NliEvalSpec.ColumnLookup | explainaboard/tasks/nli/eval_spec.py:82-131 | a known aspect's dict has n entries, no key twice, and example k's value under `(k, tag)` |
| NliEvalSpec.ColumnKeys | explainaboard/tasks/nli/eval_spec.py:82-83 | a key finds a value exactly when the aspect is known and the key is the span key of an example |
| NliEvalSpec.SidesAgree | explainaboard/tasks/nli/eval_spec.py:95-129 | gold and predicted dicts store the same value for each example; for `tag` that value is the gold tag, even under the predicted-label key |
| NliEvalSpec.DerivedLengths | explainaboard/tasks/nli/eval_spec.py:95-123 | A-B is sentALen − sentBLen, A+B their sum, A/B their ratio, and the divisor is never zero |
| NliEvalSpec.PairLookup | explainaboard/tasks/nli/eval_spec.py:76-77 | the lookup finds example k's formatted sentence pair under `str(k)` |
| NliEvalSpec.CaseAtMeaning | explainaboard/tasks/nli/eval_spec.py:330-339 | `CaseAt`, one pair's case: reported exactly when both spans parse, the ids agree, the id has a sentence and the labels differ, and it is then `label_true\|\|\|label_pred\|\|\|sent`; a gold span, then a predicted span, that does not split in two raises; agreeing ids that name no sentence pair raise `KeyError`; pairs of different ids, and pairs with equal labels, are skipped |
| NliEvalSpec.CaseAt | explainaboard/tasks/nli/eval_spec.py:331-339 | one pair can raise only a malformed-span error for one of its two spans or an unknown-id error |
| NliEvalSpec.PairCase | explainaboard/tasks/nli/eval_spec.py:331-339 | one iteration of the inner loop computes that pair's case, `CaseAt` |
| NliEvalSpec.CaseAtSpanKeys | explainaboard/tasks/nli/eval_spec.py:331-339 | on span keys, pairs of different indices are skipped, and the case is built from the two tags and the pair under `str(index)` |
| NliEvalSpec.CasesUpToOk | explainaboard/tasks/nli/eval_spec.py:330-339 | the error-case loop completes exactly when no pair raises |
| NliEvalSpec.CasesUpToMembers | explainaboard/tasks/nli/eval_spec.py:330-339 | the listed cases are exactly the cases of the visited pairs, at most one per pair |
| NliEvalSpec.CasesUpToErrors | explainaboard/tasks/nli/eval_spec.py:331-336 | the error-case loop raises only on a malformed span or an unknown id |
| NliEvalSpec.CasesErrorPersists | explainaboard/tasks/nli/eval_spec.py:330-339 | once a pair raises, the loop ends with that exception |
| NliEvalSpec.BucketErrorCases | explainaboard/tasks/nli/eval_spec.py:328-339 | the inner loop computes the error cases of the zipped spans, or the first exception |
| NliEvalSpec.BucketEntryMeaning | explainaboard/tasks/nli/eval_spec.py:320-346 | `BucketEntry`, one bucket's `dict_bucket2f1` value: a missing predicted bucket raises; the entry is built exactly when the predicted bucket exists and, when printing cases, the case loop completes; num is `len(spans_true)`, accuracy comes from the two span lists, the bounds are (0, 0) unless CI printing is on, and the case list is empty unless case printing is on |
| NliEvalSpec.ScoreBucket | explainaboard/tasks/nli/eval_spec.py:321-346 | one iteration of the outer loop computes that bucket's entry |
| NliEvalSpec.GetBucketAccWithErrorCase | explainaboard/tasks/nli/eval_spec.py:311-348 | the loop computes one entry per gold bucket in gold order, or the first exception |
| NliEvalSpec.BucketTableOk | explainaboard/tasks/nli/eval_spec.py:318-346 | the result is built exactly when every bucket's entry is; for gold keys without repeats it then holds the gold keys in order, each with its own entry |
| NliEvalSpec.BucketTableMissing | explainaboard/tasks/nli/eval_spec.py:321-324 | a built result means every gold key has a predicted bucket; a missing-bucket error names a gold key the prediction lacks |
| NliEvalSpec.GetErrorCase | explainaboard/tasks/nli/eval_spec.py:351-357 | the loop lists the error cases of the zipped examples in order |
| NliEvalSpec.ErrorCasesMembers | explainaboard/tasks/nli/eval_spec.py:351-357 | the list holds exactly the cases `true\|\|\|pred\|\|\|sent1\|\|\|sent2` of the examples whose labels differ, at most one per example |
| NliEvalSpec.ErrorCasesEmpty | explainaboard/tasks/nli/eval_spec.py:353-354 | no error case is listed exactly when every example's labels agree |
| NliEvalSpec.ErrorCaseFields | explainaboard/tasks/nli/eval_spec.py:355-356 | a case splits back on "\|\|\|" into its four fields when none of them holds a `\|` |
| NliEvalSpec.FileToList | explainaboard/tasks/nli/eval_spec.py:360-378 | the four lists have equal length, one entry per kept line, holding that line's first four fields |
| NliEvalSpec.FieldsCount | explainaboard/tasks/nli/eval_spec.py:367-369 | a line is kept exactly when, after stripping newlines, it holds at least three tabs |
| NliEvalSpec.RowsMembers | explainaboard/tasks/nli/eval_spec.py:366-375 | every row comes from a line of at least four fields, and every such line gives its row, at most one per line |
| NliEvalSpec.RowsKeep | explainaboard/tasks/nli/eval_spec.py:368-375 | a line of four fields adds exactly its row |
| NliEvalSpec.RowLineFields | explainaboard/tasks/nli/eval_spec.py:366-371 | a row written as `s1\ts2\ttrue\tpred\n` is read back as its four fields |
| NliEvalSpec.RowsOfWrittenLines | explainaboard/tasks/nli/eval_spec.py:360-378 | writing rows one per line and reading the file back gives the rows again |
| NliEvalSpec.BeautifyIntervalMeaning | explainaboard/tasks/nli/eval_spec.py:245-257 | an empty key raises `EmptyBucketKey`; a numeric key whose second component `float()` rejects raises `NotNumeric`, and naming raises nothing else; a string key names itself; only the first two components of a key count |
| NliEvalSpec.BeautifyInterval | explainaboard/tasks/nli/eval_spec.py:245-257 | a key is named exactly when it is non-empty and either starts with a string, has one component, or has a second component `float()` accepts; every key of one or two numbers is named |
| NliEvalSpec.BeautifyIntervalFields | explainaboard/tasks/nli/eval_spec.py:249-257 | a numeric name is `(lo,hi)` or `(v,)`, and its inside splits on "," back into the formatted bounds |
| NliEvalSpec.ParseStrategyMeaning | explainaboard/tasks/nli/eval_spec.py:196-206 | a two-field setting is rejected as malformed exactly when it does not hold one tab |
| NliEvalSpec.ParseStrategy | explainaboard/tasks/nli/eval_spec.py:192-208 | only the three function names are accepted, any other raises the illegal-name error, and each accepted name gives its own strategy |
| NliEvalSpec.SelectBucketingFunc | explainaboard/tasks/nli/eval_spec.py:192-208 | bucketing succeeds exactly when the setting parses and the bucketing function it picks does not raise |
| NliEvalSpec.SelectBucketingMeaning | explainaboard/tasks/nli/eval_spec.py:192-208 | a setting that does not parse fails with its own error, a bucketing function that raises fails with that function's name; each name hands its parsed setting to its own `ea.bucket_attribute_*` function |
| NliEvalSpec.SettingRoundTrip | explainaboard/tasks/nli/eval_spec.py:195-205 | a setting `a\tb` is read back field by field, `int()` of the first field before the second is parsed |
| NliEvalSpec.AspectBreakdownMeaning | explainaboard/tasks/nli/eval_spec.py:217-224 | a built breakdown holds the gold partition, the predicted partition bucketed into exactly the gold keys, and the bucket table; an exception of the predicted bucketing ends the aspect; if that bucketing returns a bucket for every key it is given, no predicted bucket is ever missing |
| NliEvalSpec.AspectBreakdownOf | explainaboard/tasks/nli/eval_spec.py:217-219 | an exception of `__select_bucketing_func` ends the aspect with that exception |
| NliEvalSpec.BreakDownAspect | explainaboard/tasks/nli/eval_spec.py:217-224 | one aspect's iteration computes its gold partition, predicted partition and bucket results |
| NliEvalSpec.BreakDown | explainaboard/tasks/nli/eval_spec.py:215-226 | the loop handles every configured aspect in order and stops at the first exception |
| TcEvalSpec.ZipLength3 | explainaboard/tasks/tc/eval_spec.py:22 | `zip` of the three lists yields as many tuples as the shortest list |
| TcEvalSpec.ColumnStep | explainaboard/tasks/tc/eval_spec.py:33-43 | one more example extends `sLen` or `tag` by exactly its entry |
| TcEvalSpec.StoreStanza | explainaboard/tasks/tc/eval_spec.py:35-37 | a configured aspect advances by one example, and every other aspect's dict is untouched |
| TcEvalSpec.AddExample | explainaboard/tasks/tc/eval_spec.py:26-43 | the loop body keeps every configured aspect's dict equal to its dict over the examples seen so far |
| TcEvalSpec.AddText | explainaboard/tasks/tc/eval_spec.py:24 | the lookup grows by example k's formatted sentence under `str(k)` |
| TcEvalSpec.GetAspectValue | explainaboard/tasks/tc/eval_spec.py:10-48 | both sides hold exactly the configured aspects; `sLen` and `tag` hold one entry per zipped example, keyed `(k, gold)` and `(k, pred)`; other configured aspects stay empty; the lookup holds one text per example under `str(k)` |
| TcEvalSpec.ColumnLookup | explainaboard/tasks/tc/eval_spec.py:30-43 | the dict has n entries, no key twice, exactly the span keys of the examples, and example k's value under `(k, tag)` |
| TcEvalSpec.SidesAgree | explainaboard/tasks/tc/eval_spec.py:30-43 | both sides store the same value per example: the same `float(sent_length)` for `sLen`, and the gold tag for `tag` |
| TcEvalSpec.TextLookup | explainaboard/tasks/tc/eval_spec.py:21-24 | the lookup finds sentence k's display text under `str(k)` |
| TcEvalSpec.AspectBucketsMeaning | explainaboard/tasks/tc/eval_spec.py:89-93 | an exception of `select_bucketing_func` ends the aspect naming it, one of the predicted bucketing names interval bucketing, and the predicted partition is bucketed into exactly the gold partition's keys |
| TcEvalSpec.AspectBuckets | explainaboard/tasks/tc/eval_spec.py:89-93 | an aspect is bucketed exactly when neither `select_bucketing_func` nor the predicted interval bucketing raises |
| TcEvalSpec.BucketAspect | explainaboard/tasks/tc/eval_spec.py:89-93 | one aspect's iteration computes its two partitions |
| TcEvalSpec.BucketAspects | explainaboard/tasks/tc/eval_spec.py:87-98 | the loop handles every configured aspect in order and stops at the first exception |
| TcEvalSpec.AllBucketsMeaning | explainaboard/tasks/tc/eval_spec.py:87-98 | the loop completes exactly when every aspect's bucketing does; then it holds every configured aspect in order with its gold partition and a predicted partition built from exactly the gold keys |

## Left out

- File reading and writing, loading and saving the JSON template, and the
  `print` diagnostics are I/O. `file_to_list` is modelled over the file's
  lines, each with its newline.
- The ECE / `process_all` calibration and the `numpy.average` dataset bias
  are floating-point numerics over functions that are not part of this model.
- The bootstrap confidence interval is random resampling. It is the
  collaborator `confidenceInterval`, given as a parameter.
- `eval()` and `int()` of configuration strings are the collaborators
  `evalIntervals`, `evalValues` and `parseInt`. `None` stands for the exception
  they raise.
- `'.3g'` formatting is the collaborator `formatG3`, a total function on reals,
  and `float()` of a string is the collaborator `parseFloat`. The formatted text
  is not modelled.
- `ea.word_segment`, `ea.format4json2`, `ea.accuracy`, the confidence interval
  and `'.3g'` formatting are modelled as never raising. Their bodies are not
  part of this model.
- The bodies of `ea.word_segment`, `ea.format4json2`, `ea.accuracy` and the
  `ea.bucket_attribute_*` functions are uninterpreted collaborators. A
  bucketing function returns `None` where it raises, and the aspect then
  fails with `BucketingRaised` naming that function.
  `ea.tuple2str((i, tag))` is modelled as `str(i) + "|||" + tag`.
- Floats are exact reals. `float(n)` of a length is exact, and the A/B ratio is
  exact division.
- NliEvalSpec.GetBucketAccWithErrorCase: it returns the dict before
  `ea.sort_dict` reorders it, because the sort key lives in a module that is
  not part of this model. The entries are the same; only their order differs.
- NliEvalSpec.GetAspectValue: it writes the gold side before the predicted
  side within one example, where the source interleaves them stanza by
  stanza. The two sides are different dicts, so the result is the same.
- NliEvalSpec.GetAspectValue: the unused `hypo`/`refs` values and the
  commented-out BLEU aspect are not modelled.
- NliEvalSpec.BreakDown: it keeps the three per-aspect dicts of `evaluate`
  (`dict_bucket2span`, `dict_bucket2span_pred`, `dict_bucket2f1`) as one dict
  of triples. `aspect_names` and the report built from the results are not
  modelled.
- TcEvalSpec.BucketAspects: it stops after the two partitions. The per-bucket
  scores of the classification script come from
  `ea.get_bucket_acc_with_error_case`, which is not part of this model.
  `ea.select_bucketing_func` is the collaborator `selectBucketing`, and `None`
  stands for an exception it raises.
- NliEvalSpec.ParseStrategy: the unused `tags_list` of the discrete-value
  branch is not modelled.
- Python dicts that are configuration inputs are association lists. Lemmas
  that need distinct keys, as a Python dict has, require `DistinctKeys`.
