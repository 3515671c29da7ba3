# venturalitica governance core in Dafny

This project models the policy-evaluation core of the venturalitica SDK and the metric library it dispatches to. It then proves properties of that model.

A policy is an OSCAL document (assessment plan, catalog, profile or component definition) or a flat list of controls. Each control names:
- a metric;
- a threshold;
- a comparison operator;
- the data roles the metric reads ("target", "prediction", "dimension", ...).

Evaluation works in three steps:
1. The loader turns the document into an ordered list of controls.
2. Binding resolves every role to a column of the data frame: an explicit mapping, the column itself, a synonym, or `"MISSING"`.
3. The validator walks the controls in order and does the following for each one:
   - it looks up the metric in the registry;
   - it calls the metric with the bound columns;
   - it compares the value against the threshold;
   - it records a compliance result.

In strict mode a control that cannot be evaluated raises. In lenient mode it is dropped. `enforce` runs one or several policies this way and concatenates their results. It also merges them with previously cached results, once those are normalised to a list.

The metrics model counting and ratio computations over rows, with their validation errors and their bounds:
- performance scores;
- disparate impact and class imbalance;
- strict and lenient binary fairness;
- one-vs-rest and multi-class fairness: weighted demographic parity under four strategies, macro equal opportunity, micro equalized odds, predictive parity, and intersectional slices with the report built from them;
- the multi-class confusion report;
- privacy: k-anonymity, l-diversity, t-closeness and data minimisation;
- data quality and ESG reporting coverage;
- causal path decomposition, with the counterfactual gap and the causal diagnostic.

The model also covers the small decision helpers around the core:
- the compliance and metric badges;
- the console summary and the risk-level interpretation;
- the requirement-line and dependency parsing of the bill-of-materials scanner;
- the dashboard's bill-of-materials summary.

Values are exact `real`s. A pandas cell is missing, a number or a text. A missing value never equals anything, as with NaN. Data frames are a list of column names and a list of rows. The three aligned series of the multi-class metrics are one sequence of samples. Python exceptions are `Err` values of a `Result` that carry the exception's kind. Calls into scikit-learn, fairlearn and pandas' correlation are given functions. So are number parsing and number formatting.

Loops that the source writes as loops are methods with invariants, proved equal to a specification function. The properties are proved about that function:
- the loops over controls, policies, roles, classes, groups, slices, pairs, licences and requirement lines.

The scanner is a class whose methods append to its component list.

The modules follow the source tree:

- **Shared foundations:**
  - `Wrappers`: `Result` and `Option`;
  - `Ordered`: insertion-ordered dictionaries;
  - `Text`: the `str` operations;
  - `Counting`: counts, distinct values and filters;
  - `Stats`: sum, min, max, range and mean;
  - `Folds` and `Loops`: loop shapes;
  - `Frames`: data frames;
  - `Samples`: aligned label series;
  - `Document`: parsed YAML/JSON;
  - `Roles`: keyword arguments;
  - `Foreign`: the opaque numerical calls.
- **Policy engine:**
  - `Models`: controls, policies and results;
  - `Loader`;
  - `Binding`;
  - `Registry`;
  - `Core`: the validator;
  - `Api`: `enforce`.
- **Metrics:**
  - `Performance`, `DataMetrics`, `FairnessMetrics` and `ConfusionMetrics`, the `metrics/` package;
  - `Privacy`, `QualityMetrics` and `EsgMetrics`;
  - `BinaryFairness` and `SimpleMulticlass`;
  - `MulticlassParity`, `MulticlassError`, `MulticlassPredictive`, `MulticlassReporting` and `MulticlassDispatch`, the `assurance/fairness/` modules;
  - `LegacyMulticlass`: `fairness/multiclass.py`;
  - `Causal`.
- **Helpers:** `Badges`, `Formatting`, `Output`, `Scanner` and `BomMetrics`.

The older `fairness/multiclass.py` repeats the weighted demographic parity, macro equal opportunity and micro equalized odds of `assurance/fairness/multiclass_parity.py` and `multiclass_error.py` statement for statement. Its lines 26-316 are therefore modelled by the `MulticlassParity` and `MulticlassError` members listed below. `LegacyMulticlass` holds what differs:
- its predictive parity;
- its six-entry report.

`ComplianceResult` is built where `core.py` creates results (lines 185-195), with a `metadata` field added. The module that defines it is not part of this model.

## Model

| member | source | states |
|---|---|---|
| Loader.NewLoader | src/venturalitica/loader.py:8-17 | a path source is refused with FileNotFoundError exactly when no such file exists; a dictionary source keeps the dictionary and no path, a path source the path and no dictionary |
| Loader.Stem | src/venturalitica/loader.py:41 | the default title of a file policy is the file's stem, which holds no path separator |
| Loader.InputVars | src/venturalitica/loader.py:136 | the required variables of a prop table are at most one per prop |
| Loader.InputMapping | src/venturalitica/loader.py:137 | the input mapping binds one role per required variable |
| Loader.TableControl | src/venturalitica/loader.py:129-138 | a control built from an inventory table carries the requirement's id, description and severity and the table's metric key; a missing threshold is 0.0 and a missing operator "==" |
| Loader.InventoryItems | src/venturalitica/loader.py:47-50 | inventory items are found only on a mapping object, under local-definitions first, else at the root |
| Loader.BuildInventory | src/venturalitica/loader.py:45-56 | the loop builds exactly the uuid-keyed prop tables of the items that carry a uuid, or the first failure |
| Loader.DirectControl | src/venturalitica/loader.py:107-119 | a requirement with a direct metric_key yields a control with its id, description, severity, input mapping and required variables; threshold 0.0 and operator "==" by default, and no failure when there is no threshold to parse |
| Loader.AddToPolicy | src/venturalitica/loader.py:82-138 | the policy's controls gain exactly the requirement's controls, in order, or the call fails with the requirement's error |
| Loader.ControlImpls | src/venturalitica/loader.py:59-68 | implementations are collected only from a mapping object (reviewed-controls first, then the root) |
| Loader.CatalogOwn | src/venturalitica/loader.py:142-154 | a catalog entry yields at most one control of its own |
| Loader.ProcessCatalog | src/venturalitica/loader.py:140-157 | the recursion appends the entry's own control and then its sub-controls' controls, in pre-order, or fails |
| Loader.AddCatalogEntries | src/venturalitica/loader.py:75-78 | the catalog loop appends each entry's controls in list order |
| Loader.CatalogListErr | src/venturalitica/loader.py:75-78 | once a catalog entry fails, the whole catalog pass fails with that error |
| Loader.PolicyTitle | src/venturalitica/loader.py:41 | a title is read only from a mapping object |
| Loader.AddRequirements | src/venturalitica/loader.py:71-72 | the requirements of one implementation are added in order, each appending its controls |
| Loader.AddImplementations | src/venturalitica/loader.py:70-72 | every implementation's requirements are added, implementation by implementation |
| Loader.ParseGenericOscal | src/venturalitica/loader.py:39-80 | the parsed policy is the title plus the implementation controls followed by the catalog controls |
| Loader.CollectControls | src/venturalitica/loader.py:44-78 | the controls are those of the implementations (with the inventory) and then those of the catalog |
| Loader.ParseFlatList | src/venturalitica/loader.py:159-172 | the loop over a flat list builds exactly the flat policy |
| Loader.SelectRoot | src/venturalitica/loader.py:30 | the chosen root key is present and no earlier root key is; none is chosen only when none of them is present |
| Loader.Load | src/venturalitica/loader.py:19-37 | loading gives the generic OSCAL policy of the first root object, else the flat-list policy, else ValueError |
| Loader.MissingFileRefused | src/venturalitica/loader.py:16-17 | a missing policy file is refused with FileNotFoundError and its path in the message |
| Loader.UnsupportedMapping | src/venturalitica/loader.py:34-37 | a mapping with none of the four root keys is refused with the unsupported-format ValueError |
| Loader.FirstRootWins | src/venturalitica/loader.py:30-33 | the first of assessment-plan, catalog, profile, component-definition present decides the parse, titled "Embedded Policy" for an in-memory dictionary |
| Loader.InputPropBindsRole | src/venturalitica/loader.py:97-105 | an `input:<role>` prop binds the role to its value and appends the value to the required variables, leaving severity and metric key alone |
| Loader.DirectPropsYieldOne | src/venturalitica/loader.py:107-119 | a requirement with direct metric props yields exactly one control, whatever its links, with the props' key, severity and inputs and the stated defaults |
| Loader.LinkControlsCount | src/venturalitica/loader.py:121-138 | link hunting yields one control per `#uuid` link to an inventory item with a metric_key, each with the requirement's id, description and severity |
| Loader.HasAllOnDict | src/venturalitica/loader.py:163 | the completeness test of a flat record is `all(k in item for k in keys)` |
| Loader.FlatStepShape | src/venturalitica/loader.py:162-171 | a flat record adds one control exactly when it is complete, with no inputs |
| Loader.FlatKeepsComplete | src/venturalitica/loader.py:162-171 | a flat list keeps exactly its complete records, in order, each without inputs |
| Loader.FlatPolicyShape | src/venturalitica/loader.py:159-172 | a flat policy is titled "Flat Policy" and holds one control per complete record |
| Binding.FirstPresent | src/venturalitica/binding.py:90-93 | the candidate found is the first of the group present among the columns; none is found exactly when no candidate is a column |
| Binding.ScanGroupsResult | src/venturalitica/binding.py:86-95 | the synonym scan leaves `found` alone or sets it to a column |
| Binding.ResolvedIsColumnOrItem | src/venturalitica/binding.py:81-105 | each resolved name is a column of the frame or the item itself |
| Binding.FirstSynonym | src/venturalitica/binding.py:88-95 | a synonym found comes from a group that lists the item (or is keyed by it) and is that group's first present candidate |
| Binding.ScanIsFirstSynonym | src/venturalitica/binding.py:86-95 | with no empty column name, the scan loop finds exactly the first matching group's first present candidate |
| Binding.ResolveColNames | src/venturalitica/binding.py:48-107 | anything but text or a list is returned unchanged; otherwise one resolved name per part, in order, each resolved against the frame and the synonym table (the default one when none is given) |
| Binding.DoubledCandidatesHarmless | src/venturalitica/binding.py:141 | scanning the synonym list twice over finds the same column as scanning it once |
| Binding.FirstPresentAppend | src/venturalitica/binding.py:141-143 | scanning two candidate lists in a row finds the first list's column when it has one, else the second's |
| Binding.DiscoverColumn | src/venturalitica/binding.py:110-149 | a non-empty mapping entry wins; otherwise the name itself when it is a column, else the first synonym present (the doubled list finds what one pass finds), else its lower case when that is a column, else "MISSING" |
| Binding.DiscoverFallsThrough | src/venturalitica/binding.py:131-149 | with no mapping entry, the name absent, its lower case absent and no synonym present, the answer is "MISSING" |
| Core.StrictDetection | src/venturalitica/core.py:22-27 | a validator is strict exactly when asked to be, or CI is "true", or VENTURALITICA_STRICT is "true" |
| Core.NewValidator | src/venturalitica/core.py:10-64 | a ready policy is taken as is; an in-memory OSCAL mapping is loaded and a stored path read through storage, the validator holding exactly the loaded or stored policy and failing with exactly their error; the strictness is the detected one |
| Core.OperatorTable | src/venturalitica/core.py:234-250 | each symbolic operator and its two-letter alias compare the value with the threshold the same way; an unknown operator never passes |
| Core.OperatorNegations | src/venturalitica/core.py:236-249 | "!=" is the negation of "==", "<=" of ">", ">=" of "<" |
| Core.BindWith | src/venturalitica/core.py:123-141 | a role takes its mapped column when the mapping has a non-empty one; otherwise the variable itself when it is a column, else the first synonym present, else "MISSING" |
| Core.Unresolved | src/venturalitica/core.py:147-149 | the unresolved roles are exactly the input roles bound to "MISSING" |
| Core.SeedGet | src/venturalitica/core.py:104-107 | the evaluation context starts with only target and prediction, when mapped |
| Core.ForwardGet | src/venturalitica/core.py:111-113 | forwarding adds each mapping entry whose key the context does not yet hold |
| Core.StartContextGet | src/venturalitica/core.py:101-113 | before binding, the context reads every key as the mapping does |
| Core.BindAllGet | src/venturalitica/core.py:116-144 | after binding, each input role reads its bound value and every other key what it read before |
| Core.ContextBinding | src/venturalitica/core.py:101-144 | the evaluation context gives each input role its bound column and every other key the caller's mapping |
| Core.BuildContext | src/venturalitica/core.py:101-144 | the two loops build exactly the evaluation context |
| Core.ForwardLoop | src/venturalitica/core.py:103-113 | the seeding and forwarding loop builds exactly the forwarded context |
| Core.BindLoop | src/venturalitica/core.py:116-144 | the binding loop binds every input role in order |
| Core.EvalControl | src/venturalitica/core.py:87-196 | an unregistered metric and an unresolved role are ValueErrors; otherwise the evaluation succeeds exactly when the metric returns, its exception passes through unchanged, and the result carries the control's fields, the metric's value and metadata (empty for a bare value) and passes exactly when the comparison holds |
| Core.EvaluateControl | src/venturalitica/core.py:88-196 | the per-control body computes exactly the control's result or error |
| Core.ComputeAndEvaluate | src/venturalitica/core.py:66-209 | the loop over the controls gives the strict or lenient gathering of their results, with the argument's strictness overriding the validator's |
| Core.LenientDrops | src/venturalitica/core.py:91-96 | lenient evaluation never fails and keeps exactly the controls that evaluate, each result coming from one control |
| Core.StrictAllOrNothing | src/venturalitica/core.py:91-94 | strict evaluation succeeds exactly when every control evaluates, and then gives one result per control, in order |
| Core.StrictUnknownMetricRaises | src/venturalitica/core.py:91-94 | in strict mode a control with no registered metric makes the whole evaluation fail |
| Core.EvaluateSpec | src/venturalitica/core.py:211-232 | at most one result per control |
| Core.Evaluate | src/venturalitica/core.py:211-232 | the loop over the controls gives exactly the precomputed-metric results |
| Core.EvaluateComplete | src/venturalitica/core.py:214-231 | when every control's metric is given, there is one result per control, in order, each with that metric's value and no metadata |
| Core.ResultForShape | src/venturalitica/core.py:184-196 | a result carries the control's id and metric key, the value and metadata, and passes exactly when the comparison holds |
| Core.EvaluateSkipsAbsent | src/venturalitica/core.py:215-217 | controls whose metric is absent are skipped |
| Api.RoleFor | src/venturalitica/api.py:127-143 | a named column present in the data is used as given; otherwise the role is discovered through the synonyms, and left unmapped exactly when discovery answers "MISSING" |
| Api.MappingRoles | src/venturalitica/api.py:123-145 | the mapping gives the extra attributes precedence, then target and prediction as found, and nothing else |
| Api.DataPrecedence | src/venturalitica/api.py:122-149 | data, when given, decides the run whatever metrics are passed; with neither a loaded policy gives no results |
| Api.CollectedAppend | src/venturalitica/api.py:116-152 | the results of two runs of policies in a row are the concatenation of each run's results |
| Api.LenientLoop | src/venturalitica/api.py:116-163 | without strict, the policy loop never fails and concatenates the results of the policies that ran |
| Api.StrictLoop | src/venturalitica/api.py:157-162 | with strict, the loop succeeds exactly when every policy runs or is a missing file, and then concatenates the same results |
| Api.LenientConcatenates | src/venturalitica/api.py:98-163 | lenient `enforce` over a list of policies returns the concatenated results of those that ran |
| Api.StrictRaises | src/venturalitica/api.py:157-162 | strict `enforce` fails exactly when some policy fails for a reason other than a missing file |
| Api.MissingFileSkipped | src/venturalitica/api.py:157-158 | a missing policy file is skipped in both modes: the loop ends as if it were not listed |
| Api.SinglePolicy | src/venturalitica/api.py:113 | a single policy is run as a one-element list |
| Api.SingleLoop | src/venturalitica/api.py:113-152 | a one-element list that runs returns that policy's results |
| Api.Session.Enforce | src/venturalitica/api.py:110-111 | enforcing marks the session enforced and returns the results of the policy loop |
| Api.RunAll | src/venturalitica/api.py:116-163 | the policy loop computes exactly the strict or lenient fold over the policies |
| Api.StepOutcome | src/venturalitica/api.py:118-163 | one policy's turn appends its results, skips it, or stops the loop with its error, by its outcome and strictness |
| Api.RunOne | src/venturalitica/api.py:119-149 | one policy's run builds the validator and evaluates the data or the metrics |
| Api.Normalised | src/venturalitica/api.py:181-193 | cached results held in a mapping become its "metrics" list, else its "post_metrics" list, else all its list values flattened; anything else is kept |
| Api.CachedThenFresh | src/venturalitica/api.py:173-198 | a cache that is absent, a list or a mapping combines with the new results, which come last; any other cached value fails the caching |
| Api.Flatten | src/venturalitica/api.py:189-193 | the flattening loop concatenates the mapping's list values in order |
| Api.FlattenedItems | src/venturalitica/api.py:189-193 | an item is flattened exactly when some list value of the mapping holds it |
| Registry.AsOutcome | src/venturalitica/metrics/__init__.py:10-12 | a metric that returns a number or raises keeps its value as a bare result, or its error |
| Registry.Metrics | src/venturalitica/metrics/__init__.py:5-14 | the registry holds exactly the eight metric keys |
| Registry.RegistryBindings | src/venturalitica/metrics/__init__.py:5-14 | each key is bound to its metric function, called with the data and the keyword arguments |
| Registry.RegistryBareValues | src/venturalitica/metrics/__init__.py:5-14 | every registered metric that returns gives a bare value, never a (value, metadata) pair |
| Registry.ScoresFailOnlyInScorer | src/venturalitica/metrics/__init__.py:6-9 | with target or prediction unusable the four scores return 0.0; otherwise each is exactly scikit-learn's score of the two columns, raising what it raises |
| Registry.ClassImbalanceNeverFails | src/venturalitica/metrics/__init__.py:13 | class imbalance never raises: it returns its value as a bare result |
| DataMetrics.SupportedGroups | src/venturalitica/metrics/data.py:24-25 | a group is kept exactly when it has at least 5 rows |
| DataMetrics.RatioOfRatesWithin | src/venturalitica/metrics/data.py:37-40 | min over max of non-negative rates lies in [0, 1] |
| DataMetrics.RatioOfEqualRates | src/venturalitica/metrics/data.py:37-40 | equal rates give a ratio of exactly 1 |
| DataMetrics.SupportedRates | src/venturalitica/metrics/data.py:37-38 | one outcome rate per supported group |
| DataMetrics.DisparateImpactOn | src/venturalitica/metrics/data.py:11-40 | an unbound outcome or dimension, or fewer than two supported groups, gives 1.0; failures come only from the fairlearn path: a KeyError on an unusable target, else fairlearn's own result over the rows of the supported groups |
| DataMetrics.DisparateImpactWithin | src/venturalitica/metrics/data.py:11-40 | without fairlearn and with a non-negative outcome, disparate impact never fails and lies in [0, 1] |
| DataMetrics.DisparateImpact | src/venturalitica/metrics/data.py:13-15 | with no prediction mapped at all, disparate impact is 1.0 |
| DataMetrics.ClassImbalance | src/venturalitica/metrics/data.py:42-48 | an unbound target or a single class gives 0.0; two classes or more give a ratio in (0, 1] |
| DataMetrics.CountRatio | src/venturalitica/metrics/data.py:46-48 | the rarest over the most common count is 0 for fewer than two classes, else in (0, 1] |
| Performance.GuardsAgree | src/venturalitica/metrics/performance.py:8-17 | accuracy's guard (None or "MISSING") refuses exactly what the other scores' guard refuses |
| Performance.Accuracy | src/venturalitica/metrics/performance.py:5-12 | 0.0 when target or prediction is unbound, else exactly scikit-learn's accuracy of the two columns, including its ValueError |
| Performance.Precision | src/venturalitica/metrics/performance.py:14-21 | 0.0 when target or prediction is unbound, else exactly scikit-learn's precision of the two columns, including its ValueError |
| Performance.Recall | src/venturalitica/metrics/performance.py:23-30 | 0.0 when target or prediction is unbound, else exactly scikit-learn's recall of the two columns, including its ValueError |
| Performance.F1 | src/venturalitica/metrics/performance.py:32-39 | 0.0 when target or prediction is unbound, else exactly scikit-learn's F1 of the two columns, including its ValueError |
| Performance.MeanScore | src/venturalitica/metrics/performance.py:41-46 | 0.0 for an unbound target; a TypeError exactly when its column holds text; else the mean of its numbers |
| Performance.MeanScoreWithin | src/venturalitica/metrics/performance.py:41-46 | a successful mean of a column within bounds around 0 stays within those bounds |
| FairnessMetrics.RequireRoles | src/venturalitica/metrics/fairness.py:24-43 | the metric proceeds exactly when target, prediction and dimension are each set, not "MISSING", and a column; otherwise ValueError |
| FairnessMetrics.AsValueError | src/venturalitica/metrics/fairness.py:45-51 | a fairlearn failure is re-raised as ValueError; a fairlearn value is kept |
| FairnessMetrics.PositiveRates | src/venturalitica/metrics/fairness.py:54-55 | one positive-prediction rate per group |
| FairnessMetrics.DemographicParity | src/venturalitica/metrics/fairness.py:11-60 | unbound roles raise ValueError; with fairlearn the value is its demographic parity difference of the three columns, its failure re-raised as ValueError; without it the value exists exactly when there is a group and is max minus min of the groups' positive rates |
| FairnessMetrics.DemographicParityWithin | src/venturalitica/metrics/fairness.py:15-19 | on binary predictions the fallback demographic parity lies in [0, 1] |
| FairnessMetrics.EqualOpportunity | src/venturalitica/metrics/fairness.py:104-123 | the group loop collects the true-positive rates of the groups that have positives and returns their range |
| FairnessMetrics.EqualOpportunityWithin | src/venturalitica/metrics/fairness.py:104-123 | on binary predictions the value lies in [0, 1]; it fails exactly when no group has a positive sample |
| FairnessMetrics.TprsWithin | src/venturalitica/metrics/fairness.py:106-115 | on binary predictions every group's true-positive rate lies in [0, 1] |
| FairnessMetrics.FprsWithin | src/venturalitica/metrics/fairness.py:163-166 | every group's false-positive rate lies in [0, 1] |
| FairnessMetrics.EqualizedOdds | src/venturalitica/metrics/fairness.py:125-177 | the loop computes the TPR range plus the FPR range, failing when either list is empty |
| FairnessMetrics.CollectBoth | src/venturalitica/metrics/fairness.py:155-169 | the single loop over the groups collects both the TPRs and the FPRs of the groups that have them |
| FairnessMetrics.EqualizedOddsWithin | src/venturalitica/metrics/fairness.py:129-134 | on binary predictions equalized odds lies in [0, 2] |
| FairnessMetrics.PredictiveParity | src/venturalitica/metrics/fairness.py:179-212 | the loop collects the precision of every group with a positive prediction and returns their range |
| FairnessMetrics.PredictiveParityWithin | src/venturalitica/metrics/fairness.py:185-186 | predictive parity lies in [0, 1] |
| FairnessMetrics.ClassWeights | src/venturalitica/metrics/fairness.py:290 | one non-negative weight per class |
| FairnessMetrics.AggregateWithin | src/venturalitica/metrics/fairness.py:285-293 | max, macro and micro aggregation of parities in [0, 1] with weights summing to at most 1 stay in [0, 1] |
| FairnessMetrics.MulticlassSpec | src/venturalitica/metrics/fairness.py:240-293 | a multi-class value exists only with bound roles and at least two target classes |
| FairnessMetrics.MulticlassDemographicParity | src/venturalitica/metrics/fairness.py:219-293 | computes the one-vs-rest demographic parity aggregated by the requested method |
| FairnessMetrics.MulticlassEqualOpportunity | src/venturalitica/metrics/fairness.py:296-361 | computes the one-vs-rest TPR parity aggregated by the requested method |
| FairnessMetrics.MulticlassLoop | src/venturalitica/metrics/fairness.py:263-283 | the loop over the classes collects each class's parity and aggregates them |
| FairnessMetrics.ClassWeightsSum | src/venturalitica/metrics/fairness.py:290 | the class frequency weights sum to at most 1 |
| FairnessMetrics.WeightsBelowCounts | src/venturalitica/metrics/fairness.py:290 | the weights of some classes sum to at most their row count over the number of rows |
| FairnessMetrics.MulticlassWithin | src/venturalitica/metrics/fairness.py:233-235 | per-class parities in [0, 1] give a multi-class value in [0, 1] |
| FairnessMetrics.DpPerClassWithin | src/venturalitica/metrics/fairness.py:266-280 | every one-vs-rest demographic parity lies in [0, 1] |
| FairnessMetrics.EoPerClassWithin | src/venturalitica/metrics/fairness.py:334-349 | every one-vs-rest TPR parity lies in [0, 1] |
| ConfusionMetrics.F1Within | src/venturalitica/metrics/fairness.py:428 | F1 of a precision and a recall in [0, 1] lies in [0, 1] |
| ConfusionMetrics.F1OfEqual | src/venturalitica/metrics/fairness.py:428 | F1 of equal precision and recall is that value |
| ConfusionMetrics.StatsOf | src/venturalitica/metrics/fairness.py:417-435 | a class's precision, recall and F1 lie in [0, 1] and its support is its number of target rows |
| ConfusionMetrics.Share | src/venturalitica/metrics/fairness.py:411 | a class's share of the rows lies in [0, 1] |
| ConfusionMetrics.GroupAccuracy | src/venturalitica/metrics/fairness.py:441-447 | a group's accuracy lies in [0, 1] |
| ConfusionMetrics.Precisions | src/venturalitica/metrics/fairness.py:437 | one precision per class |
| ConfusionMetrics.Recalls | src/venturalitica/metrics/fairness.py:438 | one recall per class |
| ConfusionMetrics.MulticlassConfusion | src/venturalitica/metrics/fairness.py:364-456 | the loops build exactly the confusion report, or the role ValueError |
| ConfusionMetrics.TabulateLoop | src/venturalitica/metrics/fairness.py:410-411 | a loop over the keys builds the dictionary of their values, in order |
| ConfusionMetrics.ReportWithin | src/venturalitica/metrics/fairness.py:400-454 | every rate of the report lies in [0, 1] |
| ConfusionMetrics.MacroWithin | src/venturalitica/metrics/fairness.py:450-452 | macro precision and recall lie in [0, 1] |
| ConfusionMetrics.ReportPerClass | src/venturalitica/metrics/fairness.py:417-435 | the report has an entry exactly for each class of the target, holding that class's statistics; the class count is the number of entries |
| ConfusionMetrics.AbsentClassHasNoRecall | src/venturalitica/metrics/fairness.py:427-434 | a class no row belongs to has support 0 and recall 0 |
| ConfusionMetrics.DistributionSumsToOne | src/venturalitica/metrics/fairness.py:410-411 | with no missing targets, the class distribution sums to 1 |
| ConfusionMetrics.SharesSum | src/venturalitica/metrics/fairness.py:410-411 | the shares of some classes sum to their rows over all rows |
| Privacy.QuasiIdentifiers | src/venturalitica/assurance/privacy/metrics.py:39-56 | a one-element list holding a comma is split into its trimmed non-empty parts; any other list is kept |
| Privacy.TextSplitOnce | src/venturalitica/assurance/privacy/metrics.py:42-45 | a comma-separated text gives its trimmed non-empty parts |
| Privacy.GroupSizes | src/venturalitica/assurance/privacy/metrics.py:72 | one size per quasi-identifier group, each that group's row count |
| Privacy.SmallestGroup | src/venturalitica/assurance/privacy/metrics.py:72-75 | the smallest group size: at most every group's size and equal to one of them, at least 1, and 0 exactly when there is no group |
| Privacy.KAnonymity | src/venturalitica/assurance/privacy/metrics.py:12-77 | k-anonymity is defined exactly when the quasi-identifiers are given and all are columns (else ValueError), and is then the smallest group size |
| Privacy.KAtLeastOne | src/venturalitica/assurance/privacy/metrics.py:72-77 | a table with one row complete in its quasi-identifiers has k of at least 1 |
| Privacy.Checked | src/venturalitica/assurance/privacy/metrics.py:99-115 | l-diversity and t-closeness proceed exactly when the quasi-identifiers and the sensitive attribute are given and are columns; a missing argument is a ValueError |
| Privacy.DistinctCounts | src/venturalitica/assurance/privacy/metrics.py:118-119 | one count per group, each the number of distinct sensitive values in that group |
| Privacy.LDiversity | src/venturalitica/assurance/privacy/metrics.py:80-124 | l-diversity is defined exactly when the arguments check, and is the fewest distinct sensitive values of any group: at most each group's count and equal to one of them; 0 for an empty grouping, where the source gives NaN |
| Privacy.LDiversityAtMostK | src/venturalitica/assurance/privacy/metrics.py:12-124 | l-diversity never exceeds k-anonymity on the same quasi-identifiers |
| Privacy.L1 | src/venturalitica/assurance/privacy/metrics.py:175-178 | the L1 sum is non-negative |
| Privacy.L1Bound | src/venturalitica/assurance/privacy/metrics.py:175-178 | the L1 sum is at most the sum of both distributions' shares |
| Privacy.AllValues | src/venturalitica/assurance/privacy/metrics.py:172 | the union of values has no duplicates and no missing value |
| Privacy.DistanceWithin | src/venturalitica/assurance/privacy/metrics.py:168-180 | a group's halved L1 distance from the whole table lies in [0, 1] |
| Privacy.Distances | src/venturalitica/assurance/privacy/metrics.py:168-181 | one distance per group |
| Privacy.Peak | src/venturalitica/assurance/privacy/metrics.py:166-181 | the running maximum from 0 is non-negative, at least every distance, and 0 or one of them |
| Privacy.TClosenessWithin | src/venturalitica/assurance/privacy/metrics.py:127-183 | t-closeness is defined exactly when the arguments check, lies in [0, 1] and bounds every group's distance |
| Privacy.TCloseness | src/venturalitica/assurance/privacy/metrics.py:146-183 | the loop over the groups computes exactly the largest distance |
| Privacy.GroupDistance | src/venturalitica/assurance/privacy/metrics.py:172-180 | the loop over the values computes exactly the halved L1 distance |
| Privacy.Explicit | src/venturalitica/assurance/privacy/metrics.py:196-198 | the given sensitive columns are empty exactly when none were given |
| Privacy.Clamp | src/venturalitica/assurance/privacy/metrics.py:230 | clamping lands in [0, 1] |
| Privacy.DataMinimization | src/venturalitica/assurance/privacy/metrics.py:186-230 | the score lies in [0, 1]; with no sensitive columns given or detected it is 1.0; otherwise it is 1 minus their share of the columns, clamped; a given column that is absent is a ValueError |
| QualityMetrics.Outcome | src/venturalitica/assurance/quality/metrics.py:39 | the audited outcome is the prediction when it is set and not "MISSING", else the target |
| QualityMetrics.DisparateImpact | src/venturalitica/assurance/quality/metrics.py:33-68 | an unbound outcome or dimension, or fewer than two groups with 5 rows, gives 1.0 |
| QualityMetrics.TargetAudited | src/venturalitica/assurance/quality/metrics.py:39 | with no prediction the target itself is audited, where the registry's variant returns 1.0 |
| QualityMetrics.DisparateImpactWithin | src/venturalitica/assurance/quality/metrics.py:64-68 | without fairlearn and with outcomes in [0, 1], the ratio never fails and lies in [0, 1] |
| QualityMetrics.TargetColumn | src/venturalitica/assurance/quality/metrics.py:77-81 | the target (or `input:target`) is accepted exactly when it is set and a column; otherwise ValueError |
| QualityMetrics.ClassImbalance | src/venturalitica/assurance/quality/metrics.py:71-94 | the imbalance is 0 exactly when fewer than two classes are present, else the rarest over the most common count, within [0, 1]; a bad target is a ValueError |
| QualityMetrics.BalancedClasses | src/venturalitica/assurance/quality/metrics.py:90-94 | classes of equal size give an imbalance of exactly 1 |
| QualityMetrics.EqualCounts | src/venturalitica/assurance/quality/metrics.py:90-94 | equal counts give a ratio of 1 |
| QualityMetrics.NumericColumn | src/venturalitica/assurance/quality/metrics.py:130 | coercion to numbers keeps one cell per row |
| QualityMetrics.TopShare | src/venturalitica/assurance/quality/metrics.py:131-135 | the share of the maximal value among the numbers: 0 for none, else its count over the number of numbers, within [0, 1] |
| QualityMetrics.PositiveRate | src/venturalitica/assurance/quality/metrics.py:128-137 | a group's positive rate lies in [0, 1] |
| QualityMetrics.SmallestRate | src/venturalitica/assurance/quality/metrics.py:140-143 | the minimum rate is 0 for no groups, else at most every rate and equal to one |
| QualityMetrics.GroupMinPositiveRateSpec | src/venturalitica/assurance/quality/metrics.py:97-145 | missing roles or dimension column are ValueErrors and a missing target column a KeyError once there is a group; otherwise one rate per group, keyed in first-appearance order, and the minimum of them |
| QualityMetrics.GroupMinPositiveRateWithin | src/venturalitica/assurance/quality/metrics.py:140-145 | the minimum and every group rate lie in [0, 1], the minimum below each rate |
| QualityMetrics.GroupMinPositiveRate | src/venturalitica/assurance/quality/metrics.py:104-145 | the method computes exactly the specified minimum and per-group rates |
| QualityMetrics.RateTable | src/venturalitica/assurance/quality/metrics.py:125-138 | the group loop fails with KeyError exactly when there is a group and the target is not a column, else tabulates each group's rate |
| QualityMetrics.Filled | src/venturalitica/assurance/quality/metrics.py:159 | a column's filled fraction lies in [0, 1] |
| QualityMetrics.FilledFractions | src/venturalitica/assurance/quality/metrics.py:157-159 | one filled fraction per column, in order |
| QualityMetrics.DataCompleteness | src/venturalitica/assurance/quality/metrics.py:148-160 | the loop over the columns computes exactly the mean filled fraction, 0 for an empty table |
| QualityMetrics.CompletenessWithin | src/venturalitica/assurance/quality/metrics.py:149-152 | completeness lies in [0, 1] |
| QualityMetrics.FullFrame | src/venturalitica/assurance/quality/metrics.py:148-160 | a non-empty table with no missing cell is complete: 1.0 |
| QualityMetrics.FullColumn | src/venturalitica/assurance/quality/metrics.py:159 | a column with no missing cell has filled fraction 1 |
| EsgMetrics.Percent | src/venturalitica/assurance/quality/esg_metrics.py:30 | a class's percentage lies in [0, 100] |
| EsgMetrics.ClassificationDistribution | src/venturalitica/assurance/quality/esg_metrics.py:11-41 | a bad target is a ValueError; the percentages cover exactly the present classes; the score is 0 for zero or one class, else in (0, 1] |
| EsgMetrics.DistributionScoreIsImbalance | src/venturalitica/assurance/quality/esg_metrics.py:11-41 | the diversity score is the class imbalance of the same target, failing on the same inputs |
| EsgMetrics.PercentagesSumToHundred | src/venturalitica/assurance/quality/esg_metrics.py:29-30 | the unrounded percentages sum to 100 |
| EsgMetrics.PercentSum | src/venturalitica/assurance/quality/esg_metrics.py:30 | the percentages of some classes sum to 100 times their share |
| EsgMetrics.ReportCoverage | src/venturalitica/assurance/quality/esg_metrics.py:44-62 | a bad target is a ValueError; coverage is distinct reports over rows, within [0, 1], and 0 exactly when there is no report |
| EsgMetrics.DistinctReportsCovered | src/venturalitica/assurance/quality/esg_metrics.py:56-62 | one report per row gives coverage 1 |
| EsgMetrics.Fields | src/venturalitica/assurance/quality/esg_metrics.py:71-81 | the required fields are never empty: the defaults when none are given, the text itself when it is not a literal list |
| EsgMetrics.ProvenanceCompleteness | src/venturalitica/assurance/quality/esg_metrics.py:65-87 | 0 when a field is not a column, else the share of rows with every field filled, within [0, 1] |
| EsgMetrics.FullyTraceable | src/venturalitica/assurance/quality/esg_metrics.py:83-87 | every row traceable gives completeness 1 |
| EsgMetrics.ReportColumns | src/venturalitica/assurance/quality/esg_metrics.py:96-105 | chunk and subtitle diversity proceed exactly when target and dimension are set and columns, else ValueError |
| EsgMetrics.ChunkCount | src/venturalitica/assurance/quality/esg_metrics.py:107 | a report has at most as many distinct chunks as rows |
| EsgMetrics.ChunkDiversity | src/venturalitica/assurance/quality/esg_metrics.py:90-111 | one chunk count per report, reports in first-appearance order, each at most its rows, and the score their mean |
| EsgMetrics.ChunkDiversityWithin | src/venturalitica/assurance/quality/esg_metrics.py:107-111 | the mean chunk count lies between 0 and the number of rows |
| EsgMetrics.SubtitleScore | src/venturalitica/assurance/quality/esg_metrics.py:143-147 | the normalised mean lies in [0, 1]; 0 exactly when every count is 0 |
| EsgMetrics.SubtitleDiversityAsWritten | src/venturalitica/assurance/quality/esg_metrics.py:132-147 | as written, the per-report value is never a text or list, so the score is always 0 |
| EsgMetrics.Subtitles | src/venturalitica/assurance/quality/esg_metrics.py:138 | the distinct subtitles of a report include every trimmed part of its texts, without duplicates |
| EsgMetrics.AllParts | src/venturalitica/assurance/quality/esg_metrics.py:138 | every comma part of the report's texts is gathered |
| EsgMetrics.SubtitleDiversity | src/venturalitica/assurance/quality/esg_metrics.py:114-147 | corrected: counts each report's distinct comma-separated subtitles; fails exactly on bad roles and lies in [0, 1] |
| EsgMetrics.SubtitleDiversityDiffers | src/venturalitica/assurance/quality/esg_metrics.py:134-140 | a report with one non-empty subtitle gives a positive corrected score where the code as written gives 0 |
| BinaryFairness.Fairlearn | src/venturalitica/assurance/fairness/fairness_binary.py:24-27 | the fairlearn path reads the target, outcome and dimension columns, failing with KeyError when one is unset or absent |
| BinaryFairness.OutcomeMeans | src/venturalitica/assurance/fairness/fairness_binary.py:29-30 | one outcome mean per group |
| BinaryFairness.DemographicParity | src/venturalitica/assurance/fairness/fairness_binary.py:12-31 | an unset outcome or dimension is a ValueError; without fairlearn, an absent dimension, or an absent outcome once there is a group, is a KeyError, and no groups give 0 |
| BinaryFairness.DemographicParityWithin | src/venturalitica/assurance/fairness/fairness_binary.py:29-31 | on a binary outcome the parity lies in [0, 1] |
| BinaryFairness.DemographicParityZero | src/venturalitica/assurance/fairness/fairness_binary.py:29-31 | the parity is 0 exactly when every group has the same outcome mean |
| BinaryFairness.EqualOpportunitySpec | src/venturalitica/assurance/fairness/fairness_binary.py:43-44 | an unset target, outcome or dimension is a ValueError |
| BinaryFairness.EqualOpportunityWith | src/venturalitica/assurance/fairness/fairness_binary.py:51-59 | the group loop collects one rate per group with positives and returns their range, 0 when there is none |
| BinaryFairness.RateLoop | src/venturalitica/assurance/fairness/fairness_binary.py:51-56 | the loop over the groups raises a KeyError for a missing target column, or for a missing outcome column once a group has positives; otherwise it collects, in group order, the rate of every group that yields one |
| BinaryFairness.ManualGapOk | src/venturalitica/assurance/fairness/fairness_binary.py:51-59 | with all three columns present, the manual path returns the range of the collected rates, 0 when there is none |
| BinaryFairness.EqualOpportunityAsWritten | src/venturalitica/assurance/fairness/fairness_binary.py:53-56 | as written, each group with positives contributes its whole-group outcome mean |
| BinaryFairness.EqualOpportunity | src/venturalitica/assurance/fairness/fairness_binary.py:34-59 | corrected: each group with positives contributes the outcome mean over its positives, its true-positive rate |
| BinaryFairness.EqualOpportunityWithin | src/venturalitica/assurance/fairness/fairness_binary.py:35 | on a binary outcome the corrected difference lies in [0, 1] |
| BinaryFairness.PerfectTpr | src/venturalitica/assurance/fairness/fairness_binary.py:54-56 | a perfect predictor has a true-positive rate of 1 in every group |
| BinaryFairness.PerfectFpr | src/venturalitica/assurance/fairness/fairness_binary.py:77-79 | a perfect predictor has a false-positive rate of 0 in every group |
| BinaryFairness.EqualOpportunityPerfect | src/venturalitica/assurance/fairness/fairness_binary.py:34-59 | a perfect predictor has a corrected equal-opportunity difference of 0 |
| BinaryFairness.WholeGroupBelowOne | src/venturalitica/assurance/fairness/fairness_binary.py:56 | with a perfect predictor, a group holding a negative row has a whole-group mean below 1 |
| BinaryFairness.WholeGroupOne | src/venturalitica/assurance/fairness/fairness_binary.py:56 | with a perfect predictor, an all-positive group has a whole-group mean of 1 |
| BinaryFairness.EqualOpportunityAsWrittenDiffers | src/venturalitica/assurance/fairness/fairness_binary.py:56 | a perfect predictor over one mixed group and one all-positive group scores above 0 as written and exactly 0 when corrected |
| BinaryFairness.RequireSet | src/venturalitica/assurance/fairness/fairness_binary.py:68-69 | the metric proceeds exactly when target, prediction and dimension are set and not "MISSING"; otherwise ValueError |
| BinaryFairness.EqualizedOdds | src/venturalitica/assurance/fairness/fairness_binary.py:62-86 | the method computes exactly the TPR range plus the FPR range, 0 when either list is empty |
| BinaryFairness.OddsLoop | src/venturalitica/assurance/fairness/fairness_binary.py:71-86 | the group loop collects the TPRs and FPRs, failing with KeyError at the first absent column a group reads |
| BinaryFairness.EqualizedOddsWithin | src/venturalitica/assurance/fairness/fairness_binary.py:62-86 | on binary predictions equalized odds lies in [0, 2] |
| BinaryFairness.EqualizedOddsPerfect | src/venturalitica/assurance/fairness/fairness_binary.py:62-86 | a perfect predictor has equalized odds of 0 |
| BinaryFairness.PredictiveParity | src/venturalitica/assurance/fairness/fairness_binary.py:89-106 | the loop collects each group's precision where it predicted a positive and returns their range, 0 when none |
| BinaryFairness.PredictiveParityWithin | src/venturalitica/assurance/fairness/fairness_binary.py:89-106 | predictive parity lies in [0, 1] |
| SimpleMulticlass.ClassSweep | src/venturalitica/assurance/fairness/fairness_multiclass_simple.py:20-25 | the only failure of the class loop is pandas' KeyError |
| SimpleMulticlass.ClassLoop | src/venturalitica/assurance/fairness/fairness_multiclass_simple.py:20-25 | the loop over the classes collects each class's parity where it has one |
| SimpleMulticlass.Parities | src/venturalitica/assurance/fairness/fairness_multiclass_simple.py:15-16 | unset roles are a ValueError |
| SimpleMulticlass.ParitiesLoop | src/venturalitica/assurance/fairness/fairness_multiclass_simple.py:15-25 | the method computes exactly the per-class parities |
| SimpleMulticlass.DemographicParity | src/venturalitica/assurance/fairness/fairness_multiclass_simple.py:6-29 | computes the one-vs-rest parities aggregated as macro mean or maximum, 0 when there is none |
| SimpleMulticlass.EqualOpportunity | src/venturalitica/assurance/fairness/fairness_multiclass_simple.py:32-57 | computes the largest one-vs-rest TPR parity, 0 when there is none |
| SimpleMulticlass.ParitiesValue | src/venturalitica/assurance/fairness/fairness_multiclass_simple.py:18-25 | the parities are those of the distinct target classes, in order, that have one |
| SimpleMulticlass.ParitiesWithin | src/venturalitica/assurance/fairness/fairness_multiclass_simple.py:18-25 | per-class parities in [0, 1] stay in [0, 1] |
| SimpleMulticlass.DemographicParityWithin | src/venturalitica/assurance/fairness/fairness_multiclass_simple.py:6-29 | the multi-class demographic parity lies in [0, 1] |
| SimpleMulticlass.EqualOpportunityWithin | src/venturalitica/assurance/fairness/fairness_multiclass_simple.py:32-57 | the multi-class equal opportunity lies in [0, 1] |
| SimpleMulticlass.MacroBelowMax | src/venturalitica/assurance/fairness/fairness_multiclass_simple.py:29 | the macro aggregation never exceeds the maximum one on the same data |
| SimpleMulticlass.EqualOpportunityPerfect | src/venturalitica/assurance/fairness/fairness_multiclass_simple.py:32-57 | a perfect predictor has multi-class equal opportunity 0 |
| SimpleMulticlass.PerfectClassSpread | src/venturalitica/assurance/fairness/fairness_multiclass_simple.py:49-55 | with a perfect predictor every class's TPR parity is 0 |
| SimpleMulticlass.PerfectClassTpr | src/venturalitica/assurance/fairness/fairness_multiclass_simple.py:50 | with a perfect predictor every class-and-group TPR is 1 |
| SimpleMulticlass.ColumnName | src/venturalitica/assurance/fairness/fairness_multiclass_simple.py:68 | reading a column succeeds exactly when the role is set and a column, else KeyError |
| SimpleMulticlass.ScoresOf | src/venturalitica/assurance/fairness/fairness_multiclass_simple.py:72-79 | a class's precision and recall lie in [0, 1] |
| SimpleMulticlass.ConfusionColumns | src/venturalitica/assurance/fairness/fairness_multiclass_simple.py:68-84 | the report can be built exactly when target and dimension are columns and, when there are rows, prediction too; otherwise KeyError |
| SimpleMulticlass.Confusion | src/venturalitica/assurance/fairness/fairness_multiclass_simple.py:60-87 | the loops build exactly the per-class and per-group report |
| SimpleMulticlass.PrecisionAgrees | src/venturalitica/assurance/fairness/fairness_multiclass_simple.py:74 | the simple precision equals the detailed report's precision |
| SimpleMulticlass.RecallAgrees | src/venturalitica/assurance/fairness/fairness_multiclass_simple.py:75 | the simple recall equals the detailed report's recall |
| SimpleMulticlass.MissingClassScoresZero | src/venturalitica/assurance/fairness/fairness_multiclass_simple.py:72-75 | a missing-value class matches nothing and scores 0 |
| SimpleMulticlass.MissingGroupScoresZero | src/venturalitica/assurance/fairness/fairness_multiclass_simple.py:82-85 | a missing-value group matches nothing and scores 0 |
| SimpleMulticlass.ReportShape | src/venturalitica/assurance/fairness/fairness_multiclass_simple.py:68-85 | the report has one entry per distinct class and per distinct group, each score in [0, 1] |
| MulticlassParity.CheckParity | src/venturalitica/assurance/fairness/multiclass_parity.py:17-26 | validation passes exactly with at least 30 predictions, 2 distinct present predicted classes and 2 protected groups; each failure is a ValueError, fewer than 30 with the minimum-samples message |
| MulticlassParity.GroupOutcomes | src/venturalitica/assurance/fairness/multiclass_parity.py:47-51 | one entry per protected group, holding exactly that group's predictions |
| MulticlassParity.WeighedWithin | src/venturalitica/assurance/fairness/multiclass_parity.py:90-92 | a disparity in [0, 1] times a non-negative class weight lies between 0 and the weight |
| MulticlassParity.WeighedZero | src/venturalitica/assurance/fairness/multiclass_parity.py:90-92 | a class without disparity adds nothing, whatever its weight |
| MulticlassParity.WdpSpec | src/venturalitica/assurance/fairness/multiclass_parity.py:4-97 | the result is an error exactly when validation fails or the strategy is not macro, micro, one-vs-rest or weighted, always a ValueError |
| MulticlassParity.GroupRatesLoop | src/venturalitica/assurance/fairness/multiclass_parity.py:33-38 | the inner loop gathers each non-empty group's rate of predicting the class |
| MulticlassParity.SpreadOf | src/venturalitica/assurance/fairness/multiclass_parity.py:40-42 | a class's disparity is the largest minus the smallest group rate, absent when no group has members |
| MulticlassParity.Macro | src/venturalitica/assurance/fairness/multiclass_parity.py:30-44 | the macro strategy returns the largest class disparity, 0 when there is none |
| MulticlassParity.OutcomesLoop | src/venturalitica/assurance/fairness/multiclass_parity.py:47-51 | the loop builds the per-group predictions `GroupOutcomes` describes |
| MulticlassParity.MicroSpreadOf | src/venturalitica/assurance/fairness/multiclass_parity.py:55-59 | a class's micro disparity uses each group's normalised share of the class, 0 for a group that never predicts it |
| MulticlassParity.Micro | src/venturalitica/assurance/fairness/multiclass_parity.py:53-62 | the micro strategy returns the largest micro disparity, starting from 0 |
| MulticlassParity.OneVsRest | src/venturalitica/assurance/fairness/multiclass_parity.py:64-77 | one-vs-rest returns the largest class disparity, a class with no rates counting 0 |
| MulticlassParity.TermOf | src/venturalitica/assurance/fairness/multiclass_parity.py:90-92 | a class's weighted term is its disparity times its share of all predictions |
| MulticlassParity.Weighted | src/venturalitica/assurance/fairness/multiclass_parity.py:79-94 | the weighted strategy returns the sum of the weighted terms |
| MulticlassParity.WeightedDemographicParity | src/venturalitica/assurance/fairness/multiclass_parity.py:4-97 | the function computes exactly what `WdpSpec` describes, for every strategy and every failure |
| MulticlassParity.SpreadWithin | src/venturalitica/assurance/fairness/multiclass_parity.py:37-41 | every group rate, and so every class disparity, lies in [0, 1] |
| MulticlassParity.MicroSpreadWithin | src/venturalitica/assurance/fairness/multiclass_parity.py:55-59 | the micro disparity of a class lies in [0, 1] |
| MulticlassParity.MissingClassSpreadZero | src/venturalitica/assurance/fairness/multiclass_parity.py:35-37 | a missing value as the class is matched by no prediction, so its disparity is 0 |
| MulticlassParity.TermBelowShare | src/venturalitica/assurance/fairness/multiclass_parity.py:90-92 | a predicted class's weighted term lies between 0 and its share of the predictions |
| MulticlassParity.TermsBelowShares | src/venturalitica/assurance/fairness/multiclass_parity.py:92-94 | terms each bounded by their class's share sum to at most the sum of the shares |
| MulticlassParity.WeightedWithin | src/venturalitica/assurance/fairness/multiclass_parity.py:79-94 | the weighted parity lies in [0, 1], since the class shares sum to at most 1 |
| MulticlassParity.SpreadsWithin | src/venturalitica/assurance/fairness/multiclass_parity.py:31-42 | every class disparity the macro strategy gathers lies in [0, 1] |
| MulticlassParity.WdpWithin | src/venturalitica/assurance/fairness/multiclass_parity.py:4-97 | whatever the strategy, a successful result lies in [0, 1] |
| MulticlassParity.SpreadDefined | src/venturalitica/assurance/fairness/multiclass_parity.py:24-26 | with two protected groups that have members, every class has a disparity |
| MulticlassParity.MacroEqualsOneVsRest | src/venturalitica/assurance/fairness/multiclass_parity.py:30-77 | after validation, the macro and one-vs-rest strategies return the same value |
| MulticlassParity.SpreadZeroIff | src/venturalitica/assurance/fairness/multiclass_parity.py:40-41 | a class's disparity is 0 exactly when every group with members predicts it at the same rate |
| MulticlassParity.MacroZeroIndependent | src/venturalitica/assurance/fairness/multiclass_parity.py:30-44 | a macro parity of 0 means every class is predicted at the same rate in every group |
| MulticlassParity.IndependentMacroZero | src/venturalitica/assurance/fairness/multiclass_parity.py:30-44 | predictions independent of the group give a macro parity of 0 |
| MulticlassParity.MacroZeroIff | src/venturalitica/assurance/fairness/multiclass_parity.py:4-44 | after validation, the macro parity is 0 exactly when the predictions are independent of the protected group |
| MulticlassError.CheckMacro | src/venturalitica/assurance/fairness/multiclass_error.py:12-21 | validation passes exactly with at least 30 samples, 2 distinct true classes and 2 protected groups; each failure is a ValueError, fewer than 30 with the minimum-samples message |
| MulticlassError.HitsArePositives | src/venturalitica/assurance/fairness/multiclass_error.py:38-40 | the true positives of a class never exceed its positives |
| MulticlassError.GroupTpr | src/venturalitica/assurance/fairness/multiclass_error.py:33-41 | a group's true positive rate for a class, when the group has positives, lies in [0, 1] |
| MulticlassError.MacroSpec | src/venturalitica/assurance/fairness/multiclass_error.py:4-47 | the result is an error exactly when validation fails, always a ValueError |
| MulticlassError.ClassGapOf | src/venturalitica/assurance/fairness/multiclass_error.py:25-45 | the per-class loop gives the largest minus the smallest group rate, nothing for a class without positives or rates |
| MulticlassError.MacroEqualOpportunity | src/venturalitica/assurance/fairness/multiclass_error.py:4-47 | the function computes exactly what `MacroSpec` describes |
| MulticlassError.ClassGapWithin | src/venturalitica/assurance/fairness/multiclass_error.py:43-45 | every class gap lies in [0, 1] |
| MulticlassError.GapsWithin | src/venturalitica/assurance/fairness/multiclass_error.py:23-45 | every gap gathered over the true classes lies in [0, 1] |
| MulticlassError.MacroWithin | src/venturalitica/assurance/fairness/multiclass_error.py:47 | a successful macro equal opportunity lies in [0, 1] |
| MulticlassError.ClassGapAtLeast | src/venturalitica/assurance/fairness/multiclass_error.py:43-45 | for a class with positives, the class gap exists and is at least the difference of any two groups' rates for that class |
| MulticlassError.MacroAtLeast | src/venturalitica/assurance/fairness/multiclass_error.py:43-47 | the result is at least the difference of any two groups' true positive rates for any true class |
| MulticlassError.PerfectTprOne | src/venturalitica/assurance/fairness/multiclass_error.py:38-41 | a classifier that predicts every label correctly has rate 1 in every group |
| MulticlassError.MacroPerfect | src/venturalitica/assurance/fairness/multiclass_error.py:4-47 | a classifier that predicts every label correctly scores 0 |
| MulticlassError.CheckMicro | src/venturalitica/assurance/fairness/multiclass_error.py:57-62 | validation passes exactly with at least 30 samples and 2 protected groups; each failure is a ValueError, fewer than 30 with the minimum-samples message |
| MulticlassError.Accuracy | src/venturalitica/assurance/fairness/multiclass_error.py:70-72 | a group's accuracy lies in [0, 1], 0 for a group without members |
| MulticlassError.MicroSpec | src/venturalitica/assurance/fairness/multiclass_error.py:50-83 | the result is an error exactly when validation fails, always a ValueError |
| MulticlassError.GroupMetricOf | src/venturalitica/assurance/fairness/multiclass_error.py:66-75 | a group's record holds its accuracy and one minus it as the error rate |
| MulticlassError.GroupMetricsLoop | src/venturalitica/assurance/fairness/multiclass_error.py:64-75 | the loop records every group's accuracy and error rate, in group order |
| MulticlassError.MicroEqualizedOdds | src/venturalitica/assurance/fairness/multiclass_error.py:50-83 | the function computes exactly what `MicroSpec` describes |
| MulticlassError.MicroDouble | src/venturalitica/assurance/fairness/multiclass_error.py:77-83 | the result is twice the accuracy range, since the error-rate range equals the accuracy range |
| MulticlassError.MicroWithin | src/venturalitica/assurance/fairness/multiclass_error.py:77-83 | a successful result lies in [0, 2] |
| MulticlassError.PerfectAccuracyOne | src/venturalitica/assurance/fairness/multiclass_error.py:70-72 | with every label predicted correctly, a group with members has accuracy 1 |
| MulticlassError.MicroPerfect | src/venturalitica/assurance/fairness/multiclass_error.py:50-83 | with every label predicted correctly and no missing attribute, the result is 0 |
| MulticlassError.MicroMissingGroup | src/venturalitica/assurance/fairness/multiclass_error.py:60-72 | a missing attribute value is a group that matches no row, so its accuracy is 0 and even a perfect classifier scores 2 |
| MulticlassError.AccuracyGapOne | src/venturalitica/assurance/fairness/multiclass_error.py:60-80 | with a perfect classifier, a missing attribute and one present attribute, the accuracies span exactly 1 |
| MulticlassPredictive.HitsArePredicted | src/venturalitica/assurance/fairness/multiclass_predictive.py:27-29 | a group's true positives for a class never exceed its predictions of that class |
| MulticlassPredictive.GroupPrecision | src/venturalitica/assurance/fairness/multiclass_predictive.py:27-30 | a group's precision for a class, when the group predicts the class at all, lies in [0, 1] |
| MulticlassPredictive.GapsWeightsAligned | src/venturalitica/assurance/fairness/multiclass_predictive.py:32-35 | one weight is recorded for each disparity, so the two lists line up |
| MulticlassPredictive.PredictedClassOccurs | src/venturalitica/assurance/fairness/multiclass_predictive.py:20-34 | a class that has a disparity is a present value that some sample predicts |
| MulticlassPredictive.WeightsPositive | src/venturalitica/assurance/fairness/multiclass_predictive.py:35 | every recorded weight is positive, since its class is predicted somewhere |
| MulticlassPredictive.GapsWithin | src/venturalitica/assurance/fairness/multiclass_predictive.py:32-34 | every class disparity lies in [0, 1] |
| MulticlassPredictive.SpreadsAligned | src/venturalitica/assurance/fairness/multiclass_predictive.py:32-35 | the disparities and weights have equal length and every weight is positive |
| MulticlassPredictive.Aggregate | src/venturalitica/assurance/fairness/multiclass_predictive.py:43-50 | only the macro and weighted strategies succeed; any other is a ValueError |
| MulticlassPredictive.Support | src/venturalitica/assurance/fairness/multiclass_predictive.py:37-41 | the metadata records the number of samples under `total_samples` |
| MulticlassPredictive.PredictiveSpec | src/venturalitica/assurance/fairness/multiclass_predictive.py:4-50 | the result is an error exactly when there are fewer than 30 samples or the strategy is unknown, always a ValueError, and a success carries the sample count |
| MulticlassPredictive.PrecisionGapOf | src/venturalitica/assurance/fairness/multiclass_predictive.py:21-34 | the per-class loop gives the largest minus the smallest group precision, nothing when no group predicts the class |
| MulticlassPredictive.GapsAndWeights | src/venturalitica/assurance/fairness/multiclass_predictive.py:17-35 | the class loop gathers exactly the disparities and weights the specification lists |
| MulticlassPredictive.PredictiveParity | src/venturalitica/assurance/fairness/multiclass_predictive.py:4-50 | the function computes exactly what `PredictiveSpec` describes |
| MulticlassPredictive.AggregateWithin | src/venturalitica/assurance/fairness/multiclass_predictive.py:43-48 | disparities in [0, 1] aggregate to a value in [0, 1] under either strategy |
| MulticlassPredictive.WeightedBelowMacro | src/venturalitica/assurance/fairness/multiclass_predictive.py:43-48 | the weighted average never exceeds the largest disparity |
| MulticlassPredictive.PredictiveWithin | src/venturalitica/assurance/fairness/multiclass_predictive.py:4-50 | a successful result lies in [0, 1], and the weighted value is at most the macro value |
| MulticlassPredictive.PerfectPrecisionOne | src/venturalitica/assurance/fairness/multiclass_predictive.py:27-30 | a classifier that predicts every label correctly has precision 1 in every group |
| MulticlassPredictive.PredictivePerfect | src/venturalitica/assurance/fairness/multiclass_predictive.py:4-50 | a classifier that predicts every label correctly scores 0 under either strategy |
| MulticlassReporting.Parts | src/venturalitica/assurance/fairness/multiclass_reporting.py:27-29 | one text per protected attribute for a given row |
| MulticlassReporting.Labels | src/venturalitica/assurance/fairness/multiclass_reporting.py:26-29 | each row's slice label is its attributes' texts joined by " x ", in attribute order |
| MulticlassReporting.CombinedLabels | src/venturalitica/assurance/fairness/multiclass_reporting.py:26-29 | the concatenation loop builds exactly the labels `Labels` describes |
| MulticlassReporting.Pick | src/venturalitica/assurance/fairness/multiclass_reporting.py:35 | a slice mask selects as many rows as carry the slice's label |
| MulticlassReporting.Details | src/venturalitica/assurance/fairness/multiclass_reporting.py:31-37 | a slice has a metric exactly when it has at least 5 rows |
| MulticlassReporting.FirstKeyWith | src/venturalitica/assurance/fairness/multiclass_reporting.py:45-46 | `min`/`max` with a key give the first slice, in insertion order, holding the extreme value |
| MulticlassReporting.DefaultMetric | src/venturalitica/assurance/fairness/multiclass_reporting.py:20-21 | the default metric, the accuracy of a slice, lies in [0, 1] |
| MulticlassReporting.IntersectionalSpec | src/venturalitica/assurance/fairness/multiclass_reporting.py:11-48 | the result is an error exactly when no attributes are given, an IndexError |
| MulticlassReporting.SliceLoop | src/venturalitica/assurance/fairness/multiclass_reporting.py:34-37 | the slice loop records exactly the metrics `Details` describes |
| MulticlassReporting.IntersectionalMetrics | src/venturalitica/assurance/fairness/multiclass_reporting.py:11-48 | the function computes exactly what `IntersectionalSpec` describes |
| MulticlassReporting.DetailsDistinct | src/venturalitica/assurance/fairness/multiclass_reporting.py:31-37 | distinct slices give a dictionary with distinct keys |
| MulticlassReporting.NoSlicesIff | src/venturalitica/assurance/fairness/multiclass_reporting.py:36-40 | the empty answer comes exactly when every slice has fewer than 5 rows |
| MulticlassReporting.SlicesExtremes | src/venturalitica/assurance/fairness/multiclass_reporting.py:42-47 | the worst and best slices are recorded slices, every slice's metric lies between theirs, and the disparity is best minus worst |
| MulticlassReporting.SummariseExtremes | src/venturalitica/assurance/fairness/multiclass_reporting.py:42-47 | over any dictionary with distinct keys, the worst and best slices bound every value and their difference is the disparity |
| MulticlassReporting.GetDistinct | src/venturalitica/assurance/fairness/multiclass_reporting.py:45-46 | in a dictionary with distinct keys, a listed pair is what a lookup of its key gives |
| MulticlassReporting.DefaultDisparityWithin | src/venturalitica/assurance/fairness/multiclass_reporting.py:20-44 | with the default metric, the intersectional disparity lies in [0, 1] |
| MulticlassReporting.DetailsWithin | src/venturalitica/assurance/fairness/multiclass_reporting.py:34-37 | with the default metric, every slice metric lies in [0, 1] |
| MulticlassReporting.CoreReport | src/venturalitica/assurance/fairness/multiclass_reporting.py:59-72 | the report fails, with a ValueError, exactly when the parity, macro equal-opportunity or micro equalized-odds validation refuses the data; otherwise it holds, under the source's four keys in order, the macro weighted demographic parity, the macro equal opportunity, the micro equalized odds and the macro predictive parity of the data |
| MulticlassReporting.CoreEntries | src/venturalitica/assurance/fairness/multiclass_reporting.py:59-72 | the four entries hold the four given values, in order, under the keys demographic parity, equal opportunity, equalized odds and predictive parity |
| MulticlassReporting.InterEntries | src/venturalitica/assurance/fairness/multiclass_reporting.py:78-79 | the intersectional entries start with the disparity, 0 when no slice was large enough |
| MulticlassReporting.WithInter | src/venturalitica/assurance/fairness/multiclass_reporting.py:74-79 | the intersectional entries come after the core entries, which keep their order |
| MulticlassReporting.Report | src/venturalitica/assurance/fairness/multiclass_reporting.py:51-81 | the report fails exactly when the core report fails; otherwise it starts with the core report, and with intersectional attributes adds the intersectional disparity (0 when no slice has 5 rows) and, when slices were measured, the worst-performing slice |
| MulticlassReporting.FairnessReport | src/venturalitica/assurance/fairness/multiclass_reporting.py:51-81 | the function computes exactly what `Report` describes |
| MulticlassReporting.ReportAgrees | src/venturalitica/assurance/fairness/multiclass_reporting.py:74-81 | the corrected report equals the report as written whenever some slice is large enough or no attributes are given |
| MulticlassReporting.ReportAsWrittenFails | src/venturalitica/assurance/fairness/multiclass_reporting.py:39-79 | when every slice is smaller than 5 rows, the report as written fails with a KeyError, while the corrected report records a disparity of 0 |
| MulticlassDispatch.GetVitals | src/venturalitica/assurance/fairness/multiclass.py:13-26 | a frame needs all three roles set and not "MISSING" (else a ValueError) and gives their columns; series need two more positionally (else a TypeError) and are passed on as they are |
| MulticlassDispatch.SamplesOf | src/venturalitica/assurance/fairness/multiclass.py:13-26 | the samples zip exactly the truths, predictions and attributes `GetVitals` extracts, and fail when it fails |
| MulticlassDispatch.WeightedDemographicParity | src/venturalitica/assurance/fairness/multiclass.py:28-31 | the wrapper fails as the extraction fails, else returns the parity implementation's result with the given strategy |
| MulticlassDispatch.MacroEqualOpportunity | src/venturalitica/assurance/fairness/multiclass.py:33-35 | the wrapper fails as the extraction fails, else returns the macro equal opportunity implementation's result |
| MulticlassDispatch.MicroEqualizedOdds | src/venturalitica/assurance/fairness/multiclass.py:37-39 | the wrapper fails as the extraction fails, else returns the micro equalized odds implementation's result |
| MulticlassDispatch.PredictiveParity | src/venturalitica/assurance/fairness/multiclass.py:41-43 | the wrapper fails as the extraction fails, else returns the predictive parity implementation's result |
| MulticlassDispatch.FairnessReport | src/venturalitica/assurance/fairness/multiclass.py:45-47 | the wrapper fails as the extraction fails, else returns the multi-class report |
| MulticlassDispatch.FrameRolesRequired | src/venturalitica/assurance/fairness/multiclass.py:19-20 | on a frame, any one role unset or "MISSING" makes every metric a ValueError naming the required roles |
| MulticlassDispatch.CallFormsAgree | src/venturalitica/assurance/fairness/multiclass.py:13-43 | calling with a frame and roles gives the same result as calling with the three columns positionally |
| LegacyMulticlass.CheckPredictive | src/venturalitica/fairness/multiclass.py:353-362 | validation passes exactly with at least 30 samples, 2 predicted classes and 2 protected groups; failures are ValueErrors |
| LegacyMulticlass.PredictiveSpec | src/venturalitica/fairness/multiclass.py:319-395 | the result is an error exactly when validation fails or the strategy is neither macro nor weighted, always a ValueError |
| LegacyMulticlass.PredictiveParity | src/venturalitica/fairness/multiclass.py:364-395 | the function computes exactly what `PredictiveSpec` describes |
| LegacyMulticlass.PredictiveAgrees | src/venturalitica/fairness/multiclass.py:364-395 | where the earlier version succeeds it returns the newer version's value, and after its own validation both succeed together |
| LegacyMulticlass.SingleGroupRefused | src/venturalitica/fairness/multiclass.py:360-362 | a single protected group is refused here, while the newer version returns a value for the macro and weighted strategies |
| LegacyMulticlass.ReportEntries | src/venturalitica/fairness/multiclass.py:425-444 | the six entries hold the six given values, in order, under the source's six keys |
| LegacyMulticlass.ReportSpec | src/venturalitica/fairness/multiclass.py:398-444 | fewer than 30 samples fail with the report's own message; a report holds, under the six keys in order, the macro and weighted demographic parity, the macro equal opportunity, the micro equalized odds and the macro and weighted predictive parity of the data |
| LegacyMulticlass.Report | src/venturalitica/fairness/multiclass.py:398-444 | the function computes exactly what `ReportSpec` describes |
| LegacyMulticlass.ReportFails | src/venturalitica/fairness/multiclass.py:422-444 | the report fails exactly when one of the metrics' validations fails, always with a ValueError |
| LegacyMulticlass.ReportWithin | src/venturalitica/fairness/multiclass.py:425-444 | every entry of a report lies in [0, 1], except equalized odds in [0, 2] |
| LegacyMulticlass.EntriesOfWithin | src/venturalitica/fairness/multiclass.py:425-444 | entries built from values in range are in range |
| LegacyMulticlass.PredictiveOrdered | src/venturalitica/fairness/multiclass.py:388-393 | after validation, the weighted predictive parity is at most the macro one, and both lie in [0, 1] |
| Samples.Zip | src/venturalitica/assurance/fairness/multiclass_error.py:4-7 | the i-th sample holds the i-th truth, prediction and attribute of the three series |
| Samples.ZipProjections | src/venturalitica/assurance/fairness/multiclass_error.py:4-7 | the three series read back from the samples are the series given |
| Samples.Members | src/venturalitica/assurance/fairness/multiclass_error.py:66-68 | a group's mask keeps exactly the samples whose attribute equals the group, as pandas compares values |
| Samples.MissingGroupEmpty | src/venturalitica/assurance/fairness/multiclass_error.py:60-66 | a missing attribute value is listed as a group by `unique()`, but its mask selects no row |
| Samples.PresentGroupHasMembers | src/venturalitica/assurance/fairness/multiclass_error.py:60-66 | every present group value selects at least one row |
| Samples.SomeGroupHasMembers | src/venturalitica/assurance/fairness/multiclass_parity.py:24-26 | with at least two groups listed, at least one of them selects rows |
| Samples.MembersListed | src/venturalitica/assurance/fairness/multiclass_parity.py:24-35 | any value that selects rows is among the listed groups |
| Models.NewControl | src/venturalitica/models.py:4-14 | a new control holds the given fields, with no required variables and an empty input mapping by default |
| Models.NewPolicy | src/venturalitica/models.py:16-20 | a new policy holds its title and no controls by default |
| Models.PassedCount | src/venturalitica/formatting.py:42-43 | the count of passed results is at most the total, equals it exactly when every result passed, and is 0 exactly when none did |
| Api.Session.constructor | src/venturalitica/api.py:20 | a new session starts with no policy enforced yet |
| Formatting.OperatorSymbol | src/venturalitica/formatting.py:55-56 | the six operator names map to their symbols and any other operator is shown as itself |
| Formatting.ShortDescription | src/venturalitica/formatting.py:59-61 | a description over 35 characters keeps its first 35 followed by "...", a shorter one is kept whole |
| Formatting.ShortId | src/venturalitica/formatting.py:62 | the control id is cut to a prefix of at most 20 characters, kept whole when it is shorter |
| Formatting.Pairs | src/venturalitica/formatting.py:71 | the stability text lists every metadata entry as key=value, in insertion order |
| Formatting.ResultLines | src/venturalitica/formatting.py:51-72 | each result prints its own line, followed by a stability line exactly when it has metadata |
| Formatting.PrintResults | src/venturalitica/formatting.py:51-72 | the loop prints each result's lines in turn, as `Body` describes |
| Formatting.PrintSummary | src/venturalitica/formatting.py:34-78 | nothing is printed for no results; otherwise the header and rule, the body, a rule and the verdict |
| Formatting.BodyStep | src/venturalitica/formatting.py:51 | printing one more result appends exactly that result's lines |
| Formatting.BodyLength | src/venturalitica/formatting.py:51-72 | the body holds one line per result plus one per result with metadata |
| Formatting.BodyResultLines | src/venturalitica/formatting.py:51-66 | the result lines of the body are the results' own lines, one each, in order |
| Formatting.ResultLinesAppend | src/venturalitica/formatting.py:51-72 | the result lines of two printed parts are those of the first followed by those of the second |
| Formatting.SummaryShape | src/venturalitica/formatting.py:42-78 | a non-empty summary has four framing lines plus the body, and says "POLICY MET" exactly when every result passed, with passed at most total |
| Badges.ToPath | src/venturalitica/badges.py:34-35 | a text output path becomes a path with that text; a path is kept |
| Badges.FinalStatus | src/venturalitica/badges.py:38-46 | a status name is kept; a result list is "unknown" exactly when empty, "passing" exactly when non-empty with every result passed, "failing" exactly when one failed |
| Badges.Colour | src/venturalitica/badges.py:48-54 | green exactly for "passing", red exactly for "failing", gray for every other status |
| Badges.StatusText | src/venturalitica/badges.py:55 | "PASSING" and "FAILING" exactly for those statuses, "UNKNOWN" for every other |
| Badges.ComplianceBadge | src/venturalitica/badges.py:18-81 | the badge goes to the given path, names the policy, and shows the colour and text of the final status |
| Badges.ColourMatchesText | src/venturalitica/badges.py:48-55 | a badge's colour and text always tell the same status |
| Badges.ResultsBadge | src/venturalitica/badges.py:38-55 | a badge for results is green exactly when there are results and all passed, red exactly when one failed, gray exactly for no results |
| Badges.MetricBadgeOf | src/venturalitica/badges.py:84-109 | the metric badge is green with a check mark exactly when the value is at most the threshold, red with a cross otherwise, and goes to the given path |
| Badges.MetricBadgeMonotone | src/venturalitica/badges.py:104-109 | lowering the value never turns a green metric badge red |
| Output.RiskOf | src/venturalitica/output.py:30-73 | k-anonymity and l-diversity are low risk at or above the threshold, medium down to 70% of it, high below; the lower-is-better metrics are low at or below the threshold, medium up to 150%, high above; otherwise "<" and ">" give low or high by the comparison and other operators give info |
| Output.MetricInterpretation | src/venturalitica/output.py:21-79 | without the metric catalogue the interpretation is an ImportError; otherwise its risk is `RiskOf` and its metadata the catalogue entry, empty for an unknown metric |
| Output.RiskMonotone | src/venturalitica/output.py:31-53 | a better value never has a higher risk: rising values lower the risk of higher-is-better metrics and raise that of lower-is-better ones |
| Output.RiskAgreesWithCheck | src/venturalitica/output.py:57-70 | under the default rule a value that passes the policy check is low risk, and away from the threshold low risk means it passes; at the threshold it is low risk though the strict check fails |
| Output.CompliancePercent | src/venturalitica/output.py:92-94 | the percentage lies in [0, 100], is 0 for no results or none passed, and 100 exactly when every result passed |
| Output.Ratio | src/venturalitica/output.py:94 | a share of a positive total lies in [0, 1], at 1 exactly for all and at 0 exactly for none |
| Output.StatusEmoji | src/venturalitica/output.py:96 | the header shows a check when every result passed, a warning when some but not all did, and a cross when results exist and none passed |
| Output.RowOf | src/venturalitica/output.py:113-133 | a row shows the control, metric and value to 4 decimals, with the interpreted risk, or info when the catalogue import fails |
| Output.FailedIds | src/venturalitica/output.py:138-142 | the recommendations list one entry per failed result, and every failed control appears |
| Output.RenderComplianceResults | src/venturalitica/output.py:82-146 | the rendering shows the pass count and total, the header status and percentage, one row per result in order, the failures' recommendations and the policy name |
| Output.PlainEntryOf | src/venturalitica/output.py:159-175 | a plain entry is marked passed or failed and shows the interpreted risk, or a blank circle when the catalogue import fails |
| Output.RenderPlain | src/venturalitica/output.py:149-177 | the plain rendering shows the pass count and total and one entry per result, in order |
| Output.AhaMessage | src/venturalitica/output.py:180-192 | without rich output the message names the scenario; with it, a clean pass says every control passed |
| Output.HeaderMatchesRecommendations | src/venturalitica/output.py:92-142 | the header shows a check exactly when there are no recommendations, and 100% exactly when there are results and no recommendations |
| Scanner.PackageName | src/venturalitica/scanner.py:55 | the package name is the text before the first version operator, stripped |
| Scanner.VersionAfter | src/venturalitica/scanner.py:60-62 | the version is the text after the operator, cut at the first ";" and stripped |
| Scanner.VersionOf | src/venturalitica/scanner.py:56-62 | a version is taken after "==" when present, else after ">=", and there is none with neither |
| Scanner.ParseRequirement | src/venturalitica/scanner.py:47-65 | a blank line, a comment or an empty package name adds nothing; otherwise the stripped line gives its name and version |
| Scanner.PrefixFree | src/venturalitica/scanner.py:55 | proof step of the loop proofs: a prefix of a text without some substring does not contain it either |
| Scanner.NameHasNoOperator | src/venturalitica/scanner.py:55-65 | a parsed package name is non-empty, stripped and holds none of "==", ">=", "<=", "~=" |
| Scanner.UpperBoundsGiveNoVersion | src/venturalitica/scanner.py:59-62 | a requirement pinned only by "<=" or "~=" is recorded without a version |
| Scanner.LineAddsRequirement | src/venturalitica/scanner.py:47-65 | a requirement line adds at most one component, a library with its name and version, exactly when it parses |
| Scanner.WithoutExtras | src/venturalitica/scanner.py:95 | the cleaned dependency is the prefix before the first "[" |
| Scanner.DependencyDropsExtras | src/venturalitica/scanner.py:92-96 | neither the name nor the version of a dependency carries its extras |
| Scanner.AfterFree | src/venturalitica/scanner.py:60-62 | a version taken from a line without some substring does not contain it |
| Scanner.BaseName | src/venturalitica/scanner.py:131 | the base name is the suffix of the path after its last "/" |
| Scanner.CallAddsModel | src/venturalitica/scanner.py:118-132 | a call adds at most one component, a model named after the called name or attribute and described by the file's base name, exactly when that name is a known model |
| Scanner.LinesAreLibraries | src/venturalitica/scanner.py:43-65 | every component from requirement lines is a library with a name and no description |
| Scanner.DependenciesAreLibraries | src/venturalitica/scanner.py:83-96 | every component from dependency strings is a library whose name has no extras |
| Scanner.ContainsChar | src/venturalitica/scanner.py:95 | proof step of the loop proofs: a character of a text is a one-character substring of it |
| Scanner.BomScanner.constructor | src/venturalitica/scanner.py:22-24 | a new scanner starts with an empty bill of materials |
| Scanner.BomScanner.AddComponent | src/venturalitica/scanner.py:134-148 | adding a component appends it and changes nothing else |
| Scanner.BomScanner.ProcessRequirementLine | src/venturalitica/scanner.py:47-65 | processing a line appends exactly what the line parses to |
| Scanner.BomScanner.AddDependency | src/venturalitica/scanner.py:92-96 | a dependency string is processed as a requirement line without its extras |
| Scanner.BomScanner.CheckAstCall | src/venturalitica/scanner.py:118-132 | checking a call appends exactly the model it names, if any |
| Scanner.BomScanner.ScanRequirements | src/venturalitica/scanner.py:37-45 | a missing requirements file adds nothing; otherwise each line's component is appended in file order |
| Scanner.BomScanner.AddDependencies | src/venturalitica/scanner.py:83-84 | the dependency loop appends every dependency's component in order |
| Scanner.BomScanner.ScanPyproject | src/venturalitica/scanner.py:67-90 | a missing or unreadable project file adds nothing; otherwise the dependencies, then every optional group's, are appended in order |
| Scanner.BomScanner.CheckCalls | src/venturalitica/scanner.py:111-113 | the walk over a file's calls appends the models they name, in order |
| Scanner.BomScanner.ScanModels | src/venturalitica/scanner.py:98-116 | every Python file that parses contributes its models in order; other files and unparsable ones add nothing |
| Scanner.BomScanner.Scan | src/venturalitica/scanner.py:26-35 | a scan appends the requirements, then the project dependencies, then the models |
| Scanner.Append | src/venturalitica/scanner.py:134-148 | proof step of the loop proofs: appending in two steps is appending once |
| Scanner.LinesStep | src/venturalitica/scanner.py:44-45 | one more requirement line appends exactly that line's components |
| Scanner.DependencyStep | src/venturalitica/scanner.py:83-84 | one more dependency appends exactly that dependency's components |
| Scanner.GroupsStep | src/venturalitica/scanner.py:88-90 | one more optional group appends exactly that group's components |
| Scanner.CallsStep | src/venturalitica/scanner.py:111-113 | one more call appends exactly that call's component |
| Scanner.FilesStep | src/venturalitica/scanner.py:100-103 | one more file appends exactly that file's components |
| Scanner.FileModelsKnown | src/venturalitica/scanner.py:98-132 | every model found is a known model named by some call in some parsed Python file |
| Scanner.CallOf | src/venturalitica/scanner.py:111-132 | every model found among a file's calls comes from one of those calls and is a known model |
| BomMetrics.GetOr | src/venturalitica/dashboard/components/metrics.py:19 | a lookup with a default gives the stored value for a present key and the default otherwise |
| BomMetrics.Items | src/venturalitica/dashboard/components/metrics.py:19-25 | iterating a missing value or a number is a TypeError; a list iterates over its items |
| BomMetrics.LicenceOf | src/venturalitica/dashboard/components/metrics.py:25-29 | a text licence is counted as itself; a value that is neither text nor a dictionary with a "license" entry adds nothing; whatever is added can be held by a set |
| BomMetrics.MetricsOf | src/venturalitica/dashboard/components/metrics.py:31-35 | the metrics hold "total", "models" and "licenses", in that order |
| BomMetrics.ParseBomMetrics | src/venturalitica/dashboard/components/metrics.py:14-36 | an empty or missing bill of materials gives empty metrics and lists; any other value that is not a dictionary is an AttributeError |
| BomMetrics.CollectLicences | src/venturalitica/dashboard/components/metrics.py:23-29 | the loop over the components gathers exactly the licence set `LicenceSet` describes, or its first failure |
| BomMetrics.CollectList | src/venturalitica/dashboard/components/metrics.py:25-29 | the loop over one component's licences gathers exactly what `LicencesOfList` describes, or its first failure |
| BomMetrics.JoinedAssoc | src/venturalitica/dashboard/components/metrics.py:23-29 | proof step of the loop proofs: adding two batches of licences one after the other is adding their union |
| BomMetrics.JoinedEmpty | src/venturalitica/dashboard/components/metrics.py:23 | proof step of the loop proofs: starting from the empty set adds nothing |
| BomMetrics.SummaryCounts | src/venturalitica/dashboard/components/metrics.py:19-36 | the metrics count all components, the models and the distinct licences; the models and libraries are exactly the components of those types, and together they number at most the components |
| BomMetrics.LicenceSetMembers | src/venturalitica/dashboard/components/metrics.py:23-29 | a licence is counted exactly when some component's licence list yields it |
| BomMetrics.LicencesOfListMembers | src/venturalitica/dashboard/components/metrics.py:25-29 | a licence comes from a list exactly when one of its entries gives it |
| Causal.PathTerm | src/venturalitica/metrics/causal.py:132-135 | each mediator's path contributes a non-negative amount |
| Causal.MediatorPath | src/venturalitica/metrics/causal.py:118-135 | a mediator's path, its mean difference times the outcome correlation in absolute value, is non-negative |
| Causal.Decompose | src/venturalitica/metrics/causal.py:105-155 | the direct effect lies in [0, total], direct plus indirect covers the total (exactly when indirect is at most total), the proportion mediated is indirect over total (0 for no total), and with no mediators everything is direct |
| Causal.EffectOf | src/venturalitica/metrics/causal.py:104-155 | the per-pair computation gives exactly the effect `Effect` describes |
| Causal.Row | src/venturalitica/metrics/causal.py:100-101 | the inner loop pairs a group with every later group, in order |
| Causal.Fill | src/venturalitica/metrics/causal.py:150 | the effects dictionary has at most one entry per pair compared |
| Causal.FillKeys | src/venturalitica/metrics/causal.py:102-150 | the dictionary has a key exactly when some compared pair is named by it |
| Causal.FillEntries | src/venturalitica/metrics/causal.py:102-155 | every entry is some pair's name together with that pair's effect |
| Causal.PairsListed | src/venturalitica/metrics/causal.py:100-101 | a pair is compared exactly when its first group comes before its second in `unique()` order |
| Causal.MissingColumns | src/venturalitica/metrics/causal.py:84-85 | the missing columns are exactly those among the attribute, the outcome and the mediators that the frame lacks |
| Causal.PathSpec | src/venturalitica/metrics/causal.py:38-157 | the decomposition fails exactly when a column is missing, there are fewer than 30 rows or fewer than 2 groups, always with a ValueError |
| Causal.PathKeys | src/venturalitica/metrics/causal.py:99-102 | the keys are exactly "a vs b" for the compared pairs of groups |
| Causal.PairLoop | src/venturalitica/metrics/causal.py:100-155 | the nested loops fill the dictionary exactly as `Fill` does over all pairs |
| Causal.RowLoop | src/venturalitica/metrics/causal.py:101-155 | the inner loop adds one row's pairs to what earlier rows filled |
| Causal.TakeStep | src/venturalitica/metrics/causal.py:101 | taking one more pair of a row extends the pairs done by exactly that pair |
| Causal.PairEffect | src/venturalitica/metrics/causal.py:104-148 | one pair's effect is the effect of the pair |
| Causal.PutPair | src/venturalitica/metrics/causal.py:150-155 | storing one pair's effect extends the filled dictionary by that pair |
| Causal.FillStep | src/venturalitica/metrics/causal.py:150 | filling one more pair stores its effect under its key, replacing an equal key |
| Causal.PathDecomposition | src/venturalitica/metrics/causal.py:38-157 | the function computes exactly what `PathSpec` describes |
| Causal.EffectsShape | src/venturalitica/metrics/causal.py:104-155 | every comparison has its direct effect in [0, total], non-negative indirect effect and proportion, and everything direct without mediators |
| Causal.CounterfactualSpec | src/venturalitica/metrics/causal.py:160-211 | the gap fails exactly when a column is missing or the attribute does not have exactly two groups, with a ValueError, and is otherwise non-negative |
| Causal.CounterfactualWithin | src/venturalitica/metrics/causal.py:204-211 | on an outcome in [0, 1] the gap is at most 1 |
| Causal.GroupMeanWithin | src/venturalitica/metrics/causal.py:204-205 | the mean of an outcome in [0, 1] over a group lies in [0, 1] |
| Causal.CounterfactualIsTotalEffect | src/venturalitica/metrics/causal.py:105-107 | for two groups, the decomposition has one comparison, of the first group against the second, whose total effect is the counterfactual gap |
| Causal.AwarenessSpec | src/venturalitica/metrics/causal.py:214-284 | the awareness analysis fails exactly when the attribute or the outcome column is missing |
| Causal.DirectParts | src/venturalitica/metrics/causal.py:358-363 | there is one verdict line per comparison, flagging a direct effect above 0.1 |
| Causal.DiagnosticSpec | src/venturalitica/metrics/causal.py:287-380 | the diagnostic fails exactly with fewer than 30 rows, a ValueError, and otherwise records the sample size and the mediators |
| Causal.DirectPartsLoop | src/venturalitica/metrics/causal.py:358-363 | the loop over the comparisons builds exactly those lines |
| Causal.CausalDiagnostic | src/venturalitica/metrics/causal.py:287-380 | the function computes exactly what `DiagnosticSpec` describes |
| Causal.JoinStartsWith | src/venturalitica/metrics/causal.py:378 | proof step of the verdict lemmas: the joined verdict starts with its first line |
| Causal.VerdictClear | src/venturalitica/metrics/causal.py:375-378 | when every line opens with a warning or low-effect mark, the verdict is the all-clear line exactly when there are no lines |
| Causal.DiagnosticClearIff | src/venturalitica/metrics/causal.py:355-378 | the verdict is the all-clear exactly when the decomposition failed, the counterfactual gap is at most 0.15 and the leakage at most 0.3, since each comparison adds a line |
| Causal.DirectPartsFlagged | src/venturalitica/metrics/causal.py:358-363 | every comparison's line opens with the warning sign or with the low-effect check mark |
| Causal.PartsClear | src/venturalitica/metrics/causal.py:365-378 | the all-clear comes exactly when there are no comparison lines, no counterfactual gap above 0.15 and no leakage above 0.3 |
| Causal.PathsNotEmpty | src/venturalitica/metrics/causal.py:95-102 | a successful decomposition compares at least one pair |
| Causal.DiagnosticAgrees | src/venturalitica/metrics/causal.py:330-378 | whenever the decomposition succeeds, the diagnostic as written and the corrected one agree |
| Causal.DiagnosticAsWrittenFails | src/venturalitica/metrics/causal.py:330-360 | with 30 rows and a single group, the diagnostic as written fails with an AttributeError, while the corrected one records the decomposition's error |

## Left out

- Reading and writing files are not modelled. The model takes or returns what they carry:
  - policy files and cached results are a store of parsed documents;
  - requirements and project files are their lines and parsed tables;
  - Python sources are their call nodes;
  - SVG badges are a record of what they show and the path.
- YAML, TOML and Python parsing, JSON dumping, SVG text, colours, padding and `:.4f` number formatting are not modelled. Number parsing (`float()`) and formatting are parameters.
- All printing and rich console output are left out. Each renderer returns the lines or rows it would print.
- scikit-learn scores, the fairlearn branches and pandas `.corr` are given functions, and only their results' use is modelled. These functions are the `Foreign` module and the metric externals. The scores and the fairlearn metrics return a `Result`, so their exceptions pass through.
- Causal.MediatorPath: pandas `.corr` is a total function of the two columns. Its TypeError on a text column is not modelled.
- Frames.MeanOf: text cells are skipped, where pandas' `.mean()` raises a TypeError on a column holding text. Performance.MeanScore models that TypeError. The group means of FairnessMetrics, DataMetrics, QualityMetrics, BinaryFairness and Causal.GroupMean use MeanOf and return the mean of the numbers where the source raises.
- Frames.GroupValues: groups come in order of first appearance, while pandas' `groupby` sorts its keys and `value_counts()` orders by count. Values do not depend on this order, but the key order of returned dictionaries does. This affects the "groups" dictionary of QualityMetrics.GroupMinPositiveRateSpec, the report_coverage dictionary of EsgMetrics.ChunkDiversity and the percentages of EsgMetrics.ClassificationDistribution.
- Privacy.LDiversity: an empty grouping (no rows, or every quasi-identifier cell missing, which `groupby` drops) gives 0.0, where `distinct_counts.min()` gives NaN. Under a control such as `l_diversity < 2` the model then passes where the source fails, since NaN compares false.
- ConfusionMetrics.TabulateLoop, QualityMetrics.RateTable, EsgMetrics.ChunkDiversity, SimpleMulticlass.Confusion: result dictionaries are keyed by the cell, where the source keys by `str()` of it. In a mixed-type column, 1 and "1" (or a missing value and "nan") are one key in the source and two in the model, so ConfusionMetrics.ReportPerClass's class count can exceed the source's.
- Document.Value: YAML scalars are kept as text, so a number or boolean is truthy exactly when its text is non-empty. Python treats `0`, `0.0` and `false` as false, so the model differs on three inputs. An inventory item whose uuid is `0` or `false` is filed under that text, where the source skips it. A requirement whose description is `0` or `false` keeps it, where the source falls back to "Control <id>". A policy file holding a bare number is refused as an unsupported format (ValueError), where the source's `k in data` raises a TypeError.
- Error messages: the kind of every exception and its fixed text are modelled, but values the source formats into a message are dropped. For example, the causal ValueErrors say "Columns not found" without the missing columns, and "at least 2 groups" without the count found.
- Text.Lower: only ASCII letters are lowered. Python's Unicode case mapping, including characters whose lower case is longer, is not modelled. Whitespace for `strip` is Python's full `isspace` set.
- Floating point is not modelled. Values are exact reals: `round(..., 4)` is dropped, and NaN results are stated as follows.
  - A mean over no numbers is 0.
  - A missing cell never equals anything.
  - Groups a metric filters for NaN are left out of its list.
- The `monitor` context manager of `api.py` (lines 27-95), the probes, telemetry, the `auto_log` hand-off and the per-session evidence store are left out. They only observe the evaluation.
- The cache write of `enforce` (`api.py` lines 167-213) is not modelled. The normalisation of the cached content and the append are modelled.
- `load_cached_results` of the dashboard component is a file read and is left out.
- The `controls` compatibility property of `AssuranceValidator` (`core.py` lines 33-48) only copies the loaded controls into dictionaries, and is left out.
- `METRIC_METADATA`, which `output.py` imports, is not defined in the metrics package. It is a parameter: `Some` catalogue, or `None` for the failing import.
- QualityMetrics.GroupMinPositiveRateSpec: the optional quantile bucketing of an age column (`age_bucket_method`, `pd.qcut`) is not modelled. The groups are the column's own values.
- Causal.AwarenessSpec: only the information-leakage score the diagnostic reads is modelled, over given per-feature correlations. The two correlation tables are not modelled.
- MulticlassPredictive.Support: the contract states only `total_samples`. The two minimum supports are computed but left unstated.
- Output.MetricInterpretation: the interpretation sentence is left out. The risk level and the metadata are modelled.
- Output.AhaMessage: the partial-pass message is computed but its contract states only the scenario message and the all-pass message.
- Scanner.BomScanner.AddComponent: components are appended to a list. The CycloneDX bill of materials keeps them in a set, so a component added twice appears once there, in the set's order.
- BomMetrics.LicenceSet: a `set` of JSON values stands for the Python set. Python's hashing quirks (`1 == 1.0 == True`) are not modelled.
- Badges.FinalStatus: results always carry `passed`. The `getattr(r, 'passed', False)` default for other objects is not modelled.
- Formatting.PrintSummary: the unused `is_data_only` argument is dropped.
- Badges.ComplianceBadge: the `date` argument is dropped, since it appears nowhere in the badge.
- Where the documentation and the code disagree, the model follows the code:
  - In lenient mode a control whose metric is not registered is dropped from the results, not raised (`core.py` lines 91-96).
  - `enforce` passes its own `strict` argument to the validator, which overrides the validator's detection of CI and `VENTURALITICA_STRICT` (`api.py` lines 146-147).
- Not part of this model:
  - the telemetry probes;
  - the document drafting;
  - the dashboard views;
  - the MLOps exporters;
  - the CLI and network client;
  - storage;
  - the shadowed `metrics.py`;
  - the stale package `__init__.py`.

## Findings

| source | as written | input that shows it | evidently intended | confidence | as-written member | corrected member |
|---|---|---|---|---|---|---|
| src/venturalitica/assurance/fairness/fairness_binary.py:56 | each group with positives contributes the outcome mean over the whole group, not over its positives | a perfect predictor (outcome equal to target); group A has targets 1 and 0, group B only 1s; as written A scores 0.5 and B 1, a difference of 0.5 | the true positive rate: the outcome mean over the group's rows whose target is 1, which gives 0 here | not executed | BinaryFairness.EqualOpportunityAsWritten, BinaryFairness.EqualOpportunityAsWrittenDiffers | BinaryFairness.EqualOpportunity |
| src/venturalitica/assurance/quality/esg_metrics.py:134-140 | inside `groupby(...).apply`, `group[dim]` is a Series, never a list or a text, so every report counts 0 subtitles and the score is always 0 | one report whose subtitle cell is "Intro, Scope" | count each report's distinct non-empty comma-separated subtitles over its rows, which gives a positive score here | not executed | EsgMetrics.SubtitleDiversityAsWritten, EsgMetrics.SubtitleDiversityDiffers | EsgMetrics.SubtitleDiversity |
| src/venturalitica/assurance/fairness/multiclass_reporting.py:39-79 | when no slice has 5 rows, the intersectional result holds only "disparity" and "slices", and the report then reads "intersectional_disparity" from it, raising KeyError | 30 samples whose intersectional attribute differs on every row | report an intersectional disparity of 0 and no worst slice, as the intersectional result itself says | not executed | MulticlassReporting.ReportAsWritten, MulticlassReporting.ReportAsWrittenFails | MulticlassReporting.Report |
| src/venturalitica/metrics/causal.py:336-360 | a failed path decomposition is stored as `{'error': message}`, and the verdict loop then reads the message as an effect, raising AttributeError on `direct_effect` | 30 rows whose protected attribute has a single value | record the decomposition's error and add no comparison line, so the diagnostic still returns | not executed | Causal.DiagnosticAsWritten, Causal.DiagnosticAsWrittenFails | Causal.DiagnosticSpec |
