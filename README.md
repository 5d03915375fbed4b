# django-measurement, modelled in Dafny

django-measurement stores "measurement" values in Django models, forms,
the admin and REST serializers. A measurement is a magnitude tied to a unit
of a measure class such as Distance or Weight. This project models the
logic under that framework glue, with numbers as exact reals and unit
factors as reals:

- the measure value object of `django_measurement/backports.py`:
  - keyword construction through the unit resolution chain;
  - reading a unit;
  - comparisons and the orderings derived from them;
  - arithmetic, including the in-place operators, which mutate the
    measure;
- the `UnknownMeasure` placeholder of `django_measurement/measure.py`;
- the three-column field of `django_measurement/fields.py`:
  - the packing of a measure into three columns;
  - the descriptor's `__get__` and `__set__` on a record;
  - the keyword rewriting of `instance_pre_init` and `_fix_fields`;
- the single-column field of `django_measurement/models.py`:
  - the constructor checks and `deconstruct`;
  - `get_prep_value` and `to_python`;
  - the order of the checks in `validate` and `min_max_validation`;
- the form field of `django_measurement/forms.py`: default unit choices,
  `decompress` and `compress`;
- the measure registry and unit choice lists of `django_measurement/utils.py`;
- the admin form of `django_measurement/admin.py`:
  - its two regular expressions;
  - the derivation of its measure fields and inputs;
  - the `clean` loop;
- the REST serializer field of `django_measurement/rest_framework.py`.

Modules follow the source files:

| module | file |
|---|---|
| `Backports` | `backports.dfy` |
| `UnknownMeasures` | `unknown.dfy` |
| `Fields` | `fields.dfy` |
| `Models` | `models.dfy` |
| `Forms` | `forms.dfy` |
| `Utils` | `utils.dfy` |
| `Admin` | `admin.dfy` |
| `Rest` | `rest.dfy` |

Four modules are shared:

- `Outcomes` holds the Python exceptions, `Result`/`Option`, and
  `NotImplemented`.
- `Text` holds the ASCII character classes, `lower()` and `str.replace`.
- `Dicts` holds Python dicts as key sequences in insertion order over a
  map.
- `Values` holds the Python values the framework passes around, with
  their truthiness, `==` and `float()`.

A measure class is a record. It holds:

- its name and `STANDARD_UNIT`;
- `UNITS` as a factor map, with `unitOrder` as the order in which `UNITS`
  iterates;
- `ALIAS` and `LALIAS`;
- whether it is bidimensional.

A measure object is a class with mutable `standard` and `unit` fields. The
record of a model with a three-column field is a class too, with the three
columns and the instance `__dict__` cache as fields. So are the keyword
dict of `instance_pre_init` and the admin form, whose `__init__` and
`clean` update them in place.

Some behaviour comes from outside the repository and becomes parameters:

- Python's `float()` and `Decimal()` reading of a string;
- the measurement library's `guess` and `get_units()`;
- `str()` in an error message;
- the list of all measures and the `MEASURE_OVERRIDES` setting.

In three places the model follows the code where its apparent intent, or
its tests, suggest otherwise:

- `UnknownMeasure.__lt__` against a placeholder of another measure name
  falls through to `NotImplemented` rather than answering `False`
  (`django_measurement/measure.py:30-36`).
- `tests/test_fields.py:203-205` expects `MeasurementField(Distance,
  max_value=1.0)` to raise `ValueError`, but `forms.py` has no such check.
  The form field's bounds go to Django's `FloatField` and are not modelled.
- `tests/test_fields.py:238-256` expects `to_python` of a raw number to
  log a warning and read the number in the first unit choice. The
  `models.py` modelled here does neither. See the finding below for what
  it does.

## Model

| member | source | states |
|---|---|---|
| Backports.Resolve | django_measurement/backports.py:171-189 | a keyword name resolves through exact `UNITS`, then `ALIAS`, then lower-cased `UNITS`, then `LALIAS`; it fails exactly when all four miss; in a well-formed class the result is a unit |
| Backports.DefaultUnits | django_measurement/backports.py:163-190 | the loop over the keywords computes exactly the fold `DefaultUnitsOf` (sum and last resolved unit, or the first unresolvable name's `AttributeError`) |
| Backports.FailurePersists | django_measurement/backports.py:188-189 | once a keyword fails to resolve, the whole construction fails with that error |
| Backports.WeightedSumSnoc | django_measurement/backports.py:170-187 | the weighted sum of the keywords grows by factor times value for each added keyword |
| Backports.DefaultUnitsIsWeightedSum | django_measurement/backports.py:168-190 | with resolvable keywords the standard is the sum of factor times value over all of them, and the default unit is the last one's resolved unit, or `STANDARD_UNIT` with no keywords (standard 0.0) |
| Backports.DefaultUnitsFailsIffUnknown | django_measurement/backports.py:170-189 | construction fails if and only if some keyword name is unresolvable |
| Backports.DefaultUnitIsAUnit | django_measurement/backports.py:169-187 | in a well-formed class the derived default unit is always a `UNITS` key |
| Backports.SingleKeyword | django_measurement/backports.py:170-187 | one keyword `u=v` gives standard factor(u) times v and the resolved unit of u |
| Backports.RebuildFromStandard | django_measurement/backports.py:47-51 | building from `STANDARD_UNIT=s` stores exactly s, and a non-empty string `default_unit` replaces the derived unit |
| Backports.ReadUnit | django_measurement/backports.py:61-65 | reading a unit divides the standard by its factor; an unknown name is an `AttributeError` and a zero factor a `ZeroDivisionError` |
| Backports.ReadBack | django_measurement/backports.py:172-174 | building with one known unit `u=v` stores `UNITS[u]*v`, and reading u back gives v |
| Backports.BuildFromReading | django_measurement/backports.py:47-63 | a measure read in any of its units and rebuilt from that reading has the same standard, with that unit as default |
| Backports.UnitAttname | django_measurement/backports.py:192-207 | `unit_attname` tries exact `UNITS`, then lower-cased `UNITS`, then `LALIAS`, and raises a bare `Exception` exactly when all miss; the result is a unit |
| Backports.UnitAttnameIgnoresAlias | django_measurement/backports.py:199-207 | the answer of `unit_attname` does not depend on `ALIAS` |
| Backports.UnitAttnameAgreesWithResolve | django_measurement/backports.py:171-207 | for names that need no `ALIAS`, `unit_attname` and keyword resolution agree on success and on the unit found |
| Backports.Measure.New | django_measurement/backports.py:47-51 | a new measure holds exactly the standard and unit of `InitState`, or construction fails with its error |
| Backports.Measure.Eq | django_measurement/backports.py:76-80 | `==` is `NotImplemented` exactly for another class, and otherwise compares the standards |
| Backports.Measure.Lt | django_measurement/backports.py:82-86 | `<` is `NotImplemented` exactly for another class, and otherwise compares the standards |
| Backports.Measure.Le | django_measurement/backports.py:8 | the `<=` that Python 3's `functools.total_ordering` derives from `__lt__` (lt or eq, `NotImplemented` passed on) is `NotImplemented` for another class and otherwise is `standard <= other.standard` |
| Backports.Measure.Gt | django_measurement/backports.py:8 | the `>` that Python 3's `functools.total_ordering` derives from `__lt__` (not lt and not eq, `NotImplemented` passed on) is `NotImplemented` for another class and otherwise is `standard > other.standard` |
| Backports.Measure.Ge | django_measurement/backports.py:8 | the `>=` that Python 3's `functools.total_ordering` derives from `__lt__` (not lt, `NotImplemented` passed on) is `NotImplemented` for another class and otherwise is `standard >= other.standard` |
| Backports.Measure.Add | django_measurement/backports.py:90-95 | `+` of the same class is a new measure with the summed standard and the left operand's default unit; another class is a `TypeError` |
| Backports.Measure.Sub | django_measurement/backports.py:104-109 | `-` of the same class is a new measure with the difference of the standards and the left operand's default unit; another class is a `TypeError` |
| Backports.Measure.Mul | django_measurement/backports.py:118-123 | `*` by an `int` or a `float` is a new measure with the scaled standard; a `Decimal`, which cannot multiply the float standard, and anything else are a `TypeError` |
| Backports.Measure.TrueDiv | django_measurement/backports.py:135-142 | `/` by a measure of the same class is the plain ratio of the standards; by an `int` or a `float` it is a new measure whose standard times the number is the old one; division by a zero measure or number is a `ZeroDivisionError`; a `Decimal` (zero included) and anything else are a `TypeError` |
| Backports.Measure.IAdd | django_measurement/backports.py:97-102 | `+=` adds the other standard to this one and returns this measure, changing nothing else; another class is a `TypeError` that changes nothing |
| Backports.Measure.ISub | django_measurement/backports.py:111-116 | `-=` subtracts the other standard in place and returns this measure; another class is a `TypeError` that changes nothing |
| Backports.Measure.IMul | django_measurement/backports.py:125-130 | `*=` scales only the standard in place and returns this measure; a non-number is a `TypeError` that changes nothing |
| Backports.Measure.ITrueDiv | django_measurement/backports.py:147-152 | `/=` divides only the standard in place and returns this measure; zero is a `ZeroDivisionError` and a non-number a `TypeError`, neither changing anything |
| UnknownMeasures.Parts | django_measurement/measure.py:20-21 | the parts are exactly the constructor's measure, original unit and value |
| UnknownMeasures.Eq | django_measurement/measure.py:23-28 | a placeholder equals exactly the placeholders with the same measure name and value; against anything else `==` is `False` |
| UnknownMeasures.Lt | django_measurement/measure.py:30-36 | `<` answers exactly for a placeholder of the same measure name, comparing values, and is `NotImplemented` otherwise |
| UnknownMeasures.Le | django_measurement/measure.py:8-9 | the derived `<=` answers exactly when `<` does, and compares the values |
| UnknownMeasures.Gt | django_measurement/measure.py:8-9 | the derived `>` answers exactly when `<` does, and compares the values |
| UnknownMeasures.Ge | django_measurement/measure.py:8-9 | the derived `>=` answers exactly when `<` does, and compares the values |
| UnknownMeasures.EqIsEquivalence | django_measurement/measure.py:23-28 | placeholder equality is reflexive, symmetric and transitive, and ignores the original unit |
| UnknownMeasures.Trichotomy | django_measurement/measure.py:30-36 | for placeholders of one measure exactly one of `<`, `==` and `>` holds |
| Values.PyEqSymmetric | django_measurement/models.py:133-135 | Python `==` between the values the field compares is symmetric, whichever side's `__eq__` runs first |
| Values.ToFloat | django_measurement/backports.py:171 | `float()` keeps a number, parses a non-empty string, is a `ValueError` for `''` and for a string that is not a number, and is a `TypeError` for anything else |
| Fields.MeasurementParts | django_measurement/fields.py:30-36 | a placeholder passes its own parts through; a measure gives its unit and standard; anything else fails on the missing attribute |
| Fields.ParseName | django_measurement/fields.py:53-54 | the name regex is searched anywhere in the text and fails exactly when the text has no letter or digit; the groups are a non-empty alphanumeric name and an optional non-empty word |
| Fields.ParsePacked | django_measurement/fields.py:33 | parsing a packed `Name(STD)` gives back the name and the standard unit |
| Fields.ParseBare | django_measurement/fields.py:40 | a name without parentheses parses with no standard unit |
| Fields.Lookup | django_measurement/fields.py:71-91 | a registered measure is built; a mismatched standard unit raises `ValueError`; an unregistered or unusable name becomes a placeholder of the stored columns |
| Fields.Decode | django_measurement/fields.py:60-91 | `__get__` reads the cache exactly when the packed name or unit is empty, raises `AttributeError` exactly for a packed text with no name, and raises `ValueError` exactly when the stored standard unit differs from the class's |
| Fields.SetThenGet | django_measurement/fields.py:80-85 | a measure written and read back is rebuilt as its own class with the same standard magnitude |
| Fields.UnknownRestores | django_measurement/fields.py:86-91 | a placeholder read from the columns and written back reads back as the same placeholder |
| Fields.EmptyColumnsReadCache | django_measurement/fields.py:68-69 | empty columns return the cached attribute |
| Fields.Get | django_measurement/fields.py:56-93 | `__get__` without an instance returns the descriptor; with one it keeps the columns and returns and caches exactly what `Decode` decides, with a new measure of the original unit |
| Fields.Set | django_measurement/fields.py:95-108 | `__set__` without an instance raises `AttributeError`; a falsy value writes `''`, `''` and 0; a truthy one writes its three parts |
| Fields.ZeroMeasureIsNotStored | django_measurement/fields.py:99-104 | a zero measure is falsy, so it is written as empty columns, which read back from the cache |
| Fields.DefaultParts | django_measurement/fields.py:146-150 | the default columns are the parts of the default, or `''`, `''` and 0.0 without one |
| Fields.InstancePreInit | django_measurement/fields.py:199-207 | the field's keyword is popped and replaced by its `_measure`, `_unit` and `_value` keywords holding its parts; other keywords are untouched |
| Fields.FixFields | django_measurement/fields.py:229-238 | the loop over a copy computes exactly the fold `FixFold` over the keys in order, without changing the argument |
| Fields.SuffixesDiffer | django_measurement/fields.py:115-117 | the three column templates never produce the same name for two fields, nor for one field |
| Fields.FixFoldSplitsMeasures | django_measurement/fields.py:231-237 | after the first i keys, every non-measure key is kept, every measure key is split into its three columns, and nothing else is present |
| Fields.FixFieldsResult | django_measurement/fields.py:229-238 | `_fix_fields` keeps every non-measure keyword, replaces every measure keyword by its three columns, and adds nothing else, whenever no keyword name is another keyword's derived `_measure`, `_unit` or `_value` column name (`NoCollisions`) |
| Models.Construct | django_measurement/models.py:35-49 | a missing `measurement` comes from `measurement_class` (`AttributeError` for an unknown name); no measure, or one that is not a measure class, is a `TypeError`; the field records the class and its name |
| Models.Deconstruct | django_measurement/models.py:61-64 | `deconstruct` adds the class name as `measurement_class` |
| Models.RebuildFromDeconstruct | django_measurement/models.py:61-64 | a field rebuilt from its deconstruction has the same measure class and the same deconstruction |
| Models.GetPrepValue | django_measurement/models.py:69-81 | `None` stays `None`, a measure becomes its standard, anything else goes through `float()` |
| Models.FloatToPython | django_measurement/models.py:102 | the float field's `to_python`: only `None` is `None`, numbers stay, non-empty numeric strings parse, and `''` or anything else is the `invalid` error |
| Models.ToPythonAsWritten | django_measurement/models.py:83-114 | as written, every raw value the float field accepts ends in a `TypeError`, because `get_measurement` is called without its `unit`; a value the float field refuses keeps that field's error |
| Models.StoredValueFailsAsWritten | django_measurement/models.py:101-114 | as written, the very number `get_prep_value` stores cannot be turned back into a measure |
| Models.ToPython | django_measurement/models.py:83-114 | `None` and measures of the field's class come back unchanged; another measure class is `invalid_type`; a raw number becomes a new measure with that standard, in the first unit choice when there is one; `''` and other non-numbers are `invalid` |
| Models.StorageRoundTrip | django_measurement/models.py:69-114 | with the corrected call, what `get_prep_value` stores is turned back into a measure with the same standard magnitude |
| Models.ValueOf | django_measurement/models.py:157 | `value.value` is a measure's reading in its unit, a placeholder's value, and an `AttributeError` otherwise |
| Models.MinMax | django_measurement/models.py:153-169 | falsy bounds are skipped; with numeric truthy bounds the value passes exactly when it lies within them; each message names the bound that failed |
| Models.Validate | django_measurement/models.py:122-151 | the loops over the choices and optgroups compute exactly `Verdict`: skip non-editable fields, then choices, null, blank and bounds, the first failure winning |
| Models.NullRejectedFirst | django_measurement/models.py:143-145 | an editable non-null field rejects `None` with the `null` error |
| Models.ChoiceSkipsBounds | django_measurement/models.py:127-136 | a value matching a choice or an optgroup entry is accepted without the later checks |
| Models.AcceptedMeasureIsWithinBounds | django_measurement/models.py:151-169 | without choices, a measure validates exactly when its value lies within the truthy bounds |
| Models.ZeroBoundIsIgnored | django_measurement/models.py:155 | a zero `min_value` is falsy, so it bounds nothing |
| Forms.LinearChoices | django_measurement/forms.py:69-73 | the default choices of a linear measure are `(u, u)` for each unit, in `UNITS` order |
| Forms.ProductChoices | django_measurement/forms.py:58-68 | the bidimensional default has primary-count times reference-count entries, each with key equal to label |
| Forms.ProductChoicesOfferEveryPair | django_measurement/forms.py:58-68 | every pair of a primary unit i and a reference unit j appears as `p__r` at position i times the reference count plus j |
| Forms.LinearChoicesOfferEveryUnit | django_measurement/forms.py:69-73 | the linear default offers every unit exactly once, with key equal to label |
| Forms.NewFormField | django_measurement/forms.py:51-73 | a non-measure class is a `ValueError`; given unit choices are kept unchanged, and empty ones are replaced by the default |
| Forms.Decompress | django_measurement/forms.py:30-44 | a falsy value shows nothing; `STANDARD_UNIT` is shown when it is a choice key, else some choice key; the shown unit is always a choice key with the magnitude read in it; no choices is a `KeyError` |
| Forms.CompressUndoesDecompress | django_measurement/forms.py:96-100 | the magnitude and unit `decompress` shows rebuild the same standard magnitude |
| Forms.Compress | django_measurement/forms.py:88-100 | an empty list or empty magnitude is `None`; anything but a pair is a `ValueError`; else a new measure built from the unit and magnitude, or the construction's error |
| Utils.NameMapHasEvery | django_measurement/utils.py:37-38 | every measure of the library appears under its class name |
| Utils.NameMapOnlyNames | django_measurement/utils.py:38 | the name map holds only class names of listed measures |
| Utils.NameMapUnique | django_measurement/utils.py:38 | with distinct names, each name maps to its own measure |
| Utils.OverrideIsUnion | django_measurement/utils.py:39-43 | each override adds or replaces the entry under its name, and other entries stay |
| Utils.OverrideAll | django_measurement/utils.py:39-43 | applying all overrides is the map union with the overrides winning |
| Utils.BuildMeasureList | django_measurement/utils.py:36-46 | the registry is the name map updated by the overrides, with `UnknownMeasure` forced in last |
| Utils.RegistryEntries | django_measurement/utils.py:36-46 | `UnknownMeasure` always maps to the placeholder class, overrides win over library measures, and nothing else is present |
| Utils.GroupedNames | django_measurement/utils.py:21-25 | exactly the registry names that are neither the placeholder nor bidimensional get a group |
| Utils.GetMeasureUnitChoices | django_measurement/utils.py:18-33 | one group per grouped measure in registry order, each with one entry per unit whose key is `Measure.unit` or the bare unit and whose label is the unit |
| Utils.GroupItems | django_measurement/utils.py:26-30 | the inner loop makes one `(key, unit)` item per unit, in `UNITS` order |
| Utils.GroupOffersEveryUnitOnce | django_measurement/utils.py:26-30 | a group offers every unit of its measure exactly once, and only units |
| Utils.GetMeasurement | django_measurement/utils.py:49-57 | a new measure built from `unit=value`; a truthy `original_unit` replaces its unit; a bidimensional reference value is set to 1 |
| Admin.BeforeFinalNewline | django_measurement/admin.py:16-17 | where a pattern ending in `$` may stop: before one final newline, if any |
| Admin.FieldAttrNameShape | django_measurement/admin.py:16 | the stripped name has no newline and is the column name without `_value` (and a final newline) |
| Admin.FieldAttrNameOfColumn | django_measurement/admin.py:28-30 | the value column of a measurement gives back the measurement's name |
| Admin.SplitValue | django_measurement/admin.py:17 | an accepted text is a non-empty `[0-9.-]` run, one space and a non-empty `[a-zA-Z_/]` run, then the end or one newline |
| Admin.SplitValueFindsTheParts | django_measurement/admin.py:17 | every text of that form is accepted and split into exactly its number and unit |
| Admin.LookupUnit | django_measurement/admin.py:60 | the unit looked up has no `/` left, and is unchanged when it had none |
| Admin.LookupRatioUnit | django_measurement/admin.py:60 | a ratio unit `primary/reference` is looked up as `primary__reference`, the key `Forms.PairKey` gives its bidimensional choice (`mi/hr` becomes `mi__hr`) |
| Admin.MeasureFieldsFail | django_measurement/admin.py:26-30 | deriving the measure fields fails with `AttributeError` exactly when a value column's name does not match |
| Admin.MeasureFieldNames | django_measurement/admin.py:26-33 | the measure fields are exactly the stripped names of the value columns |
| Admin.MeasureFieldRequired | django_measurement/admin.py:31-33 | a measure field is required exactly when the last value column of its name is not blank |
| Admin.MeasureFieldsFailurePersists | django_measurement/admin.py:28-30 | once a column fails to match, the whole derivation fails with that error |
| Admin.MeasureChoices | django_measurement/admin.py:35-36 | the measure choices are `(None, '')` followed by `(k, k)` for every registered name, in order |
| Admin.InputsOfKeepModelInputs | django_measurement/admin.py:34-41 | the model form's other inputs are kept |
| Admin.InputsOfMeasureFields | django_measurement/admin.py:34-41 | every measure field gets its text input and its `_measure` choice, each required exactly when the field is |
| Admin.CollectMeasureFields | django_measurement/admin.py:26-33 | the first loop of `__init__` fills `MEASURE_FIELDS` exactly as the derivation does, or stops with its `AttributeError` |
| Admin.AddMeasureInputs | django_measurement/admin.py:34-41 | the second loop adds exactly the `_measure` choice and the text input of every measure field, in order |
| Admin.AdminForm.New | django_measurement/admin.py:20-41 | `__init__` fails as the derivation does, and otherwise holds exactly the derived measure fields and inputs, with empty cleaned data |
| Admin.AdminForm.Clean | django_measurement/admin.py:47-74 | the loop leaves exactly the cleaned data of the fold `CleanFold`, and returns it or the exception that stopped it |
| Admin.CleanStepSkips | django_measurement/admin.py:48-55 | a field without a cleaned `_measure`, or with a falsy text or measure name, is left alone |
| Admin.MalformedTextIsRejected | django_measurement/admin.py:58-71 | a text not of the accepted form, under a known measure, is a validation error naming the text and the lower-cased measure |
| Admin.CleanStepStores | django_measurement/admin.py:72-73 | a successful step drops `_measure` and stores the parsed measurement under the field, changing nothing else |
| Admin.CleanStepKeepsOthers | django_measurement/admin.py:72-73 | one step keeps every entry other than the field and its `_measure`, and adds no other name |
| Admin.CleanFoldKeepsOthers | django_measurement/admin.py:47-74 | whether `clean` finishes or stops, entries that are no measure field or `_measure` input keep their values, and only measure fields appear anew |
| Rest.ToDecimal | django_measurement/rest_framework.py:9-10 | a string that is not a decimal is `InvalidOperation`; a value of another type is a `TypeError` |
| Rest.InternalValueOf | django_measurement/rest_framework.py:53-68 | a missing `unit` is a `KeyError`; an invalid unit fails with `invalid_unit` before the value is looked at; success needs a non-zero decimal value and builds `measurement_class(**{unit: value})` from that decimal reading of `value`, where the source passes the raw `value`, which the measure constructor reads with `float()`; the two readings are taken to agree |
| Rest.ToInternalValue | django_measurement/rest_framework.py:53-68 | the result is a new measure holding exactly what `InternalValueOf` describes, or its error |
| Rest.ToRepresentation | django_measurement/rest_framework.py:42-46 | the representation has exactly `unit` and `value`, the measure's unit and its reading in that unit |
| Rest.RepresentationRoundTrip | django_measurement/rest_framework.py:42-68 | sending a representation back rebuilds the measure's standard and unit, except that a zero measure is refused with `invalid_value` |
| Rest.UnitCheckedFirst | django_measurement/rest_framework.py:54-59 | two payloads with the same invalid unit fail alike, whatever their values |
| Rest.ZeroValueIsRefused | django_measurement/rest_framework.py:61-66 | a valid unit with a zero decimal value fails with `invalid_value` |
| Text.ReplaceChar | django_measurement/admin.py:60 | after replacing a character by a text without it the character is gone, and a text without it is unchanged |
| Text.ReplaceCharAppend | django_measurement/admin.py:60 | `str.replace` of a concatenation is the concatenation of the replaced parts |
| Text.ReplaceCharSingle | django_measurement/admin.py:60 | the pattern on its own becomes the replacement and any other character stays; with `ReplaceCharAppend` this fixes the whole result |
| Dicts.Put | django_measurement/fields.py:234-236 | storing a key updates its entry, keeps the position of an existing key and appends a new one |
| Dicts.Remove | django_measurement/admin.py:72 | removing a key drops exactly its entry, keeps all the others' values, and keeps the other keys in their order |

## Left out

- Framework registration and lifecycle are not modelled. This covers `contribute_to_class`, signal wiring, the managers and query set delegation, `formfield`, the South rules and `MeasurementAdmin`. They are host-framework plumbing.
- Logging and deprecation warnings are not modelled.
- `get_class_by_path` is not modelled: it performs dynamic imports. The override classes are given as a parameter.
- The external measurement library is not modelled. Its `guess`, `get_all_measures`, `get_units()`, `Decimal` parsing and `BidimensionalMeasure` internals are parameters. A bidimensional measure is a measure class with a primary and a reference dimension, and its reference value is only what `get_measurement` sets.
- Floating point is not modelled. Numbers are exact reals, and `float()`/`Decimal()` of a number is the number itself. Non-finite decimals (`NaN`, `Infinity`) are not modelled.
- Python's `lower()` and the regular expression classes are ASCII here. Unicode case folding is not modelled.
- Backports.Measure.Mul: `__rmul__` is the same operation, `Decimal` refusal included, and is not written separately. The Python 2 aliases `__div__`, `__idiv__` and `__nonzero__` are left out.
- Backports.Measure.Eq, Lt, Add, Sub, IAdd, ISub, TrueDiv and Models.ToPython: `isinstance(other, self.__class__)` and `isinstance(value, self.measurement)` are modelled as identity of the measure class; measure subclasses are not modelled, so a subclass instance, which the source accepts, is a different class here.
- Fields.FixFieldsResult: the contents of the result are stated only when no keyword name is a column name derived from another keyword (`NoCollisions`); with such a collision a later write or `del` of the source's loop can replace or remove a column written earlier, which this lemma does not describe.
- The `unit` setter of the measurement library (unit validation on assignment) is a plain assignment here.
- The admin form's initial values for an instance (`str(value)`) are not modelled, because `str` of a measure comes from the external library.
- Admin: the measure name must be a string to be looked up in the registry. Any other truthy name is modelled as a `KeyError`. An unhashable one would be a `TypeError`.
- Empty lists, tuples and dicts among Django's `empty_values` are not values of the model. Only `None` and `''` are empty.
- The form field's `min_value`/`max_value` are passed to Django's `FloatField` and are not modelled.
- `python -O`, which would disable the `assert` used by `min_max_validation`, is not modelled.
- Dicts: a key sequence over a map stands for Python's insertion-ordered dict. Measure classes list their `UNITS` order explicitly.
- The `__repr__`/`__str__` of measures and placeholders produce display text only and are not modelled.

## Findings

| source | as written | input that shows it | evidently intended | confidence | as-written member | corrected member |
|---|---|---|---|---|---|---|
| django_measurement/models.py:110-114 | `to_python` calls `get_measurement(measure=..., value=..., original_unit=...)`, but `get_measurement` (django_measurement/utils.py:49) has a required `unit` parameter, so every raw value raises `TypeError` | the float `2.0`, or the standard value that `get_prep_value` stores for any measure, passed to `to_python` | build the measure in `STANDARD_UNIT` from the stored standard magnitude, with the first unit choice as its display unit | not executed | Models.StoredValueFailsAsWritten | Models.StorageRoundTrip |
