# GO registry aligner — Dafny model

This project models the Gene Ontology (GO) plugin of the Bioregistry's
alignment framework, `GoAligner` in `src/bioregistry/align/go.py`. It covers
two operations:

- `prepare_external` turns one entry of the GO registry into the small,
  closed set of fields the Bioregistry takes from it: `name`, `description`,
  `homepage`, `formatter` and `synonyms`.
- `get_curation_row` turns an entry into the `[name, description]` row shown to
  curators for entries that could not be aligned.

The model is functional. The entry is a datatype with `Option` fields, one per
key that may be missing. The prepared record is a Python-like dictionary
`map<string, Value>`, so "no other key ever appears" is a real property.
The two `print` diagnostics become a list of `Warning` values returned with
the record. A missing `name` makes Python raise `KeyError`; the model returns
`Failure(KeyError("name"))` instead.

Files and modules:

- `wrappers.dfy` (`Wrappers`): `Option` and `Result`.
- `sequences.dfy` (`Sequences`): `Filter`, which models a list comprehension
  with an `if` clause. It comes with facts about the first survivor, about
  more than one survivor, and about order.
- `strings.dfy` (`Strings`): models of `str.startswith`, of
  `any(s.startswith(p) for p in ...)` and of `str.replace`. For a non-empty
  pattern, replacement is proved equal to an independent description,
  `rep.join(s.split(pat))`, which cuts at the leftmost occurrence and then
  again in the rest. When the replacement is non-empty and shares no
  character with the pattern, no occurrence of the pattern is left; `$1` and
  `[example_id]` meet that condition.
- `go_aligner.dfy` (`GoAligner`): the entry and record types, the homepage and
  formatter choices, `PrepareExternal` and `GetCurationRow`.
- `go_aligner_examples.dfy` (`GoAlignerExamples`): worked cases on concrete
  entries.

Behaviour of `go.py` that the model keeps:

- `external_entry["name"]` raises `KeyError` when the name is missing, in
  `prepare_external` (go.py:37) and in `get_curation_row` (go.py:83); both
  operations return a `KeyError` failure in that case.
- `str.replace` (go.py:73) rewrites every non-overlapping occurrence of
  `[example_id]`, scanning left to right.
- The curation row takes the description with `.get` (go.py:83) and does not
  filter it, so an empty description stays `""` in the row, although the
  prepared record drops it (go.py:41).

## Model

| member | source | states |
|---|---|---|
| GoAligner.PrepareExternal | src/bioregistry/align/go.py:32-79 | Fails with `KeyError("name")` exactly when the name is missing. Otherwise the record's keys lie within name/description/homepage/formatter/synonyms and the name is copied. The description is present iff it is non-empty, and then verbatim. The homepage is present iff some generic URL is not an OBO PURL, and then it is the first such URL. The formatter is present iff there is exactly one entity type with a non-empty, non-PURL `url_syntax`, and then it is that template cut at `[example_id]` and rejoined with `$1`. It contains no `[example_id]` and does not start with a PURL prefix. Synonyms are present iff the key is, and copied. The warnings are the homepage warning, then the entity-type warning, each only when its condition holds |
| GoAligner.SelectHomepage | src/bioregistry/align/go.py:44-57 | The homepage exists iff some URL is not an OBO PURL, and then it is the first such URL in input order. A warning is produced iff two different positions hold non-PURL URLs, and it lists exactly the non-PURL URLs |
| GoAligner.SelectFormatter | src/bioregistry/align/go.py:59-74 | A formatter exists iff there is exactly one entity type and its `url_syntax` is non-empty and starts with neither PURL prefix. It then equals the template split at `[example_id]` and joined with `$1`. It has no `[example_id]` left, starts with no PURL prefix, and equals the template when the template has no placeholder. A warning is produced iff there are more than one entity types, whatever their content |
| GoAligner.GetCurationRow | src/bioregistry/align/go.py:81-83 | Fails with `KeyError("name")` exactly when the name is missing. Otherwise the row has the length of the curation header and holds the name and the raw, possibly absent, description |
| GoAligner.CurationRowAgreesWithPrepared | src/bioregistry/align/go.py:81-83 | The curation row and the prepared record fail together. They share the name, and the record keeps the description iff the row's description is non-empty, with the same text |
| GoAligner.NameOnlyEntry | src/bioregistry/align/go.py:36-38 | An entry with only a name prepares to exactly `{"name": name}` with no warnings |
| Sequences.Filter | src/bioregistry/align/go.py:44-53 | Every kept element is in the input and passes the test; every input element that passes the test is kept; nothing grows |
| Sequences.FilterAppend | src/bioregistry/align/go.py:44-53 | Filtering distributes over concatenation, so kept elements stay in input order |
| Sequences.FilterNonEmpty | src/bioregistry/align/go.py:56 | Something survives the filter iff some element passes |
| Sequences.FilterFirst | src/bioregistry/align/go.py:56-57 | When something survives, the first survivor is the first passing element in input order |
| Sequences.FilterMoreThanOne | src/bioregistry/align/go.py:54-55 | More than one element survives iff two different positions pass |
| Strings.StartsWith | src/bioregistry/align/go.py:48 | True iff the prefix is no longer than the string and equals the string's leading slice |
| Strings.StartsWithAny | src/bioregistry/align/go.py:66-72 | True iff the string starts with at least one prefix of the list |
| Strings.ReplaceAll | src/bioregistry/align/go.py:73 | With a non-empty pattern that does not occur, the string is returned unchanged |
| Strings.Split | src/bioregistry/align/go.py:73 | The reference cut for replacement. There is one piece exactly when the pattern does not occur; otherwise the first piece ends at the leftmost occurrence. No piece contains the pattern, and joining the pieces with the pattern restores the string |
| Strings.ReplaceAllIsJoinOfSplit | src/bioregistry/align/go.py:73 | With a non-empty pattern, replacement equals cutting at the leftmost non-overlapping occurrences and joining with the replacement |
| Strings.ReplaceAllRemovesPattern | src/bioregistry/align/go.py:73 | With a non-empty replacement that shares no character with the pattern, no occurrence of the pattern survives |
| Strings.ReplaceAllKeepsNonPrefix | src/bioregistry/align/go.py:66-73 | Replacement cannot create a forbidden prefix when the replacement's first character appears nowhere in that prefix |
| GoAlignerExamples.HomepageSkipsLeadingPurl | src/bioregistry/align/go.py:44-57 | For a PURL followed by two candidates, the first candidate is the homepage and one warning lists both candidates in order |
| GoAlignerExamples.HomepageSkipsPurl | src/bioregistry/align/go.py:44-57 | `[http://purl.obolibrary.org/x, http://example.org/a, http://example.org/b]` gives homepage `http://example.org/a` and a multiple-homepages warning |
| GoAlignerExamples.FormatterRewritesTrailingPlaceholder | src/bioregistry/align/go.py:63-74 | A usable template of a bracket-free URL followed by `[example_id]` gives that URL followed by `$1`, with no warning |
| GoAlignerExamples.FormatterRewritesPlaceholder | src/bioregistry/align/go.py:63-74 | `http://example.org/[example_id]` gives the formatter `http://example.org/$1` |
| GoAlignerExamples.TwoEntityTypesGiveNoFormatter | src/bioregistry/align/go.py:59-63 | Two entity types of any content give no formatter and one multiple-entity-types warning |
| GoAlignerExamples.DescriptionTruthiness | src/bioregistry/align/go.py:40-42 | An empty description is dropped; `"x"` is kept verbatim |

## Left out

- `get_skip` (go.py:26-30) is not modelled. It reads `processing_go.json` from disk and returns its `skip` entry; that is file I/O and JSON parsing.
- The `Aligner` base class, the `get_go` fetcher and `DATA_DIRECTORY` (go.py:8-10, 16, 22-23) are not part of this model. They are download and registry plumbing whose code is not shown.
- The `__main__` entry point `GoAligner.align()` (go.py:86-87) is not modelled. It is command-line orchestration.
- The `print` calls (go.py:55, 61) are modelled as returned `Warning` values, not as console output.
- Python's dynamic typing is not modelled. `name`, `description` and `url_syntax` are taken to be strings, `generic_urls` and `synonyms` lists of strings, and `entity_types` a list of records. A JSON `null` stored under `synonyms`, a non-list `generic_urls`, or a non-string description cannot be expressed.
- Entity-type keys other than `url_syntax`, and entry keys other than the five read, are not represented, because the code never reads them.
- Strings.ReplaceAll: its empty-pattern branch follows Python's `str.replace`, but no lemma characterises it. The aligner only ever replaces the non-empty `[example_id]`.
