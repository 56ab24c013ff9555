/** The Gene Ontology registry aligner: turns one GO registry entry into the
    fields the Bioregistry takes from it (`GoAligner.prepare_external`) and
    into a row for manual curation (`GoAligner.get_curation_row`). The
    diagnostics the aligner prints are returned as a list of warnings. */
module GoAligner {
  import opened Wrappers
  import opened Sequences
  import opened Strings

  /** One element of an entry's `entity_types` list; only `url_syntax` is read. */
  datatype EntityType = EntityType(urlSyntax: Option<string>)

  /** One GO registry entry. Every key may be missing from the mapping. */
  datatype ExternalEntry = ExternalEntry(
    name: Option<string>,
    description: Option<string>,
    genericUrls: Option<seq<string>>,
    entityTypes: Option<seq<EntityType>>,
    synonyms: Option<seq<string>>)

  /** A value stored in the prepared record: a string or a list of strings. */
  datatype Value = Text(text: string) | TextList(items: seq<string>)

  /** The diagnostics printed while preparing an entry. */
  datatype Warning =
    | MultipleHomepages(externalId: string, homepages: seq<string>)
    | MultipleEntityTypes(externalId: string)

  /** Python's `KeyError`, raised by `entry[key]` when `key` is missing. */
  datatype KeyError = KeyError(key: string)

  /** A computed value together with the warnings emitted on the way. */
  datatype Diagnosed<+T> = Diagnosed(value: T, warnings: seq<Warning>)

  /** The prepared Bioregistry record (a dictionary) and its warnings. */
  datatype Prepared = Prepared(record: map<string, Value>, warnings: seq<Warning>)

  const NameKey := "name"
  const DescriptionKey := "description"
  const HomepageKey := "homepage"
  const FormatterKey := "formatter"
  const SynonymsKey := "synonyms"

  /** The only keys a prepared record can have. */
  const PreparedKeys: set<string> :=
    {NameKey, DescriptionKey, HomepageKey, FormatterKey, SynonymsKey}

  /** `GoAligner.curation_header`. */
  const CurationHeader: seq<string> := [NameKey, DescriptionKey]

  /** URLs with these prefixes are OBO PURLs, not homepages. */
  const HomepageExcludedPrefixes: seq<string> := ["http://purl.obolibrary.org"]

  /** URL templates with these prefixes are OBO PURLs, not formatters. */
  const FormatterExcludedPrefixes: seq<string> :=
    ["http://purl.obolibrary.org", "https://purl.obolibrary.org"]

  /** GO's placeholder for the local identifier in a URL template. */
  const ExamplePlaceholder := "[example_id]"

  /** The Bioregistry's placeholder for the local identifier. */
  const SubstitutionMarker := "$1"

  /** The five keys are different strings. */
  lemma KeysDistinct()
    ensures NameKey != DescriptionKey && NameKey != HomepageKey && NameKey != FormatterKey && NameKey != SynonymsKey
    ensures DescriptionKey != HomepageKey && DescriptionKey != FormatterKey && DescriptionKey != SynonymsKey
    ensures HomepageKey != FormatterKey && HomepageKey != SynonymsKey
    ensures FormatterKey != SynonymsKey
  {
    assert NameKey[0] != DescriptionKey[0] && NameKey[0] != HomepageKey[0];
    assert NameKey[0] != FormatterKey[0] && NameKey[0] != SynonymsKey[0];
    assert DescriptionKey[0] != HomepageKey[0] && DescriptionKey[0] != FormatterKey[0];
    assert DescriptionKey[0] != SynonymsKey[0] && HomepageKey[0] != FormatterKey[0];
    assert HomepageKey[0] != SynonymsKey[0] && FormatterKey[0] != SynonymsKey[0];
  }

  /** The record holding `name` and each optional field that is present. */
  function Record(name: string, description: Option<string>, homepage: Option<string>,
                  formatter: Option<string>, synonyms: Option<seq<string>>): (rv: map<string, Value>)
    ensures rv.Keys <= PreparedKeys
    ensures NameKey in rv && rv[NameKey] == Text(name)
    ensures DescriptionKey in rv <==> description.Some?
    ensures description.Some? ==> rv[DescriptionKey] == Text(description.value)
    ensures HomepageKey in rv <==> homepage.Some?
    ensures homepage.Some? ==> rv[HomepageKey] == Text(homepage.value)
    ensures FormatterKey in rv <==> formatter.Some?
    ensures formatter.Some? ==> rv[FormatterKey] == Text(formatter.value)
    ensures SynonymsKey in rv <==> synonyms.Some?
    ensures synonyms.Some? ==> rv[SynonymsKey] == TextList(synonyms.value)
  {
    KeysDistinct();
    var rv := map[NameKey := Text(name)];
    var rv := if description.Some? then rv[DescriptionKey := Text(description.value)] else rv;
    var rv := if homepage.Some? then rv[HomepageKey := Text(homepage.value)] else rv;
    var rv := if formatter.Some? then rv[FormatterKey := Text(formatter.value)] else rv;
    if synonyms.Some? then rv[SynonymsKey := TextList(synonyms.value)] else rv
  }

  /** Python truthiness of an optional string: present and non-empty. */
  predicate Truthy(s: Option<string>)
  {
    s.Some? && |s.value| > 0
  }

  /** A generic URL that may serve as the homepage. */
  predicate IsHomepageCandidate(url: string)
  {
    !StartsWithAny(url, HomepageExcludedPrefixes)
  }

  /** A `url_syntax` that may become the formatter. */
  predicate IsUsableUrlSyntax(urlSyntax: Option<string>)
  {
    Truthy(urlSyntax) && !StartsWithAny(urlSyntax.value, FormatterExcludedPrefixes)
  }

  /** Two different positions of `urls` hold homepage candidates. */
  ghost predicate SeveralHomepageCandidates(urls: seq<string>)
  {
    exists i, j :: 0 <= i < j < |urls| && IsHomepageCandidate(urls[i]) && IsHomepageCandidate(urls[j])
  }

  /** The homepage choice: the first URL that is not an OBO PURL, with a
      warning listing all such URLs when there is more than one. */
  function SelectHomepage(externalId: string, urls: seq<string>): (r: Diagnosed<Option<string>>)
    ensures r.value.Some? <==> exists i :: 0 <= i < |urls| && IsHomepageCandidate(urls[i])
    ensures r.value.Some? ==>
              exists i :: FirstWhere(urls, IsHomepageCandidate, i) && r.value.value == urls[i]
    ensures |r.warnings| > 0 <==> SeveralHomepageCandidates(urls)
    ensures |r.warnings| > 0 ==>
              r.warnings == [MultipleHomepages(externalId, Filter(urls, IsHomepageCandidate))]
  {
    var homepages := Filter(urls, IsHomepageCandidate);
    FilterNonEmpty(urls, IsHomepageCandidate);
    FilterMoreThanOne(urls, IsHomepageCandidate);
    var warnings := if |homepages| > 1 then [MultipleHomepages(externalId, homepages)] else [];
    if |homepages| > 0 then
      FilterFirst(urls, IsHomepageCandidate);
      Diagnosed(Some(homepages[0]), warnings)
    else
      Diagnosed(None, warnings)
  }

  /** The formatter choice: only a single entity type is considered; its
      `url_syntax`, if non-empty and not an OBO PURL, has every `[example_id]`
      rewritten to `$1`. Several entity types give a warning and no formatter. */
  function SelectFormatter(externalId: string, entityTypes: seq<EntityType>): (r: Diagnosed<Option<string>>)
    ensures r.value.Some? <==> |entityTypes| == 1 && IsUsableUrlSyntax(entityTypes[0].urlSyntax)
    ensures r.value.Some? ==>
              r.value.value == Join(Split(entityTypes[0].urlSyntax.value, ExamplePlaceholder), SubstitutionMarker)
    ensures r.value.Some? ==> !Occurs(r.value.value, ExamplePlaceholder)
    ensures r.value.Some? && !Occurs(entityTypes[0].urlSyntax.value, ExamplePlaceholder) ==>
              r.value.value == entityTypes[0].urlSyntax.value
    ensures r.value.Some? ==> |r.value.value| > 0 && !StartsWithAny(r.value.value, FormatterExcludedPrefixes)
    ensures |r.warnings| > 0 <==> |entityTypes| > 1
    ensures |r.warnings| > 0 ==> r.warnings == [MultipleEntityTypes(externalId)]
  {
    if |entityTypes| > 1 then
      Diagnosed(None, [MultipleEntityTypes(externalId)])
    else if |entityTypes| == 1 && IsUsableUrlSyntax(entityTypes[0].urlSyntax) then
      var urlSyntax := entityTypes[0].urlSyntax.value;
      ReplaceAllIsJoinOfSplit(urlSyntax, ExamplePlaceholder, SubstitutionMarker);
      ReplaceAllRemovesPattern(urlSyntax, ExamplePlaceholder, SubstitutionMarker);
      ReplaceAllKeepsNonPrefix(urlSyntax, ExamplePlaceholder, SubstitutionMarker, FormatterExcludedPrefixes[0]);
      ReplaceAllKeepsNonPrefix(urlSyntax, ExamplePlaceholder, SubstitutionMarker, FormatterExcludedPrefixes[1]);
      Diagnosed(Some(ReplaceAll(urlSyntax, ExamplePlaceholder, SubstitutionMarker)), [])
    else
      Diagnosed(None, [])
  }

  /** `GoAligner.prepare_external`: the fields the Bioregistry takes from one
      GO registry entry, built key by key as the source does, with the
      diagnostics returned instead of printed. A missing `name` raises. */
  function PrepareExternal(externalId: string, entry: ExternalEntry): (r: Result<Prepared, KeyError>)
    ensures r.Failure? <==> entry.name.None?
    ensures r.Failure? ==> r.error == KeyError(NameKey)
    ensures r.Success? ==> r.value.record.Keys <= PreparedKeys
    // name: always copied
    ensures r.Success? ==> NameKey in r.value.record && r.value.record[NameKey] == Text(entry.name.value)
    // description: kept only when truthy, verbatim
    ensures r.Success? ==> (DescriptionKey in r.value.record <==> Truthy(entry.description))
    ensures r.Success? && DescriptionKey in r.value.record ==>
              r.value.record[DescriptionKey] == Text(entry.description.value)
    // homepage: the first generic URL that is not an OBO PURL
    ensures r.Success? ==>
              var urls := entry.genericUrls.GetOr([]);
              (HomepageKey in r.value.record <==> exists i :: 0 <= i < |urls| && IsHomepageCandidate(urls[i]))
    ensures r.Success? && HomepageKey in r.value.record ==>
              var urls := entry.genericUrls.GetOr([]);
              exists i :: FirstWhere(urls, IsHomepageCandidate, i) && r.value.record[HomepageKey] == Text(urls[i])
    // formatter: one entity type with a usable url_syntax, placeholder rewritten
    ensures r.Success? ==>
              var types := entry.entityTypes.GetOr([]);
              (FormatterKey in r.value.record <==> |types| == 1 && IsUsableUrlSyntax(types[0].urlSyntax))
    ensures r.Success? && FormatterKey in r.value.record ==>
              var types := entry.entityTypes.GetOr([]);
              r.value.record[FormatterKey].Text? &&
              r.value.record[FormatterKey].text ==
                Join(Split(types[0].urlSyntax.value, ExamplePlaceholder), SubstitutionMarker)
    ensures r.Success? && FormatterKey in r.value.record ==>
              !Occurs(r.value.record[FormatterKey].text, ExamplePlaceholder) &&
              !StartsWithAny(r.value.record[FormatterKey].text, FormatterExcludedPrefixes)
    // synonyms: copied whenever the key is present
    ensures r.Success? ==> (SynonymsKey in r.value.record <==> entry.synonyms.Some?)
    ensures r.Success? && SynonymsKey in r.value.record ==>
              r.value.record[SynonymsKey] == TextList(entry.synonyms.value)
    // warnings: homepages first, then entity types, each at most once
    ensures r.Success? ==>
              var urls := entry.genericUrls.GetOr([]);
              var types := entry.entityTypes.GetOr([]);
              r.value.warnings ==
                (if SeveralHomepageCandidates(urls)
                 then [MultipleHomepages(externalId, Filter(urls, IsHomepageCandidate))] else []) +
                (if |types| > 1 then [MultipleEntityTypes(externalId)] else [])
  {
    match entry.name
    case None => Failure(KeyError(NameKey))
    case Some(name) =>
      var description := if Truthy(entry.description) then entry.description else None;
      var homepage := SelectHomepage(externalId, entry.genericUrls.GetOr([]));
      var formatter := SelectFormatter(externalId, entry.entityTypes.GetOr([]));
      var rv := Record(name, description, homepage.value, formatter.value, entry.synonyms);
      Success(Prepared(rv, homepage.warnings + formatter.warnings))
  }

  /** `GoAligner.get_curation_row`: the entry's name and its raw description
      (absent when missing), in the order of the curation header. */
  function GetCurationRow(externalId: string, entry: ExternalEntry): (r: Result<seq<Option<string>>, KeyError>)
    ensures r.Failure? <==> entry.name.None?
    ensures r.Failure? ==> r.error == KeyError(NameKey)
    ensures r.Success? ==> |r.value| == |CurationHeader|
    ensures r.Success? ==> r.value[0] == entry.name && r.value[1] == entry.description
  {
    match entry.name
    case None => Failure(KeyError(NameKey))
    case Some(name) => Success([Some(name), entry.description])
  }

  /** The curation row and the prepared record agree: both raise exactly when
      the name is missing, carry the same name, and the record keeps the
      description exactly when the row's description is truthy. */
  lemma CurationRowAgreesWithPrepared(externalId: string, entry: ExternalEntry)
    ensures GetCurationRow(externalId, entry).Success? <==> PrepareExternal(externalId, entry).Success?
    ensures PrepareExternal(externalId, entry).Success? ==>
              var row := GetCurationRow(externalId, entry).value;
              var rec := PrepareExternal(externalId, entry).value.record;
              && row[0] == Some(rec[NameKey].text)
              && (DescriptionKey in rec <==> Truthy(row[1]))
              && (DescriptionKey in rec ==> rec[DescriptionKey] == Text(row[1].value))
  {
  }

  /** An entry with only a name prepares to exactly `{"name": name}`, with no
      warnings. */
  lemma NameOnlyEntry(externalId: string, name: string)
    ensures PrepareExternal(externalId, ExternalEntry(Some(name), None, None, None, None))
            == Success(Prepared(map[NameKey := Text(name)], []))
  {
    var rec := PrepareExternal(externalId, ExternalEntry(Some(name), None, None, None, None)).value.record;
    assert rec.Keys == {NameKey};
  }
}
