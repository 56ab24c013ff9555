/** Worked instances of the GO aligner's rules on concrete entries. */
module GoAlignerExamples {
  import opened Wrappers
  import opened Sequences
  import opened Strings
  import opened GoAligner

  const Purl := "http://purl.obolibrary.org/x"
  const SiteA := "http://example.org/a"
  const SiteB := "http://example.org/b"

  /** An OBO PURL is not a homepage candidate; an ordinary URL is. */
  lemma CandidateExamples()
    ensures !IsHomepageCandidate(Purl)
    ensures IsHomepageCandidate(SiteA) && IsHomepageCandidate(SiteB)
  {
    assert StartsWith(Purl, HomepageExcludedPrefixes[0]);
    assert !StartsWith(SiteA, HomepageExcludedPrefixes[0]);
    assert !StartsWith(SiteB, HomepageExcludedPrefixes[0]);
  }

  /** Filtering one rejected element followed by two kept ones. */
  lemma FilterThree(keep: string -> bool, x: string, y: string, z: string)
    requires !keep(x) && keep(y) && keep(z)
    ensures Filter([x, y, z], keep) == [y, z]
  {
    assert [z][1..] == [];
    assert Filter([z], keep) == [z];
    assert [y, z][1..] == [z];
    assert Filter([y, z], keep) == [y, z];
    assert [x, y, z][1..] == [y, z];
  }

  /** An entry with only a name and generic URLs gets the homepage choice
      and its warnings, and nothing else. */
  lemma UrlsOnlyEntry(id: string, name: string, urls: seq<string>)
    ensures var r := PrepareExternal(id, ExternalEntry(Some(name), None, Some(urls), None, None));
            var h := SelectHomepage(id, urls);
            && r.Success?
            && r.value.record == Record(name, None, h.value, None, None)
            && r.value.warnings == h.warnings
  {
    assert SelectFormatter(id, []) == Diagnosed(None, []);
  }

  /** The homepage choice on a PURL followed by two candidates. */
  lemma SelectAfterLeadingPurl(id: string, purl: string, a: string, b: string)
    requires !IsHomepageCandidate(purl) && IsHomepageCandidate(a) && IsHomepageCandidate(b)
    ensures SelectHomepage(id, [purl, a, b]) == Diagnosed(Some(a), [MultipleHomepages(id, [a, b])])
  {
    FilterThree(IsHomepageCandidate, purl, a, b);
  }

  /** A PURL followed by two homepage candidates: the first candidate
      becomes the homepage, and a warning lists both candidates in order. */
  lemma HomepageSkipsLeadingPurl(id: string, name: string, purl: string, a: string, b: string)
    requires !IsHomepageCandidate(purl) && IsHomepageCandidate(a) && IsHomepageCandidate(b)
    ensures var r := PrepareExternal(id, ExternalEntry(Some(name), None, Some([purl, a, b]), None, None));
            && r.Success?
            && HomepageKey in r.value.record && r.value.record[HomepageKey] == Text(a)
            && r.value.warnings == [MultipleHomepages(id, [a, b])]
  {
    SelectAfterLeadingPurl(id, purl, a, b);
    UrlsOnlyEntry(id, name, [purl, a, b]);
  }

  /** The same on concrete URLs. */
  lemma HomepageSkipsPurl()
    ensures var r := PrepareExternal("GO:1", ExternalEntry(Some("n"), None, Some([Purl, SiteA, SiteB]), None, None));
            && r.Success?
            && HomepageKey in r.value.record && r.value.record[HomepageKey] == Text(SiteA)
            && r.value.warnings == [MultipleHomepages("GO:1", [SiteA, SiteB])]
  {
    CandidateExamples();
    HomepageSkipsLeadingPurl("GO:1", "n", Purl, SiteA, SiteB);
  }

  /** A template made of a bracket-free URL and a pattern that opens with
      a bracket splits into that URL and an empty tail. */
  lemma SplitBeforeBracket(site: string, p: string)
    requires |p| > 0 && p[0] == '['
    requires forall k :: 0 <= k < |site| ==> site[k] != '['
    ensures Split(site + p, p) == [site, []]
  {
    forall j | 0 <= j < |site|
      ensures !OccursAt(site + p, p, j)
    {
      assert (site + p)[j..j + |p|][0] == site[j];
    }
    SplitSingleTrailing(site, p);
  }

  /** An entry with only a name and entity types gets the formatter choice
      and its warnings, and nothing else. */
  lemma TypesOnlyEntry(id: string, name: string, types: seq<EntityType>)
    ensures var r := PrepareExternal(id, ExternalEntry(Some(name), None, None, Some(types), None));
            var f := SelectFormatter(id, types);
            && r.Success?
            && r.value.record == Record(name, None, None, f.value, None)
            && r.value.warnings == f.warnings
  {
    assert SelectHomepage(id, []) == Diagnosed(None, []);
  }

  /** A single entity type whose usable template ends in `[example_id]`
      gives the formatter that ends in `$1` instead. */
  lemma FormatterRewritesTrailingPlaceholder(id: string, name: string, site: string)
    requires forall k :: 0 <= k < |site| ==> site[k] != '['
    requires IsUsableUrlSyntax(Some(site + ExamplePlaceholder))
    ensures var r := PrepareExternal(id, ExternalEntry(Some(name), None, None,
                                                       Some([EntityType(Some(site + ExamplePlaceholder))]), None));
            && r.Success?
            && FormatterKey in r.value.record
            && r.value.record[FormatterKey] == Text(site + SubstitutionMarker)
            && r.value.warnings == []
  {
    var types := [EntityType(Some(site + ExamplePlaceholder))];
    SplitBeforeBracket(site, ExamplePlaceholder);
    assert Join([site, []], SubstitutionMarker) == site + SubstitutionMarker;
    var f := Diagnosed(Some(site + SubstitutionMarker), []);
    assert SelectFormatter(id, types) == f;
    TypesOnlyEntry(id, name, types);
  }

  const Site := "http://example.org/"

  /** The example site has no bracket. */
  lemma SiteHasNoBracket()
    ensures forall k :: 0 <= k < |Site| ==> Site[k] != '['
  {
  }

  /** An `http:` URL whose host does not begin with `p` is usable. */
  lemma HttpNonPurlIsUsable(t: string)
    requires |t| > 7 && t[4] == ':' && t[7] != 'p'
    ensures IsUsableUrlSyntax(Some(t))
  {
    MismatchIsNotPrefix(t, FormatterExcludedPrefixes[0], 7);
    MismatchIsNotPrefix(t, FormatterExcludedPrefixes[1], 4);
  }

  /** The example template is usable as a formatter. */
  lemma TemplateIsUsable()
    ensures IsUsableUrlSyntax(Some(Site + ExamplePlaceholder))
  {
    var t := Site + ExamplePlaceholder;
    assert t[4] == Site[4] == ':' && t[7] == Site[7] == 'e';
    HttpNonPurlIsUsable(t);
  }

  /** `http://example.org/[example_id]` becomes `http://example.org/$1`. */
  lemma FormatterRewritesPlaceholder()
    ensures var r := PrepareExternal("GO:1", ExternalEntry(Some("n"), None, None,
                                                           Some([EntityType(Some(Site + ExamplePlaceholder))]), None));
            && r.Success?
            && FormatterKey in r.value.record
            && r.value.record[FormatterKey] == Text("http://example.org/$1")
            && r.value.warnings == []
  {
    SiteHasNoBracket();
    TemplateIsUsable();
    FormatterRewritesTrailingPlaceholder("GO:1", "n", Site);
  }

  /** Two entity types give no formatter and a warning, whatever their
      templates are. */
  lemma TwoEntityTypesGiveNoFormatter(t1: EntityType, t2: EntityType)
    ensures var r := PrepareExternal("GO:1", ExternalEntry(Some("n"), None, None, Some([t1, t2]), None));
            && r.Success?
            && FormatterKey !in r.value.record
            && r.value.warnings == [MultipleEntityTypes("GO:1")]
  {
  }

  /** An empty description is dropped; a non-empty one is kept verbatim. */
  lemma DescriptionTruthiness()
    ensures var r := PrepareExternal("GO:1", ExternalEntry(Some("n"), Some(""), None, None, None));
            r.Success? && DescriptionKey !in r.value.record
    ensures var r := PrepareExternal("GO:1", ExternalEntry(Some("n"), Some("x"), None, None, None));
            r.Success? && r.value.record[DescriptionKey] == Text("x")
  {
  }
}
