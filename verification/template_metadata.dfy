/**
 The fine-grained template table and its lookup. The table is a fixed,
 ordered list of records; `FindTemplate` upper-cases the law and the notice
 type, keeps the section as given, and returns the first record whose
 (law, notice type, section) equals that normalised triple, or `None`.
 */
module Metadata {

  import opened Wrappers
  import opened Text

  /**
   One entry of the table. `mandatoryFields` is ordered. The source keeps
   `supportedActions` and `draftStyles` as lists that nothing reads; they are
   carried here as opaque ordered data.
   */
  datatype TemplateMetadata = TemplateMetadata(
    templateId: string,
    law: string,
    noticeType: string,
    section: string,
    riskLevel: string,
    fraudCategory: string,
    mandatoryFields: seq<string>,
    supportedActions: seq<string>,
    draftStyles: seq<string>
  )

  /** The triple a lookup compares against. */
  datatype TemplateKey = TemplateKey(law: string, noticeType: string, section: string)

  function KeyOf(t: TemplateMetadata): TemplateKey {
    TemplateKey(t.law, t.noticeType, t.section)
  }

  /** The table, in source order. */
  const TemplateMetadataTable: seq<TemplateMetadata> := [
    TemplateMetadata(
      "GST_DRC01_73_REPLY", "GST", "DRC-01", "73", "High", "Non-Fraud",
      ["financial_year", "taxpayer_name", "gstin", "issue_summary"],
      ["reply"],
      ["standard", "brief", "detailed"]),
    TemplateMetadata(
      "GST_DRC01_74_REPLY", "GST", "DRC-01", "74", "Very High", "Fraud",
      ["financial_year", "taxpayer_name", "gstin", "issue_summary", "supporting_documents"],
      ["reply"],
      ["detailed", "legal_defense"])
  ]

  /** The lookup key built from raw inputs: law and notice type upper-cased, section kept as is. */
  function Normalise(law: string, noticeType: string, section: string): (k: TemplateKey)
    ensures EqualIgnoringAsciiCase(k.law, law) && !exists i :: 0 <= i < |k.law| && IsAsciiLower(k.law[i])
    ensures EqualIgnoringAsciiCase(k.noticeType, noticeType)
    ensures !exists i :: 0 <= i < |k.noticeType| && IsAsciiLower(k.noticeType[i])
    ensures k.section == section
  {
    var k := TemplateKey(Upper(law), Upper(noticeType), section);
    UpperAgrees(k.law, law);
    UpperIdempotent(law);
    UpperAgrees(k.noticeType, noticeType);
    UpperIdempotent(noticeType);
    k
  }

  /**
   The scan: walks `table` in order and returns the first entry whose key is
   `key`. A returned entry is in the table, matches, and no earlier entry
   matches; `None` comes back exactly when no entry matches.
   */
  function FirstMatch(table: seq<TemplateMetadata>, key: TemplateKey): (r: Option<TemplateMetadata>)
    ensures r.Some? ==> exists i :: 0 <= i < |table| && table[i] == r.value
                                   && forall j :: 0 <= j < i ==> KeyOf(table[j]) != key
    ensures r.Some? ==> KeyOf(r.value) == key
    ensures r.None? <==> forall t :: t in table ==> KeyOf(t) != key
  {
    if table == [] then None
    else if KeyOf(table[0]) == key then Some(table[0])
    else
      var rest := FirstMatch(table[1..], key);
      assert forall t :: t in table ==> t == table[0] || t in table[1..];
      if rest.Some? then
        var i :| 0 <= i < |table[1..]| && table[1..][i] == rest.value
                 && forall j :: 0 <= j < i ==> KeyOf(table[1..][j]) != key;
        assert table[i + 1] == rest.value;
        assert forall j :: 0 <= j < i + 1 ==> KeyOf(table[j]) != key by {
          forall j | 0 <= j < i + 1 ensures KeyOf(table[j]) != key {
            if j > 0 { assert table[j] == table[1..][j - 1]; }
          }
        }
        rest
      else
        rest
  }

  /**
   `find_template`: normalise the inputs, then scan the table. A result has
   the upper-cased law and notice type and exactly the given section.
   */
  function FindTemplate(law: string, noticeType: string, section: string): (r: Option<TemplateMetadata>)
    ensures r.Some? ==> exists i :: 0 <= i < |TemplateMetadataTable| && TemplateMetadataTable[i] == r.value
                                   && forall j :: 0 <= j < i ==> KeyOf(TemplateMetadataTable[j]) != KeyOf(r.value)
    ensures r.Some? ==> r.value.law == Upper(law) && r.value.noticeType == Upper(noticeType)
                        && r.value.section == section
    ensures r.None? <==> forall t :: t in TemplateMetadataTable ==> KeyOf(t) != Normalise(law, noticeType, section)
  {
    FirstMatch(TemplateMetadataTable, Normalise(law, noticeType, section))
  }

  /* ---------------------------------------------------------------------- */
  /* The scan against an independent reference                               */
  /* ---------------------------------------------------------------------- */

  /** All entries whose key is `key`, in table order. */
  function Matching(table: seq<TemplateMetadata>, key: TemplateKey): seq<TemplateMetadata> {
    if table == [] then []
    else (if KeyOf(table[0]) == key then [table[0]] else []) + Matching(table[1..], key)
  }

  /** The scan returns the head of the filtered table, or `None` when the filter is empty. */
  lemma {:induction false} FirstMatchIsHeadOfMatching(table: seq<TemplateMetadata>, key: TemplateKey)
    ensures FirstMatch(table, key) == (var ms := Matching(table, key); if ms == [] then None else Some(ms[0]))
  {
    if table != [] && KeyOf(table[0]) != key {
      FirstMatchIsHeadOfMatching(table[1..], key);
    }
  }

  /* ---------------------------------------------------------------------- */
  /* Properties of the table                                                 */
  /* ---------------------------------------------------------------------- */

  /** No two entries share a (law, notice type, section) key. */
  predicate KeysDistinct(table: seq<TemplateMetadata>) {
    forall i, j :: 0 <= i < j < |table| ==> KeyOf(table[i]) != KeyOf(table[j])
  }

  /** Every stored law and notice type is already upper case. */
  predicate StoredUpper(table: seq<TemplateMetadata>) {
    forall t :: t in table ==> Upper(t.law) == t.law && Upper(t.noticeType) == t.noticeType
  }

  /** The two entries differ in their section, so the keys are pairwise distinct. */
  lemma TableKeysDistinct()
    ensures KeysDistinct(TemplateMetadataTable)
  {
  }

  /** Both entries store "GST" and "DRC-01", which upper-casing leaves as they are. */
  lemma TableStoredUpper()
    ensures StoredUpper(TemplateMetadataTable)
  {
    var t0 := TemplateMetadataTable[0];
    assert Upper(t0.law) == t0.law by { assert Upper(t0.law)[0] == 'G'; }
    assert Upper(t0.noticeType) == t0.noticeType by { assert Upper(t0.noticeType)[0] == 'D'; }
  }

  /** With distinct keys, a found entry is the only entry in the table with that key. */
  lemma FirstMatchUnique(table: seq<TemplateMetadata>, key: TemplateKey)
    requires KeysDistinct(table)
    ensures FirstMatch(table, key).Some? ==>
              forall t :: t in table && KeyOf(t) == key ==> t == FirstMatch(table, key).value
  {
  }

  /**
   With distinct keys the scan order does not matter: any table holding the
   same entries (each at most once per key) gives the same answer.
   */
  lemma OrderIndependent(table: seq<TemplateMetadata>, other: seq<TemplateMetadata>, key: TemplateKey)
    requires KeysDistinct(table) && KeysDistinct(other)
    requires forall t :: t in table <==> t in other
    ensures FirstMatch(table, key) == FirstMatch(other, key)
  {
  }

  /** Every stored entry is found by its own key, and by any ASCII-case variant of it. */
  lemma FindTemplateFindsEveryEntry(t: TemplateMetadata, law: string, noticeType: string)
    requires t in TemplateMetadataTable
    requires EqualIgnoringAsciiCase(law, t.law) && EqualIgnoringAsciiCase(noticeType, t.noticeType)
    ensures FindTemplate(law, noticeType, t.section) == Some(t)
  {
    TableKeysDistinct();
    TableStoredUpper();
    UpperAgrees(law, t.law);
    UpperAgrees(noticeType, t.noticeType);
    FirstMatchUnique(TemplateMetadataTable, KeyOf(t));
  }

  /** The lookup ignores ASCII case in the law and the notice type. */
  lemma FindTemplateIgnoresCase(law: string, law': string, noticeType: string, noticeType': string, section: string)
    requires EqualIgnoringAsciiCase(law, law') && EqualIgnoringAsciiCase(noticeType, noticeType')
    ensures FindTemplate(law, noticeType, section) == FindTemplate(law', noticeType', section)
  {
    UpperAgrees(law, law');
    UpperAgrees(noticeType, noticeType');
  }

  /* ---------------------------------------------------------------------- */
  /* The documented scenarios                                                */
  /* ---------------------------------------------------------------------- */

  lemma Section73Scenario()
    ensures FindTemplate("GST", "DRC-01", "73").Some?
    ensures var t := FindTemplate("GST", "DRC-01", "73").value;
            && t.templateId == "GST_DRC01_73_REPLY"
            && t.riskLevel == "High"
            && t.fraudCategory == "Non-Fraud"
            && t.mandatoryFields == ["financial_year", "taxpayer_name", "gstin", "issue_summary"]
  {
    FindTemplateFindsEveryEntry(TemplateMetadataTable[0], "GST", "DRC-01");
  }

  lemma Section73LowerCaseScenario()
    ensures FindTemplate("gst", "drc-01", "73") == FindTemplate("GST", "DRC-01", "73")
    ensures FindTemplate("gst", "drc-01", "73") == Some(TemplateMetadataTable[0])
  {
    FindTemplateIgnoresCase("gst", "GST", "drc-01", "DRC-01", "73");
    FindTemplateFindsEveryEntry(TemplateMetadataTable[0], "GST", "DRC-01");
  }

  lemma Section74Scenario()
    ensures FindTemplate("GST", "DRC-01", "74").Some?
    ensures var t := FindTemplate("GST", "DRC-01", "74").value;
            && t.riskLevel == "Very High"
            && t.fraudCategory == "Fraud"
            && "supporting_documents" in t.mandatoryFields
  {
    FindTemplateFindsEveryEntry(TemplateMetadataTable[1], "GST", "DRC-01");
    assert TemplateMetadataTable[1].mandatoryFields[4] == "supporting_documents";
  }

  lemma IncomeTaxScenario()
    ensures FindTemplate("INCOME_TAX", "DRC-01", "73") == None
  {
  }

  /** The section is compared as given: "073" does not find the section-73 entry. */
  lemma SectionIsExactScenario()
    ensures FindTemplate("GST", "DRC-01", "073") == None
  {
  }
}
