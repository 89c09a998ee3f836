# CNA backend: template lookup and GST reply letter, in Dafny

This project models the two pieces of logic in the CNA backend that do real
work, and proves properties of them:

- **Template lookup** (`find_template` over `TEMPLATE_METADATA`). The table
  is an ordered list of template records (in the source, a list of
  mutable dictionaries; here, immutable values). Each record holds a
  template id, law, notice type, section, risk level, fraud category, an
  ordered list of mandatory fields, and two further lists that nothing
  reads (supported actions, draft styles). The lookup upper-cases the law
  and the notice type and keeps the section as given. It scans the table
  in order and returns the first record whose (law, notice type, section)
  equals the normalised triple, or `None`.
- **GST reply letter** (`generate_gst_draft`). Five request strings go into
  a fixed letter skeleton: notice type, section, financial year, taxpayer
  name and issue summary. Python's `strip()` then trims the result, and
  the response pairs the constant status "Draft Generated" with the text.

Modules:

- `Wrappers` (wrappers.dfy): `Option`.
- `Text` (text.dfy): ASCII upper-casing; Python's `str.strip()` as two
  index scans, with the whitespace set of `str.isspace`; and substring
  predicates (`OccursAt`, `StartsWith`, `EndsWith`).
- `Metadata` (template_metadata.dfy): the table, the key normalisation,
  the scan, the lookup, and the lemmas about them.
- `Draft` (gst_draft.dfy): the request and response records, the letter
  skeleton, the generator, and the lemmas about the letter text.

The skeleton reproduces the source literal character for character. Line
ends are `\n`, because Python reads source line ends as newlines. The
lines "To", "The Proper Officer", "GST Department", "Yours faithfully," and
"Authorized Signatory" keep their two trailing spaces. The literal
therefore starts with a newline and ends with two spaces and a newline, and
`strip` removes exactly those.

The request record has exactly the five declared fields. There is no
GSTIN field, so no GSTIN value can reach the letter: the model's
`GstDraftRequest` has no such field to read.

## Model

| member | source | states |
|---|---|---|
| Metadata.FindTemplate | template_metadata.py:41-54 | A found record comes from the table, has law = upper(law), notice type = upper(notice type) and exactly the given section, and no earlier entry has its key; `None` exactly when no entry matches the normalised triple |
| Metadata.FirstMatch | template_metadata.py:46-54 | The in-order scan: a result is a table entry whose key matches, with no matching entry before it; `None` if and only if no entry matches |
| Metadata.Normalise | template_metadata.py:42-44 | The lookup key equals law and notice type up to ASCII case and holds no lower-case ASCII letter; the section is unchanged |
| Metadata.FirstMatchIsHeadOfMatching | template_metadata.py:46-54 | The scan agrees with an independent reference: the head of the list of all matching entries in table order, or `None` when that list is empty |
| Metadata.TableKeysDistinct | template_metadata.py:4-38 | No two table entries share a (law, notice type, section) key |
| Metadata.TableStoredUpper | template_metadata.py:7-24 | Stored laws and notice types are already upper case, so normalisation can reach every entry |
| Metadata.FirstMatchUnique | template_metadata.py:46-52 | With distinct keys, a found entry is the only entry with that key |
| Metadata.OrderIndependent | template_metadata.py:46-52 | With distinct keys, any table holding the same entries in another order gives the same answer |
| Metadata.FindTemplateFindsEveryEntry | template_metadata.py:41-52 | Every table entry is returned for its own key, and for any ASCII-case variant of its law and notice type |
| Metadata.FindTemplateIgnoresCase | template_metadata.py:42-43 | Inputs that differ only in ASCII case of law and notice type give the same result |
| Metadata.Section73Scenario | template_metadata.py:5-17 | ("GST","DRC-01","73") gives GST_DRC01_73_REPLY, "High", "Non-Fraud", and mandatory fields financial_year, taxpayer_name, gstin, issue_summary in that order |
| Metadata.Section73LowerCaseScenario | template_metadata.py:42-43 | ("gst","drc-01","73") gives the same record as ("GST","DRC-01","73"), the first table entry |
| Metadata.Section74Scenario | template_metadata.py:21-34 | ("GST","DRC-01","74") gives "Very High", "Fraud", and mandatory fields that include supporting_documents |
| Metadata.IncomeTaxScenario | template_metadata.py:46-54 | ("INCOME_TAX","DRC-01","73") gives `None` |
| Metadata.SectionIsExactScenario | template_metadata.py:44-50 | The section is not normalised: "073" does not find the section-73 entry |
| Text.UpperChar | template_metadata.py:42-43 | Each character's upper-case form is the same letter up to ASCII case and is never an ASCII lower-case letter |
| Text.Upper | template_metadata.py:42-43 | Upper-casing keeps the length and maps each character on its own: ASCII lower-case letters become upper case, and every other character is kept |
| Text.UpperAgrees | template_metadata.py:42-43 | Two strings have the same upper-case form if and only if they differ only in ASCII letter case |
| Text.UpperIdempotent | template_metadata.py:42-43 | Upper-casing twice equals upper-casing once |
| Text.IsSpace | main.py:69 | The whitespace `strip()` removes is exactly the 29 code points Python's `str.isspace` accepts, as an independent list of code points |
| Text.Strip | main.py:69 | `strip()` returns a contiguous slice whose cut-away parts on both sides are all whitespace, and which neither starts nor ends with whitespace; it is empty if and only if the input is all whitespace |
| Text.SkipSpaceForward | main.py:69 | The left scan of `strip` stops at the first non-whitespace character, and everything it passed is whitespace |
| Text.SkipSpaceBackward | main.py:69 | The right scan of `strip` stops just after the last non-whitespace character (never below the left scan's stop), and everything it passed is whitespace |
| Text.StripSurrounded | main.py:69 | Stripping whitespace + m + whitespace gives back m whenever m starts and ends with non-whitespace, whatever m holds inside |
| Text.StripIdempotent | main.py:69 | Stripping twice equals stripping once |
| Draft.GenerateGstDraft | main.py:34-70 | The status is always "Draft Generated", and the text is the letter body with every field in place: `strip` removes none of the body |
| Draft.Letter | main.py:36-65 | Stripping the rendered f-string yields exactly the body between the skeleton's own leading and trailing whitespace, for any field values |
| Draft.Body | main.py:37-64 | The letter between its surrounding whitespace opens with "To", closes with "Authorized Signatory", and neither end is whitespace, whatever the fields hold |
| Draft.DraftFrame | main.py:36-69 | For every request the text starts with "To" and ends with "Authorized Signatory", and the letter equals "\n" + text + "  \n": the stripped whitespace comes only from the skeleton |
| Draft.DraftLayout | main.py:41-64 | The text contains, verbatim and in this order without overlap: "Subject: Reply to " + notice type + " issued under Section " + section; "Financial Year: " + financial year; the taxpayer name; the issue summary; and the fixed closing paragraphs, which end the text |
| Draft.PiecesInOrder | main.py:41-64 | Where the pieces sit in any string assembled like the letter body, whatever the fixed parts hold |
| Draft.DraftLengthIsSkeletonPlusFields | main.py:36-65 | Any two drafts differ in length by exactly the difference in their fields' combined lengths: only the fields change the length |
| Draft.BodyLength | main.py:36-65 | The body's length is the skeleton's fixed length plus the five fields' combined length |
| Draft.DraftIsStripped | main.py:69 | The draft text is already stripped: stripping it again changes nothing |

## Left out

- The FastAPI application object, the `/` and `/health` routes (constant dictionaries), the route decorators and pydantic request parsing. These belong to the web framework; only the string-building logic of `generate_gst_draft` is modelled.
- `TEMPLATE_REGISTRY` in templates_registry.py. It is static data, and no shown code looks anything up in it.
- Field validation against `mandatory_fields`, drafting-mode phrases, and any pipeline that chains lookup, validation and rendering. None of the modelled files implements these, and nothing in them connects `find_template` to `generate_gst_draft`.
- Text.Upper: covers ASCII letters only. Python's `str.upper` uses full Unicode case mapping, which can change a string's length ("ß" becomes "SS") and can produce ASCII from non-ASCII ("ſ" becomes "S"). For inputs with such characters, the modelled lookup can differ from the source: for example, "gſt" matches law "GST" in Python but not here.
- Metadata.FindTemplate: the `section` parameter is a string, so `str(section)` is the identity. Non-string sections, which Python would convert with `str`, are not modelled.
- Metadata.FindTemplate: the source returns the table's own dictionary by reference, so a caller that mutates the result changes what later lookups see. The model returns an immutable value and does not model that aliasing.
- Metadata.Normalise: same ASCII-only restriction as Text.Upper.
- `supported_actions` and `draft_styles` are carried in the record as opaque sequences. Nothing reads them.
